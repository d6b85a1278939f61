/** The reflector's table as it is kept: one object whose maps each call edits in place.

    A call runs under the table's lock, so each method is one step of `RibState`. Where a loop ranges
    over a map it takes the keys in whatever order comes, and the method reports that order. */
module Reflector {
  import opened Order
  import opened Addresses
  import opened RouteBus
  import opened OwnedTable
  import opened RibState
  import S = RibState
  import F = RibFences

  /** Every nexthop of every origin. */
  method AllNexthops(origins: map<string, seq<string>>) returns (union: set<string>)
    ensures union == NexthopSet(origins)
  {
    union := {};
    var todo := origins.Keys;
    while todo != {}
      invariant todo <= origins.Keys
      invariant union == set o, nh | o in origins && o !in todo && nh in origins[o] :: nh
      decreases |todo|
    {
      var o :| o in todo;
      ghost var before := union;
      for i := 0 to |origins[o]|
        invariant union == before + set nh | nh in origins[o][..i]
      {
        assert origins[o][..i + 1] == origins[o][..i] + [origins[o][i]];
        union := union + {origins[o][i]};
      }
      assert origins[o][..|origins[o]|] == origins[o];
      todo := todo - {o};
    }
  }

  /** mergeNexthops: the deduplicated, sorted union of every origin's nexthops. */
  method MergeNexthops(origins: map<string, seq<string>>) returns (out: seq<string>)
    ensures out == Sorted(NexthopSet(origins))
  {
    hide NexthopSet;
    var union := AllNexthops(origins);
    var listed := Listed(union);
    out := SortStrings(listed);
    SortedIsCanonical(union, out);
  }

  /** sort.Strings on distinct strings. */
  method SortStrings(s: seq<string>) returns (out: seq<string>)
    requires forall i, j :: 0 <= i < j < |s| ==> s[i] != s[j]
    ensures Ascending(Less, out) && forall x :: x in out <==> x in s
  {
    StringsStrictlyOrdered();
    SortAscending(Less, s);
    out := Sort(Less, s);
  }

  /** nexthopFenced: is the nexthop an address inside any fenced network? */
  method NexthopFenced(t: Texts, nh: string, fenced: set<Prefix>) returns (b: bool)
    ensures b <==> Fenced(t, nh, fenced)
  {
    var ip := t.ip(nh);
    if ip.None? { return false; }
    var todo := fenced;
    while todo != {}
      invariant todo <= fenced
      invariant forall n :: n in fenced - todo ==> !n.Contains(ip.value.v6, ip.value.bits)
      decreases |todo|
    {
      var n :| n in todo;
      if n.Contains(ip.value.v6, ip.value.bits) { return true; }
      todo := todo - {n};
    }
    return false;
  }

  /** advertised: the merged nexthops minus the fenced ones. */
  method AdvertisedNexthops(t: Texts, e: RouteEntry, fenced: set<Prefix>) returns (out: seq<string>)
    ensures out == Advertised(t, e, fenced)
  {
    hide Fenced, Less;
    var merged := MergeNexthops(e.origins);
    out := [];
    for i := 0 to |merged|
      invariant Ascending(Less, out)
      invariant forall x :: x in out <==> x in merged[..i] && !Fenced(t, x, fenced)
    {
      assert merged[..i + 1] == merged[..i] + [merged[i]];
      var hidden := NexthopFenced(t, merged[i], fenced);
      if !hidden {
        forall j | 0 <= j < |out| ensures Less(out[j], merged[i]) {
          assert out[j] in out;
        }
        out := out + [merged[i]];
      }
    }
    assert merged[..|merged|] == merged;
    SortedIsCanonical(Visible(t, e, fenced), out);
  }

  class RIB {
    const text: Texts
    var routes: map<RouteKey, RouteEntry>
    var byOrigin: map<string, set<RouteKey>>
    var subscribers: map<Subscription, Sink>
    var fenced: set<Prefix>
    var origins: map<string, nat>
    var nextToken: nat
    var nats: Nats
    var publics: Publics
    var sinks: map<string, Sink>
    var globalSnap: Option<seq<ServerMsg>>
    var sent: map<Sink, seq<Envelope>>

    ghost function State(): Rib
      reads this
    {
      Rib(routes, byOrigin, subscribers, fenced, origins, nextToken, nats, publics, sinks, globalSnap, sent)
    }

    constructor (text: Texts)
      ensures State() == NewRib() && this.text == text
    {
      this.text := text;
      routes, byOrigin, subscribers, fenced, origins, nextToken := map[], map[], map[], {}, map[], 0;
      nats, publics := Owned(map[], map[], map[]), Owned(map[], map[], map[]);
      sinks, globalSnap, sent := map[], None, map[];
    }

    /** Sends one envelope to one sink. */
    method Send(s: Sink, e: Envelope)
      modifies this`sent
      ensures sent == Deliver(old(sent), {s}, e)
    {
      sent := sent[s := Log(sent, s) + [e]];
    }

    /** Sends one envelope to each of a set of sinks, in no particular order. */
    method SendAll(to: set<Sink>, e: Envelope)
      modifies this`sent
      ensures sent == Deliver(old(sent), to, e)
    {
      hide Deliver;
      var todo := to;
      DeliverNone(sent, e);
      assert to - todo == {};
      while todo != {}
        invariant todo <= to
        invariant sent == Deliver(old(sent), to - todo, e)
        decreases |todo|
      {
        var s :| s in todo;
        DeliverOneMore(old(sent), to - todo, s, e);
        assert to - (todo - {s}) == to - todo + {s};
        Send(s, e);
        todo := todo - {s};
      }
      assert to - todo == to;
    }

    /** fanout: the subscribers of the key's VNI, walked one by one, the skipped ids left out. */
    method Fanout(k: RouteKey, nexthops: seq<string>, skip: set<string>, external: bool)
      modifies this`sent
      ensures State() == S.Fanout(old(State()), k, nexthops, skip, external)
    {
      var to: set<Sink> := {};
      var todo := subscribers.Keys;
      while todo != {}
        invariant todo <= subscribers.Keys
        invariant to ==
                set sub | sub in subscribers.Keys - todo && sub.vni == k.vni && sub.id !in skip :: subscribers[sub]
        invariant sent == old(sent)
        decreases |todo|
      {
        var sub :| sub in todo;
        if sub.vni == k.vni && sub.id !in skip {
          to := to + {subscribers[sub]};
        }
        todo := todo - {sub};
      }
      assert to == Audience(subscribers, k.vni, skip);
      SendAll(to, Delta(RouteUpdate(k, nexthops, nexthops != [], external)));
    }

    method FanoutChange(k: RouteKey, before: seq<string>, after: seq<string>, skip: set<string>, external: bool)
      modifies this`sent
      ensures State() == S.FanoutChange(old(State()), k, before, after, skip, external)
    {
      if before != after { Fanout(k, after, skip, external); }
    }

    method Announce(origin: string, k: RouteKey, nexthops: seq<string>, external: bool)
      modifies this
      ensures State() == S.Announce(text, old(State()), origin, k, nexthops, external)
    {
      hide S.Fanout;
      var e := EntryAt(routes, k);
      var before := AdvertisedNexthops(text, e, fenced);
      e := RouteEntry(e.origins[origin := nexthops], external);
      routes := routes[k := e];
      byOrigin := byOrigin[origin := KeysOf(byOrigin, origin) + {k}];
      var after := AdvertisedNexthops(text, e, fenced);
      FanoutChange(k, before, after, {origin}, external);
    }

    method WithdrawRouteOrigin(k: RouteKey, origin: string)
      modifies this`routes, this`sent
      ensures State() == S.WithdrawRouteOrigin(text, old(State()), k, origin)
    {
      hide S.Fanout;
      if k !in routes || origin !in routes[k].origins { return; }
      var e := routes[k];
      var before := AdvertisedNexthops(text, e, fenced);
      e := e.(origins := e.origins - {origin});
      if e.origins == map[] {
        routes := routes - {k};
      } else {
        routes := routes[k := e];
      }
      var after := AdvertisedNexthops(text, e, fenced);
      FanoutChange(k, before, after, {}, e.external);
    }

    method Withdraw(origin: string, k: RouteKey)
      modifies this
      ensures State() == S.Withdraw(text, old(State()), origin, k)
    {
      if origin in byOrigin {
        byOrigin := byOrigin[origin := byOrigin[origin] - {k}];
      }
      WithdrawRouteOrigin(k, origin);
    }

    /** The table of a VNI in prefix order, closed by its marker, then every update since. */
    method Subscribe(vni: nat, s: Sink)
      modifies this
      ensures State() == S.Subscribe(text, old(State()), vni, s)
    {
      hide S.Replay, Sorted, Advertised;
      var sub := Subscription(vni, s.id);
      if sub in subscribers && subscribers[sub] == s { return; }
      var snap := BuildReplay(vni);
      subscribers := subscribers[sub := s];
      Send(s, Snapshot(snap));
    }

    method BuildReplay(vni: nat) returns (snap: seq<ServerMsg>)
      ensures snap == S.Replay(text, State(), vni)
    {
      hide Advertised;
      var prefixes := StoredPrefixes(vni);
      snap := [];
      for i := 0 to |prefixes|
        invariant snap == Records(text, State(), vni, prefixes[..i])
      {
        assert prefixes[..i + 1][..i] == prefixes[..i];
        var k := RouteKey(vni, prefixes[i]);
        var nhs := AdvertisedNexthops(text, EntryAt(routes, k), fenced);
        if nhs != [] {
          snap := snap + [RouteUpdate(k, nhs, true, EntryAt(routes, k).external)];
        }
      }
      assert prefixes[..|prefixes|] == prefixes;
      snap := snap + [EndOfRib(vni, |snap|)];
    }

    method StoredPrefixes(vni: nat) returns (prefixes: seq<string>)
      ensures prefixes == PrefixesOf(routes, vni)
    {
      var found: seq<string> := [];
      var todo := routes.Keys;
      while todo != {}
        invariant todo <= routes.Keys
        invariant forall p :: p in found <==> RouteKey(vni, p) in routes.Keys - todo
        invariant forall i, j :: 0 <= i < j < |found| ==> found[i] != found[j]
        decreases |todo|
      {
        var k :| k in todo;
        if k.vni == vni {
          assert k == RouteKey(vni, k.prefix) && k.prefix !in found;
          found := found + [k.prefix];
        }
        todo := todo - {k};
      }
      prefixes := SortStrings(found);
      ghost var all := set k | k in routes && k.vni == vni :: k.prefix;
      assert forall p :: p in all <==> RouteKey(vni, p) in routes by {
        assert forall k: RouteKey :: k == RouteKey(k.vni, k.prefix);
      }
      SortedIsCanonical(all, prefixes);
    }

    method Unsubscribe(vni: nat, id: string)
      modifies this`subscribers
      ensures State() == S.Unsubscribe(old(State()), vni, id)
    {
      subscribers := subscribers - {Subscription(vni, id)};
    }

    // -------------------------------------------------------------- fences

    /** What every stored route advertises right now. */
    method AdvertisedTable() returns (table: map<RouteKey, seq<string>>)
      ensures table.Keys == routes.Keys
      ensures forall k :: k in routes ==> table[k] == Advertised(text, routes[k], fenced)
    {
      hide Advertised;
      table := map[];
      var todo := routes.Keys;
      while todo != {}
        invariant todo <= routes.Keys && table.Keys == routes.Keys - todo
        invariant forall k :: k in table ==> table[k] == Advertised(text, routes[k], fenced)
        decreases |todo|
      {
        var k :| k in todo;
        var nhs := AdvertisedNexthops(text, routes[k], fenced);
        table := table[k := nhs];
        todo := todo - {k};
      }
    }

    /** refilter: every stored route is compared before and after the fence change. */
    method Refilter(fences: set<Prefix>) returns (ghost order: seq<RouteKey>)
      modifies this`fenced, this`sent
      ensures Enumerates(order, routes.Keys)
      ensures State() == S.Refilter(text, old(State()), fences, order)
    {
      hide Advertised, S.FanoutChange;
      var before := AdvertisedTable();
      fenced := fences;
      order := [];
      var todo := routes.Keys;
      while todo != {}
        invariant todo <= routes.Keys && Enumerates(order, routes.Keys - todo)
        invariant fenced == fences
        invariant State() == S.Refilter(text, old(State()), fences, order)
        decreases |todo|
      {
        var k :| k in todo;
        var after := AdvertisedNexthops(text, routes[k], fenced);
        ghost var next := order + [k];
        assert next[..|order|] == order;
        FanoutChange(k, before[k], after, routes[k].origins.Keys, routes[k].external);
        order := next;
        todo := todo - {k};
      }
    }

    method SetFence(prefix: string) returns (ghost order: seq<RouteKey>)
      modifies this
      ensures State() == S.SetFence(text, old(State()), prefix, order)
      ensures FenceNet(text, prefix).Some? && FenceNet(text, prefix).value !in old(fenced) ==>
              Enumerates(order, routes.Keys)
    {
      order := [];
      var n := FenceNet(text, prefix);
      if n.Some? && n.value !in fenced {
        order := Refilter(fenced + {n.value});
      }
    }

    method ClearFence(prefix: string) returns (ghost order: seq<RouteKey>)
      modifies this
      ensures State() == S.ClearFence(text, old(State()), prefix, order)
      ensures FenceNet(text, prefix).Some? && FenceNet(text, prefix).value in old(fenced) ==>
              Enumerates(order, routes.Keys)
    {
      order := [];
      var n := FenceNet(text, prefix);
      if n.Some? && n.value in fenced {
        order := Refilter(fenced - {n.value});
      }
    }

    /** Who still announces any of the keys from inside the prefix, fenced or not. */
    method AnnouncedFrom(within: string, keys: seq<RouteKey>) returns (out: Result<seq<F.Holding>, string>)
      ensures FenceNet(text, within).None? ==> out.Err?
      ensures FenceNet(text, within).Some? ==>
              out == Ok(F.AnnouncedFrom(text, State(), FenceNet(text, within).value, keys))
    {
      hide F.HoldersWithin;
      var net := FenceNet(text, within);
      if net.None? { return Err("invalid CIDR address"); }
      var hs: seq<F.Holding> := [];
      var seen: set<RouteKey> := {};
      for i := 0 to |keys|
        invariant forall k :: k in seen <==> k in keys[..i]
        invariant hs == F.AnnouncedFrom(text, State(), net.value, keys[..i])
      {
        var q := keys[i];
        assert keys[..i + 1][..i] == keys[..i];
        assert keys[..i + 1] == keys[..i] + [q];
        if q in seen { continue; }
        seen := seen + {q};
        var spellings := F.Spellings(text, q);
        var found: seq<F.Holding> := [];
        var j := 0;
        while j < |spellings| && found == []
          invariant j <= |spellings|
          invariant F.HoldingsOf(text, State(), spellings, q, net.value) ==
                    if found != [] then found else F.HoldingsOf(text, State(), spellings[j..], q, net.value)
        {
          found := HoldersWithin(spellings[j], q, net.value);
          assert spellings[j..][1..] == spellings[j + 1..];
          j := j + 1;
        }
        hs := hs + found;
      }
      assert keys[..|keys|] == keys;
      return Ok(hs);
    }

    method HoldersWithin(k: RouteKey, asked: RouteKey, net: Prefix) returns (hs: seq<F.Holding>)
      ensures hs == F.HoldersWithin(text, State(), k, asked, net)
    {
      hide F.Inside, F.OriginHoldings, F.RouteHoldings, Enumerates;
      var holders := EntryAt(routes, k).origins;
      var ids := SortedIds(holders);
      hs := RouteHoldings(holders, asked, ids, net);
    }

    /** A map's keys, sorted. */
    method SortedIds(holders: map<string, seq<string>>) returns (ids: seq<string>)
      ensures ids == Sorted(holders.Keys)
    {
      var listed := Listed(holders.Keys);
      ids := SortStrings(listed);
      SortedIsCanonical(holders.Keys, ids);
    }

    method RouteHoldings(holders: map<string, seq<string>>, asked: RouteKey, ids: seq<string>, net: Prefix)
      returns (hs: seq<F.Holding>)
      requires forall o :: o in ids ==> o in holders
      ensures hs == F.RouteHoldings(text, holders, asked, ids, net)
    {
      hide F.Inside, F.OriginHoldings;
      hs := [];
      for i := 0 to |ids|
        invariant hs == F.RouteHoldings(text, holders, asked, ids[..i], net)
      {
        assert ids[..i + 1][..i] == ids[..i];
        var own := OriginHoldings(asked, ids[i], Sort(Less, holders[ids[i]]), net);
        hs := hs + own;
      }
      assert ids[..|ids|] == ids;
    }

    method OriginHoldings(asked: RouteKey, o: string, nhs: seq<string>, net: Prefix) returns (hs: seq<F.Holding>)
      ensures hs == F.OriginHoldings(text, asked, o, nhs, net)
    {
      hs := [];
      for i := 0 to |nhs|
        invariant hs == F.OriginHoldings(text, asked, o, nhs[..i], net)
      {
        assert nhs[..i + 1][..i] == nhs[..i];
        if F.Inside(text, nhs[i], net) {
          hs := hs + [F.Holding(asked, o, nhs[i])];
        }
      }
      assert nhs[..|nhs|] == nhs;
    }

    // -------------------------------------------------------------- the global feed

    method GlobalFanout(m: ServerMsg)
      modifies this`globalSnap, this`sent
      ensures State() == S.GlobalFanout(old(State()), m)
    {
      globalSnap := None;
      SendAll(sinks.Values, Delta(m));
    }

    method AnnounceNat(origin: string, b: NatBlock)
      modifies this
      ensures State() == S.AnnounceNat(old(State()), origin, b)
    {
      nats := Put(nats, origin, NatKeyOf(b), b);
      GlobalFanout(NatUpdate(b, true));
    }

    method AnnouncePublic(origin: string, p: PublicRecord)
      modifies this
      ensures State() == S.AnnouncePublic(old(State()), origin, p)
    {
      publics := Put(publics, origin, PublicKeyOf(p), p);
      GlobalFanout(PublicUpdate(p, true));
    }

    method WithdrawNat(origin: string, k: NatKey, permit: string -> bool) returns (out: WithdrawOutcome)
      requires k in nats.recs ==> k in nats.origin
      modifies this
      ensures out == NatVerdict(old(State()), origin, k, permit)
      ensures State() == S.WithdrawNat(old(State()), origin, k, permit)
    {
      if k !in nats.recs { return WithdrawAbsent; }
      var b := nats.recs[k];
      if nats.origin[k] != origin || !permit(b.ownerUnderlay) { return WithdrawRefused; }
      nats := Remove(nats, origin, k);
      GlobalFanout(NatUpdate(b, false));
      return WithdrawApplied;
    }

    method WithdrawPublic(origin: string, k: PublicKey, permit: string -> bool) returns (out: WithdrawOutcome)
      requires k in publics.recs ==> k in publics.origin
      modifies this
      ensures out == PublicVerdict(old(State()), origin, k, permit)
      ensures State() == S.WithdrawPublic(old(State()), origin, k, permit)
    {
      if k !in publics.recs { return WithdrawAbsent; }
      var p := publics.recs[k];
      if publics.origin[k] != origin || !permit(p.ownerUnderlay) { return WithdrawRefused; }
      publics := Remove(publics, origin, k);
      GlobalFanout(PublicUpdate(p, false));
      return WithdrawApplied;
    }

    method RegisterSink(s: Sink) returns (ghost ns: seq<NatKey>, ghost ps: seq<PublicKey>)
      modifies this
      ensures Enumerates(ns, old(nats.recs.Keys)) && Enumerates(ps, old(publics.recs.Keys))
      ensures State() == S.RegisterSink(old(State()), s, ns, ps)
    {
      sinks := sinks[s.id := s];
      var snap;
      snap, ns, ps := GlobalSnapshot();
      Send(s, Snapshot(snap));
    }

    /** globalSnapshotLocked: the shared replay, rebuilt only after a mutation. */
    method GlobalSnapshot() returns (snap: seq<ServerMsg>, ghost ns: seq<NatKey>, ghost ps: seq<PublicKey>)
      modifies this`globalSnap
      ensures Enumerates(ns, nats.recs.Keys) && Enumerates(ps, publics.recs.Keys)
      ensures snap == GlobalReplay(old(State()), ns, ps) && globalSnap == Some(snap)
    {
      hide NatRecords, PublicRecords;
      if globalSnap.Some? {
        ns, ps := Listing(nats.recs.Keys), Listing(publics.recs.Keys);
        return globalSnap.value, ns, ps;
      }
      var head, tail;
      head, ns := NatFeed();
      tail, ps := PublicFeed();
      snap := head + tail;
      snap := snap + [EndOfGlobal(|snap|)];
      globalSnap := Some(snap);
    }

    method NatFeed() returns (ms: seq<ServerMsg>, ghost ns: seq<NatKey>)
      ensures Enumerates(ns, nats.recs.Keys) && ms == NatRecords(nats.recs, ns) && |ms| == |ns|
    {
      ms, ns := [], [];
      var todo := nats.recs.Keys;
      while todo != {}
        invariant todo <= nats.recs.Keys && Enumerates(ns, nats.recs.Keys - todo)
        invariant ms == NatRecords(nats.recs, ns) && |ms| == |ns|
        decreases |todo|
      {
        var k :| k in todo;
        ghost var next := ns + [k];
        assert next[..|ns|] == ns;
        ms := ms + [NatUpdate(nats.recs[k], true)];
        ns := next;
        todo := todo - {k};
      }
    }

    method PublicFeed() returns (ms: seq<ServerMsg>, ghost ps: seq<PublicKey>)
      ensures Enumerates(ps, publics.recs.Keys) && ms == PublicRecords(publics.recs, ps) && |ms| == |ps|
    {
      ms, ps := [], [];
      var todo := publics.recs.Keys;
      while todo != {}
        invariant todo <= publics.recs.Keys && Enumerates(ps, publics.recs.Keys - todo)
        invariant ms == PublicRecords(publics.recs, ps) && |ms| == |ps|
        decreases |todo|
      {
        var k :| k in todo;
        ghost var next := ps + [k];
        assert next[..|ps|] == ps;
        ms := ms + [PublicUpdate(publics.recs[k], true)];
        ps := next;
        todo := todo - {k};
      }
    }

    // -------------------------------------------------------------- sessions

    method DropRoutes(origin: string) returns (ghost order: seq<RouteKey>)
      modifies this`routes, this`byOrigin, this`sent
      ensures Enumerates(order, KeysOf(old(byOrigin), origin))
      ensures State() == WithdrawAll(text, old(State()).(byOrigin := old(byOrigin) - {origin}), origin, order)
    {
      hide S.WithdrawRouteOrigin;
      var owned := KeysOf(byOrigin, origin);
      byOrigin := byOrigin - {origin};
      ghost var start := State();
      order := [];
      var todo := owned;
      while todo != {}
        invariant todo <= owned && Enumerates(order, owned - todo)
        invariant State() == WithdrawAll(text, start, origin, order)
        decreases |todo|
      {
        var k :| k in todo;
        ghost var next := order + [k];
        assert next[..|order|] == order;
        WithdrawRouteOrigin(k, origin);
        order := next;
        todo := todo - {k};
      }
    }

    method DropNats(origin: string) returns (ghost order: seq<NatKey>)
      modifies this`nats, this`globalSnap, this`sent
      ensures Enumerates(order, KeysOf(old(nats).byOrigin, origin))
      ensures State() == DropNat(old(State()), origin, order)
    {
      hide S.GlobalFanout;
      var owned := KeysOf(nats.byOrigin, origin);
      nats := Owned(nats.recs, nats.origin, nats.byOrigin - {origin});
      order := [];
      var todo := owned;
      while todo != {}
        invariant todo <= owned && Enumerates(order, owned - todo)
        invariant State() == DropNat(old(State()), origin, order)
        decreases |todo|
      {
        var k :| k in todo;
        ghost var next := order + [k];
        assert next[..|order|] == order;
        if StillHolds(nats, origin, k) {
          var b := nats.recs[k];
          nats := Drop(nats, origin, k);
          GlobalFanout(NatUpdate(b, false));
        }
        order := next;
        todo := todo - {k};
      }
    }

    method DropPublics(origin: string) returns (ghost order: seq<PublicKey>)
      modifies this`publics, this`globalSnap, this`sent
      ensures Enumerates(order, KeysOf(old(publics).byOrigin, origin))
      ensures State() == DropPublic(old(State()), origin, order)
    {
      hide S.GlobalFanout;
      var owned := KeysOf(publics.byOrigin, origin);
      publics := Owned(publics.recs, publics.origin, publics.byOrigin - {origin});
      order := [];
      var todo := owned;
      while todo != {}
        invariant todo <= owned && Enumerates(order, owned - todo)
        invariant State() == DropPublic(old(State()), origin, order)
        decreases |todo|
      {
        var k :| k in todo;
        ghost var next := order + [k];
        assert next[..|order|] == order;
        if StillHolds(publics, origin, k) {
          var p := publics.recs[k];
          publics := Drop(publics, origin, k);
          GlobalFanout(PublicUpdate(p, false));
        }
        order := next;
        todo := todo - {k};
      }
    }

    method DropOrigin(origin: string) returns (ghost o: Orders)
      modifies this
      ensures WalksAll(old(State()), origin, o)
      ensures State() == S.DropOrigin(text, old(State()), origin, o)
    {
      hide WithdrawAll, DropNat, DropPublic;
      ghost var ks := DropRoutes(origin);
      WithdrawAllOnlyRoutes(text, old(State()).(byOrigin := old(byOrigin) - {origin}), origin, ks);
      subscribers := WithoutSubscriber(subscribers, origin);
      ghost var ns := DropNats(origin);
      ghost var ps := DropPublics(origin);
      o := Orders(ks, ns, ps);
    }

    method ClaimOrigin(id: string) returns (token: nat, ghost o: Orders)
      modifies this
      ensures old(id in origins) ==> WalksAll(old(State()), id, o)
      ensures State() == S.ClaimOrigin(text, old(State()), id, o)
      ensures token == old(nextToken) + 1
    {
      hide S.DropOrigin;
      var superseded := id in origins;
      nextToken := nextToken + 1;
      token := nextToken;
      origins := origins[id := token];
      o := Orders([], [], []);
      if superseded {
        sinks := sinks - {id};
        o := DropOrigin(id);
      }
    }

    method ReleaseOrigin(id: string, token: nat) returns (ghost o: Orders)
      modifies this
      ensures old(id in origins && origins[id] == token) ==> WalksAll(old(State()), id, o)
      ensures State() == S.ReleaseOrigin(text, old(State()), id, token, o)
    {
      hide S.DropOrigin;
      o := Orders([], [], []);
      if id !in origins || origins[id] != token { return; }
      origins := origins - {id};
      sinks := sinks - {id};
      o := DropOrigin(id);
    }
  }

  lemma {:induction false} WithdrawAllOnlyRoutes(t: Texts, r: Rib, o: string, order: seq<RouteKey>)
    ensures var r' := WithdrawAll(t, r, o, order);
            r'.nats == r.nats && r'.publics == r.publics && r'.globalSnap == r.globalSnap
  {
    hide Advertised, Deliver, Audience;
    if order != [] { WithdrawAllOnlyRoutes(t, r, o, order[..|order| - 1]); }
  }
}
