/** What a subscriber rebuilds from the messages it was handed, and why that is the table.

    Keys the subscriber itself originated since it subscribed are set aside: neither its own announce
    nor a fence change is sent back to a key's origin. */
module RibViews {
  import opened Order
  import opened Addresses
  import opened RouteBus
  import opened OwnedTable
  import opened RibState

  // ---------------------------------------------------------------- the consumer's fold

  type View = map<RouteKey, seq<string>>

  function Applied(v: View, m: ServerMsg, vni: nat): View {
    match m
    case RouteUpdate(k, nhs, add, _) =>
      if k.vni != vni then v else if add then v[k := nhs] else v - {k}
    case _ => v
  }

  function AppliedAll(ms: seq<ServerMsg>, vni: nat): View {
    if ms == [] then map[] else Applied(AppliedAll(ms[..|ms| - 1], vni), ms[|ms| - 1], vni)
  }

  /** A snapshot of vni is closed by vni's marker. */
  predicate IsReplayOf(ms: seq<ServerMsg>, vni: nat) {
    ms != [] && ms[|ms| - 1].EndOfRib? && ms[|ms| - 1].vni == vni
  }

  /** A replay of the VNI replaces what was known of it; a delta edits one key. */
  function Received(v: View, e: Envelope, vni: nat): View {
    match e
    case Delta(m) => Applied(v, m, vni)
    case Snapshot(ms) => if IsReplayOf(ms, vni) then AppliedAll(ms, vni) else v
  }

  function ViewOf(log: seq<Envelope>, vni: nat): View {
    if log == [] then map[] else Received(ViewOf(log[..|log| - 1], vni), log[|log| - 1], vni)
  }

  function Lookup(v: View, k: RouteKey): seq<string> {
    if k in v then v[k] else []
  }

  /** What the current subscriber `sub` holds for k. */
  function Observed(r: Rib, sub: Subscription, k: RouteKey): seq<string>
    requires sub in r.subscribers
  {
    Lookup(ViewOf(Log(r.sent, r.subscribers[sub]), sub.vni), k)
  }

  // ---------------------------------------------------------------- the invariant

  /** For each subscription, the keys its node has originated since it began. */
  type Originated = map<Subscription, set<RouteKey>>

  ghost function OriginatedNow(r: Rib, id: string): set<RouteKey> {
    set k | k in r.routes && id in r.routes[k].origins
  }

  ghost function NoteOriginated(r: Rib, own: Originated, op: Op): Originated {
    match op
    case OpSubscribe(vni, s) =>
      if Resubscribes(r, vni, s) then own else own[Subscription(vni, s.id) := OriginatedNow(r, s.id)]
    case OpAnnounce(o, k, _, _) =>
      map sub | sub in own :: if sub.id == o then own[sub] + {k} else own[sub]
    case _ => own
  }

  ghost predicate OwnTracked(r: Rib, own: Originated) {
    forall sub :: sub in r.subscribers ==>
      && r.subscribers[sub].id == sub.id
      && sub in own
      && forall k :: k in OriginatedNow(r, sub.id) && k.vni == sub.vni ==> k in own[sub]
  }

  ghost predicate ViewsMatch(t: Texts, r: Rib, own: Originated) {
    forall sub, k: RouteKey :: sub in r.subscribers && sub in own && k.vni == sub.vni && k !in own[sub] ==>
      Observed(r, sub, k) == AdvertisedAt(t, r, k)
  }

  /** The shared global replay ends in the global marker, so no VNI takes it for its own. */
  ghost predicate SnapClosed(r: Rib) {
    r.globalSnap.Some? ==> IsGlobal(Snapshot(r.globalSnap.value))
  }

  ghost predicate Inv(t: Texts, r: Rib, own: Originated) {
    OwnTracked(r, own) && ViewsMatch(t, r, own) && SnapClosed(r)
  }

  /** An envelope of the global feed. */
  predicate IsGlobal(e: Envelope) {
    match e
    case Delta(m) => m.NatUpdate? || m.PublicUpdate?
    case Snapshot(ms) => ms != [] && ms[|ms| - 1].EndOfGlobal?
  }

  ghost predicate SinksNamed(r: Rib) {
    forall sub :: sub in r.subscribers ==> r.subscribers[sub].id == sub.id
  }

  // ---------------------------------------------------------------- fanout and views

  lemma ViewSnoc(log: seq<Envelope>, e: Envelope, vni: nat)
    ensures ViewOf(log + [e], vni) == Received(ViewOf(log, vni), e, vni)
  {
    assert (log + [e])[..|log|] == log;
  }

  /** A change reaches exactly the subscribers of its VNI it does not skip, and touches one key. */
  lemma FanoutChangeEffect(r: Rib, k: RouteKey, before: seq<string>, after: seq<string>, skip: set<string>,
      external: bool,
                           sub: Subscription, j: RouteKey)
    requires SinksNamed(r) && sub in r.subscribers && j.vni == sub.vni
    ensures Observed(FanoutChange(r, k, before, after, skip, external), sub, j) ==
            if j == k && sub.id !in skip && before != after then after else Observed(r, sub, j)
  {
    hide ViewOf, AppliedAll, Audience, Deliver, Log;
    if before != after {
      var s := r.subscribers[sub];
      var e := Delta(RouteUpdate(k, after, after != [], external));
      ViewSnoc(Log(r.sent, s), e, sub.vni);
      AudienceOf(r, sub, skip);
      LogAfter(r.sent, Audience(r.subscribers, k.vni, skip), e, s);
    }
  }

  lemma AudienceOf(r: Rib, sub: Subscription, skip: set<string>)
    requires SinksNamed(r) && sub in r.subscribers
    ensures sub.id !in skip <==> r.subscribers[sub] in Audience(r.subscribers, sub.vni, skip)
  {
  }

  /** A fanout touches nothing but `sent`. */
  lemma FanoutChangeFrame(r: Rib, k: RouteKey, before: seq<string>, after: seq<string>, skip: set<string>,
      external: bool)
    ensures FanoutChange(r, k, before, after, skip, external).(sent := r.sent) == r
  {
  }

  lemma AnnounceKeepsInv(t: Texts, r: Rib, own: Originated, o: string, k: RouteKey, nhs: seq<string>, ext: bool)
    requires Inv(t, r, own)
    ensures Inv(t, Announce(t, r, o, k, nhs, ext), NoteOriginated(r, own, OpAnnounce(o, k, nhs, ext)))
  {
    hide Advertised, FanoutChange, ViewOf, Lookup;
    var e := EntryAt(r.routes, k);
    var e' := RouteEntry(e.origins[o := nhs], ext);
    var r' := r.(routes := r.routes[k := e'], byOrigin := r.byOrigin[o := KeysOf(r.byOrigin, o) + {k}]);
    var before, after := Advertised(t, e, r.fenced), Advertised(t, e', r.fenced);
    FanoutChangeFrame(r', k, before, after, {o}, ext);
    var own' := NoteOriginated(r, own, OpAnnounce(o, k, nhs, ext));
    var r'' := Announce(t, r, o, k, nhs, ext);
    forall sub, j: RouteKey | sub in r''.subscribers && sub in own' && j.vni == sub.vni && j !in own'[sub]
      ensures Observed(r'', sub, j) == AdvertisedAt(t, r'', j)
    {
      FanoutChangeEffect(r', k, before, after, {o}, ext, sub, j);
      assert Observed(r', sub, j) == Observed(r, sub, j) == AdvertisedAt(t, r, j);
    }
  }

  lemma WithdrawKeepsInv(t: Texts, r: Rib, own: Originated, k: RouteKey, o: string)
    requires Inv(t, r, own)
    ensures Inv(t, WithdrawRouteOrigin(t, r, k, o), own)
    ensures var r' := WithdrawRouteOrigin(t, r, k, o); r'.(sent := r.sent, routes := r.routes) == r
  {
    if k in r.routes && o in r.routes[k].origins {
      var e := r.routes[k];
      var e' := e.(origins := e.origins - {o});
      var r' := r.(routes := if e'.origins == map[] then r.routes - {k} else r.routes[k := e']);
      var before, after := Advertised(t, e, r.fenced), Advertised(t, e', r.fenced);
      hide Advertised, FanoutChange, Observed, OwnTracked, AdvertisedAt;
      FanoutChangeFrame(r', k, before, after, {}, e.external);
      var r'' := WithdrawRouteOrigin(t, r, k, o);
      FewerOriginated(r, r'', own, k, e');
      SinksAreNamed(r, own);
      forall sub, j: RouteKey | sub in r''.subscribers && sub in own && j.vni == sub.vni && j !in own[sub]
        ensures Observed(r'', sub, j) == AdvertisedAt(t, r'', j)
      {
        WithdrawnEntry(t, r, r'', k, e', j);
        FanoutChangeEffect(r', k, before, after, {}, e.external, sub, j);
        SameLogSameView(r, r', sub, j);
        AdvertisedEntry(t, r, k);
      }
    }
  }

  lemma AdvertisedEntry(t: Texts, r: Rib, k: RouteKey)
    ensures AdvertisedAt(t, r, k) == Advertised(t, EntryAt(r.routes, k), r.fenced)
  {
  }

  lemma SameLogSameView(r: Rib, r': Rib, sub: Subscription, j: RouteKey)
    requires sub in r.subscribers && r'.subscribers == r.subscribers && r'.sent == r.sent
    ensures Observed(r', sub, j) == Observed(r, sub, j)
  {
  }

  lemma SinksAreNamed(r: Rib, own: Originated)
    requires OwnTracked(r, own)
    ensures SinksNamed(r)
  {
  }

  lemma FewerOriginated(r: Rib, r': Rib, own: Originated, k: RouteKey, e: RouteEntry)
    requires OwnTracked(r, own) && k in r.routes && e.origins.Keys <= r.routes[k].origins.Keys
    requires r'.subscribers == r.subscribers
             && r'.routes == if e.origins == map[] then r.routes - {k} else r.routes[k := e]
    ensures OwnTracked(r', own)
  {
    assert forall id :: OriginatedNow(r', id) <= OriginatedNow(r, id);
  }

  /** A route gone and a route without origins advertise the same. */
  lemma WithdrawnEntry(t: Texts, r: Rib, r': Rib, k: RouteKey, e: RouteEntry, j: RouteKey)
    requires r'.fenced == r.fenced && r'.routes == if e.origins == map[] then r.routes - {k} else r.routes[k := e]
    ensures AdvertisedAt(t, r', j) == if j == k then Advertised(t, e, r.fenced) else AdvertisedAt(t, r, j)
  {
    hide Advertised;
    EmptyEntryHides(t, e, r.fenced);
    EmptyEntryHides(t, NoEntry, r.fenced);
  }

  lemma EmptyEntryHides(t: Texts, e: RouteEntry, fenced: set<Prefix>)
    ensures e.origins == map[] ==> Advertised(t, e, fenced) == []
  {
    if e.origins == map[] {
      assert Visible(t, e, fenced) == {};
    }
  }

  lemma {:induction false} WithdrawAllKeepsInv(t: Texts, r: Rib, own: Originated, o: string, order: seq<RouteKey>)
    requires Inv(t, r, own)
    ensures Inv(t, WithdrawAll(t, r, o, order), own)
    ensures var r' := WithdrawAll(t, r, o, order); r'.(sent := r.sent, routes := r.routes) == r
  {
    if order != [] {
      WithdrawAllKeepsInv(t, r, own, o, order[..|order| - 1]);
      WithdrawKeepsInv(t, WithdrawAll(t, r, o, order[..|order| - 1]), own, order[|order| - 1], o);
    }
  }

  // ---------------------------------------------------------------- replay

  lemma {:induction false} RecordsView(t: Texts, r: Rib, vni: nat, prefixes: seq<string>, p: string)
    requires forall i, j :: 0 <= i < j < |prefixes| ==> prefixes[i] != prefixes[j]
    ensures Lookup(AppliedAll(Records(t, r, vni, prefixes), vni), RouteKey(vni, p)) ==
            if p in prefixes then AdvertisedAt(t, r, RouteKey(vni, p)) else []
  {
    hide Advertised, AppliedAll;
    if prefixes == [] {
      AppliedNothing(vni);
    } else {
      var init, q := prefixes[..|prefixes| - 1], prefixes[|prefixes| - 1];
      RecordsView(t, r, vni, init, p);
      assert prefixes == init + [q] && q !in init;
      var k := RouteKey(vni, q);
      AppliedSnoc(Records(t, r, vni, init), RouteUpdate(k, AdvertisedAt(t, r, k), true, EntryAt(r.routes, k).external),
        vni);
    }
  }

  lemma AppliedNothing(vni: nat)
    ensures AppliedAll([], vni) == map[]
  {
  }

  lemma AppliedSnoc(ms: seq<ServerMsg>, m: ServerMsg, vni: nat)
    ensures AppliedAll(ms + [m], vni) == Applied(AppliedAll(ms, vni), m, vni)
  {
    assert (ms + [m])[..|ms|] == ms;
  }

  /** A replay tells a new subscriber the whole advertised table of its VNI. */
  lemma ReplayView(t: Texts, r: Rib, k: RouteKey)
    ensures IsReplayOf(Replay(t, r, k.vni), k.vni)
    ensures Lookup(AppliedAll(Replay(t, r, k.vni), k.vni), k) == AdvertisedAt(t, r, k)
  {
    var prefixes := PrefixesOf(r.routes, k.vni);
    var recs, ms := Records(t, r, k.vni, prefixes), Replay(t, r, k.vni);
    assert ms[..|ms| - 1] == recs;
    StringsStrictlyOrdered();
    RecordsView(t, r, k.vni, prefixes, k.prefix);
    EmptyEntryHides(t, NoEntry, r.fenced);
    assert k == RouteKey(k.vni, k.prefix);
  }

  lemma SubscribeKeepsInv(t: Texts, r: Rib, own: Originated, vni: nat, s: Sink)
    requires Inv(t, r, own)
    ensures Inv(t, Subscribe(t, r, vni, s), NoteOriginated(r, own, OpSubscribe(vni, s)))
  {
    hide Advertised, Replay, Deliver, Log, ViewOf, AppliedAll;
    if !Resubscribes(r, vni, s) {
      var r', own' := Subscribe(t, r, vni, s), NoteOriginated(r, own, OpSubscribe(vni, s));
      var e := Snapshot(Replay(t, r, vni));
      forall sub, j: RouteKey | sub in r'.subscribers && sub in own' && j.vni == sub.vni && j !in own'[sub]
        ensures Observed(r', sub, j) == AdvertisedAt(t, r', j)
      {
        ReplayView(t, r, RouteKey(vni, j.prefix));
        LogAfter(r.sent, {s}, e, r'.subscribers[sub]);
        ViewSnoc(Log(r.sent, s), e, sub.vni);
        if sub == Subscription(vni, s.id) {
          assert j == RouteKey(vni, j.prefix);
        } else {
          assert Observed(r, sub, j) == AdvertisedAt(t, r, j);
        }
      }
    }
  }

  // ---------------------------------------------------------------- fences

  /** Midway through a fence change: keys already walked show the new set, to all but their origins. */
  lemma {:induction false} RefilterEffect(t: Texts, r: Rib, fenced: set<Prefix>, order: seq<RouteKey>,
      sub: Subscription, j: RouteKey)
    requires SinksNamed(r) && sub in r.subscribers && j.vni == sub.vni
    requires forall i, n :: 0 <= i < n < |order| ==> order[i] != order[n]
    ensures var r', e := Refilter(t, r, fenced, order), EntryAt(r.routes, j);
            && r'.(sent := r.sent, fenced := r.fenced) == r && r'.fenced == fenced
            && (Observed(r', sub, j) ==
                if j in order && sub.id !in e.origins && Advertised(t, e, r.fenced) != Advertised(t, e, fenced)
                then Advertised(t, e, fenced) else Observed(r, sub, j))
  {
    hide Advertised;
    if order != [] {
      var init, k := order[..|order| - 1], order[|order| - 1];
      assert order == init + [k];
      RefilterEffect(t, r, fenced, init, sub, j);
      var prev, e := Refilter(t, r, fenced, init), EntryAt(r.routes, k);
      FanoutChangeEffect(prev, k, Advertised(t, e, r.fenced), Advertised(t, e, fenced), e.origins.Keys, e.external,
        sub, j);
      FanoutChangeFrame(prev, k, Advertised(t, e, r.fenced), Advertised(t, e, fenced), e.origins.Keys, e.external);
    }
  }

  lemma {:induction false} RefilterFrame(t: Texts, r: Rib, fenced: set<Prefix>, order: seq<RouteKey>)
    ensures var r' := Refilter(t, r, fenced, order);
            r'.(sent := r.sent, fenced := r.fenced) == r && r'.fenced == fenced
  {
    hide Advertised;
    if order != [] { RefilterFrame(t, r, fenced, order[..|order| - 1]); }
  }

  lemma RefilterKeepsInv(t: Texts, r: Rib, own: Originated, fenced: set<Prefix>, order: seq<RouteKey>)
    requires Inv(t, r, own) && Enumerates(order, r.routes.Keys)
    ensures Inv(t, Refilter(t, r, fenced, order), own)
  {
    hide Advertised, Refilter;
    RefilterFrame(t, r, fenced, order);
    var r' := Refilter(t, r, fenced, order);
    EmptyEntryHides(t, NoEntry, r.fenced);
    EmptyEntryHides(t, NoEntry, fenced);
    forall sub, j: RouteKey | sub in r'.subscribers && sub in own && j.vni == sub.vni && j !in own[sub]
      ensures Observed(r', sub, j) == AdvertisedAt(t, r', j)
    {
      RefilterEffect(t, r, fenced, order, sub, j);
      assert Observed(r, sub, j) == AdvertisedAt(t, r, j);
      assert j in r.routes ==> sub.id !in r.routes[j].origins;
    }
  }

  // ---------------------------------------------------------------- the global feed leaves views alone

  lemma GlobalDeliveryInvisible(r: Rib, to: set<Sink>, e: Envelope, sub: Subscription, j: RouteKey)
    requires sub in r.subscribers && IsGlobal(e)
    ensures Observed(r.(sent := Deliver(r.sent, to, e)), sub, j) == Observed(r, sub, j)
  {
    ViewSnoc(Log(r.sent, r.subscribers[sub]), e, sub.vni);
  }

  /** Two tables with the same routes, fences and subscribers, and the same observations. */
  lemma InvByObservation(t: Texts, r: Rib, r': Rib, own: Originated)
    requires Inv(t, r, own)
    requires r'.routes == r.routes && r'.fenced == r.fenced && SnapClosed(r')
    requires forall sub :: sub in r'.subscribers ==> sub in r.subscribers && r'.subscribers[sub] == r.subscribers[sub]
    requires forall sub, j :: sub in r'.subscribers ==> Observed(r', sub, j) == Observed(r, sub, j)
    ensures Inv(t, r', own)
  {
    hide Advertised, ViewOf;
  }

  lemma GlobalFanoutKeepsInv(t: Texts, r: Rib, own: Originated, nats: Nats, publics: Publics, m: ServerMsg)
    requires Inv(t, r, own) && IsGlobal(Delta(m))
    ensures Inv(t, GlobalFanout(r.(nats := nats, publics := publics), m), own)
  {
    var r' := GlobalFanout(r.(nats := nats, publics := publics), m);
    forall sub, j | sub in r'.subscribers ensures Observed(r', sub, j) == Observed(r, sub, j) {
      GlobalDeliveryInvisible(r, SinksOf(r), Delta(m), sub, j);
    }
    InvByObservation(t, r, r', own);
  }

  lemma {:induction false} DropNatKeepsInv(t: Texts, r: Rib, own: Originated, o: string, order: seq<NatKey>)
    requires Inv(t, r, own)
    ensures Inv(t, DropNat(r, o, order), own)
  {
    hide Inv, GlobalFanout;
    if order == [] {
      NewTablesKeepInv(t, r, own, DropAll(r.nats, o, []), r.publics);
    } else {
      DropNatKeepsInv(t, r, own, o, order[..|order| - 1]);
      var prev, k := DropNat(r, o, order[..|order| - 1]), order[|order| - 1];
      if StillHolds(prev.nats, o, k) {
        GlobalFanoutKeepsInv(t, prev, own, Drop(prev.nats, o, k), prev.publics, NatUpdate(prev.nats.recs[k], false));
        assert prev.(nats := Drop(prev.nats, o, k)) == prev.(nats := Drop(prev.nats, o, k), publics := prev.publics);
      }
    }
  }

  lemma {:induction false} DropPublicKeepsInv(t: Texts, r: Rib, own: Originated, o: string, order: seq<PublicKey>)
    requires Inv(t, r, own)
    ensures Inv(t, DropPublic(r, o, order), own)
  {
    hide Inv, GlobalFanout;
    if order == [] {
      NewTablesKeepInv(t, r, own, r.nats, DropAll(r.publics, o, []));
    } else {
      DropPublicKeepsInv(t, r, own, o, order[..|order| - 1]);
      var prev, k := DropPublic(r, o, order[..|order| - 1]), order[|order| - 1];
      if StillHolds(prev.publics, o, k) {
        GlobalFanoutKeepsInv(t, prev, own, prev.nats, Drop(prev.publics, o, k),
          PublicUpdate(prev.publics.recs[k], false));
        assert prev.(publics := Drop(prev.publics, o, k)) ==
          prev.(nats := prev.nats, publics := Drop(prev.publics, o, k));
      }
    }
  }

  /** The global tables, sinks and session tokens play no part in the views. */
  lemma NewTablesKeepInv(t: Texts, r: Rib, own: Originated, nats: Nats, publics: Publics)
    requires Inv(t, r, own)
    ensures Inv(t, r.(nats := nats, publics := publics), own)
  {
    InvByObservation(t, r, r.(nats := nats, publics := publics), own);
  }

  lemma DropOriginKeepsInv(t: Texts, r: Rib, own: Originated, id: string, o: Orders)
    requires Inv(t, r, own)
    ensures Inv(t, DropOrigin(t, r, id, o), own)
  {
    hide Advertised, WithdrawAll, DropNat, DropPublic, ViewOf;
    var r0 := r.(byOrigin := r.byOrigin - {id});
    InvByObservation(t, r, r0, own);
    WithdrawAllKeepsInv(t, r0, own, id, o.routes);
    var r1 := WithdrawAll(t, r0, id, o.routes);
    var r2 := r1.(subscribers := WithoutSubscriber(r1.subscribers, id));
    InvByObservation(t, r1, r2, own);
    DropNatKeepsInv(t, r2, own, id, o.nats);
    DropPublicKeepsInv(t, DropNat(r2, id, o.nats), own, id, o.pubs);
  }

  lemma RegisterKeepsInv(t: Texts, r: Rib, own: Originated, s: Sink, nats: seq<NatKey>, pubs: seq<PublicKey>)
    requires Inv(t, r, own) && Legal(r, OpRegister(s, nats, pubs))
    ensures Inv(t, RegisterSink(r, s, nats, pubs), own)
  {
    hide ViewOf, NatRecords, PublicRecords;
    var r' := RegisterSink(r, s, nats, pubs);
    forall sub, j | sub in r'.subscribers ensures Observed(r', sub, j) == Observed(r, sub, j) {
      GlobalDeliveryInvisible(r, {s}, Snapshot(GlobalReplay(r, nats, pubs)), sub, j);
    }
    InvByObservation(t, r, r', own);
  }

  // ---------------------------------------------------------------- main theorem

  lemma StepKeepsInv(t: Texts, r: Rib, own: Originated, op: Op)
    requires Inv(t, r, own) && Legal(r, op)
    ensures Inv(t, Step(t, r, op), NoteOriginated(r, own, op))
  {
    hide OwnTracked, ViewsMatch, Refilter, DropOrigin, GlobalFanout, WithdrawRouteOrigin, Announce, Replay,
         GlobalReplay, Put, Remove;
    match op
    case OpSubscribe(vni, s) => SubscribeKeepsInv(t, r, own, vni, s);
    case OpUnsubscribe(vni, id) => InvByObservation(t, r, Unsubscribe(r, vni, id), own);
    case OpAnnounce(o, k, nhs, ext) => AnnounceKeepsInv(t, r, own, o, k, nhs, ext);
    case OpWithdraw(o, k) =>
      var r' := r.(byOrigin := Unindexed(r.byOrigin, o, k));
      InvByObservation(t, r, r', own);
      WithdrawKeepsInv(t, r', own, k, o);
    case OpSetFence(text, order) =>
      var n := FenceNet(t, text);
      if n.Some? { RefilterKeepsInv(t, r, own, r.fenced + {n.value}, order); }
    case OpClearFence(text, order) =>
      var n := FenceNet(t, text);
      if n.Some? { RefilterKeepsInv(t, r, own, r.fenced - {n.value}, order); }
    case OpClaim(id, o) =>
      var r' := r.(nextToken := r.nextToken + 1, origins := r.origins[id := r.nextToken + 1]);
      InvByObservation(t, r, r', own);
      InvByObservation(t, r, r'.(sinks := r'.sinks - {id}), own);
      DropOriginKeepsInv(t, r'.(sinks := r'.sinks - {id}), own, id, o);
    case OpRelease(id, token, o) =>
      var r' := r.(origins := r.origins - {id}, sinks := r.sinks - {id});
      InvByObservation(t, r, r', own);
      DropOriginKeepsInv(t, r', own, id, o);
    case OpRegister(s, nats, pubs) => RegisterKeepsInv(t, r, own, s, nats, pubs);
    case _ => GlobalStepKeepsInv(t, r, own, op);
  }

  lemma GlobalStepKeepsInv(t: Texts, r: Rib, own: Originated, op: Op)
    requires Inv(t, r, own) && (op.OpAnnounceNat? || op.OpWithdrawNat? || op.OpAnnouncePublic? || op.OpWithdrawPublic?)
    ensures Inv(t, Step(t, r, op), own)
  {
    hide Inv, GlobalFanout, Put, Remove;
    match op
    case OpAnnounceNat(o, b) =>
      GlobalFanoutKeepsInv(t, r, own, Put(r.nats, o, NatKeyOf(b), b), r.publics, NatUpdate(b, true));
      assert r.(nats := Put(r.nats, o, NatKeyOf(b), b)) ==
        r.(nats := Put(r.nats, o, NatKeyOf(b), b), publics := r.publics);
    case OpWithdrawNat(o, k, permit) =>
      if NatVerdict(r, o, k, permit) == WithdrawApplied {
        GlobalFanoutKeepsInv(t, r, own, Remove(r.nats, o, k), r.publics, NatUpdate(r.nats.recs[k], false));
        assert r.(nats := Remove(r.nats, o, k)) == r.(nats := Remove(r.nats, o, k), publics := r.publics);
      }
    case OpAnnouncePublic(o, p) =>
      GlobalFanoutKeepsInv(t, r, own, r.nats, Put(r.publics, o, PublicKeyOf(p), p), PublicUpdate(p, true));
      assert r.(publics := Put(r.publics, o, PublicKeyOf(p), p)) ==
        r.(nats := r.nats, publics := Put(r.publics, o, PublicKeyOf(p), p));
    case OpWithdrawPublic(o, k, permit) =>
      if PublicVerdict(r, o, k, permit) == WithdrawApplied {
        GlobalFanoutKeepsInv(t, r, own, r.nats, Remove(r.publics, o, k), PublicUpdate(r.publics.recs[k], false));
        assert r.(publics := Remove(r.publics, o, k)) == r.(nats := r.nats, publics := Remove(r.publics, o, k));
      }
  }

  /** The keys each subscription's node originated, over the first n steps of a run. */
  ghost function OriginatedBy(run: seq<Rib>, ops: seq<Op>, n: nat): Originated
    requires |run| == |ops| + 1 && n <= |ops|
  {
    if n == 0 then map[] else NoteOriginated(run[n - 1], OriginatedBy(run, ops, n - 1), ops[n - 1])
  }

  lemma {:induction false} RunKeepsInv(t: Texts, run: seq<Rib>, ops: seq<Op>, n: nat)
    requires IsRun(t, run, ops) && n <= |ops|
    ensures Inv(t, run[n], OriginatedBy(run, ops, n))
  {
    if n > 0 {
      RunKeepsInv(t, run, ops, n - 1);
      StepKeepsInv(t, run[n - 1], OriginatedBy(run, ops, n - 1), ops[n - 1]);
    }
  }

  /** In every run of announces, withdraws, session claims and drops, fence changes and global-feed
      traffic: folding what a current subscriber was handed gives, for each key of its VNI it has
      not itself originated since subscribing, exactly the fence-filtered nexthops. */
  lemma SubscriberViewIsTable(t: Texts, run: seq<Rib>, ops: seq<Op>, sub: Subscription, k: RouteKey)
    requires IsRun(t, run, ops)
    requires sub in run[|ops|].subscribers && k.vni == sub.vni
    requires sub in OriginatedBy(run, ops, |ops|) ==> k !in OriginatedBy(run, ops, |ops|)[sub]
    ensures Observed(run[|ops|], sub, k) == AdvertisedAt(t, run[|ops|], k)
  {
    RunKeepsInv(t, run, ops, |ops|);
  }

  /** A node's own announce never reaches its own subscription. */
  lemma OwnAnnounceNotEchoed(t: Texts, r: Rib, sub: Subscription, k: RouteKey, nhs: seq<string>, ext: bool)
    requires SinksNamed(r) && sub in r.subscribers && k.vni == sub.vni
    ensures var r' := Announce(t, r, sub.id, k, nhs, ext);
            sub in r'.subscribers && Observed(r', sub, k) == Observed(r, sub, k)
  {
    hide Advertised, FanoutChange, ViewOf;
    var e := EntryAt(r.routes, k);
    var e' := RouteEntry(e.origins[sub.id := nhs], ext);
    var r1 := r.(routes := r.routes[k := e'], byOrigin := r.byOrigin[sub.id := KeysOf(r.byOrigin, sub.id) + {k}]);
    FanoutChangeFrame(r1, k, Advertised(t, e, r.fenced), Advertised(t, e', r.fenced), {sub.id}, ext);
    FanoutChangeEffect(r1, k, Advertised(t, e, r.fenced), Advertised(t, e', r.fenced), {sub.id}, ext, sub, k);
  }

  /** So the keys a subscriber originated have to be set aside: it announces a route, the table
      advertises it, and its own view stays without it. */
  lemma OwnKeysMustBeSetAside(t: Texts, s: Sink, vni: nat, prefix: string, nh: string)
    ensures var k := RouteKey(vni, prefix);
            var sub := Subscription(vni, s.id);
            var r0 := Subscribe(t, NewRib(), vni, s);
            var r1 := Announce(t, r0, s.id, k, [nh], false);
            && sub in r0.subscribers && sub in r1.subscribers
            && Observed(r0, sub, k) == AdvertisedAt(t, r0, k)
            && Observed(r1, sub, k) == [] && AdvertisedAt(t, r1, k) == [nh]
  {
    var k, sub := RouteKey(vni, prefix), Subscription(vni, s.id);
    var r0 := Subscribe(t, NewRib(), vni, s);
    var r1 := Announce(t, r0, s.id, k, [nh], false);
    FirstSubscriber(t, s, vni, k);
    OwnAnnounceNotEchoed(t, r0, sub, k, [nh], false);
    assert AdvertisedAt(t, r1, k) == [nh] by { OneNexthop(t, r0, s.id, k, nh); }
  }

  lemma FirstSubscriber(t: Texts, s: Sink, vni: nat, k: RouteKey)
    ensures var r0 := Subscribe(t, NewRib(), vni, s);
            var sub := Subscription(vni, s.id);
            && sub in r0.subscribers && SinksNamed(r0) && Observed(r0, sub, k) == [] == AdvertisedAt(t, r0, k)
            && r0.routes == map[] && r0.fenced == {}
  {
    var none := NewRib();
    Inhabited(PrefixesOf(none.routes, vni));
    var snap := Snapshot(Replay(t, none, vni));
    assert Replay(t, none, vni) == [EndOfRib(vni, 0)];
    var r0 := Subscribe(t, none, vni, s);
    assert Log(r0.sent, s) == [snap] == [] + [snap];
    ViewSnoc([], snap, vni);
    assert AppliedAll([EndOfRib(vni, 0)], vni) == map[] by { assert [EndOfRib(vni, 0)][..0] == []; }
    assert Visible(t, NoEntry, {}) == {};
    Inhabited(Sorted({}));
  }

  lemma OneNexthop(t: Texts, r: Rib, o: string, k: RouteKey, nh: string)
    requires r.routes == map[] && r.fenced == {}
    ensures AdvertisedAt(t, Announce(t, r, o, k, [nh], false), k) == [nh]
  {
    hide FanoutChange;
    var e' := RouteEntry(map[o := [nh]], false);
    var r1 := r.(routes := map[k := e'], byOrigin := r.byOrigin[o := KeysOf(r.byOrigin, o) + {k}]);
    FanoutChangeFrame(r1, k, Advertised(t, NoEntry, {}), Advertised(t, e', {}), {o}, false);
    assert NexthopSet(e'.origins) == {nh} by { assert nh in e'.origins[o]; }
    assert Visible(t, e', {}) == {nh};
    SortedIsCanonical({nh}, [nh]);
  }
}
