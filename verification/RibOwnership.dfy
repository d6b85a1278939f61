/** Who owns what in the reflector: the reverse indexes are exact, the shared global replay is the
    tables, everything stored belongs to a live session, and a superseded session cannot touch it. */
module RibOwnership {
  import opened Order
  import opened Addresses
  import opened RouteBus
  import opened OwnedTable
  import opened RibState
  import opened RibViews

  // ---------------------------------------------------------------- reverse index of the routes

  predicate Contributes(routes: map<RouteKey, RouteEntry>, o: string, k: RouteKey) {
    k in routes && o in routes[k].origins
  }

  ghost predicate NoEmptyEntry(routes: map<RouteKey, RouteEntry>) {
    forall k :: k in routes ==> routes[k].origins != map[]
  }

  ghost predicate RoutesIndexed(r: Rib) {
    && (forall o: string, k: RouteKey :: k in KeysOf(r.byOrigin, o) <==> Contributes(r.routes, o, k))
    && NoEmptyEntry(r.routes)
  }

  lemma WithdrawOneRoute(t: Texts, r: Rib, j: RouteKey, o: string)
    requires NoEmptyEntry(r.routes)
    ensures var r' := WithdrawRouteOrigin(t, r, j, o);
            && r'.(routes := r.routes, sent := r.sent) == r && NoEmptyEntry(r'.routes)
            && forall k, p :: Contributes(r'.routes, p, k) <==> Contributes(r.routes, p, k) && !(k == j && p == o)
  {
    hide Advertised, FanoutChange, NoEmptyEntry;
    WithdrawFrame(t, r, j, o);
    if Contributes(r.routes, o, j) {
      var e := r.routes[j];
      var e' := e.(origins := e.origins - {o});
      var r1 := r.(routes := if e'.origins == map[] then r.routes - {j} else r.routes[j := e']);
      FanoutChangeFrame(r1, j, Advertised(t, e, r.fenced), Advertised(t, e', r.fenced), {}, e.external);
      OneOriginLess(r.routes, j, o);
    }
  }

  lemma OneOriginLess(routes: map<RouteKey, RouteEntry>, j: RouteKey, o: string)
    requires NoEmptyEntry(routes) && Contributes(routes, o, j)
    ensures var rest := routes[j].origins - {o};
            var routes' := if rest == map[] then routes - {j} else routes[j := routes[j].(origins := rest)];
            NoEmptyEntry(routes')
              && forall k, p :: Contributes(routes', p, k) <==> Contributes(routes, p, k) && !(k == j && p == o)
  {
    var rest := routes[j].origins - {o};
    assert forall p :: p in rest <==> p in routes[j].origins && p != o;
  }

  lemma WithdrawFrame(t: Texts, r: Rib, k: RouteKey, o: string)
    ensures WithdrawRouteOrigin(t, r, k, o).(routes := r.routes, sent := r.sent) == r
  {
    hide Advertised, FanoutChange;
    if k in r.routes && o in r.routes[k].origins {
      var e := r.routes[k];
      var e' := e.(origins := e.origins - {o});
      var r1 := r.(routes := if e'.origins == map[] then r.routes - {k} else r.routes[k := e']);
      FanoutChangeFrame(r1, k, Advertised(t, e, r.fenced), Advertised(t, e', r.fenced), {}, e.external);
    }
  }

  /** Midway through a teardown of o: the keys walked have lost o, and no other origin anything. */
  lemma {:induction false} WithdrawAllRoutes(t: Texts, r: Rib, o: string, order: seq<RouteKey>)
    requires NoEmptyEntry(r.routes)
    ensures var r' := WithdrawAll(t, r, o, order);
            && r'.(routes := r.routes, sent := r.sent) == r && NoEmptyEntry(r'.routes)
            && forall k, p :: Contributes(r'.routes, p, k) <==> Contributes(r.routes, p, k) && !(k in order && p == o)
  {
    hide WithdrawRouteOrigin, Contributes, NoEmptyEntry;
    if order != [] {
      var init, j := order[..|order| - 1], order[|order| - 1];
      assert order == init + [j];
      WithdrawAllRoutes(t, r, o, init);
      WithdrawOneRoute(t, WithdrawAll(t, r, o, init), j, o);
    }
  }

  // ---------------------------------------------------------------- the global tables and replay

  ghost predicate Keyed(r: Rib) {
    && (forall k :: k in r.nats.recs ==> NatKeyOf(r.nats.recs[k]) == k)
    && (forall k :: k in r.publics.recs ==> PublicKeyOf(r.publics.recs[k]) == k)
  }

  /** ms is every record of both tables once, then the marker with their number. */
  ghost predicate ReplaysTables(ms: seq<ServerMsg>, nats: map<NatKey, NatBlock>, pubs: map<PublicKey, PublicRecord>) {
    exists ns: seq<NatKey>, ps: seq<PublicKey> :: ReplaysInOrder(ms, nats, pubs, ns, ps)
  }

  ghost predicate ReplaysInOrder(ms: seq<ServerMsg>, nats: map<NatKey, NatBlock>, pubs: map<PublicKey, PublicRecord>,
                                 ns: seq<NatKey>, ps: seq<PublicKey>) {
    && Enumerates(ns, nats.Keys) && Enumerates(ps, pubs.Keys) && |ns| == |nats| && |ps| == |pubs|
    && ms == NatRecords(nats, ns) + PublicRecords(pubs, ps) + [EndOfGlobal(|ns| + |ps|)]
  }

  lemma {:induction false} EnumerationLength<T(!new)>(s: seq<T>, elems: set<T>)
    requires Enumerates(s, elems)
    ensures |s| == |elems|
  {
    if s == [] {
      assert elems == {};
    } else {
      var init, x := s[..|s| - 1], s[|s| - 1];
      assert s == init + [x] && x in elems;
      EnumerationLength(init, elems - {x});
    }
  }

  ghost predicate TablesOwned(r: Rib) {
    && RoutesIndexed(r) && Consistent(r.nats) && Consistent(r.publics) && Keyed(r)
    && (r.globalSnap.Some? ==> ReplaysTables(r.globalSnap.value, r.nats.recs, r.publics.recs))
  }

  // ---------------------------------------------------------------- live sessions

  /** Everything stored belongs to the session currently speaking for its node. */
  ghost predicate Live(r: Rib) {
    && (forall k, o :: Contributes(r.routes, o, k) ==> o in r.origins)
    && (forall k :: k in r.nats.origin ==> r.nats.origin[k] in r.origins)
    && (forall k :: k in r.publics.origin ==> r.publics.origin[k] in r.origins)
    && (forall sub :: sub in r.subscribers ==>
       sub.id in r.origins && r.subscribers[sub] == Sink(sub.id, r.origins[sub.id]))
    && (forall id :: id in r.sinks ==> id in r.origins && r.sinks[id] == Sink(id, r.origins[id]))
    && (forall id :: id in r.origins ==> r.origins[id] <= r.nextToken)
  }

  /** The operation comes from a session that still holds its node id. */
  predicate FromCurrentSession(r: Rib, op: Op) {
    match op
    case OpSubscribe(_, s) => s.id in r.origins && s.session == r.origins[s.id]
    case OpRegister(s, _, _) => s.id in r.origins && s.session == r.origins[s.id]
    case OpAnnounce(o, _, _, _) => o in r.origins
    case OpAnnounceNat(o, _) => o in r.origins
    case OpAnnouncePublic(o, _) => o in r.origins
    case _ => true
  }

  // ---------------------------------------------------------------- teardown

  lemma {:induction false} DropNatTable(r: Rib, o: string, order: seq<NatKey>)
    ensures var r' := DropNat(r, o, order);
            && r'.nats == DropAll(r.nats, o, order)
            && r'.(nats := r.nats, globalSnap := r.globalSnap, sent := r.sent) == r
            && (r'.globalSnap == r.globalSnap || r'.globalSnap.None?)
            && (r'.globalSnap.None? || r'.nats.recs == r.nats.recs)
  {
    if order != [] {
      DropNatTable(r, o, order[..|order| - 1]);
    }
  }

  lemma {:induction false} DropPublicTable(r: Rib, o: string, order: seq<PublicKey>)
    ensures var r' := DropPublic(r, o, order);
            && r'.publics == DropAll(r.publics, o, order)
            && r'.(publics := r.publics, globalSnap := r.globalSnap, sent := r.sent) == r
            && (r'.globalSnap == r.globalSnap || r'.globalSnap.None?)
            && (r'.globalSnap.None? || r'.publics.recs == r.publics.recs)
  {
    if order != [] {
      DropPublicTable(r, o, order[..|order| - 1]);
    }
  }

  /** A teardown clears exactly what the origin owned, in every table. */
  lemma DropOriginClears(t: Texts, r: Rib, o: string, ord: Orders)
    requires TablesOwned(r) && WalksAll(r, o, ord)
    ensures var r' := DropOrigin(t, r, o, ord);
            && (forall k, p :: Contributes(r'.routes, p, k) <==> Contributes(r.routes, p, k) && p != o)
            && NoEmptyEntry(r'.routes)
            && r'.nats == DropAll(r.nats, o, ord.nats) && r'.publics == DropAll(r.publics, o, ord.pubs)
            && (r'.globalSnap.Some? ==>
                  r'.globalSnap == r.globalSnap && r'.nats.recs == r.nats.recs && r'.publics.recs == r.publics.recs)
            && r'.subscribers == WithoutSubscriber(r.subscribers, o) && r'.byOrigin == r.byOrigin - {o}
            && r'.fenced == r.fenced && r'.origins == r.origins && r'.nextToken == r.nextToken && r'.sinks == r.sinks
  {
    hide WithdrawAll, DropNat, DropPublic, DropAll, ReplaysTables, Consistent, Keyed, Contributes;
    var r0 := r.(byOrigin := r.byOrigin - {o});
    WithdrawAllRoutes(t, r0, o, ord.routes);
    var r1 := WithdrawAll(t, r0, o, ord.routes);
    var r2 := r1.(subscribers := WithoutSubscriber(r1.subscribers, o));
    DropNatTable(r2, o, ord.nats);
    DropPublicTable(DropNat(r2, o, ord.nats), o, ord.pubs);
  }

  /** A teardown leaves every index exact. */
  lemma DropOriginOwned(t: Texts, r: Rib, o: string, ord: Orders)
    requires TablesOwned(r) && WalksAll(r, o, ord)
    ensures TablesOwned(DropOrigin(t, r, o, ord))
  {
    hide DropOrigin, DropAll, ReplaysTables, Contributes;
    var r' := DropOrigin(t, r, o, ord);
    DropOriginClears(t, r, o, ord);
    DropAllConsistent(r.nats, o, ord.nats);
    DropAllConsistent(r.publics, o, ord.pubs);
    assert forall p, k :: k in KeysOf(r'.byOrigin, p) <==> k in KeysOf(r.byOrigin, p) && p != o;
  }

  // ---------------------------------------------------------------- every step

  lemma RefilterOwned(t: Texts, r: Rib, fenced: set<Prefix>, order: seq<RouteKey>)
    requires TablesOwned(r)
    ensures TablesOwned(Refilter(t, r, fenced, order))
    ensures Live(r) ==> Live(Refilter(t, r, fenced, order))
  {
    hide Refilter, ReplaysTables, Consistent;
    RefilterFrame(t, r, fenced, order);
  }

  lemma RegisterOwned(r: Rib, s: Sink, nats: seq<NatKey>, pubs: seq<PublicKey>)
    requires TablesOwned(r) && Legal(r, OpRegister(s, nats, pubs))
    ensures TablesOwned(RegisterSink(r, s, nats, pubs))
  {
    hide NatRecords, PublicRecords, Consistent, RoutesIndexed, ReplaysTables, Deliver;
    RoutesIndexedFrame(r, RegisterSink(r, s, nats, pubs));
    BuiltReplay(r.nats.recs, r.publics.recs, nats, pubs);
  }

  lemma ListsWholeMap<K(!new), V>(m: map<K, V>, order: seq<K>)
    requires Enumerates(order, m.Keys)
    ensures |order| == |m| && forall k :: k in order ==> k in m
  {
    EnumerationLength(order, m.Keys);
    assert |m| == |m.Keys|;
  }

  lemma BuiltReplay(nats: map<NatKey, NatBlock>, pubs: map<PublicKey, PublicRecord>, ns: seq<NatKey>,
      ps: seq<PublicKey>)
    requires Enumerates(ns, nats.Keys) && Enumerates(ps, pubs.Keys)
    ensures ReplaysTables(NatRecords(nats, ns) + PublicRecords(pubs, ps) + [EndOfGlobal(|ns| + |ps|)], nats, pubs)
  {
    ListsWholeMap(nats, ns);
    ListsWholeMap(pubs, ps);
    hide NatRecords, PublicRecords, Enumerates;
    assert ReplaysInOrder(NatRecords(nats, ns) + PublicRecords(pubs, ps) + [EndOfGlobal(|ns| + |ps|)], nats, pubs, ns,
      ps);
  }

  lemma AnnounceEffect(t: Texts, r: Rib, o: string, k: RouteKey, nhs: seq<string>, ext: bool)
    ensures var r' := Announce(t, r, o, k, nhs, ext);
            && r'.(routes := r.routes, byOrigin := r.byOrigin, sent := r.sent) == r
            && (forall p, j :: Contributes(r'.routes, p, j) <==> Contributes(r.routes, p, j) || (p == o && j == k))
            && (forall p, j :: j in KeysOf(r'.byOrigin, p) <==> j in KeysOf(r.byOrigin, p) || (p == o && j == k))
            && (NoEmptyEntry(r.routes) ==> NoEmptyEntry(r'.routes))
  {
    hide Advertised, FanoutChange, Contributes;
    var e := EntryAt(r.routes, k);
    var e' := RouteEntry(e.origins[o := nhs], ext);
    FanoutChangeFrame(
      r.(routes := r.routes[k := e'], byOrigin := r.byOrigin[o := KeysOf(r.byOrigin, o) + {k}]),
      k, Advertised(t, e, r.fenced), Advertised(t, e', r.fenced), {o}, ext);
    OneMoreOrigin(r.routes, k, o, nhs, ext);
  }

  lemma OneMoreOrigin(routes: map<RouteKey, RouteEntry>, k: RouteKey, o: string, nhs: seq<string>, ext: bool)
    ensures var routes' := routes[k := RouteEntry(EntryAt(routes, k).origins[o := nhs], ext)];
            && (forall p, j :: Contributes(routes', p, j) <==> Contributes(routes, p, j) || (p == o && j == k))
            && (NoEmptyEntry(routes) ==> NoEmptyEntry(routes'))
  {
    var routes' := routes[k := RouteEntry(EntryAt(routes, k).origins[o := nhs], ext)];
    assert o in routes'[k].origins;
  }

  lemma AnnounceOwned(t: Texts, r: Rib, o: string, k: RouteKey, nhs: seq<string>, ext: bool)
    requires TablesOwned(r)
    ensures TablesOwned(Announce(t, r, o, k, nhs, ext))
    ensures Live(r) && o in r.origins ==> Live(Announce(t, r, o, k, nhs, ext))
  {
    hide Announce, Contributes, NoEmptyEntry, ReplaysTables, Consistent;
    AnnounceEffect(t, r, o, k, nhs, ext);
  }

  lemma WithdrawOwned(t: Texts, r: Rib, o: string, k: RouteKey)
    requires TablesOwned(r)
    ensures TablesOwned(Withdraw(t, r, o, k))
    ensures Live(r) ==> Live(Withdraw(t, r, o, k))
  {
    hide WithdrawRouteOrigin, ReplaysTables, Consistent, Contributes;
    var r1 := r.(byOrigin := Unindexed(r.byOrigin, o, k));
    WithdrawOneRoute(t, r1, k, o);
    assert forall p, j :: j in KeysOf(r1.byOrigin, p) <==> j in KeysOf(r.byOrigin, p) && !(p == o && j == k);
  }

  lemma StepOwned(t: Texts, r: Rib, op: Op)
    requires TablesOwned(r) && Legal(r, op)
    ensures TablesOwned(Step(t, r, op))
  {
    hide Advertised, Refilter, DropOrigin, Withdraw, Announce, Replay, GlobalReplay, Deliver, RegisterSink,
         GlobalFanout, TablesOwned;
    match op
    case OpSubscribe(vni, s) => TablesOwnedFrame(r, Step(t, r, op));
    case OpUnsubscribe(vni, id) => TablesOwnedFrame(r, Step(t, r, op));
    case OpAnnounce(o, k, nhs, ext) => AnnounceOwned(t, r, o, k, nhs, ext);
    case OpWithdraw(o, k) => WithdrawOwned(t, r, o, k);
    case OpSetFence(text, order) =>
      var n := FenceNet(t, text);
      if n.Some? { RefilterOwned(t, r, r.fenced + {n.value}, order); }
    case OpClearFence(text, order) =>
      var n := FenceNet(t, text);
      if n.Some? { RefilterOwned(t, r, r.fenced - {n.value}, order); }
    case OpClaim(id, o) =>
      var r' := r.(nextToken := r.nextToken + 1, origins := r.origins[id := r.nextToken + 1]);
      TablesOwnedFrame(r, r');
      TablesOwnedFrame(r, r'.(sinks := r'.sinks - {id}));
      DropOriginOwned(t, r'.(sinks := r'.sinks - {id}), id, o);
    case OpRelease(id, token, o) =>
      var r' := r.(origins := r.origins - {id}, sinks := r.sinks - {id});
      TablesOwnedFrame(r, r');
      DropOriginOwned(t, r', id, o);
    case OpRegister(s, nats, pubs) => RegisterOwned(r, s, nats, pubs);
    case OpAnnounceNat(_, _) => NatOwned(t, r, op);
    case OpWithdrawNat(_, _, _) => NatOwned(t, r, op);
    case OpAnnouncePublic(_, _) => PublicOwned(t, r, op);
    case OpWithdrawPublic(_, _, _) => PublicOwned(t, r, op);
  }

  lemma NatOwned(t: Texts, r: Rib, op: Op)
    requires TablesOwned(r) && (op.OpAnnounceNat? || op.OpWithdrawNat?)
    ensures TablesOwned(Step(t, r, op))
  {
    hide Deliver, ReplaysTables, Put, Remove, RoutesIndexed, Consistent;
    match op
    case OpAnnounceNat(o, b) =>
      PutConsistent(r.nats, o, NatKeyOf(b), b);
      PutKeyed(r.nats, o, NatKeyOf(b), b);
      RoutesIndexedFrame(r, Step(t, r, op));
    case OpWithdrawNat(o, k, permit) =>
      if NatVerdict(r, o, k, permit) == WithdrawApplied {
        RemoveConsistent(r.nats, o, k);
        RemoveKeyed(r.nats, o, k);
        RoutesIndexedFrame(r, Step(t, r, op));
      }
  }

  lemma PublicOwned(t: Texts, r: Rib, op: Op)
    requires TablesOwned(r) && (op.OpAnnouncePublic? || op.OpWithdrawPublic?)
    ensures TablesOwned(Step(t, r, op))
  {
    hide Deliver, ReplaysTables, Put, Remove, RoutesIndexed, Consistent;
    match op
    case OpAnnouncePublic(o, p) =>
      PutConsistent(r.publics, o, PublicKeyOf(p), p);
      PutKeyed(r.publics, o, PublicKeyOf(p), p);
      RoutesIndexedFrame(r, Step(t, r, op));
    case OpWithdrawPublic(o, k, permit) =>
      if PublicVerdict(r, o, k, permit) == WithdrawApplied {
        RemoveConsistent(r.publics, o, k);
        RemoveKeyed(r.publics, o, k);
        RoutesIndexedFrame(r, Step(t, r, op));
      }
  }

  lemma RoutesIndexedFrame(r: Rib, r': Rib)
    requires RoutesIndexed(r) && r'.routes == r.routes && r'.byOrigin == r.byOrigin
    ensures RoutesIndexed(r')
  {
  }

  lemma PutKeyed<K, V>(t: Owned<K, V>, o: string, k: K, v: V)
    ensures Put(t, o, k, v).recs == t.recs[k := v] && Put(t, o, k, v).origin == t.origin[k := o]
  {
  }

  lemma RemoveKeyed<K, V>(t: Owned<K, V>, o: string, k: K)
    ensures Remove(t, o, k).recs == t.recs - {k} && Remove(t, o, k).origin == t.origin - {k}
  {
  }

  /** The records a teardown leaves belong to other owners. */
  lemma OwnersStay<K(!new), V>(t: Owned<K, V>, id: string, order: seq<K>, origins: map<string, nat>)
    requires Consistent(t) && Enumerates(order, KeysOf(t.byOrigin, id))
    requires forall k :: k in t.origin ==> t.origin[k] in origins || t.origin[k] == id
    ensures forall k :: k in DropAll(t, id, order).origin ==> DropAll(t, id, order).origin[k] in origins
  {
    hide DropAll;
    DropAllConsistent(t, id, order);
  }

  lemma DropOriginLive(t: Texts, r: Rib, id: string, o: Orders, origins: map<string, nat>)
    requires TablesOwned(r) && WalksAll(r, id, o) && id !in r.sinks && r.origins == origins
    requires Live(r.(origins := origins[id := 0], subscribers := WithoutSubscriber(r.subscribers, id)))
    requires forall j :: j in origins ==> origins[j] <= r.nextToken
    ensures Live(DropOrigin(t, r, id, o))
  {
    hide DropOrigin, DropAll, ReplaysTables, Contributes, RoutesIndexed, Consistent, Keyed;
    DropOriginClears(t, r, id, o);
    OwnersStay(r.nats, id, o.nats, origins);
    OwnersStay(r.publics, id, o.pubs, origins);
    var before := r.(origins := origins[id := 0], subscribers := WithoutSubscriber(r.subscribers, id));
    assert forall k, p :: Contributes(before.routes, p, k) ==> p in origins || p == id;
  }

  lemma GlobalFanoutLive(r: Rib, nats: Nats, publics: Publics, m: ServerMsg)
    requires Live(r)
    requires forall k :: k in nats.origin ==> nats.origin[k] in r.origins
    requires forall k :: k in publics.origin ==> publics.origin[k] in r.origins
    ensures Live(GlobalFanout(r.(nats := nats, publics := publics), m))
  {
  }

  lemma SinkLive(r: Rib, sub: Option<Subscription>, s: Sink, snap: Option<seq<ServerMsg>>,
      sent: map<Sink, seq<Envelope>>)
    requires Live(r) && s.id in r.origins && s.session == r.origins[s.id]
    ensures sub.Some? && sub.value.id == s.id ==> Live(r.(subscribers := r.subscribers[sub.value := s], sent := sent))
    ensures Live(r.(sinks := r.sinks[s.id := s], globalSnap := snap, sent := sent))
  {
  }

  predicate IsRouteOp(op: Op) {
    op.OpUnsubscribe? || op.OpAnnounce? || op.OpWithdraw? || op.OpSetFence? || op.OpClearFence?
  }

  predicate IsTableOp(op: Op) { op.OpAnnounceNat? || op.OpWithdrawNat? || op.OpAnnouncePublic? || op.OpWithdrawPublic? }

  lemma RouteOpLive(t: Texts, r: Rib, op: Op)
    requires TablesOwned(r) && Live(r) && Legal(r, op) && FromCurrentSession(r, op) && IsRouteOp(op)
    ensures Live(Step(t, r, op))
  {
    hide Advertised, Refilter, Withdraw, Announce, TablesOwned, Contributes;
    match op
    case OpUnsubscribe(vni, id) =>
    case OpAnnounce(o, k, nhs, ext) => AnnounceOwned(t, r, o, k, nhs, ext);
    case OpWithdraw(o, k) => WithdrawOwned(t, r, o, k);
    case OpSetFence(text, order) =>
      var n := FenceNet(t, text);
      if n.Some? { RefilterOwned(t, r, r.fenced + {n.value}, order); }
    case OpClearFence(text, order) =>
      var n := FenceNet(t, text);
      if n.Some? { RefilterOwned(t, r, r.fenced - {n.value}, order); }
  }

  lemma TableOpLive(t: Texts, r: Rib, op: Op)
    requires Live(r) && FromCurrentSession(r, op) && IsTableOp(op)
    ensures Live(Step(t, r, op))
  {
    hide Put, Remove, Contributes, GlobalFanout;
    match op
    case OpAnnounceNat(o, b) =>
      var n := Put(r.nats, o, NatKeyOf(b), b);
      PutKeyed(r.nats, o, NatKeyOf(b), b);
      GlobalFanoutLive(r, n, r.publics, NatUpdate(b, true));
      assert r.(nats := n) == r.(nats := n, publics := r.publics);
    case OpWithdrawNat(o, k, permit) =>
      if NatVerdict(r, o, k, permit) == WithdrawApplied {
        var n := Remove(r.nats, o, k);
        RemoveKeyed(r.nats, o, k);
        GlobalFanoutLive(r, n, r.publics, NatUpdate(r.nats.recs[k], false));
        assert r.(nats := n) == r.(nats := n, publics := r.publics);
      }
    case OpAnnouncePublic(o, p) =>
      var n := Put(r.publics, o, PublicKeyOf(p), p);
      PutKeyed(r.publics, o, PublicKeyOf(p), p);
      GlobalFanoutLive(r, r.nats, n, PublicUpdate(p, true));
      assert r.(publics := n) == r.(nats := r.nats, publics := n);
    case OpWithdrawPublic(o, k, permit) =>
      if PublicVerdict(r, o, k, permit) == WithdrawApplied {
        var n := Remove(r.publics, o, k);
        RemoveKeyed(r.publics, o, k);
        GlobalFanoutLive(r, r.nats, n, PublicUpdate(r.publics.recs[k], false));
        assert r.(publics := n) == r.(nats := r.nats, publics := n);
      }
  }

  lemma StepLive(t: Texts, r: Rib, op: Op)
    requires TablesOwned(r) && Live(r) && Legal(r, op) && FromCurrentSession(r, op)
    ensures Live(Step(t, r, op))
  {
    hide Live, TablesOwned, DropOrigin, Withdraw, Announce, SetFence, ClearFence, Replay, GlobalReplay, Deliver,
         AnnounceNat, WithdrawNat, AnnouncePublic, WithdrawPublic, ClaimOrigin, ReleaseOrigin;
    match op
    case OpSubscribe(vni, s) =>
      SinkLive(r, Some(Subscription(vni, s.id)), s, None, Deliver(r.sent, {s}, Snapshot(Replay(t, r, vni))));
    case OpClaim(id, o) => ClaimLive(t, r, id, o);
    case OpRelease(id, token, o) => ReleaseLive(t, r, id, token, o);
    case OpRegister(s, nats, pubs) =>
      var snap := GlobalReplay(r, nats, pubs);
      SinkLive(r, None, s, Some(snap), Deliver(r.sent, {s}, Snapshot(snap)));
    case _ => if IsRouteOp(op) { RouteOpLive(t, r, op); } else { TableOpLive(t, r, op); }
  }

  lemma ClaimLive(t: Texts, r: Rib, id: string, o: Orders)
    requires TablesOwned(r) && Live(r) && WalksAll(r, id, o)
    ensures Live(ClaimOrigin(t, r, id, o))
  {
    hide DropOrigin, TablesOwned, Live, WalksAll;
    var r' := r.(nextToken := r.nextToken + 1, origins := r.origins[id := r.nextToken + 1]);
    var r'' := r'.(sinks := r'.sinks - {id});
    TablesOwnedFrame(r, r'');
    assert WalksAll(r'', id, o) by { assert WalksAll(r, id, o); WalksFrame(r, r'', id, o); }
    if id in r.origins {
      SupersedeLive(r, id);
      DropOriginLive(t, r'', id, o, r'.origins);
    } else {
      FirstClaimLive(r, id);
    }
  }

  lemma WalksFrame(r: Rib, r': Rib, id: string, o: Orders)
    requires WalksAll(r, id, o) && r'.byOrigin == r.byOrigin && r'.nats == r.nats && r'.publics == r.publics
    ensures WalksAll(r', id, o)
  {
  }

  lemma FirstClaimLive(r: Rib, id: string)
    requires Live(r) && id !in r.origins
    ensures Live(r.(nextToken := r.nextToken + 1, origins := r.origins[id := r.nextToken + 1]))
  {
  }

  lemma SupersedeLive(r: Rib, id: string)
    requires Live(r) && id in r.origins
    ensures var r' :=
            r.(nextToken := r.nextToken + 1, origins := r.origins[id := r.nextToken + 1], sinks := r.sinks - {id});
            && Live(r'.(origins := r'.origins[id := 0], subscribers := WithoutSubscriber(r'.subscribers, id)))
            && forall j :: j in r'.origins ==> r'.origins[j] <= r'.nextToken
  {
  }

  lemma ReleaseLive(t: Texts, r: Rib, id: string, token: nat, o: Orders)
    requires TablesOwned(r) && Live(r) && WalksAll(r, id, o)
    ensures Live(ReleaseOrigin(t, r, id, token, o))
  {
    hide DropOrigin, TablesOwned, Contributes;
    var r' := r.(origins := r.origins - {id}, sinks := r.sinks - {id});
    TablesOwnedFrame(r, r');
    DropOriginLive(t, r', id, o, r'.origins);
  }

  lemma TablesOwnedFrame(r: Rib, r': Rib)
    requires TablesOwned(r)
    requires r'.routes == r.routes && r'.byOrigin == r.byOrigin && r'.nats == r.nats && r'.publics == r.publics
    requires r'.globalSnap == r.globalSnap
    ensures TablesOwned(r')
  {
  }

  // ---------------------------------------------------------------- main theorems

  /** In every reachable state the per-origin sets are the exact inverses of the three tables, and a
      cached global replay is both tables with the right count. */
  lemma {:induction false} IndexesExact(t: Texts, run: seq<Rib>, ops: seq<Op>, n: nat)
    requires IsRun(t, run, ops) && n <= |ops|
    ensures TablesOwned(run[n])
  {
    if n > 0 {
      IndexesExact(t, run, ops, n - 1);
      StepOwned(t, run[n - 1], ops[n - 1]);
    }
  }

  /** If only current sessions call, everything stored belongs to a live session. */
  lemma {:induction false} StateBelongsToLiveSessions(t: Texts, run: seq<Rib>, ops: seq<Op>, n: nat)
    requires IsRun(t, run, ops) && n <= |ops|
    requires forall i :: 0 <= i < |ops| ==> FromCurrentSession(run[i], ops[i])
    ensures Live(run[n])
  {
    if n > 0 {
      StateBelongsToLiveSessions(t, run, ops, n - 1);
      IndexesExact(t, run, ops, n - 1);
      StepLive(t, run[n - 1], ops[n - 1]);
    }
  }

  lemma StaleSinkBreaks(t: Texts, r: Rib, op: Op)
    requires Live(r) && Legal(r, op) && (op.OpSubscribe? || op.OpRegister?) && !FromCurrentSession(r, op)
    ensures !Live(Step(t, r, op))
  {
    hide Replay, GlobalReplay, Deliver, Contributes;
    var r' := Step(t, r, op);
    match op
    case OpSubscribe(vni, s) =>
      var sub := Subscription(vni, s.id);
      assert sub in r'.subscribers && r'.subscribers[sub] == s;
    case OpRegister(s, _, _) => assert s.id in r'.sinks && r'.sinks[s.id] == s;
  }

  lemma StaleAnnounceBreaks(t: Texts, r: Rib, op: Op)
    requires Live(r) && TablesOwned(r) && Legal(r, op) && (op.OpAnnounce? || IsTableOp(op))
             && !FromCurrentSession(r, op)
    ensures !Live(Step(t, r, op))
  {
    hide Announce, Deliver, TablesOwned;
    var r' := Step(t, r, op);
    match op
    case OpAnnounce(o, k, nhs, ext) =>
      AnnounceEffect(t, r, o, k, nhs, ext);
      assert Contributes(r'.routes, o, k);
    case OpAnnounceNat(o, b) => assert r'.nats.origin[NatKeyOf(b)] == o;
    case OpAnnouncePublic(o, p) => assert r'.publics.origin[PublicKeyOf(p)] == o;
  }

  /** The condition is needed call by call: from a state all of whose parts belong to live sessions, a subscribe or
      registration leaves one such if and only if it comes from the current session of its node, an announce if and
      only if its node has one, and every other call does. */
  lemma StepLiveExactly(t: Texts, r: Rib, op: Op)
    requires TablesOwned(r) && Live(r) && Legal(r, op)
    ensures Live(Step(t, r, op)) <==> FromCurrentSession(r, op)
  {
    hide Live, TablesOwned, Step, Legal;
    if FromCurrentSession(r, op) {
      StepLive(t, r, op);
    } else if op.OpSubscribe? || op.OpRegister? {
      StaleSinkBreaks(t, r, op);
    } else {
      StaleAnnounceBreaks(t, r, op);
    }
  }

  const NoOrders := Orders([], [], [])

  /** A node connects, connects again and subscribes; its first stream, superseded but still read, subscribes late. */
  function LateSubscribe(id: string, vni: nat): seq<Op> {
    [OpClaim(id, NoOrders), OpClaim(id, NoOrders), OpSubscribe(vni, Sink(id, 2)), OpSubscribe(vni, Sink(id, 1))]
  }

  lemma EmptyTakeover(t: Texts, r: Rib, id: string)
    requires r == NewRib().(nextToken := 1, origins := map[id := 1])
    ensures ClaimOrigin(t, r, id, NoOrders) == NewRib().(nextToken := 2, origins := map[id := 2])
  {
    assert r.origins[id := 2] == map[id := 2];
    var r2 := NewRib().(nextToken := 2, origins := map[id := 2]);
    assert r2.byOrigin - {id} == map[] && r2.sinks - {id} == map[];
    assert WithoutSubscriber(r2.subscribers, id) == map[];
    assert DropAll(r2.nats, id, []) == r2.nats && DropAll(r2.publics, id, []) == r2.publics;
  }

  /** The late subscribe takes the successor's subscription: the reflector goes on feeding the old stream. */
  lemma LateSubscribeTakesOver(t: Texts, id: string, vni: nat) returns (run: seq<Rib>)
    ensures IsRun(t, run, LateSubscribe(id, vni))
    ensures run[4].origins == map[id := 2] && run[3].subscribers == map[Subscription(vni, id) := Sink(id, 2)]
    ensures run[4].subscribers == map[Subscription(vni, id) := Sink(id, 1)] && !Live(run[4])
  {
    hide Replay, Deliver, DropOrigin, Live;
    var r1 := NewRib().(nextToken := 1, origins := map[id := 1]);
    assert ClaimOrigin(t, NewRib(), id, NoOrders) == r1 by { assert NewRib().origins[id := 1] == map[id := 1]; }
    EmptyTakeover(t, r1, id);
    var r2 := NewRib().(nextToken := 2, origins := map[id := 2]);
    var r3 := Subscribe(t, r2, vni, Sink(id, 2));
    var r4 := Subscribe(t, r3, vni, Sink(id, 1));
    assert r3.subscribers == map[Subscription(vni, id) := Sink(id, 2)]
      && r4.subscribers == map[Subscription(vni, id) := Sink(id, 1)];
    assert !Live(r4) by { StaleSubscriber(r4, id, vni); }
    run := [NewRib(), r1, r2, r3, r4];
    LateSteps(t, id, vni, r1, r2, r3, r4);
  }

  lemma StaleSubscriber(r: Rib, id: string, vni: nat)
    requires r.origins == map[id := 2] && r.subscribers == map[Subscription(vni, id) := Sink(id, 1)]
    ensures !Live(r)
  {
    assert Subscription(vni, id) in r.subscribers;
  }

  lemma LateSteps(t: Texts, id: string, vni: nat, r1: Rib, r2: Rib, r3: Rib, r4: Rib)
    requires r1 == NewRib().(nextToken := 1, origins := map[id := 1])
             && r2 == NewRib().(nextToken := 2, origins := map[id := 2])
    requires r1 == ClaimOrigin(t, NewRib(), id, NoOrders) && r2 == ClaimOrigin(t, r1, id, NoOrders)
    requires r3 == Subscribe(t, r2, vni, Sink(id, 2)) && r4 == Subscribe(t, r3, vni, Sink(id, 1))
    ensures IsRun(t, [NewRib(), r1, r2, r3, r4], LateSubscribe(id, vni))
  {
    var run, ops := [NewRib(), r1, r2, r3, r4], LateSubscribe(id, vni);
    hide Subscribe, ClaimOrigin;
    assert Legal(run[0], ops[0]) && Legal(run[1], ops[1]) && Legal(run[2], ops[2]) && Legal(run[3], ops[3]);
    assert Step(t, run[0], ops[0]) == r1 && Step(t, run[1], ops[1]) == r2 && Step(t, run[2], ops[2]) == r3
      && Step(t, run[3], ops[3]) == r4;
    hide Step, Legal;
  }

  lemma {:induction false} WithdrawAllFrame(t: Texts, r: Rib, o: string, order: seq<RouteKey>)
    ensures WithdrawAll(t, r, o, order).(routes := r.routes, sent := r.sent) == r
  {
    hide WithdrawRouteOrigin;
    if order != [] {
      WithdrawAllFrame(t, r, o, order[..|order| - 1]);
      WithdrawFrame(t, WithdrawAll(t, r, o, order[..|order| - 1]), order[|order| - 1], o);
    }
  }

  lemma DropOriginTokens(t: Texts, r: Rib, o: string, ord: Orders)
    ensures var r' := DropOrigin(t, r, o, ord); r'.origins == r.origins && r'.nextToken == r.nextToken
  {
    hide WithdrawAll, DropNat, DropPublic, DropAll;
    var r0 := r.(byOrigin := r.byOrigin - {o});
    WithdrawAllFrame(t, r0, o, ord.routes);
    var r1 := WithdrawAll(t, r0, o, ord.routes);
    var r2 := r1.(subscribers := WithoutSubscriber(r1.subscribers, o));
    DropNatTable(r2, o, ord.nats);
    DropPublicTable(DropNat(r2, o, ord.nats), o, ord.pubs);
  }

  /** Operations other than claims and releases leave the session tokens alone. */
  lemma QuietTokens(t: Texts, r: Rib, op: Op)
    requires Legal(r, op) && !op.OpClaim? && !op.OpRelease?
    ensures Step(t, r, op).origins == r.origins && Step(t, r, op).nextToken == r.nextToken
  {
    hide Announce, WithdrawRouteOrigin, SetFence, ClearFence, Replay, GlobalReplay, Deliver, Put, Remove, NatVerdict,
         PublicVerdict,
         ClaimOrigin, ReleaseOrigin, SinksOf, Unindexed;
    match op
    case OpAnnounce(o, k, nhs, ext) => AnnounceEffect(t, r, o, k, nhs, ext);
    case OpWithdraw(o, k) => WithdrawFrame(t, r.(byOrigin := Unindexed(r.byOrigin, o, k)), k, o);
    case OpSetFence(text, order) => FenceTokens(t, r, text, order);
    case OpClearFence(text, order) => FenceTokens(t, r, text, order);
    case _ =>
  }

  lemma FenceTokens(t: Texts, r: Rib, text: string, order: seq<RouteKey>)
    ensures SetFence(t, r, text, order).origins == r.origins == ClearFence(t, r, text, order).origins
    ensures SetFence(t, r, text, order).nextToken == r.nextToken == ClearFence(t, r, text, order).nextToken
  {
    hide Refilter;
    var n := FenceNet(t, text);
    if n.Some? {
      RefilterFrame(t, r, r.fenced + {n.value}, order);
      RefilterFrame(t, r, r.fenced - {n.value}, order);
    }
  }

  lemma StepTokens(t: Texts, r: Rib, op: Op)
    requires Legal(r, op)
    ensures var r' := Step(t, r, op);
            && r.nextToken <= r'.nextToken
            && (forall id :: id in r'.origins && !(op.OpClaim? && op.id == id) ==>
               id in r.origins && r'.origins[id] == r.origins[id])
            && (op.OpClaim? ==> op.id in r'.origins && r'.origins[op.id] == r.nextToken + 1 == r'.nextToken)
  {
    hide DropOrigin, Announce, Withdraw, SetFence, ClearFence, Subscribe, RegisterSink, WithdrawNat, WithdrawPublic,
         AnnounceNat, AnnouncePublic;
    match op
    case OpClaim(id, o) =>
      var r' := r.(nextToken := r.nextToken + 1, origins := r.origins[id := r.nextToken + 1]);
      DropOriginTokens(t, r'.(sinks := r'.sinks - {id}), id, o);
    case OpRelease(id, token, o) =>
      DropOriginTokens(t, r.(origins := r.origins - {id}, sinks := r.sinks - {id}), id, o);
    case _ => QuietTokens(t, r, op);
  }

  lemma {:induction false} TokensGrow(t: Texts, run: seq<Rib>, ops: seq<Op>, id: string, token: nat, j: nat, n: nat)
    requires IsRun(t, run, ops) && j <= n <= |ops|
    requires token <= run[j].nextToken && (id in run[j].origins ==> run[j].origins[id] > token)
    ensures token <= run[n].nextToken && (id in run[n].origins ==> run[n].origins[id] > token)
  {
    hide Step, Legal;
    if j < n {
      TokensGrow(t, run, ops, id, token, j, n - 1);
      StepTokens(t, run[n - 1], ops[n - 1]);
    }
  }

  /** Once another session has claimed its node id, a session's release changes nothing, ever. */
  lemma SupersededReleaseIsNoOp(t: Texts, run: seq<Rib>, ops: seq<Op>, i: nat, j: nat, o: Orders)
    requires IsRun(t, run, ops) && i < j < |ops|
    requires ops[i].OpClaim? && ops[j].OpClaim? && ops[i].id == ops[j].id
    requires WalksAll(run[|ops|], ops[i].id, o)
    ensures var token := run[i].nextToken + 1;
            && ops[i].id in run[i + 1].origins && run[i + 1].origins[ops[i].id] == token
            && ReleaseOrigin(t, run[|ops|], ops[i].id, token, o) == run[|ops|]
  {
    var id, token := ops[i].id, run[i].nextToken + 1;
    StepTokens(t, run[i], ops[i]);
    TokensMonotone(t, run, ops, i + 1, j);
    StepTokens(t, run[j], ops[j]);
    TokensGrow(t, run, ops, id, token, j + 1, |ops|);
  }

  lemma {:induction false} TokensMonotone(t: Texts, run: seq<Rib>, ops: seq<Op>, i: nat, n: nat)
    requires IsRun(t, run, ops) && i <= n <= |ops|
    ensures run[i].nextToken <= run[n].nextToken
  {
    hide Step, Legal;
    if i < n {
      TokensMonotone(t, run, ops, i, n - 1);
      StepTokens(t, run[n - 1], ops[n - 1]);
    }
  }
}
