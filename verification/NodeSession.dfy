/** A node's session driver against the reflector, message by message: the driver diffs, sends, and
    reconnects; the reflector checks each message against the session's certificate and applies it. */
module NodeSession {
  import opened Order
  import opened RouteBus
  import opened OwnedTable
  import opened RibState
  import opened RibViews
  import opened RibOwnership
  import opened Lockstep
  import D = DesiredDiff

  datatype ClientMsg =
    | MsgSubscribe(vni: nat)
    | MsgUnsubscribe(vni: nat)
    | MsgAnnounce(route: D.Route, extra: seq<string>)
    | MsgWithdraw(key: RouteKey)
    | MsgAnnounceNat(block: NatBlock)
    | MsgWithdrawNat(ref: D.NatRef)
    | MsgAnnouncePublic(rec: PublicRecord)
    | MsgWithdrawPublic(rec: PublicRecord)

  /** What the session's client certificate speaks for, and the address part of a prefix. */
  datatype Guard = Guard(permits: string -> bool, host: string -> string)

  // ---------------------------------------------------------------- the reflector's side

  predicate RecordAllowed(g: Guard, p: PublicRecord) {
    g.permits(p.ownerUnderlay) && (p.kind == EdgeUnderlay ==> g.permits(g.host(p.prefix)))
  }

  /** The RIB operation a message becomes; none when the certificate does not cover it. */
  function OpFor(g: Guard, sink: Sink, m: ClientMsg): Option<Op> {
    match m
    case MsgSubscribe(vni) => Some(OpSubscribe(vni, sink))
    case MsgUnsubscribe(vni) => Some(OpUnsubscribe(vni, sink.id))
    case MsgAnnounce(r, extra) =>
      var nexthops := [r.nexthop] + extra;
      if forall i :: 0 <= i < |nexthops| ==> g.permits(nexthops[i])
      then Some(OpAnnounce(sink.id, D.RouteRefOf(r), nexthops, r.external)) else None
    case MsgWithdraw(k) => Some(OpWithdraw(sink.id, k))
    case MsgAnnounceNat(b) => if g.permits(b.ownerUnderlay) then Some(OpAnnounceNat(sink.id, b)) else None
    case MsgWithdrawNat(ref) => Some(OpWithdrawNat(sink.id, NatKey(ref.natIP, ref.portMin), g.permits))
    case MsgAnnouncePublic(p) => if RecordAllowed(g, p) then Some(OpAnnouncePublic(sink.id, p)) else None
    case MsgWithdrawPublic(p) => Some(OpWithdrawPublic(sink.id, PublicKeyOf(p), g.permits))
  }

  ghost function Handle(t: Texts, r: Rib, g: Guard, sink: Sink, m: ClientMsg): Rib {
    match OpFor(g, sink, m)
    case None => r
    case Some(op) => Step(t, r, op)
  }

  function AbsorbMsg(c: Contribution, g: Guard, sink: Sink, m: ClientMsg): Contribution {
    match OpFor(g, sink, m)
    case None => c
    case Some(op) => Absorb(c, op)
  }

  function AbsorbAll(c: Contribution, g: Guard, sink: Sink, ms: seq<ClientMsg>): Contribution
    decreases |ms|
  {
    if ms == [] then c else AbsorbAll(AbsorbMsg(c, g, sink, ms[0]), g, sink, ms[1..])
  }

  lemma {:induction false} AbsorbConcat(c: Contribution, g: Guard, sink: Sink, a: seq<ClientMsg>, b: seq<ClientMsg>)
    ensures AbsorbAll(c, g, sink, a + b) == AbsorbAll(AbsorbAll(c, g, sink, a), g, sink, b)
    decreases |a|
  {
    if a == [] {
      assert a + b == b;
    } else {
      assert (a + b)[1..] == a[1..] + b && (a + b)[0] == a[0];
      AbsorbConcat(AbsorbMsg(c, g, sink, a[0]), g, sink, a[1..], b);
    }
  }

  /** Handling one message of the node's own moves its contribution as AbsorbMsg says. */
  lemma HandleAbsorbs(t: Texts, r: Rib, g: Guard, sink: Sink, m: ClientMsg)
    requires TablesOwned(r)
    ensures From(Handle(t, r, g, sink, m), sink.id) == AbsorbMsg(From(r, sink.id), g, sink, m)
    ensures TablesOwned(Handle(t, r, g, sink, m)) && Handle(t, r, g, sink, m).origins == r.origins
  {
    hide From, Absorb, TablesOwned, Step;
    match OpFor(g, sink, m)
    case None =>
    case Some(op) =>
      OwnStep(t, r, sink.id, op);
      StepOwned(t, r, op);
      PlainOrigins(t, r, op);
  }

  lemma PlainOrigins(t: Texts, r: Rib, op: Op)
    requires Plain(op)
    ensures Step(t, r, op).origins == r.origins
  {
    hide Advertised, Replay, Deliver, Audience, Put, Remove;
  }

  // ---------------------------------------------------------------- the driver's side

  /** One message per element. */
  function Each<T>(xs: seq<T>, f: T -> ClientMsg): (ms: seq<ClientMsg>)
    ensures |ms| == |xs| && forall i :: 0 <= i < |xs| ==> ms[i] == f(xs[i])
  {
    if xs == [] then [] else Each(xs[..|xs| - 1], f) + [f(xs[|xs| - 1])]
  }

  // The message each part of a delta is sent as.

  function Subscribing(vni: nat): ClientMsg { MsgSubscribe(vni) }

  function Unsubscribing(vni: nat): ClientMsg { MsgUnsubscribe(vni) }

  function Announcing(r: D.Route): ClientMsg { MsgAnnounce(r, []) }

  function AnnouncingNat(b: NatBlock): ClientMsg { MsgAnnounceNat(b) }

  function AnnouncingPublic(p: PublicRecord): ClientMsg { MsgAnnouncePublic(p) }

  function Withdrawing(k: RouteKey): ClientMsg { MsgWithdraw(k) }

  function WithdrawingNat(k: D.NatRef): ClientMsg { MsgWithdrawNat(k) }

  function WithdrawingPublic(p: PublicRecord): ClientMsg { MsgWithdrawPublic(p) }

  function Announces(d: D.BusDelta): seq<ClientMsg> {
    Each(d.announceR, Announcing) + (Each(d.announceN, AnnouncingNat) + Each(d.announceP, AnnouncingPublic))
  }

  function Withdraws(d: D.BusDelta): seq<ClientMsg> {
    Each(d.withdrawR, Withdrawing) + (Each(d.withdrawN, WithdrawingNat) + Each(d.withdrawP, WithdrawingPublic))
  }

  /** sendDelta: subscribes and announces first, then withdraws and unsubscribes. */
  function Messages(d: D.BusDelta): seq<ClientMsg> {
    Each(d.subscribe, Subscribing) + (Announces(d) + (Withdraws(d) + Each(d.unsubscribe, Unsubscribing)))
  }

  /** What the reflector should store for a desired set. */
  function Wanted(s: D.DesiredState): Contribution {
    Contribution(PutAll(map[], s.routes, D.RouteRefOf, NexthopsOf), PutAll(map[], s.nats, NatKeyOf, Same),
                 PutAll(map[], s.pubs, PublicKeyOf, Same))
  }

  function NexthopsOf(r: D.Route): seq<string> { [r.nexthop] }

  function Same<T>(x: T): T { x }

  const Nothing := D.DesiredState([], [], [], [])

  /** A desired set as the node's reconcile builds it, duplicates included: no '|' in a public record's
      addresses, and only what the node's certificate speaks for. */
  ghost predicate WellFormed(g: Guard, s: D.DesiredState) {
    && (forall p :: p in s.pubs ==> D.NoBar(p.prefix) && D.NoBar(p.ownerUnderlay) && RecordAllowed(g, p))
    && (forall r :: r in s.routes ==> g.permits(r.nexthop))
    && (forall b :: b in s.nats ==> g.permits(b.ownerUnderlay))
  }

  /** The two sets' lists settle, kind by kind. */
  ghost predicate Settled(applied: D.DesiredState, next: D.DesiredState) {
    && Settles(applied.routes, next.routes, D.RouteRefOf, D.RouteRefOf, NexthopsOf)
    && Settles(applied.nats, next.nats, D.NatRefOf, NatKeyOf, Same)
    && Settles(applied.pubs, next.pubs, D.PubKey, PublicKeyOf, Same)
  }

  /** Records that the reflector stores under one key are the same record. */
  ghost predicate Agreeing(s: D.DesiredState) {
    D.Agrees(s.routes, D.RouteRefOf) && D.Agrees(s.nats, NatKeyOf) && D.Agrees(s.pubs, PublicKeyOf)
  }

  /** No block that is leaving starts at the address and port of one that is wanted. */
  ghost predicate NatStable(applied: D.DesiredState, next: D.DesiredState) {
    NoneCollides(applied.nats, next.nats, D.NatRefOf, NatKeyOf)
  }

  // ---------------------------------------------------------------- absorbing one kind of message

  lemma AbsorbLast<T>(c: Contribution, g: Guard, sink: Sink, xs: seq<T>, f: T -> ClientMsg)
    requires xs != []
    ensures var x := xs[|xs| - 1];
            AbsorbAll(c, g, sink, Each(xs, f)) ==
              AbsorbMsg(AbsorbAll(c, g, sink, Each(xs[..|xs| - 1], f)), g, sink, f(x))
  {
    hide AbsorbMsg;
    var init, x := xs[..|xs| - 1], xs[|xs| - 1];
    AbsorbConcat(c, g, sink, Each(init, f), [f(x)]);
    var c' := AbsorbAll(c, g, sink, Each(init, f));
    assert AbsorbAll(c', g, sink, [f(x)]) == AbsorbMsg(c', g, sink, f(x)) by {
      assert [f(x)][1..] == [];
    }
  }

  lemma {:induction false} AbsorbSubscribes(c: Contribution, g: Guard, sink: Sink, vs: seq<nat>)
    ensures AbsorbAll(c, g, sink, Each(vs, Subscribing)) == c
    ensures AbsorbAll(c, g, sink, Each(vs, Unsubscribing)) == c
  {
    if vs != [] {
      AbsorbSubscribes(c, g, sink, vs[..|vs| - 1]);
      AbsorbLast(c, g, sink, vs, Subscribing);
      AbsorbLast(c, g, sink, vs, Unsubscribing);
    }
  }

  lemma {:induction false} AbsorbRoutes(c: Contribution, g: Guard, sink: Sink, rs: seq<D.Route>)
    requires forall r :: r in rs ==> g.permits(r.nexthop)
    ensures AbsorbAll(c, g, sink, Each(rs, Announcing)) == c.(routes := PutAll(c.routes, rs, D.RouteRefOf, NexthopsOf))
  {
    if rs != [] {
      var r := rs[|rs| - 1];
      AbsorbRoutes(c, g, sink, rs[..|rs| - 1]);
      assert r in rs;
      AbsorbRoute(AbsorbAll(c, g, sink, Each(rs[..|rs| - 1], Announcing)), g, sink, r);
      AbsorbLast(c, g, sink, rs, Announcing);
      hide AbsorbMsg, AbsorbAll;
    }
  }

  lemma AbsorbRoute(c: Contribution, g: Guard, sink: Sink, r: D.Route)
    requires g.permits(r.nexthop)
    ensures AbsorbMsg(c, g, sink, Announcing(r)) == c.(routes := c.routes[D.RouteRefOf(r) := [r.nexthop]])
  {
    assert [r.nexthop] + [] == [r.nexthop];
  }

  lemma {:induction false} AbsorbNats(c: Contribution, g: Guard, sink: Sink, bs: seq<NatBlock>)
    requires forall b :: b in bs ==> g.permits(b.ownerUnderlay)
    ensures AbsorbAll(c, g, sink, Each(bs, AnnouncingNat)) == c.(nats := PutAll(c.nats, bs, NatKeyOf, Same))
  {
    if bs != [] {
      AbsorbNats(c, g, sink, bs[..|bs| - 1]);
      AbsorbLast(c, g, sink, bs, AnnouncingNat);
    }
  }

  lemma {:induction false} AbsorbPublics(c: Contribution, g: Guard, sink: Sink, ps: seq<PublicRecord>)
    requires forall p :: p in ps ==> RecordAllowed(g, p)
    ensures AbsorbAll(c, g, sink, Each(ps, AnnouncingPublic)) == c.(pubs := PutAll(c.pubs, ps, PublicKeyOf, Same))
  {
    if ps != [] {
      AbsorbPublics(c, g, sink, ps[..|ps| - 1]);
      AbsorbLast(c, g, sink, ps, AnnouncingPublic);
    }
  }

  lemma {:induction false} AbsorbRouteWithdraws(c: Contribution, g: Guard, sink: Sink, ks: seq<RouteKey>)
    ensures AbsorbAll(c, g, sink, Each(ks, Withdrawing)) == c.(routes := c.routes - set k | k in ks)
  {
    hide AbsorbAll, Each;
    if ks != [] {
      var init, k := ks[..|ks| - 1], ks[|ks| - 1];
      AbsorbRouteWithdraws(c, g, sink, init);
      AbsorbLast(c, g, sink, ks, Withdrawing);
      assert ks == init + [k];
      assert (set k | k in ks) == (set k | k in init) + {k};
      LessOneMore(c.routes, (set j | j in init), k);
    } else {
      assert (set k | k in ks) == {} && Each(ks, Withdrawing) == [];
      AbsorbNothing(c, g, sink);
    }
  }

  /** Taking one key more away; a key that is not there may be taken away too. */
  lemma LessOneMore<K, V>(m: map<K, V>, gone: set<K>, k: K)
    ensures m - (gone + {k}) == (m - gone) - {k}
    ensures k !in m - gone ==> m - (gone + {k}) == m - gone
  {
  }

  lemma AbsorbNothing(c: Contribution, g: Guard, sink: Sink)
    ensures AbsorbAll(c, g, sink, []) == c && c.routes - {} == c.routes && c.nats - {} == c.nats
            && c.pubs - {} == c.pubs
  {
  }

  function NatRefKey(ref: D.NatRef): NatKey { NatKey(ref.natIP, ref.portMin) }

  function NatKeysOf(refs: seq<D.NatRef>): set<NatKey> { set ref | ref in refs :: NatRefKey(ref) }

  lemma {:induction false} AbsorbNatWithdraws(c: Contribution, g: Guard, sink: Sink, refs: seq<D.NatRef>)
    requires forall k :: k in c.nats ==> g.permits(c.nats[k].ownerUnderlay)
    ensures AbsorbAll(c, g, sink, Each(refs, WithdrawingNat)) == c.(nats := c.nats - NatKeysOf(refs))
  {
    hide AbsorbAll, Each;
    if refs != [] {
      var init, ref := refs[..|refs| - 1], refs[|refs| - 1];
      AbsorbNatWithdraws(c, g, sink, init);
      AbsorbLast(c, g, sink, refs, WithdrawingNat);
      assert refs == init + [ref];
      assert NatKeysOf(refs) == NatKeysOf(init) + {NatRefKey(ref)};
      LessOneMore(c.nats, NatKeysOf(init), NatRefKey(ref));
      hide NatKeysOf;
    } else {
      assert NatKeysOf(refs) == {} && Each(refs, WithdrawingNat) == [];
      AbsorbNothing(c, g, sink);
    }
  }

  function PublicKeysOf(ps: seq<PublicRecord>): set<PublicKey> { set p | p in ps :: PublicKeyOf(p) }

  lemma {:induction false} AbsorbPublicWithdraws(c: Contribution, g: Guard, sink: Sink, ps: seq<PublicRecord>)
    requires forall k :: k in c.pubs ==> g.permits(c.pubs[k].ownerUnderlay)
    ensures AbsorbAll(c, g, sink, Each(ps, WithdrawingPublic)) == c.(pubs := c.pubs - PublicKeysOf(ps))
  {
    hide AbsorbAll, Each;
    if ps != [] {
      var init, p := ps[..|ps| - 1], ps[|ps| - 1];
      AbsorbPublicWithdraws(c, g, sink, init);
      AbsorbLast(c, g, sink, ps, WithdrawingPublic);
      assert ps == init + [p];
      assert PublicKeysOf(ps) == PublicKeysOf(init) + {PublicKeyOf(p)};
      LessOneMore(c.pubs, PublicKeysOf(init), PublicKeyOf(p));
      hide PublicKeysOf;
    } else {
      assert PublicKeysOf(ps) == {} && Each(ps, WithdrawingPublic) == [];
      AbsorbNothing(c, g, sink);
    }
  }

  // ---------------------------------------------------------------- absorbing a whole delta

  /** The contribution after every put and then every remove of a delta. */
  function AfterDelta(c: Contribution, d: D.BusDelta): Contribution {
    Contribution(PutAll(c.routes, d.announceR, D.RouteRefOf, NexthopsOf) - (set k | k in d.withdrawR),
                 PutAll(c.nats, d.announceN, NatKeyOf, Same) - NatKeysOf(d.withdrawN),
                 PutAll(c.pubs, d.announceP, PublicKeyOf, Same) - PublicKeysOf(d.withdrawP))
  }

  ghost predicate Covered(g: Guard, c: Contribution) {
    && (forall k :: k in c.nats ==> g.permits(c.nats[k].ownerUnderlay))
    && (forall k :: k in c.pubs ==> g.permits(c.pubs[k].ownerUnderlay))
  }

  ghost predicate DeltaAllowed(g: Guard, d: D.BusDelta) {
    && (forall r :: r in d.announceR ==> g.permits(r.nexthop))
    && (forall b :: b in d.announceN ==> g.permits(b.ownerUnderlay))
    && (forall p :: p in d.announceP ==> RecordAllowed(g, p))
  }

  lemma {:induction false} PutAllPermitted<S, V>(m: map<S, V>, vs: seq<V>, sk: V -> S, owner: V -> string, g: Guard)
    requires forall k :: k in m ==> g.permits(owner(m[k]))
    requires forall v :: v in vs ==> g.permits(owner(v))
    ensures forall k :: k in PutAll(m, vs, sk, Same) ==> g.permits(owner(PutAll(m, vs, sk, Same)[k]))
  {
    if vs != [] {
      PutAllPermitted(m, vs[..|vs| - 1], sk, owner, g);
      assert vs[|vs| - 1] in vs;
    }
  }

  lemma AnnouncesAbsorbed(c: Contribution, g: Guard, sink: Sink, d: D.BusDelta)
    requires Covered(g, c) && DeltaAllowed(g, d)
    ensures var c' := AbsorbAll(c, g, sink, Announces(d));
            && c' == Contribution(PutAll(c.routes, d.announceR, D.RouteRefOf, NexthopsOf),
                                  PutAll(c.nats, d.announceN, NatKeyOf, Same),
                                    PutAll(c.pubs, d.announceP, PublicKeyOf, Same))
            && Covered(g, c')
  {
    hide AbsorbAll, PutAll, Each;
    var rs, ns, ps := Each(d.announceR, Announcing), Each(d.announceN, AnnouncingNat),
      Each(d.announceP, AnnouncingPublic);
    AbsorbConcat(c, g, sink, rs, ns + ps);
    AbsorbRoutes(c, g, sink, d.announceR);
    var c1 := AbsorbAll(c, g, sink, rs);
    AbsorbConcat(c1, g, sink, ns, ps);
    AbsorbNats(c1, g, sink, d.announceN);
    AbsorbPublics(AbsorbAll(c1, g, sink, ns), g, sink, d.announceP);
    PutAllPermitted(c.nats, d.announceN, NatKeyOf, (b: NatBlock) => b.ownerUnderlay, g);
    PutAllPermitted(c.pubs, d.announceP, PublicKeyOf, (p: PublicRecord) => p.ownerUnderlay, g);
  }

  lemma WithdrawsAbsorbed(c: Contribution, g: Guard, sink: Sink, d: D.BusDelta)
    requires Covered(g, c)
    ensures AbsorbAll(c, g, sink, Withdraws(d)) ==
            Contribution(c.routes - (set k | k in d.withdrawR), c.nats - NatKeysOf(d.withdrawN),
              c.pubs - PublicKeysOf(d.withdrawP))
  {
    hide AbsorbAll, Each, NatKeysOf, PublicKeysOf;
    var rs, ns, ps := Each(d.withdrawR, Withdrawing), Each(d.withdrawN, WithdrawingNat),
      Each(d.withdrawP, WithdrawingPublic);
    AbsorbConcat(c, g, sink, rs, ns + ps);
    AbsorbRouteWithdraws(c, g, sink, d.withdrawR);
    var c1 := AbsorbAll(c, g, sink, rs);
    AbsorbConcat(c1, g, sink, ns, ps);
    AbsorbNatWithdraws(c1, g, sink, d.withdrawN);
    AbsorbPublicWithdraws(AbsorbAll(c1, g, sink, ns), g, sink, d.withdrawP);
  }

  lemma DeltaAbsorbed(c: Contribution, g: Guard, sink: Sink, d: D.BusDelta)
    requires Covered(g, c) && DeltaAllowed(g, d)
    ensures AbsorbAll(c, g, sink, Messages(d)) == AfterDelta(c, d)
  {
    hide AbsorbAll, Each, Announces, Withdraws, PutAll, NatKeysOf, PublicKeysOf, DeltaAllowed;
    var subs, unsubs := Each(d.subscribe, Subscribing), Each(d.unsubscribe, Unsubscribing);
    AbsorbConcat(c, g, sink, subs, Announces(d) + (Withdraws(d) + unsubs));
    AbsorbSubscribes(c, g, sink, d.subscribe);
    AbsorbConcat(c, g, sink, Announces(d), Withdraws(d) + unsubs);
    AnnouncesAbsorbed(c, g, sink, d);
    var c1 := AbsorbAll(c, g, sink, Announces(d));
    AbsorbConcat(c1, g, sink, Withdraws(d), unsubs);
    WithdrawsAbsorbed(c1, g, sink, d);
    AbsorbSubscribes(AbsorbAll(c1, g, sink, Withdraws(d)), g, sink, d.unsubscribe);
  }

  // ---------------------------------------------------------------- one tick

  /** The keys a diff withdraws, seen through the store's key. */
  lemma GoneIsWithdrawn<K(!new), S(!new), V(!new)>(applied: seq<V>, next: seq<V>, dk: V -> K, sk: V -> S, ks: seq<K>,
      name: K -> S, gone: set<S>)
    requires forall s :: s in gone <==> exists k :: k in ks && name(k) == s
    requires Enumerates(ks, D.Keyed(applied, dk).Keys - D.Keyed(next, dk).Keys)
    requires forall v :: v in applied ==> name(dk(v)) == sk(v)
    ensures Withdrawn(gone, applied, next, dk, sk)
  {
    hide D.Keyed;
    forall k ensures k in ks <==> exists i :: Leaves(applied, next, dk, i) && dk(applied[i]) == k {
      LeavingKeys(applied, next, dk, ks, k);
    }
    forall s ensures s in gone <==> exists i :: Leaves(applied, next, dk, i) && sk(applied[i]) == s {
      if s in gone {
        var k :| k in ks && name(k) == s;
        var i :| Leaves(applied, next, dk, i) && dk(applied[i]) == k;
        assert applied[i] in applied && sk(applied[i]) == s;
      }
      if i :| Leaves(applied, next, dk, i) && sk(applied[i]) == s {
        assert applied[i] in applied && dk(applied[i]) in ks;
      }
    }
  }

  lemma LeavingKeys<K(!new), V(!new)>(applied: seq<V>, next: seq<V>, dk: V -> K, ks: seq<K>, k: K)
    requires Enumerates(ks, D.Keyed(applied, dk).Keys - D.Keyed(next, dk).Keys)
    ensures k in ks <==> exists i :: Leaves(applied, next, dk, i) && dk(applied[i]) == k
  {
    hide D.Keyed;
    assert k in ks <==> k in D.Keyed(applied, dk).Keys - D.Keyed(next, dk).Keys;
    D.KeyedMembership(applied, dk, k);
    D.KeyedMembership(next, dk, k);
    if k in ks {
      var i :| 0 <= i < |applied| && dk(applied[i]) == k;
      assert Leaves(applied, next, dk, i);
    }
  }

  lemma RoutesExact(applied: D.DesiredState, next: D.DesiredState, d: D.BusDelta)
    requires D.DeltaOf(applied, next, d)
    ensures AfterDelta(Wanted(applied), d).routes == Wanted(next).routes <==>
            Settles(applied.routes, next.routes, D.RouteRefOf, D.RouteRefOf, NexthopsOf)
  {
    hide PutAll, D.Keyed, D.Changed, Settles;
    var gone := set k | k in d.withdrawR;
    assert forall s :: s in gone <==> exists k :: k in d.withdrawR && Same(k) == s;
    GoneIsWithdrawn(applied.routes, next.routes, D.RouteRefOf, D.RouteRefOf, d.withdrawR, Same, gone);
    DiffExact(applied.routes, next.routes, D.RouteRefOf, D.RouteRefOf, NexthopsOf, gone);
  }

  lemma NatsExact(applied: D.DesiredState, next: D.DesiredState, d: D.BusDelta)
    requires D.DeltaOf(applied, next, d)
    ensures AfterDelta(Wanted(applied), d).nats == Wanted(next).nats <==>
            Settles(applied.nats, next.nats, D.NatRefOf, NatKeyOf, Same)
  {
    hide PutAll, D.Keyed, D.Changed, Settles;
    assert forall s :: s in NatKeysOf(d.withdrawN) <==> exists k :: k in d.withdrawN && NatRefKey(k) == s;
    GoneIsWithdrawn(applied.nats, next.nats, D.NatRefOf, NatKeyOf, d.withdrawN, NatRefKey, NatKeysOf(d.withdrawN));
    DiffExact(applied.nats, next.nats, D.NatRefOf, NatKeyOf, Same, NatKeysOf(d.withdrawN));
  }

  /** The withdrawn public records, by their store keys. */
  lemma PublicGone(applied: seq<PublicRecord>, next: seq<PublicRecord>, ps: seq<PublicRecord>)
    requires Finer(D.PubKey, PublicKeyOf, applied)
    requires D.WithdrawsRecords(ps, D.Keyed(applied, D.PubKey), D.Keyed(next, D.PubKey).Keys)
    ensures Withdrawn(PublicKeysOf(ps), applied, next, D.PubKey, PublicKeyOf)
  {
    hide D.Keyed, D.PubKey, PublicKeyOf;
    var prev, now := D.Keyed(applied, D.PubKey), D.Keyed(next, D.PubKey);
    forall s
      ensures s in PublicKeysOf(ps) <==> exists i :: Leaves(applied, next, D.PubKey, i) && PublicKeyOf(applied[i]) == s
    {
      if s in PublicKeysOf(ps) {
        var p :| p in ps && PublicKeyOf(p) == s;
        var k :| k in prev && k !in now && prev[k] == p;
        var i := D.KeyedComesFrom(applied, D.PubKey, k);
        D.KeyedMembership(next, D.PubKey, k);
        assert Leaves(applied, next, D.PubKey, i);
      }
      if i :| Leaves(applied, next, D.PubKey, i) && PublicKeyOf(applied[i]) == s {
        var k := D.PubKey(applied[i]);
        D.KeyedMembership(applied, D.PubKey, k);
        D.KeyedMembership(next, D.PubKey, k);
        var last := D.KeyedComesFrom(applied, D.PubKey, k);
        assert applied[i] in applied && applied[last] in applied;
        assert prev[k] in ps;
      }
    }
  }

  lemma PublicsExact(g: Guard, applied: D.DesiredState, next: D.DesiredState, d: D.BusDelta)
    requires WellFormed(g, applied) && WellFormed(g, next) && D.DeltaOf(applied, next, d)
    ensures AfterDelta(Wanted(applied), d).pubs == Wanted(next).pubs <==>
            Settles(applied.pubs, next.pubs, D.PubKey, PublicKeyOf, Same)
  {
    hide PutAll, D.Keyed, D.Changed, D.PubKey, PublicKeyOf, D.NoBar, Settles;
    PublicKeysNamed(g, applied, next);
    PublicGone(applied.pubs, next.pubs, d.withdrawP);
    DiffExact(applied.pubs, next.pubs, D.PubKey, PublicKeyOf, Same, PublicKeysOf(d.withdrawP));
  }

  /** The printed keys and the store's keys tell the same of both sets' public records. */
  lemma PublicKeysNamed(g: Guard, applied: D.DesiredState, next: D.DesiredState)
    requires WellFormed(g, applied) && WellFormed(g, next)
    ensures Finer(D.PubKey, PublicKeyOf, applied.pubs) && Finer(D.PubKey, PublicKeyOf, applied.pubs + next.pubs)
    ensures Finer(PublicKeyOf, D.PubKey, applied.pubs + next.pubs)
  {
    hide D.PubKey, PublicKeyOf, D.NoBar;
    var both := applied.pubs + next.pubs;
    forall p, q | p in both && q in both ensures D.PubKey(p) == D.PubKey(q) <==> PublicKeyOf(p) == PublicKeyOf(q) {
      D.PubKeyNames(p, q);
    }
    assert forall p :: p in applied.pubs ==> p in both;
  }

  lemma WantedCovered(g: Guard, s: D.DesiredState)
    requires WellFormed(g, s)
    ensures Covered(g, Wanted(s))
  {
    PutAllPermitted(map[], s.nats, NatKeyOf, (b: NatBlock) => b.ownerUnderlay, g);
    PutAllPermitted(map[], s.pubs, PublicKeyOf, (p: PublicRecord) => p.ownerUnderlay, g);
  }

  lemma DeltaIsAllowed(g: Guard, applied: D.DesiredState, next: D.DesiredState, d: D.BusDelta)
    requires WellFormed(g, next) && D.DeltaOf(applied, next, d)
    ensures DeltaAllowed(g, d)
  {
    hide D.Keyed, D.Changed, D.PubKey;
    forall r ensures r in d.announceR ==> r in next.routes {
      D.ChangedMembership(D.Keyed(applied.routes, D.RouteRefOf), next.routes, D.RouteRefOf, r);
    }
    forall b ensures b in d.announceN ==> b in next.nats {
      D.ChangedMembership(D.Keyed(applied.nats, D.NatRefOf), next.nats, D.NatRefOf, b);
    }
    forall p ensures p in d.announceP ==> p in next.pubs {
      D.ChangedMembership(D.Keyed(applied.pubs, D.PubKey), next.pubs, D.PubKey, p);
    }
  }

  /** One tick's messages take the stored contribution from the applied set to the next one, exactly
      when the two settle. */
  lemma TickExact(g: Guard, sink: Sink, applied: D.DesiredState, next: D.DesiredState, d: D.BusDelta)
    requires WellFormed(g, applied) && WellFormed(g, next) && D.DeltaOf(applied, next, d)
    ensures AbsorbAll(Wanted(applied), g, sink, Messages(d)) == Wanted(next) <==> Settled(applied, next)
  {
    hide AfterDelta, Wanted, AbsorbAll, Messages, D.DeltaOf, WellFormed, Settles;
    WantedCovered(g, applied);
    DeltaIsAllowed(g, applied, next, d);
    DeltaAbsorbed(Wanted(applied), g, sink, d);
    RoutesExact(applied, next, d);
    NatsExact(applied, next, d);
    PublicsExact(g, applied, next, d);
  }

  /** Agreeing sets, equal duplicates and all, settle exactly when no NAT block keeps its first port but
      changes its last. */
  lemma AgreeingTick(g: Guard, applied: D.DesiredState, next: D.DesiredState)
    requires WellFormed(g, applied) && WellFormed(g, next) && Agreeing(applied) && Agreeing(next)
    ensures Settled(applied, next) <==> NatStable(applied, next)
  {
    hide Settles, D.PubKey, PublicKeyOf;
    AgreeingSettles(applied.routes, next.routes, D.RouteRefOf, D.RouteRefOf, NexthopsOf);
    AgreeingSettles(applied.nats, next.nats, D.NatRefOf, NatKeyOf, Same);
    PublicKeysNamed(g, applied, next);
    AgreeingSettles(applied.pubs, next.pubs, D.PubKey, PublicKeyOf, Same);
    forall i, j | Leaves(applied.pubs, next.pubs, D.PubKey, i) && 0 <= j < |next.pubs|
      ensures PublicKeyOf(applied.pubs[i]) != PublicKeyOf(next.pubs[j])
    {
      assert applied.pubs[i] in applied.pubs + next.pubs && next.pubs[j] in applied.pubs + next.pubs;
    }
  }

  /** Two routes of one key that disagree: the set, sent again unchanged, announces the first once more, and
      the reflector ends on it instead of on the last. */
  lemma DisagreeingRouteReturns(g: Guard, sink: Sink, a: D.Route, b: D.Route, d: D.BusDelta)
    requires D.RouteRefOf(a) == D.RouteRefOf(b) && a.nexthop != b.nexthop && g.permits(a.nexthop)
             && g.permits(b.nexthop)
    requires var s := Nothing.(routes := [a, b]); D.DeltaOf(s, s, d)
    ensures var s := Nothing.(routes := [a, b]);
            && AbsorbAll(Wanted(s), g, sink, Messages(d)).routes == map[D.RouteRefOf(a) := [a.nexthop]]
            && Wanted(s).routes == map[D.RouteRefOf(a) := [b.nexthop]]
  {
    hide AbsorbAll, Messages, PutAll, D.Keyed, D.Changed;
    var s := Nothing.(routes := [a, b]);
    TwoRoutes(a, b);
    WantedCovered(g, s);
    DeltaIsAllowed(g, s, s, d);
    DeltaAbsorbed(Wanted(s), g, sink, d);
    assert forall j :: j !in d.withdrawR;
    assert (set j | j in d.withdrawR) == {};
  }

  lemma TwoRoutes(a: D.Route, b: D.Route)
    requires D.RouteRefOf(a) == D.RouteRefOf(b) && a.nexthop != b.nexthop
    ensures var k := D.RouteRefOf(a);
            && D.Changed(D.Keyed([a, b], D.RouteRefOf), [a, b], D.RouteRefOf) == [a]
            && PutAll(map[], [a, b], D.RouteRefOf, NexthopsOf) == map[k := [b.nexthop]]
            && PutAll(map[k := [b.nexthop]], [a], D.RouteRefOf, NexthopsOf) == map[k := [a.nexthop]]
  {
    var k := D.RouteRefOf(a);
    assert [a, b][..1] == [a] && [a][..0] == [];
    assert D.Keyed([a], D.RouteRefOf) == map[k := a];
    assert D.Keyed([a, b], D.RouteRefOf) == map[k := b];
    assert D.Changed(map[k := b], [a], D.RouteRefOf) == [a];
    assert PutAll(map[], [a], D.RouteRefOf, NexthopsOf) == map[k := [a.nexthop]];
  }

  /** A block that keeps its address and first port but changes its last is announced and then
      withdrawn by the same delta: the reflector ends up without it. */
  lemma ResizedBlockIsLost(g: Guard, sink: Sink, b: NatBlock, portMax: nat, d: D.BusDelta)
    requires g.permits(b.ownerUnderlay) && portMax != b.portMax
    requires D.DeltaOf(Nothing.(nats := [b]), Nothing.(nats := [b.(portMax := portMax)]), d)
    ensures AbsorbAll(Wanted(Nothing.(nats := [b])), g, sink, Messages(d)).nats == map[]
    ensures Wanted(Nothing.(nats := [b.(portMax := portMax)])).nats == map[NatKeyOf(b) := b.(portMax := portMax)]
  {
    hide AbsorbAll, Messages, PutAll, D.Keyed, D.Changed;
    var b' := b.(portMax := portMax);
    var applied, next := Nothing.(nats := [b]), Nothing.(nats := [b']);
    WantedCovered(g, applied);
    DeltaIsAllowed(g, applied, next, d);
    DeltaAbsorbed(Wanted(applied), g, sink, d);
    OneRecord(b);
    OneRecord(b');
    assert D.NatRefOf(b) in d.withdrawN;
    assert NatRefKey(D.NatRefOf(b)) in NatKeysOf(d.withdrawN);
    Resent(b, b');
  }

  lemma OneRecord(b: NatBlock)
    ensures PutAll(map[], [b], NatKeyOf, Same) == map[NatKeyOf(b) := b]
            && D.Keyed([b], D.NatRefOf) == map[D.NatRefOf(b) := b]
  {
  }

  lemma ChangedAlone(b: NatBlock, b': NatBlock)
    requires b'.portMax != b.portMax
    ensures D.Changed(map[D.NatRefOf(b) := b], [b'], D.NatRefOf) == [b']
  {
    assert [b'][..0] == [] && D.NatRefOf(b') != D.NatRefOf(b);
  }

  lemma Resent(b: NatBlock, b': NatBlock)
    requires NatKeyOf(b') == NatKeyOf(b) && b'.portMax != b.portMax
    ensures PutAll(map[NatKeyOf(b) := b], D.Changed(map[D.NatRefOf(b) := b], [b'], D.NatRefOf), NatKeyOf, Same) ==
            map[NatKeyOf(b) := b']
  {
    hide D.Changed;
    ChangedAlone(b, b');
    assert PutAll(map[NatKeyOf(b) := b], [b'], NatKeyOf, Same) == map[NatKeyOf(b) := b][NatKeyOf(b') := b'];
  }

  // ---------------------------------------------------------------- whole runs

  /** The reflector, this node's session, and the messages sent on it but not yet handled. `up` says
      the reflector still holds the session, `applied` is what the driver takes as announced while it
      believes the session alive, and `want` the set its last tick computed. */
  datatype Node = Node(rib: Rib, sink: Sink, up: bool, applied: Option<D.DesiredState>, want: D.DesiredState,
      wire: seq<ClientMsg>)

  datatype Event =
    | Tick(next: D.DesiredState, delta: D.BusDelta)
    | SendFails(next: D.DesiredState, delta: D.BusDelta, sent: nat)
    | Lost
    | Handled
    | Ended(orders: Orders)
    | Connected(orders: Orders)
    | Others(op: Op)

  ghost predicate Allowed(g: Guard, n: Node, e: Event) {
    match e
    case Tick(next, d) =>
      n.applied.Some? && WellFormed(g, next) && D.DeltaOf(n.applied.value, next, d) && Settled(n.applied.value, next)
    case SendFails(next, d, sent) => n.applied.Some? && D.DeltaOf(n.applied.value, next, d) && sent <= |Messages(d)|
    case Lost => true
    case Handled => n.up && n.wire != []
    case Ended(ord) => n.up && WalksAll(n.rib, n.sink.id, ord)
    case Connected(ord) => n.applied.None? && WalksAll(n.rib, n.sink.id, ord)
    case Others(op) => Legal(n.rib, op) && Foreign(n.rib, n.sink.id, op)
  }

  ghost function After(t: Texts, g: Guard, n: Node, e: Event): Node
    requires Allowed(g, n, e)
  {
    match e
    case Tick(next, d) =>
      if D.Silent(d) then n.(want := next)
      else n.(want := next, applied := Some(next), wire := if n.up then n.wire + Messages(d) else n.wire)
    case SendFails(next, d, sent) => n.(applied := None, wire := if n.up then n.wire + Messages(d)[..sent] else n.wire)
    case Lost => n.(applied := None)
    case Handled => n.(rib := Handle(t, n.rib, g, n.sink, n.wire[0]), wire := n.wire[1..])
    case Ended(ord) => n.(rib := ReleaseOrigin(t, n.rib, n.sink.id, n.sink.session, ord), up := false, wire := [])
    case Connected(ord) =>
      Node(ClaimOrigin(t, n.rib, n.sink.id, ord), Sink(n.sink.id, n.rib.nextToken + 1), true, Some(Nothing), Nothing,
        [])
    case Others(op) => n.(rib := Step(t, n.rib, op))
  }

  const NoContribution := Contribution(map[], map[], map[])

  ghost predicate SessionInv(g: Guard, n: Node) {
    && TablesOwned(n.rib)
    && (n.up <==> n.sink.id in n.rib.origins) && (n.up ==> n.rib.origins[n.sink.id] == n.sink.session)
    && (!n.up ==> From(n.rib, n.sink.id) == NoContribution && n.wire == [])
    && (n.applied.Some? ==> WellFormed(g, n.applied.value) && Wanted(n.applied.value) == Wanted(n.want))
    && (n.up && n.applied.Some? ==> AbsorbAll(From(n.rib, n.sink.id), g, n.sink, n.wire) == Wanted(n.want))
  }

  lemma TickKeepsInv(t: Texts, g: Guard, n: Node, next: D.DesiredState, d: D.BusDelta)
    requires SessionInv(g, n) && Allowed(g, n, Tick(next, d))
    ensures SessionInv(g, After(t, g, n, Tick(next, d)))
  {
    hide TablesOwned, Wanted, WellFormed, From, D.DeltaOf, Settled, AbsorbAll;
    TickExact(g, n.sink, n.applied.value, next, d);
    if D.Silent(d) {
      assert Messages(d) == [] by { hide AbsorbAll; }
      AbsorbNothing(Wanted(n.applied.value), g, n.sink);
    } else if n.up {
      AbsorbConcat(From(n.rib, n.sink.id), g, n.sink, n.wire, Messages(d));
    }
  }

  lemma HandledKeepsInv(t: Texts, g: Guard, n: Node)
    requires SessionInv(g, n) && n.up && n.wire != []
    ensures SessionInv(g, After(t, g, n, Handled))
  {
    hide TablesOwned, Wanted, WellFormed, From, AbsorbMsg, Handle;
    HandleAbsorbs(t, n.rib, g, n.sink, n.wire[0]);
  }

  lemma EndedKeepsInv(t: Texts, g: Guard, n: Node, ord: Orders)
    requires SessionInv(g, n) && n.up && WalksAll(n.rib, n.sink.id, ord)
    ensures SessionInv(g, After(t, g, n, Ended(ord)))
  {
    hide TablesOwned, Wanted, WellFormed, From, DropOrigin, AbsorbAll;
    var id := n.sink.id;
    var r := n.rib.(origins := n.rib.origins - {id}, sinks := n.rib.sinks - {id});
    TablesOwnedFrame(n.rib, r);
    TeardownClears(t, r, id, ord);
    DropOriginTokens(t, r, id, ord);
    StepOwned(t, n.rib, OpRelease(id, n.sink.session, ord));
  }

  lemma ConnectedKeepsInv(t: Texts, g: Guard, n: Node, ord: Orders)
    requires SessionInv(g, n) && n.applied.None? && WalksAll(n.rib, n.sink.id, ord)
    ensures SessionInv(g, After(t, g, n, Connected(ord)))
  {
    hide TablesOwned, WellFormed, DropOrigin, RoutesFrom, OwnedFrom;
    var id := n.sink.id;
    var r := n.rib.(nextToken := n.rib.nextToken + 1, origins := n.rib.origins[id := n.rib.nextToken + 1]);
    var r' := r.(sinks := r.sinks - {id});
    TablesOwnedFrame(n.rib, r');
    StepOwned(t, n.rib, OpClaim(id, ord));
    TeardownClears(t, r', id, ord);
    DropOriginTokens(t, r', id, ord);
    SameRoutesSameFrom(n.rib, r, id);
    assert WellFormed(g, Nothing) by { NothingWellFormed(g); }
  }

  lemma NothingWellFormed(g: Guard)
    ensures WellFormed(g, Nothing)
  {
  }

  lemma OthersKeepInv(t: Texts, g: Guard, n: Node, op: Op)
    requires SessionInv(g, n) && Legal(n.rib, op) && Foreign(n.rib, n.sink.id, op)
    ensures SessionInv(g, After(t, g, n, Others(op)))
  {
    hide TablesOwned, Wanted, WellFormed, From, Step, AbsorbAll;
    ForeignStep(t, n.rib, n.sink.id, op);
    StepOwned(t, n.rib, op);
    StepTokens(t, n.rib, op);
    ForeignKeepsSession(t, n.rib, n.sink.id, op);
  }

  lemma ForeignKeepsSession(t: Texts, r: Rib, id: string, op: Op)
    requires Legal(r, op) && Foreign(r, id, op)
    ensures id in r.origins ==> id in Step(t, r, op).origins
  {
    hide Advertised, Refilter, DropOrigin, Replay, GlobalReplay, Deliver, Audience, Put, Remove;
    match op
    case OpWithdraw(o, k) => WithdrawFrame(t, r.(byOrigin := Unindexed(r.byOrigin, o, k)), k, o);
    case OpSetFence(text, order) =>
      var n := FenceNet(t, text);
      if n.Some? { RefilterFrame(t, r, r.fenced + {n.value}, order); }
    case OpClearFence(text, order) =>
      var n := FenceNet(t, text);
      if n.Some? { RefilterFrame(t, r, r.fenced - {n.value}, order); }
    case OpClaim(o, ord) =>
      var r' := r.(nextToken := r.nextToken + 1, origins := r.origins[o := r.nextToken + 1]);
      DropOriginTokens(t, r'.(sinks := r'.sinks - {o}), o, ord);
    case OpRelease(o, token, ord) => DropOriginTokens(t, r.(origins := r.origins - {o}, sinks := r.sinks - {o}), o,
      ord);
    case _ =>
  }

  ghost predicate IsNodeRun(t: Texts, g: Guard, id: string, run: seq<Node>, events: seq<Event>) {
    && |run| == |events| + 1 && run[0] == Node(NewRib(), Sink(id, 0), false, None, Nothing, [])
    && forall i :: 0 <= i < |events| ==> Allowed(g, run[i], events[i]) && run[i + 1] == After(t, g, run[i], events[i])
  }

  /** Over every run of ticks, broken sends, lost sessions, reconnects and other nodes' traffic: while
      the session stands, what the reflector stores from this node is exactly the last desired set once
      the messages on the wire are handled, and after the session it is nothing. */
  lemma {:induction false} LockstepAnnounce(t: Texts, g: Guard, id: string, run: seq<Node>, events: seq<Event>, n: nat)
    requires IsNodeRun(t, g, id, run, events) && n <= |events|
    ensures SessionInv(g, run[n]) && run[n].sink.id == id
    ensures run[n].up && run[n].applied.Some? && run[n].wire == [] ==> From(run[n].rib, id) == Wanted(run[n].want)
    ensures !run[n].up ==> From(run[n].rib, id) == NoContribution
  {
    hide After, From, Wanted;
    if n == 0 {
      StartsEmpty(t, g, id);
    } else {
      LockstepAnnounce(t, g, id, run, events, n - 1);
      EventKeepsInv(t, g, run[n - 1], events[n - 1]);
    }
  }

  /** The same of the tick itself: from a tick to the next, or to a reconnect, what the reflector ends with is the set
      that tick computed. */
  lemma {:induction false} LastTickIsAnnounced(t: Texts, g: Guard, id: string, run: seq<Node>, events: seq<Event>,
      m: nat, n: nat)
    requires IsNodeRun(t, g, id, run, events) && m < n <= |events| && events[m].Tick?
    requires forall j :: m < j < n ==> !events[j].Tick? && !events[j].Connected?
    ensures run[n].want == events[m].next
    ensures run[n].up && run[n].applied.Some? && run[n].wire == [] ==> From(run[n].rib, id) == Wanted(events[m].next)
  {
    assert Allowed(g, run[n - 1], events[n - 1]) && run[n - 1 + 1] == After(t, g, run[n - 1], events[n - 1]);
    LockstepAnnounce(t, g, id, run, events, n);
    WantAfter(t, g, run[n - 1], events[n - 1]);
    hide IsNodeRun, Allowed, After, From, Wanted, SessionInv;
    if n - 1 > m { LastTickIsAnnounced(t, g, id, run, events, m, n - 1); }
  }

  lemma WantAfter(t: Texts, g: Guard, n: Node, e: Event)
    requires Allowed(g, n, e)
    ensures e.Tick? ==> After(t, g, n, e).want == e.next
    ensures !e.Tick? && !e.Connected? ==> After(t, g, n, e).want == n.want
  {
    hide Handle, Step, ReleaseOrigin, D.DeltaOf, WellFormed, D.Silent;
  }

  /** After a lost session or a broken send the driver computes no delta before it has reconnected. */
  lemma {:induction false} ReconnectsBeforeTick(t: Texts, g: Guard, id: string, run: seq<Node>, events: seq<Event>,
      m: nat, n: nat)
    requires IsNodeRun(t, g, id, run, events) && m < n <= |events| && (events[m].Lost? || events[m].SendFails?)
    requires forall j :: m < j < n ==> !events[j].Connected?
    ensures run[n].applied.None? && (n < |events| ==> !events[n].Tick? && !events[n].SendFails?)
  {
    assert Allowed(g, run[n - 1], events[n - 1]) && run[n - 1 + 1] == After(t, g, run[n - 1], events[n - 1]);
    if n < |events| { assert Allowed(g, run[n], events[n]); }
    if n - 1 > m { ReconnectsBeforeTick(t, g, id, run, events, m, n - 1); }
    hide IsNodeRun, Handle, Step, ReleaseOrigin, ClaimOrigin, D.DeltaOf, WellFormed, Settled, Messages;
  }

  lemma StartsEmpty(t: Texts, g: Guard, id: string)
    ensures SessionInv(g, Node(NewRib(), Sink(id, 0), false, None, Nothing, []))
  {
    hide TablesOwned;
    IndexesExact(t, [NewRib()], [], 0);
  }

  lemma EventKeepsInv(t: Texts, g: Guard, n: Node, e: Event)
    requires SessionInv(g, n) && Allowed(g, n, e)
    ensures SessionInv(g, After(t, g, n, e)) && After(t, g, n, e).sink.id == n.sink.id
  {
    hide SessionInv, Handle, Step;
    match e
    case Tick(next, d) => TickKeepsInv(t, g, n, next, d);
    case SendFails(next, d, sent) => StopKeepsInv(g, n, Messages(d)[..sent]);
    case Lost => StopKeepsInv(g, n, []);
    case Handled => HandledKeepsInv(t, g, n);
    case Ended(ord) => EndedKeepsInv(t, g, n, ord);
    case Connected(ord) => ConnectedKeepsInv(t, g, n, ord);
    case Others(op) => OthersKeepInv(t, g, n, op);
  }

  lemma StopKeepsInv(g: Guard, n: Node, more: seq<ClientMsg>)
    requires SessionInv(g, n)
    ensures SessionInv(g, n.(applied := None, wire := if n.up then n.wire + more else n.wire))
    ensures SessionInv(g, n.(applied := None))
  {
  }
}
