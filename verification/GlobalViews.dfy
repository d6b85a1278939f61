/** What a registered node rebuilds of the NAT and public tables from the messages it was handed, and why that is what
    the reflector stores. */
module GlobalViews {
  import opened Order
  import opened Addresses
  import opened RouteBus
  import opened OwnedTable
  import opened RibState
  import opened RibViews
  import opened RibOwnership

  // ---------------------------------------------------------------- the consumer's fold

  datatype Tables = Tables(nats: map<NatKey, NatBlock>, pubs: map<PublicKey, PublicRecord>)

  const NoTables := Tables(map[], map[])

  /** An ADD puts the record under its key, a WITHDRAW removes that key. */
  function Learnt(v: Tables, m: ServerMsg): Tables {
    match m
    case NatUpdate(b, add) =>
      v.(nats := if add then v.nats[NatKey(b.natIP, b.portMin) := b] else v.nats - {NatKey(b.natIP, b.portMin)})
    case PublicUpdate(p, add) =>
      var k := PublicKey(p.kind, p.prefix, p.ownerUnderlay, p.overlayIP);
      v.(pubs := if add then v.pubs[k := p] else v.pubs - {k})
    case _ => v
  }

  function LearntAll(v: Tables, ms: seq<ServerMsg>): Tables {
    if ms == [] then v else Learnt(LearntAll(v, ms[..|ms| - 1]), ms[|ms| - 1])
  }

  /** A global snapshot replaces what was known; a delta edits one key. */
  function Took(v: Tables, e: Envelope): Tables {
    match e
    case Delta(m) => Learnt(v, m)
    case Snapshot(ms) => if ms != [] && ms[|ms| - 1].EndOfGlobal? then LearntAll(NoTables, ms) else v
  }

  function GlobalView(log: seq<Envelope>): Tables {
    if log == [] then NoTables else Took(GlobalView(log[..|log| - 1]), log[|log| - 1])
  }

  lemma GlobalSnoc(log: seq<Envelope>, e: Envelope)
    ensures GlobalView(log + [e]) == Took(GlobalView(log), e)
  {
    assert (log + [e])[..|log|] == log;
  }

  function Stored(r: Rib): Tables { Tables(r.nats.recs, r.publics.recs) }

  /** Every registered sink is its node's, and its view is the two tables. */
  ghost predicate Followed(r: Rib) {
    forall id :: id in r.sinks ==> r.sinks[id].id == id && GlobalView(Log(r.sent, r.sinks[id])) == Stored(r)
  }

  // ---------------------------------------------------------------- the snapshot

  lemma {:induction false} LearntConcat(v: Tables, a: seq<ServerMsg>, b: seq<ServerMsg>)
    ensures LearntAll(v, a + b) == LearntAll(LearntAll(v, a), b)
  {
    hide Learnt;
    if b == [] {
      assert a + b == a;
    } else {
      assert (a + b)[..|a + b| - 1] == a + b[..|b| - 1];
      LearntConcat(v, a, b[..|b| - 1]);
    }
  }

  lemma {:induction false} NatsFold(v: Tables, recs: map<NatKey, NatBlock>, order: seq<NatKey>)
    requires forall k :: k in order ==> k in recs && NatKeyOf(recs[k]) == k
    ensures var v' := LearntAll(v, NatRecords(recs, order));
            && v'.pubs == v.pubs && (forall k :: k in v'.nats <==> k in v.nats || k in order)
            && forall k :: k in v'.nats ==> v'.nats[k] == if k in order then recs[k] else v.nats[k]
  {
    if order != [] {
      var init, k := order[..|order| - 1], order[|order| - 1];
      assert order == init + [k];
      NatsFold(v, recs, init);
      assert NatRecords(recs, order)[..|NatRecords(recs, order)| - 1] == NatRecords(recs, init);
    }
  }

  lemma {:induction false} PublicsFold(v: Tables, recs: map<PublicKey, PublicRecord>, order: seq<PublicKey>)
    requires forall k :: k in order ==> k in recs && PublicKeyOf(recs[k]) == k
    ensures var v' := LearntAll(v, PublicRecords(recs, order));
            && v'.nats == v.nats && (forall k :: k in v'.pubs <==> k in v.pubs || k in order)
            && forall k :: k in v'.pubs ==> v'.pubs[k] == if k in order then recs[k] else v.pubs[k]
  {
    if order != [] {
      var init, k := order[..|order| - 1], order[|order| - 1];
      assert order == init + [k];
      PublicsFold(v, recs, init);
      assert PublicRecords(recs, order)[..|PublicRecords(recs, order)| - 1] == PublicRecords(recs, init);
    }
  }

  lemma RecordsFold(
    nats: map<NatKey, NatBlock>, pubs: map<PublicKey, PublicRecord>, ns: seq<NatKey>, ps: seq<PublicKey>)
    requires forall k :: k in ns <==> k in nats
    requires forall k :: k in nats ==> NatKeyOf(nats[k]) == k
    requires forall k :: k in ps <==> k in pubs
    requires forall k :: k in pubs ==> PublicKeyOf(pubs[k]) == k
    ensures LearntAll(LearntAll(NoTables, NatRecords(nats, ns)), PublicRecords(pubs, ps)) == Tables(nats, pubs)
  {
    hide LearntAll, NatRecords, PublicRecords;
    NatsFold(NoTables, nats, ns);
    var v := LearntAll(NoTables, NatRecords(nats, ns));
    assert v.nats == nats;
    PublicsFold(v, pubs, ps);
    assert LearntAll(v, PublicRecords(pubs, ps)).pubs == pubs;
  }

  lemma LearntEnd(v: Tables, n: nat)
    ensures LearntAll(v, [EndOfGlobal(n)]) == v
  {
    assert [EndOfGlobal(n)][..0] == [];
  }

  /** A shared snapshot folds to the tables it was built from. */
  lemma SnapshotFolds(r: Rib, ms: seq<ServerMsg>)
    requires Keyed(r) && ReplaysTables(ms, r.nats.recs, r.publics.recs)
    ensures ms != [] && ms[|ms| - 1].EndOfGlobal? && LearntAll(NoTables, ms) == Stored(r)
  {
    var nats, pubs := r.nats.recs, r.publics.recs;
    var ns: seq<NatKey>, ps: seq<PublicKey> :| ReplaysInOrder(ms, nats, pubs, ns, ps);
    var a, b, c := NatRecords(nats, ns), PublicRecords(pubs, ps), [EndOfGlobal(|ns| + |ps|)];
    hide LearntAll, NatRecords, PublicRecords;
    LearntConcat(NoTables, a + b, c);
    LearntConcat(NoTables, a, b);
    RecordsFold(nats, pubs, ns, ps);
    LearntEnd(LearntAll(NoTables, a + b), |ns| + |ps|);
  }

  // ---------------------------------------------------------------- route traffic

  /** Nothing of the global feed was touched. */
  ghost predicate Unheard(r: Rib, r': Rib) {
    && r'.sinks == r.sinks && Stored(r') == Stored(r)
    && forall s :: GlobalView(Log(r'.sent, s)) == GlobalView(Log(r.sent, s))
  }

  lemma UnheardFollows(r: Rib, r': Rib)
    requires Followed(r) && Unheard(r, r')
    ensures Followed(r')
  {
  }

  lemma UnheardDeliver(r: Rib, r': Rib, to: set<Sink>, e: Envelope)
    requires r'.sent == Deliver(r.sent, to, e) && r'.sinks == r.sinks && Stored(r') == Stored(r)
    requires forall v :: Took(v, e) == v
    ensures Unheard(r, r')
  {
    hide Deliver, Log, GlobalView, Took;
    forall s ensures GlobalView(Log(r'.sent, s)) == GlobalView(Log(r.sent, s)) {
      LogAfter(r.sent, to, e, s);
      GlobalSnoc(Log(r.sent, s), e);
    }
  }

  lemma FanoutUnheard(r: Rib, r0: Rib, k: RouteKey, was: seq<string>, now: seq<string>, skip: set<string>, ext: bool)
    requires r.sinks == r0.sinks && Stored(r) == Stored(r0) && r.sent == r0.sent
    ensures Unheard(r0, FanoutChange(r, k, was, now, skip, ext))
  {
    hide Deliver, Audience;
    if was != now {
      var e := Delta(RouteUpdate(k, now, now != [], ext));
      UnheardDeliver(r0, Fanout(r, k, now, skip, ext), Audience(r.subscribers, k.vni, skip), e);
    }
  }

  lemma UnheardTrans(a: Rib, b: Rib, c: Rib)
    requires Unheard(a, b) && Unheard(b, c)
    ensures Unheard(a, c)
  {
  }

  lemma AnnounceUnheard(t: Texts, r: Rib, o: string, k: RouteKey, nhs: seq<string>, ext: bool)
    ensures Unheard(r, Announce(t, r, o, k, nhs, ext))
  {
    hide Unheard, FanoutChange, Advertised;
    var e := EntryAt(r.routes, k);
    var e' := RouteEntry(e.origins[o := nhs], ext);
    var r1 := r.(routes := r.routes[k := e'], byOrigin := r.byOrigin[o := KeysOf(r.byOrigin, o) + {k}]);
    FanoutUnheard(r1, r, k, Advertised(t, e, r.fenced), Advertised(t, e', r.fenced), {o}, ext);
  }

  lemma WithdrawUnheard(t: Texts, r: Rib, r0: Rib, k: RouteKey, o: string)
    requires r.sinks == r0.sinks && Stored(r) == Stored(r0) && r.sent == r0.sent
    ensures Unheard(r0, WithdrawRouteOrigin(t, r, k, o))
  {
    hide FanoutChange, Advertised;
    if k in r.routes && o in r.routes[k].origins {
      var e := r.routes[k];
      var e' := e.(origins := e.origins - {o});
      var r1 := r.(routes := if e'.origins == map[] then r.routes - {k} else r.routes[k := e']);
      FanoutUnheard(r1, r0, k, Advertised(t, e, r.fenced), Advertised(t, e', r.fenced), {}, e.external);
    }
  }

  lemma {:induction false} WithdrawAllUnheard(t: Texts, r: Rib, o: string, order: seq<RouteKey>)
    ensures Unheard(r, WithdrawAll(t, r, o, order))
  {
    hide WithdrawRouteOrigin;
    if order != [] {
      hide Unheard;
      var prev := WithdrawAll(t, r, o, order[..|order| - 1]);
      WithdrawAllUnheard(t, r, o, order[..|order| - 1]);
      WithdrawUnheard(t, prev, prev, order[|order| - 1], o);
      UnheardTrans(r, prev, WithdrawAll(t, r, o, order));
    }
  }

  lemma {:induction false} RefilterUnheard(t: Texts, r: Rib, fenced: set<Prefix>, order: seq<RouteKey>)
    ensures Unheard(r, Refilter(t, r, fenced, order))
  {
    hide FanoutChange, Advertised;
    if order != [] {
      hide Unheard;
      var prev, k := Refilter(t, r, fenced, order[..|order| - 1]), order[|order| - 1];
      var e := EntryAt(r.routes, k);
      RefilterUnheard(t, r, fenced, order[..|order| - 1]);
      FanoutUnheard(prev, prev, k, Advertised(t, e, r.fenced), Advertised(t, e, fenced), e.origins.Keys, e.external);
      UnheardTrans(r, prev, Refilter(t, r, fenced, order));
    }
  }

  lemma SubscribeUnheard(t: Texts, r: Rib, vni: nat, s: Sink)
    ensures Unheard(r, Subscribe(t, r, vni, s))
  {
    hide Deliver;
    if !Resubscribes(r, vni, s) {
      UnheardDeliver(r, Subscribe(t, r, vni, s), {s}, Snapshot(Replay(t, r, vni)));
    }
  }

  // ---------------------------------------------------------------- the tables' own changes

  /** A change that is broadcast as what it does to the tables is followed by every sink. */
  lemma BroadcastFollows(r: Rib, nats: Nats, publics: Publics, m: ServerMsg)
    requires Followed(r) && Learnt(Stored(r), m) == Tables(nats.recs, publics.recs)
    ensures Followed(GlobalFanout(r.(nats := nats, publics := publics), m))
  {
    hide Deliver, Log, GlobalView, Learnt;
    var r' := GlobalFanout(r.(nats := nats, publics := publics), m);
    forall id | id in r'.sinks ensures r'.sinks[id].id == id && GlobalView(Log(r'.sent, r'.sinks[id])) == Stored(r') {
      assert r.sinks[id] in SinksOf(r);
      LogAfter(r.sent, SinksOf(r), Delta(m), r.sinks[id]);
      GlobalSnoc(Log(r.sent, r.sinks[id]), Delta(m));
    }
  }

  lemma NatChangeFollows(r: Rib, o: string, b: NatBlock, k: NatKey)
    requires Followed(r) && Keyed(r)
    ensures Followed(AnnounceNat(r, o, b))
    ensures k in r.nats.recs ==>
              Followed(GlobalFanout(r.(nats := Remove(r.nats, o, k)), NatUpdate(r.nats.recs[k], false)))
    ensures StillHolds(r.nats, o, k) ==>
              Followed(GlobalFanout(r.(nats := Drop(r.nats, o, k)), NatUpdate(r.nats.recs[k], false)))
  {
    hide Followed, GlobalFanout;
    var n := Put(r.nats, o, NatKeyOf(b), b);
    BroadcastFollows(r, n, r.publics, NatUpdate(b, true));
    assert r.(nats := n) == r.(nats := n, publics := r.publics);
    if k in r.nats.recs {
      var n := Remove(r.nats, o, k);
      BroadcastFollows(r, n, r.publics, NatUpdate(r.nats.recs[k], false));
      assert r.(nats := n) == r.(nats := n, publics := r.publics);
    }
    if StillHolds(r.nats, o, k) {
      var n := Drop(r.nats, o, k);
      BroadcastFollows(r, n, r.publics, NatUpdate(r.nats.recs[k], false));
      assert r.(nats := n) == r.(nats := n, publics := r.publics);
    }
  }

  lemma PublicChangeFollows(r: Rib, o: string, p: PublicRecord, k: PublicKey)
    requires Followed(r) && Keyed(r)
    ensures Followed(AnnouncePublic(r, o, p))
    ensures k in r.publics.recs ==>
              Followed(GlobalFanout(r.(publics := Remove(r.publics, o, k)), PublicUpdate(r.publics.recs[k], false)))
    ensures StillHolds(r.publics, o, k) ==>
              Followed(GlobalFanout(r.(publics := Drop(r.publics, o, k)), PublicUpdate(r.publics.recs[k], false)))
  {
    hide Followed, GlobalFanout;
    var n := Put(r.publics, o, PublicKeyOf(p), p);
    BroadcastFollows(r, r.nats, n, PublicUpdate(p, true));
    assert r.(publics := n) == r.(nats := r.nats, publics := n);
    if k in r.publics.recs {
      var n := Remove(r.publics, o, k);
      BroadcastFollows(r, r.nats, n, PublicUpdate(r.publics.recs[k], false));
      assert r.(publics := n) == r.(nats := r.nats, publics := n);
    }
    if StillHolds(r.publics, o, k) {
      var n := Drop(r.publics, o, k);
      BroadcastFollows(r, r.nats, n, PublicUpdate(r.publics.recs[k], false));
      assert r.(publics := n) == r.(nats := r.nats, publics := n);
    }
  }

  lemma {:induction false} DropNatFollows(r: Rib, o: string, order: seq<NatKey>)
    requires Followed(r) && Keyed(r)
    ensures Followed(DropNat(r, o, order)) && Keyed(DropNat(r, o, order))
  {
    if order != [] {
      hide Followed, GlobalView, Deliver;
      var prev, k := DropNat(r, o, order[..|order| - 1]), order[|order| - 1];
      DropNatFollows(r, o, order[..|order| - 1]);
      NatChangeFollows(prev, o, NatBlock(0, "", "", 0, 0, ""), k);
    }
  }

  lemma {:induction false} DropPublicFollows(r: Rib, o: string, order: seq<PublicKey>)
    requires Followed(r) && Keyed(r)
    ensures Followed(DropPublic(r, o, order)) && Keyed(DropPublic(r, o, order))
  {
    if order != [] {
      hide Followed, GlobalView, Deliver;
      var prev, k := DropPublic(r, o, order[..|order| - 1]), order[|order| - 1];
      DropPublicFollows(r, o, order[..|order| - 1]);
      if StillHolds(prev.publics, o, k) { PublicChangeFollows(prev, o, prev.publics.recs[k], k); }
    }
  }

  lemma DropOriginFollows(t: Texts, r: Rib, o: string, ord: Orders)
    requires Followed(r) && Keyed(r)
    ensures Followed(DropOrigin(t, r, o, ord))
  {
    hide WithdrawAll, DropNat, DropPublic, GlobalView;
    var r0 := r.(byOrigin := r.byOrigin - {o});
    WithdrawAllUnheard(t, r0, o, ord.routes);
    var r1 := WithdrawAll(t, r0, o, ord.routes);
    var r2 := r1.(subscribers := WithoutSubscriber(r1.subscribers, o));
    assert Followed(r2) && Keyed(r2);
    hide Followed, Keyed;
    DropNatFollows(r2, o, ord.nats);
    DropPublicFollows(DropNat(r2, o, ord.nats), o, ord.pubs);
  }

  lemma SessionFollows(t: Texts, r: Rib, id: string, token: nat, o: Orders)
    requires Followed(r) && Keyed(r)
    ensures Followed(ClaimOrigin(t, r, id, o)) && Followed(ReleaseOrigin(t, r, id, token, o))
  {
    hide DropOrigin, GlobalView;
    var r1 := r.(nextToken := r.nextToken + 1, origins := r.origins[id := r.nextToken + 1]);
    DropOriginFollows(t, r1.(sinks := r1.sinks - {id}), id, o);
    DropOriginFollows(t, r.(origins := r.origins - {id}, sinks := r.sinks - {id}), id, o);
  }

  /** What a registration hands over folds to the tables, cached or not. */
  lemma HandsOverTables(t: Texts, r: Rib, s: Sink, nats: seq<NatKey>, pubs: seq<PublicKey>)
    requires TablesOwned(r) && Legal(r, OpRegister(s, nats, pubs))
    ensures forall v :: Took(v, Snapshot(GlobalReplay(r, nats, pubs))) == Stored(r)
  {
    var r' := RegisterSink(r, s, nats, pubs);
    StepOwned(t, r, OpRegister(s, nats, pubs));
    hide GlobalReplay, Deliver, ReplaysTables, LearntAll;
    SnapshotFolds(r', GlobalReplay(r, nats, pubs));
  }

  lemma RegisterFollows(t: Texts, r: Rib, s: Sink, nats: seq<NatKey>, pubs: seq<PublicKey>)
    requires Followed(r) && TablesOwned(r) && Legal(r, OpRegister(s, nats, pubs))
    ensures Followed(RegisterSink(r, s, nats, pubs))
  {
    HandsOverTables(t, r, s, nats, pubs);
    hide GlobalReplay, Deliver, Log, GlobalView, Took, TablesOwned, Legal;
    var r', e := RegisterSink(r, s, nats, pubs), Snapshot(GlobalReplay(r, nats, pubs));
    forall id | id in r'.sinks ensures r'.sinks[id].id == id && GlobalView(Log(r'.sent, r'.sinks[id])) == Stored(r') {
      LogAfter(r.sent, {s}, e, r'.sinks[id]);
      GlobalSnoc(Log(r.sent, r'.sinks[id]), e);
    }
  }

  lemma TableOpFollows(t: Texts, r: Rib, op: Op)
    requires Followed(r) && Keyed(r) && IsTableOp(op)
    ensures Followed(Step(t, r, op))
  {
    hide Followed, Keyed, GlobalFanout, Remove, Put;
    match op
    case OpAnnounceNat(o, b) => NatChangeFollows(r, o, b, NatKeyOf(b));
    case OpWithdrawNat(o, k, permit) =>
      if k in r.nats.recs { NatChangeFollows(r, o, r.nats.recs[k], k); }
    case OpAnnouncePublic(o, p) => PublicChangeFollows(r, o, p, PublicKeyOf(p));
    case OpWithdrawPublic(o, k, permit) =>
      if k in r.publics.recs { PublicChangeFollows(r, o, r.publics.recs[k], k); }
  }

  lemma RouteOpUnheard(t: Texts, r: Rib, op: Op)
    requires Legal(r, op) && (IsRouteOp(op) || op.OpSubscribe?)
    ensures Unheard(r, Step(t, r, op))
  {
    hide Announce, WithdrawRouteOrigin, Refilter, Subscribe;
    match op
    case OpSubscribe(vni, s) => SubscribeUnheard(t, r, vni, s);
    case OpUnsubscribe(vni, id) =>
    case OpAnnounce(o, k, nhs, ext) => AnnounceUnheard(t, r, o, k, nhs, ext);
    case OpWithdraw(o, k) => WithdrawUnheard(t, r.(byOrigin := Unindexed(r.byOrigin, o, k)), r, k, o);
    case OpSetFence(text, order) =>
      var n := FenceNet(t, text);
      if n.Some? { RefilterUnheard(t, r, r.fenced + {n.value}, order); }
    case OpClearFence(text, order) =>
      var n := FenceNet(t, text);
      if n.Some? { RefilterUnheard(t, r, r.fenced - {n.value}, order); }
  }

  lemma StepFollows(t: Texts, r: Rib, op: Op)
    requires Followed(r) && TablesOwned(r) && Legal(r, op)
    ensures Followed(Step(t, r, op))
  {
    assert Keyed(r);
    hide Followed, Keyed, Unheard, TablesOwned, RegisterSink, ClaimOrigin, ReleaseOrigin, Announce, Withdraw, SetFence,
         ClearFence, Subscribe, AnnounceNat, WithdrawNat, AnnouncePublic, WithdrawPublic;
    if op.OpClaim? {
      SessionFollows(t, r, op.id, 0, op.orders);
    } else if op.OpRelease? {
      SessionFollows(t, r, op.id, op.token, op.orders);
    } else if op.OpRegister? {
      RegisterFollows(t, r, op.sink, op.nats, op.pubs);
    } else if IsTableOp(op) {
      TableOpFollows(t, r, op);
    } else {
      RouteOpUnheard(t, r, op);
      UnheardFollows(r, Step(t, r, op));
    }
  }

  lemma {:induction false} AlwaysFollowed(t: Texts, run: seq<Rib>, ops: seq<Op>, n: nat)
    requires IsRun(t, run, ops) && n <= |ops|
    ensures Followed(run[n])
  {
    if n > 0 {
      hide Followed, Step, Legal, TablesOwned;
      AlwaysFollowed(t, run, ops, n - 1);
      IndexesExact(t, run, ops, n - 1);
      StepFollows(t, run[n - 1], ops[n - 1]);
      assert run[n - 1 + 1] == Step(t, run[n - 1], ops[n - 1]);
    }
  }

  /** In every run, folding the global snapshot and the later updates a registered node was handed, by key, gives
      exactly the NAT blocks and public records the reflector stores. */
  lemma SinkViewIsTables(t: Texts, run: seq<Rib>, ops: seq<Op>, id: string)
    requires IsRun(t, run, ops) && id in run[|ops|].sinks
    ensures var r := run[|ops|];
            GlobalView(Log(r.sent, r.sinks[id])) == Tables(r.nats.recs, r.publics.recs)
  {
    AlwaysFollowed(t, run, ops, |ops|);
  }
}
