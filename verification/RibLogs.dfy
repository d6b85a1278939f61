/** What the reflector ever hands a sink, in every run: whole replays, global snapshots and well-formed
    deltas, and nothing of a VNI before that VNI's first replay. */
module RibLogs {
  import opened Order
  import opened Addresses
  import opened RouteBus
  import opened OwnedTable
  import opened RibState
  import opened RibViews
  import opened Queues

  /** The message says nothing about vni. */
  predicate Quiet(m: ServerMsg, vni: nat) {
    match m
    case RouteUpdate(k, _, _, _) => k.vni != vni
    case EndOfRib(v, _) => v != vni
    case _ => true
  }

  ghost predicate QuietEnvelope(e: Envelope, vni: nat) {
    forall m :: m in Messages(e) ==> Quiet(m, vni)
  }

  /** An ADD names nexthops, a WITHDRAW none. */
  predicate ShapedDelta(m: ServerMsg) {
    match m
    case RouteUpdate(_, nhs, add, _) => add <==> nhs != []
    case NatUpdate(_, _) => true
    case PublicUpdate(_, _) => true
    case _ => false
  }

  predicate GlobalMsg(m: ServerMsg) { m.NatUpdate? || m.PublicUpdate? || m.EndOfGlobal? }

  predicate GlobalSnapshot(ms: seq<ServerMsg>) {
    ms != [] && ms[|ms| - 1].EndOfGlobal? && forall m :: m in ms ==> GlobalMsg(m)
  }

  /** The envelope is a replay of the VNI. */
  predicate IsReplayEnvelope(e: Envelope, vni: nat) { e.Snapshot? && IsReplayOf(e.msgs, vni) }

  /** A delta as it is handed out live: a route update reaches only subscribers of its VNI. */
  ghost predicate LiveDelta(r: Rib, s: Sink, e: Envelope) {
    && e.Delta? && ShapedDelta(e.msg)
    && (e.msg.RouteUpdate? ==>
       exists sub :: sub in r.subscribers && sub.vni == e.msg.key.vni && r.subscribers[sub] == s)
  }

  /** From r to r' every sink was handed nothing but live deltas, and nobody subscribed. */
  ghost predicate Fed(r: Rib, r': Rib) {
    && (forall sub :: sub in r'.subscribers ==> sub in r.subscribers && r'.subscribers[sub] == r.subscribers[sub])
    && (forall s :: Log(r.sent, s) <= Log(r'.sent, s))
    && (forall s, j :: |Log(r.sent, s)| <= j < |Log(r'.sent, s)| ==> LiveDelta(r, s, Log(r'.sent, s)[j]))
    && (r'.globalSnap == r.globalSnap || r'.globalSnap.None?)
  }

  lemma FedTrans(a: Rib, b: Rib, c: Rib)
    requires Fed(a, b) && Fed(b, c)
    ensures Fed(a, c)
  {
    hide ShapedDelta, Log;
    forall s, j | |Log(a.sent, s)| <= j < |Log(c.sent, s)| ensures LiveDelta(a, s, Log(c.sent, s)[j]) {
      if j < |Log(b.sent, s)| {
        assert Log(c.sent, s)[j] == Log(b.sent, s)[j];
      } else {
        assert LiveDelta(b, s, Log(c.sent, s)[j]);
      }
    }
  }

  lemma FedSame(r: Rib, r': Rib)
    requires r'.sent == r.sent && (r'.globalSnap == r.globalSnap || r'.globalSnap.None?)
    requires forall sub :: sub in r'.subscribers ==> sub in r.subscribers && r'.subscribers[sub] == r.subscribers[sub]
    ensures Fed(r, r')
  {
  }

  lemma FedDeliver(r: Rib, r': Rib, to: set<Sink>, e: Envelope)
    requires r'.sent == Deliver(r.sent, to, e) && r'.subscribers == r.subscribers
    requires (r'.globalSnap == r.globalSnap || r'.globalSnap.None?) && forall s :: s in to ==> LiveDelta(r, s, e)
    ensures Fed(r, r')
  {
    hide Deliver, Log, ShapedDelta;
    forall s ensures Log(r'.sent, s) == if s in to then Log(r.sent, s) + [e] else Log(r.sent, s) {
      LogAfter(r.sent, to, e, s);
    }
  }

  lemma FanoutChangeFed(r: Rib, k: RouteKey, before: seq<string>, after: seq<string>, skip: set<string>, external: bool)
    ensures Fed(r, FanoutChange(r, k, before, after, skip, external))
  {
    hide Deliver, Fed;
    if before == after {
      FedSame(r, r);
    } else {
      FedDeliver(r, Fanout(r, k, after, skip, external), Audience(r.subscribers, k.vni, skip),
        Delta(RouteUpdate(k, after, after != [], external)));
    }
  }

  lemma AnnounceFed(t: Texts, r: Rib, o: string, k: RouteKey, nhs: seq<string>, ext: bool)
    ensures Fed(r, Announce(t, r, o, k, nhs, ext))
  {
    hide Fed, FanoutChange, Advertised;
    var e := EntryAt(r.routes, k);
    var e' := RouteEntry(e.origins[o := nhs], ext);
    var r1 := r.(routes := r.routes[k := e'], byOrigin := r.byOrigin[o := KeysOf(r.byOrigin, o) + {k}]);
    FedSame(r, r1);
    FanoutChangeFed(r1, k, Advertised(t, e, r.fenced), Advertised(t, e', r.fenced), {o}, ext);
    FedTrans(r, r1, Announce(t, r, o, k, nhs, ext));
  }

  lemma WithdrawFed(t: Texts, r: Rib, k: RouteKey, o: string)
    ensures Fed(r, WithdrawRouteOrigin(t, r, k, o))
  {
    hide Fed, FanoutChange, Advertised;
    if k in r.routes && o in r.routes[k].origins {
      var e := r.routes[k];
      var e' := e.(origins := e.origins - {o});
      var r1 := r.(routes := if e'.origins == map[] then r.routes - {k} else r.routes[k := e']);
      FedSame(r, r1);
      FanoutChangeFed(r1, k, Advertised(t, e, r.fenced), Advertised(t, e', r.fenced), {}, e.external);
      FedTrans(r, r1, WithdrawRouteOrigin(t, r, k, o));
    } else {
      FedSame(r, r);
    }
  }

  lemma {:induction false} WithdrawAllFed(t: Texts, r: Rib, o: string, order: seq<RouteKey>)
    ensures Fed(r, WithdrawAll(t, r, o, order))
  {
    hide Fed, WithdrawRouteOrigin;
    if order == [] {
      FedSame(r, r);
    } else {
      var prev := WithdrawAll(t, r, o, order[..|order| - 1]);
      WithdrawAllFed(t, r, o, order[..|order| - 1]);
      WithdrawFed(t, prev, order[|order| - 1], o);
      FedTrans(r, prev, WithdrawAll(t, r, o, order));
    }
  }

  lemma {:induction false} RefilterFed(t: Texts, r: Rib, fenced: set<Prefix>, order: seq<RouteKey>)
    ensures Fed(r, Refilter(t, r, fenced, order))
  {
    hide Fed, FanoutChange, Advertised;
    if order == [] {
      FedSame(r, r.(fenced := fenced));
    } else {
      var prev, k := Refilter(t, r, fenced, order[..|order| - 1]), order[|order| - 1];
      var e := EntryAt(r.routes, k);
      RefilterFed(t, r, fenced, order[..|order| - 1]);
      FanoutChangeFed(prev, k, Advertised(t, e, r.fenced), Advertised(t, e, fenced), e.origins.Keys, e.external);
      FedTrans(r, prev, Refilter(t, r, fenced, order));
    }
  }

  lemma GlobalFanoutFed(r: Rib, nats: Nats, publics: Publics, m: ServerMsg)
    requires m.NatUpdate? || m.PublicUpdate?
    ensures Fed(r, GlobalFanout(r.(nats := nats, publics := publics), m))
  {
    hide Deliver, Fed;
    FedDeliver(r, GlobalFanout(r.(nats := nats, publics := publics), m), SinksOf(r), Delta(m));
  }

  lemma {:induction false} DropNatFed(r: Rib, o: string, order: seq<NatKey>)
    ensures Fed(r, DropNat(r, o, order))
  {
    hide Fed, GlobalFanout, Drop, DropAll;
    if order == [] {
      FedSame(r, DropNat(r, o, []));
    } else {
      var prev, k := DropNat(r, o, order[..|order| - 1]), order[|order| - 1];
      DropNatFed(r, o, order[..|order| - 1]);
      if StillHolds(prev.nats, o, k) {
        GlobalFanoutFed(prev, Drop(prev.nats, o, k), prev.publics, NatUpdate(prev.nats.recs[k], false));
        assert prev.(nats := Drop(prev.nats, o, k)) == prev.(nats := Drop(prev.nats, o, k), publics := prev.publics);
        FedTrans(r, prev, DropNat(r, o, order));
      }
    }
  }

  lemma {:induction false} DropPublicFed(r: Rib, o: string, order: seq<PublicKey>)
    ensures Fed(r, DropPublic(r, o, order))
  {
    hide Fed, GlobalFanout, Drop, DropAll;
    if order == [] {
      FedSame(r, DropPublic(r, o, []));
    } else {
      var prev, k := DropPublic(r, o, order[..|order| - 1]), order[|order| - 1];
      DropPublicFed(r, o, order[..|order| - 1]);
      if StillHolds(prev.publics, o, k) {
        GlobalFanoutFed(prev, prev.nats, Drop(prev.publics, o, k), PublicUpdate(prev.publics.recs[k], false));
        assert prev.(publics := Drop(prev.publics, o, k)) ==
          prev.(nats := prev.nats, publics := Drop(prev.publics, o, k));
        FedTrans(r, prev, DropPublic(r, o, order));
      }
    }
  }

  lemma DropOriginFed(t: Texts, r: Rib, o: string, ord: Orders)
    ensures Fed(r, DropOrigin(t, r, o, ord))
  {
    hide Fed, WithdrawAll, DropNat, DropPublic;
    var r0 := r.(byOrigin := r.byOrigin - {o});
    FedSame(r, r0);
    WithdrawAllFed(t, r0, o, ord.routes);
    var r1 := WithdrawAll(t, r0, o, ord.routes);
    var r2 := r1.(subscribers := WithoutSubscriber(r1.subscribers, o));
    FedSame(r1, r2);
    DropNatFed(r2, o, ord.nats);
    var r3 := DropNat(r2, o, ord.nats);
    DropPublicFed(r3, o, ord.pubs);
    FedTrans(r, r0, r1);
    FedTrans(r, r1, r2);
    FedTrans(r, r2, r3);
    FedTrans(r, r3, DropOrigin(t, r, o, ord));
  }

  lemma SessionFed(t: Texts, r: Rib, op: Op)
    requires op.OpClaim? || op.OpRelease?
    ensures Fed(r,
            match op case OpClaim(id, o) => ClaimOrigin(t, r, id, o) case OpRelease(id, token, o) => ReleaseOrigin(t,
              r, id, token, o) case _ => r)
  {
    hide Fed, DropOrigin;
    FedSame(r, r);
    match op
    case OpClaim(id, o) =>
      var r1 := r.(nextToken := r.nextToken + 1, origins := r.origins[id := r.nextToken + 1]);
      var r2 := r1.(sinks := r1.sinks - {id});
      FedSame(r, r1);
      FedSame(r, r2);
      DropOriginFed(t, r2, id, o);
      FedTrans(r, r2, DropOrigin(t, r2, id, o));
    case OpRelease(id, token, o) =>
      var r1 := r.(origins := r.origins - {id}, sinks := r.sinks - {id});
      FedSame(r, r1);
      DropOriginFed(t, r1, id, o);
      FedTrans(r, r1, DropOrigin(t, r1, id, o));
  }

  lemma GlobalTablesFed(t: Texts, r: Rib, op: Op)
    requires op.OpAnnounceNat? || op.OpWithdrawNat? || op.OpAnnouncePublic? || op.OpWithdrawPublic?
    ensures Fed(r, Step(t, r, op))
  {
    hide Fed, GlobalFanout, Put, Remove;
    match op
    case OpAnnounceNat(o, b) =>
      var n := Put(r.nats, o, NatKeyOf(b), b);
      GlobalFanoutFed(r, n, r.publics, NatUpdate(b, true));
      assert r.(nats := n) == r.(nats := n, publics := r.publics);
    case OpWithdrawNat(o, k, permit) =>
      FedSame(r, r);
      if NatVerdict(r, o, k, permit) == WithdrawApplied {
        var n := Remove(r.nats, o, k);
        GlobalFanoutFed(r, n, r.publics, NatUpdate(r.nats.recs[k], false));
        assert r.(nats := n) == r.(nats := n, publics := r.publics);
      }
    case OpAnnouncePublic(o, p) =>
      var n := Put(r.publics, o, PublicKeyOf(p), p);
      GlobalFanoutFed(r, r.nats, n, PublicUpdate(p, true));
      assert r.(publics := n) == r.(nats := r.nats, publics := n);
    case OpWithdrawPublic(o, k, permit) =>
      FedSame(r, r);
      if PublicVerdict(r, o, k, permit) == WithdrawApplied {
        var n := Remove(r.publics, o, k);
        GlobalFanoutFed(r, r.nats, n, PublicUpdate(r.publics.recs[k], false));
        assert r.(publics := n) == r.(nats := r.nats, publics := n);
      }
  }

  /** Every operation but a subscribe and a registration only feeds deltas. */
  lemma StepFed(t: Texts, r: Rib, op: Op)
    requires Legal(r, op) && !op.OpSubscribe? && !op.OpRegister?
    ensures Fed(r, Step(t, r, op))
  {
    hide Fed, Announce, WithdrawRouteOrigin, Refilter, ClaimOrigin, ReleaseOrigin, AnnounceNat, AnnouncePublic,
         WithdrawNat, WithdrawPublic;
    match op
    case OpUnsubscribe(vni, id) => FedSame(r, Step(t, r, op));
    case OpAnnounce(o, k, nhs, ext) => AnnounceFed(t, r, o, k, nhs, ext);
    case OpWithdraw(o, k) =>
      var r1 := r.(byOrigin := Unindexed(r.byOrigin, o, k));
      FedSame(r, r1);
      WithdrawFed(t, r1, k, o);
      FedTrans(r, r1, Step(t, r, op));
    case OpSetFence(text, order) => FenceFed(t, r, text, order);
    case OpClearFence(text, order) => FenceFed(t, r, text, order);
    case OpClaim(_, _) => SessionFed(t, r, op);
    case OpRelease(_, _, _) => SessionFed(t, r, op);
    case _ => GlobalTablesFed(t, r, op);
  }

  lemma FenceFed(t: Texts, r: Rib, text: string, order: seq<RouteKey>)
    ensures Fed(r, SetFence(t, r, text, order)) && Fed(r, ClearFence(t, r, text, order))
  {
    hide Fed, Refilter;
    FedSame(r, r);
    var n := FenceNet(t, text);
    if n.Some? {
      RefilterFed(t, r, r.fenced + {n.value}, order);
      RefilterFed(t, r, r.fenced - {n.value}, order);
    }
  }

  // ---------------------------------------------------------------- the shape of a log

  ghost predicate Shaped(t: Texts, e: Envelope) {
    match e
    case Delta(m) => ShapedDelta(m)
    case Snapshot(ms) => GlobalSnapshot(ms) || exists r: Rib, vni :: ms == Replay(t, r, vni)
  }

  ghost predicate HasReplay(log: seq<Envelope>, vni: nat) { exists e :: e in log && IsReplayEnvelope(e, vni) }

  /** Every envelope is a replay, a global snapshot or a well-formed delta, and word of a VNI comes only
      with or after a replay of it. */
  ghost predicate Orderly(t: Texts, log: seq<Envelope>) {
    && (forall e :: e in log ==> Shaped(t, e))
    && (forall j, vni: nat :: 0 <= j < |log| && !QuietEnvelope(log[j], vni) ==> HasReplay(log[..j + 1], vni))
  }

  ghost predicate LogsOk(t: Texts, r: Rib) {
    && (forall s :: Orderly(t, Log(r.sent, s)))
    && (forall sub :: sub in r.subscribers ==> HasReplay(Log(r.sent, r.subscribers[sub]), sub.vni))
    && (r.globalSnap.Some? ==> GlobalSnapshot(r.globalSnap.value))
  }

  lemma OrderlyAppend(t: Texts, log: seq<Envelope>, e: Envelope)
    requires Orderly(t, log) && Shaped(t, e)
    requires forall vni: nat :: !QuietEnvelope(e, vni) ==> IsReplayEnvelope(e, vni) || HasReplay(log, vni)
    ensures Orderly(t, log + [e])
  {
    hide Shaped, QuietEnvelope, IsReplayEnvelope;
    var more := log + [e];
    forall j, vni: nat | 0 <= j < |more| && !QuietEnvelope(more[j], vni) ensures HasReplay(more[..j + 1], vni) {
      if j < |log| {
        assert more[..j + 1] == log[..j + 1];
      } else {
        assert more[..j + 1] == more && e in more;
      }
    }
  }

  lemma {:induction false} OrderlyGrows(t: Texts, r: Rib, s: Sink, log: seq<Envelope>, more: seq<Envelope>)
    requires Orderly(t, log) && log <= more
    requires forall j :: |log| <= j < |more| ==> LiveDelta(r, s, more[j])
    requires forall sub :: sub in r.subscribers && r.subscribers[sub] == s ==> HasReplay(log, sub.vni)
    ensures Orderly(t, more)
  {
    if |log| == |more| {
      assert log == more;
    } else {
      var init, e := more[..|more| - 1], more[|more| - 1];
      OrderlyGrows(t, r, s, log, init);
      forall vni: nat | !QuietEnvelope(e, vni) ensures HasReplay(init, vni) {
        assert e.msg.RouteUpdate? && e.msg.key.vni == vni;
        StillHasReplay(log, init, vni);
      }
      OrderlyAppend(t, init, e);
      assert more == init + [e];
    }
  }

  lemma StillHasReplay(log: seq<Envelope>, more: seq<Envelope>, vni: nat)
    requires log <= more
    ensures HasReplay(log, vni) ==> HasReplay(more, vni)
  {
    assert forall e :: e in log ==> e in more;
  }

  lemma FedKeepsLogs(t: Texts, r: Rib, r': Rib)
    requires LogsOk(t, r) && Fed(r, r')
    ensures LogsOk(t, r')
  {
    hide Orderly, HasReplay, LiveDelta, Log;
    forall s ensures Orderly(t, Log(r'.sent, s)) {
      OrderlyGrows(t, r, s, Log(r.sent, s), Log(r'.sent, s));
    }
    forall sub | sub in r'.subscribers ensures HasReplay(Log(r'.sent, r'.subscribers[sub]), sub.vni) {
      var s := r'.subscribers[sub];
      StillHasReplay(Log(r.sent, s), Log(r'.sent, s), sub.vni);
    }
  }

  lemma {:induction false} RecordsNamed(t: Texts, r: Rib, vni: nat, prefixes: seq<string>)
    ensures forall m :: m in Records(t, r, vni, prefixes) ==> m.RouteUpdate? && m.key.vni == vni
  {
    hide AdvertisedAt;
    if prefixes != [] { RecordsNamed(t, r, vni, prefixes[..|prefixes| - 1]); }
  }

  /** A replay says nothing of another VNI. */
  lemma ReplayQuiet(t: Texts, r: Rib, vni: nat, other: nat)
    requires !QuietEnvelope(Snapshot(Replay(t, r, vni)), other)
    ensures other == vni
  {
    hide Records;
    RecordsNamed(t, r, vni, PrefixesOf(r.routes, vni));
  }

  lemma SubscribeKeepsLogs(t: Texts, r: Rib, vni: nat, s: Sink)
    requires LogsOk(t, r)
    ensures LogsOk(t, Subscribe(t, r, vni, s))
  {
    if !Resubscribes(r, vni, s) {
      var e, r' := Snapshot(Replay(t, r, vni)), Subscribe(t, r, vni, s);
      assert IsReplayEnvelope(e, vni);
      hide Orderly, QuietEnvelope, IsReplayEnvelope, Log, Deliver, Replay;
      forall x ensures Orderly(t, Log(r'.sent, x)) && Log(r.sent, x) <= Log(r'.sent, x) {
        LogAfter(r.sent, {s}, e, x);
        forall v: nat | !QuietEnvelope(e, v) ensures IsReplayEnvelope(e, v) { ReplayQuiet(t, r, vni, v); }
        OrderlyAppend(t, Log(r.sent, x), e);
      }
      forall sub | sub in r'.subscribers ensures HasReplay(Log(r'.sent, r'.subscribers[sub]), sub.vni) {
        var x := r'.subscribers[sub];
        LogAfter(r.sent, {s}, e, x);
        if sub == Subscription(vni, s.id) {
          assert e in Log(r'.sent, x);
        } else {
          StillHasReplay(Log(r.sent, x), Log(r'.sent, x), sub.vni);
        }
      }
    }
  }

  lemma {:induction false} NatRecordsGlobal(recs: map<NatKey, NatBlock>, order: seq<NatKey>)
    requires forall k :: k in order ==> k in recs
    ensures forall m :: m in NatRecords(recs, order) ==> m.NatUpdate?
  {
    if order != [] {
      assert forall k :: k in order[..|order| - 1] ==> k in order;
      NatRecordsGlobal(recs, order[..|order| - 1]);
    }
  }

  lemma {:induction false} PublicRecordsGlobal(recs: map<PublicKey, PublicRecord>, order: seq<PublicKey>)
    requires forall k :: k in order ==> k in recs
    ensures forall m :: m in PublicRecords(recs, order) ==> m.PublicUpdate?
  {
    if order != [] {
      assert forall k :: k in order[..|order| - 1] ==> k in order;
      PublicRecordsGlobal(recs, order[..|order| - 1]);
    }
  }

  lemma RegisterKeepsLogs(t: Texts, r: Rib, s: Sink, nats: seq<NatKey>, pubs: seq<PublicKey>)
    requires LogsOk(t, r)
    requires (forall k :: k in nats ==> k in r.nats.recs) && forall k :: k in pubs ==> k in r.publics.recs
    ensures LogsOk(t, RegisterSink(r, s, nats, pubs))
  {
    var ms, r' := GlobalReplay(r, nats, pubs), RegisterSink(r, s, nats, pubs);
    var e := Snapshot(ms);
    NatRecordsGlobal(r.nats.recs, nats);
    PublicRecordsGlobal(r.publics.recs, pubs);
    assert GlobalSnapshot(ms);
    assert forall v: nat :: QuietEnvelope(e, v);
    hide Orderly, QuietEnvelope, HasReplay, GlobalReplay, GlobalSnapshot, Log, Deliver;
    forall x ensures Orderly(t, Log(r'.sent, x)) && Log(r.sent, x) <= Log(r'.sent, x) {
      LogAfter(r.sent, {s}, e, x);
      OrderlyAppend(t, Log(r.sent, x), e);
    }
    forall sub | sub in r'.subscribers ensures HasReplay(Log(r'.sent, r'.subscribers[sub]), sub.vni) {
      StillHasReplay(Log(r.sent, r.subscribers[sub]), Log(r'.sent, r.subscribers[sub]), sub.vni);
    }
  }

  lemma StepKeepsLogs(t: Texts, r: Rib, op: Op)
    requires Legal(r, op) && LogsOk(t, r)
    ensures LogsOk(t, Step(t, r, op))
  {
    hide LogsOk, Fed;
    match op
    case OpSubscribe(vni, s) => SubscribeKeepsLogs(t, r, vni, s);
    case OpRegister(s, nats, pubs) => RegisterKeepsLogs(t, r, s, nats, pubs);
    case _ =>
      StepFed(t, r, op);
      FedKeepsLogs(t, r, Step(t, r, op));
  }

  /** In every run, every sink was handed only replays, global snapshots and well-formed deltas, nothing of a
      VNI before that VNI's first replay, and every subscriber has had one. */
  lemma {:induction false} LogsAreOrderly(t: Texts, run: seq<Rib>, ops: seq<Op>, n: nat)
    requires IsRun(t, run, ops) && n <= |ops|
    ensures LogsOk(t, run[n])
  {
    if n > 0 {
      hide LogsOk, Step, Legal;
      LogsAreOrderly(t, run, ops, n - 1);
      StepKeepsLogs(t, run[n - 1], ops[n - 1]);
      assert run[n - 1 + 1] == Step(t, run[n - 1], ops[n - 1]);
    }
  }

  // ---------------------------------------------------------------- the replays of one VNI

  function ReplaysIn(log: seq<Envelope>, vni: nat): nat {
    if log == [] then 0 else ReplaysIn(log[..|log| - 1], vni) + if IsReplayEnvelope(log[|log| - 1], vni) then 1 else 0
  }

  /** How often `sink` asked for the VNI. */
  function AskedFor(ops: seq<Op>, vni: nat, s: Sink): nat {
    if ops == [] then 0
    else AskedFor(ops[..|ops| - 1], vni, s) + if ops[|ops| - 1] == OpSubscribe(vni, s) then 1 else 0
  }

  lemma {:induction false} DeltasReplayNothing(r: Rib, s: Sink, log: seq<Envelope>, more: seq<Envelope>, vni: nat)
    requires log <= more && forall j :: |log| <= j < |more| ==> LiveDelta(r, s, more[j])
    ensures ReplaysIn(more, vni) == ReplaysIn(log, vni)
  {
    if |log| == |more| {
      assert log == more;
    } else {
      DeltasReplayNothing(r, s, log, more[..|more| - 1], vni);
    }
  }

  lemma ReplaysSnoc(log: seq<Envelope>, e: Envelope, vni: nat)
    ensures ReplaysIn(log + [e], vni) == ReplaysIn(log, vni) + if IsReplayEnvelope(e, vni) then 1 else 0
  {
    assert (log + [e])[..|log|] == log;
  }

  lemma StepReplays(t: Texts, r: Rib, op: Op, vni: nat, s: Sink)
    requires Legal(r, op) && LogsOk(t, r)
    ensures var before, after := ReplaysIn(Log(r.sent, s), vni), ReplaysIn(Log(Step(t, r, op).sent, s), vni);
            after <= before + if op == OpSubscribe(vni, s) then 1 else 0
  {
    hide ReplaysIn, Orderly, HasReplay, Deliver, Log, LiveDelta;
    var log := Log(r.sent, s);
    match op
    case OpSubscribe(v, x) =>
      LogAfter(r.sent, {x}, Snapshot(Replay(t, r, v)), s);
      ReplaysSnoc(log, Snapshot(Replay(t, r, v)), vni);
    case OpRegister(x, nats, pubs) =>
      LogAfter(r.sent, {x}, Snapshot(GlobalReplay(r, nats, pubs)), s);
      ReplaysSnoc(log, Snapshot(GlobalReplay(r, nats, pubs)), vni);
    case _ =>
      hide Step;
      StepFed(t, r, op);
      DeltasReplayNothing(r, s, log, Log(Step(t, r, op).sent, s), vni);
  }

  lemma {:induction false} ReplaysAreAsked(t: Texts, run: seq<Rib>, ops: seq<Op>, n: nat, vni: nat, s: Sink)
    requires IsRun(t, run, ops) && n <= |ops|
    ensures ReplaysIn(Log(run[n].sent, s), vni) <= AskedFor(ops[..n], vni, s)
  {
    if n > 0 {
      hide LogsOk, Step, Legal, ReplaysIn, Log;
      ReplaysAreAsked(t, run, ops, n - 1, vni, s);
      LogsAreOrderly(t, run, ops, n - 1);
      StepReplays(t, run[n - 1], ops[n - 1], vni, s);
      assert run[n - 1 + 1] == Step(t, run[n - 1], ops[n - 1]);
      assert ops[..n][..n - 1] == ops[..n - 1];
    }
  }

  /** Where the VNI's last replay stands in the log. */
  function LastReplayAt(log: seq<Envelope>, vni: nat): (i: nat)
    ensures i <= |log|
    ensures i < |log| ==> IsReplayEnvelope(log[i], vni)
    ensures forall j :: i < j < |log| ==> !IsReplayEnvelope(log[j], vni)
    ensures i == |log| ==> forall j :: 0 <= j < |log| ==> !IsReplayEnvelope(log[j], vni)
  {
    if log == [] then 0
    else if IsReplayEnvelope(log[|log| - 1], vni) then |log| - 1
    else
      var i := LastReplayAt(log[..|log| - 1], vni);
      if i == |log| - 1 then |log| else i
  }

  lemma {:induction false} SeveralReplays(log: seq<Envelope>, vni: nat, a: nat, b: nat)
    requires a <= b < |log| && IsReplayEnvelope(log[a], vni) && IsReplayEnvelope(log[b], vni)
    ensures ReplaysIn(log, vni) >= if a < b then 2 else 1
  {
    if b < |log| - 1 {
      SeveralReplays(log[..|log| - 1], vni, a, b);
    } else if a < b {
      SeveralReplays(log[..|log| - 1], vni, a, a);
    }
  }

  /** An envelope that can follow a replay of the VNI before the next one. */
  ghost predicate LiveOf(e: Envelope, vni: nat) {
    QuietEnvelope(e, vni) || (e.Delta? && ShapedDelta(e.msg))
  }

  lemma ShapedIsLive(t: Texts, e: Envelope, vni: nat)
    requires Shaped(t, e) && !IsReplayEnvelope(e, vni)
    ensures LiveOf(e, vni)
  {
    if e.Snapshot? && !GlobalSnapshot(e.msgs) {
      hide Replay;
      var r, v :| e.msgs == Replay(t, r, v);
      assert IsReplayEnvelope(Snapshot(Replay(t, r, v)), v) by { ReplayMarked(t, r, v); }
      if !QuietEnvelope(e, vni) { ReplayQuiet(t, r, v, vni); }
    }
  }

  lemma ReplayMarked(t: Texts, r: Rib, vni: nat)
    ensures IsReplayOf(Replay(t, r, vni), vni) && forall v: nat :: IsReplayOf(Replay(t, r, vni), v) ==> v == vni
  {
  }

  /** What a subscriber's log looks like: the last replay of its VNI is a whole replay of some table the
      reflector held, only live envelopes follow, and if the node asked once nothing of the VNI came before. */
  lemma LogAroundReplay(t: Texts, run: seq<Rib>, ops: seq<Op>, sub: Subscription) returns (r: Rib)
    requires IsRun(t, run, ops) && sub in run[|ops|].subscribers
    ensures var s := run[|ops|].subscribers[sub];
            var log := Log(run[|ops|].sent, s);
            var i := LastReplayAt(log, sub.vni);
            && i < |log| && log[i] == Snapshot(Replay(t, r, sub.vni))
            && (forall e :: e in log[i + 1..] ==> LiveOf(e, sub.vni))
            && (AskedFor(ops, sub.vni, s) <= 1 ==> forall e :: e in log[..i] ==> QuietEnvelope(e, sub.vni))
  {
    assert |run| == |ops| + 1;
    hide IsRun, Replay, QuietEnvelope, LiveOf, Shaped, ShapedDelta;
    LogsAreOrderly(t, run, ops, |ops|);
    var s, vni := run[|ops|].subscribers[sub], sub.vni;
    var log := Log(run[|ops|].sent, s);
    var i := LastReplayAt(log, vni);
    assert Orderly(t, log) && HasReplay(log, vni);
    assert i < |log|;
    r := ReplayAt(t, log, vni);
    forall e | e in log[i + 1..] ensures LiveOf(e, vni) { ShapedIsLive(t, e, vni); }
    ReplaysAreAsked(t, run, ops, |ops|, vni, s);
    assert ops[..|ops|] == ops;
    if AskedFor(ops, vni, s) <= 1 { QuietBefore(t, log, vni); }
  }

  lemma ReplayAt(t: Texts, log: seq<Envelope>, vni: nat) returns (r: Rib)
    requires Orderly(t, log) && LastReplayAt(log, vni) < |log|
    ensures log[LastReplayAt(log, vni)] == Snapshot(Replay(t, r, vni))
  {
    hide Replay, QuietEnvelope;
    var e := log[LastReplayAt(log, vni)];
    assert e in log && !GlobalSnapshot(e.msgs);
    var q, v :| e.msgs == Replay(t, q, v);
    ReplayMarked(t, q, v);
    r := q;
  }

  lemma QuietBefore(t: Texts, log: seq<Envelope>, vni: nat)
    requires Orderly(t, log) && LastReplayAt(log, vni) < |log| && ReplaysIn(log, vni) <= 1
    ensures forall e :: e in log[..LastReplayAt(log, vni)] ==> QuietEnvelope(e, vni)
  {
    hide QuietEnvelope, IsReplayEnvelope, ReplaysIn, Shaped;
    var i := LastReplayAt(log, vni);
    forall j | 0 <= j < i ensures QuietEnvelope(log[j], vni) {
      if !QuietEnvelope(log[j], vni) {
        var e :| e in log[..j + 1] && IsReplayEnvelope(e, vni);
        var a :| 0 <= a < j + 1 && log[a] == e;
        SeveralReplays(log, vni, a, i);
        assert false;
      }
    }
  }
}
