/** From the reflector to the dataplane: the routes a running agent has learned are the fold of the messages it took,
    so a settled dataplane routes by the reflector's table. */
module EndToEnd {
  import opened Order
  import opened Addresses
  import opened RouteBus
  import opened RibState
  import opened RibViews
  import opened Queues
  import opened RibLogs
  import BusState
  import BusSync
  import BusRepair
  import BusReplay

  type BusWorld = BusState.World
  type BusOp = BusRepair.BusOp

  // ---------------------------------------------------------------- what a run teaches

  /** The route messages among the steps, in order. */
  function Taught(ops: seq<BusOp>): seq<ServerMsg> {
    if ops == [] then []
    else
      var op := ops[|ops| - 1];
      Taught(ops[..|ops| - 1]) +
      match op
      case Receive(k, nhs, add, ext, _) => [RouteUpdate(k, nhs, add, ext)]
      case EndReplay(vni, count, _, _) => [EndOfRib(vni, count)]
      case _ => []
  }

  /** No step edits the learned routes but a message: no reconfiguration, and no local guest leaves. */
  predicate Undisturbed(op: BusOp) { !op.Reconfigure? && (op.DoTick? ==> op.orders.left == []) }

  lemma {:induction false} SyncEachKeeps(c: BusState.Env, w: BusWorld, order: seq<RouteKey>)
    ensures BusState.SyncEach(c, w, order).inputs == w.inputs
  {
    hide BusState.Desired;
    if order != [] { SyncEachKeeps(c, w, order[..|order| - 1]); }
  }

  lemma SyncLearnedKeeps(c: BusState.Env, w: BusWorld, k: RouteKey, force: bool, importers: seq<RouteKey>)
    ensures BusState.SyncLearned(c, w, k, force, importers).inputs == w.inputs
  {
    hide BusState.Desired, BusState.SyncEach;
    SyncEachKeeps(c, w, BusState.EgressKeys(w.inputs.egressVNIs, k.prefix));
    SyncEachKeeps(c, BusState.SyncKey(c, w, k, force).world, importers);
  }

  lemma {:induction false} SyncStaleKeeps(c: BusState.Env, w: BusWorld, vni: nat, stale: seq<string>,
      importers: seq<seq<RouteKey>>)
    requires |stale| == |importers|
    ensures BusState.SyncStale(c, w, vni, stale, importers).inputs == w.inputs
  {
    hide BusState.SyncLearned;
    if stale != [] {
      var n := |stale| - 1;
      SyncStaleKeeps(c, w, vni, stale[..n], importers[..n]);
      var w1 := BusState.SyncStale(c, w, vni, stale[..n], importers[..n]);
      SyncLearnedKeeps(c, w1, RouteKey(vni, stale[n]), false, importers[n]);
    }
  }

  lemma {:induction false} DiffKeeps(c: BusState.Env, l: BusState.Loop, order: seq<RouteKey>)
    ensures BusState.DiffAll(c, l, order).world.inputs == l.world.inputs
  {
    hide BusState.Desired;
    if order != [] { DiffKeeps(c, l, order[..|order| - 1]); }
  }

  lemma {:induction false} ResendKeeps(c: BusState.Env, w: BusWorld, budget: nat)
    ensures BusState.ResendLoop(c, w, budget).inputs == w.inputs
    decreases |w.resend|
  {
    hide BusState.Desired;
    if w.resend != [] && budget > 0 {
      var k, w1 := w.resend[0], w.(resend := w.resend[1..]);
      ResendKeeps(c, w1, budget);
      ResendKeeps(c, BusState.SyncKey(c, w1, k, true).world, budget - 1);
    }
  }

  /** A tick in which no local guest leaves keeps the learned routes. */
  lemma TickKeepsLearned(c: BusState.Env, w: BusWorld, p: BusState.Probe, op: BusOp)
    requires op.DoTick? && op.orders.left == []
    ensures BusState.SyncRoutes(c, w, p, op.self, op.reply, op.due, op.orders).inputs.learned == w.inputs.learned
  {
    hide BusState.DiffAll, BusState.ResendLoop, BusState.RouteKeys, BusState.HostsOf, BusState.UnderlaysOf;
    var w1 := BusState.Swept(c, w, p, op.self, op.reply, op.due, op.orders);
    assert w1.inputs.learned == w.inputs.learned;
    var l0 := BusState.Loop(BusState.Cleaned(c, w1), BusState.ROUTE_CALLS_PER_TICK, false);
    DiffKeeps(c, l0, op.orders.diff);
    var l := BusState.DiffAll(c, l0, op.orders.diff);
    ResendKeeps(c, l.world, l.budget);
  }

  lemma StepLearns(c: BusState.Env, w: BusWorld, p: BusState.Probe, op: BusOp)
    requires BusRepair.WellShaped(c, w, p, op) && Undisturbed(op)
    ensures BusRepair.Step(c, w, p, op).inputs.learned == BusState.LearnAll(w.inputs.learned, Taught([op]))
  {
    hide BusState.SyncLearned, BusState.SyncStale, BusState.SyncRoutes, BusState.LearnRoute, BusState.Prune,
      BusState.RxOf;
    assert [op][..0] == [];
    match op
    case Receive(k, nhs, add, ext, importers) =>
      var l := BusState.LearnRoute(w.inputs.learned, k, nhs, add, ext);
      SyncLearnedKeeps(c, BusState.Relearned(w, l), k, true, importers);
      OneMessage(w.inputs.learned, RouteUpdate(k, nhs, add, ext));
    case EndReplay(vni, count, stale, importers) =>
      SyncStaleKeeps(c, BusState.Relearned(w, BusState.Prune(w.inputs.learned, vni, count)), vni, stale, importers);
      OneMessage(w.inputs.learned, EndOfRib(vni, count));
      if BusState.RxOf(w.inputs.learned, vni) != count { WrongCountPrunesNothing(w.inputs.learned, vni, count); }
    case DoTick(_, _, _, _) => TickKeepsLearned(c, w, p, op);
    case Lose(_) =>
  }

  lemma OneMessage(l: BusState.Learned, m: ServerMsg)
    ensures BusState.LearnAll(l, [m]) == BusState.Learn(l, m)
  {
    assert [m][..0] == [];
  }

  lemma WrongCountPrunesNothing(l: BusState.Learned, vni: nat, count: nat)
    requires BusState.RxOf(l, vni) != count
    ensures BusState.Prune(l, vni, count) == l
  {
  }

  lemma TaughtSnoc(ops: seq<BusOp>, op: BusOp)
    ensures Taught(ops + [op]) == Taught(ops) + Taught([op])
  {
    assert (ops + [op])[..|ops|] == ops && [op][..0] == [];
  }

  /** In every run of the agent, failing calls and losses and all, what it has learned is the fold of the messages it
      took, over any stretch that is not reconfigured and that no local guest leaves. */
  lemma {:induction false} LearnedIsFold(c: BusState.Env, run: seq<BusWorld>, ops: seq<BusOp>, i: nat, n: nat)
    requires BusRepair.IsRun(c, run, ops) && i <= n <= |ops| && forall j :: i <= j < n ==> Undisturbed(ops[j])
    ensures run[n].inputs.learned == BusState.LearnAll(run[i].inputs.learned, Taught(ops[i..n]))
  {
    hide BusState.LearnAll, Undisturbed, BusRepair.IsRun, Taught;
    BusRepair.RunLength(c, run, ops);
    var l0 := run[i].inputs.learned;
    if n == i {
      assert ops[i..n] == [];
      NothingTaught(l0);
    } else {
      LearnedIsFold(c, run, ops, i, n - 1);
      RunStepLearns(c, run, ops, n - 1);
      assert ops[i..n] == ops[i..n - 1] + [ops[n - 1]];
      TaughtSnoc(ops[i..n - 1], ops[n - 1]);
      BusReplay.LearnAllAppend(l0, Taught(ops[i..n - 1]), Taught([ops[n - 1]]));
    }
  }

  lemma RunStepLearns(c: BusState.Env, run: seq<BusWorld>, ops: seq<BusOp>, j: nat)
    requires BusRepair.IsRun(c, run, ops) && j < |ops| && Undisturbed(ops[j])
    ensures run[j + 1].inputs.learned == BusState.LearnAll(run[j].inputs.learned, Taught([ops[j]]))
  {
    hide BusRepair.Step, BusRepair.WellShaped, BusState.LearnAll, Taught, Undisturbed, BusRepair.ProbeAt;
    var p := BusRepair.ProbeAt(ops, j);
    assert BusRepair.WellShaped(c, run[j], p, ops[j]) && run[j + 1] == BusRepair.Step(c, run[j], p, ops[j]);
    StepLearns(c, run[j], p, ops[j]);
  }

  lemma NothingTaught(l: BusState.Learned)
    ensures BusState.LearnAll(l, Taught([])) == l
  {
  }

  // ---------------------------------------------------------------- the session's other messages

  /** The route messages of a stream; the global feed teaches no routes. */
  function RoutesOnly(ms: seq<ServerMsg>): seq<ServerMsg> {
    if ms == [] then []
    else
      var init, m := RoutesOnly(ms[..|ms| - 1]), ms[|ms| - 1];
      if m.RouteUpdate? || m.EndOfRib? then init + [m] else init
  }

  lemma {:induction false} OthersTeachNothing(l: BusState.Learned, ms: seq<ServerMsg>)
    ensures BusState.LearnAll(l, RoutesOnly(ms)) == BusState.LearnAll(l, ms)
  {
    hide BusState.Prune, BusState.LearnRoute;
    if ms != [] {
      var init, m := ms[..|ms| - 1], ms[|ms| - 1];
      OthersTeachNothing(l, init);
      var r := RoutesOnly(init);
      assert (r + [m])[..|r|] == r;
    }
  }

  // ---------------------------------------------------------------- the reflector's table in the dataplane

  /** The agent's run since it last asked for the VNI: it opened a replay epoch at step i and has since taken exactly
      the route messages of the stream. */
  ghost predicate Follows(c: BusState.Env, run: seq<BusWorld>, ops: seq<BusOp>, i: nat, vni: nat,
      stale: BusState.Learned, taken: seq<ServerMsg>) {
    && BusRepair.IsRun(c, run, ops) && i <= |ops| && (forall j :: i <= j < |ops| ==> Undisturbed(ops[j]))
    && run[i].inputs.learned == BusState.ResetSnapshot(stale, vni) && Taught(ops[i..]) == RoutesOnly(taken)
  }

  lemma FollowsLearns(c: BusState.Env, run: seq<BusWorld>, ops: seq<BusOp>, i: nat, vni: nat, stale: BusState.Learned,
      taken: seq<ServerMsg>)
    requires Follows(c, run, ops, i, vni, stale, taken)
    ensures run[|ops|].inputs.learned == BusState.LearnAll(BusState.ResetSnapshot(stale, vni), taken)
  {
    hide BusRepair.Step, BusRepair.WellShaped, BusState.LearnAll, BusState.ResetSnapshot, Taught, RoutesOnly,
         Undisturbed;
    LearnedIsFold(c, run, ops, i, |ops|);
    assert ops[i..|ops|] == ops[i..];
    OthersTeachNothing(run[i].inputs.learned, taken);
  }

  /** What a key holds that is not a local guest's and whose learned route names these nexthops: the first of them,
      on its own VNI. */
  lemma SettledByNexthops(c: BusState.Env, w: BusWorld, k: RouteKey, nhs: seq<string>)
    requires BusSync.Matches(c, w) && k.vni != BusState.PUBLIC_VNI && k !in w.inputs.localHosts
    requires BusReplay.Holds(w.inputs.learned, k, nhs) && nhs != []
    ensures k in w.table && w.table[k].nexthop == nhs[0] && w.table[k].deliveryVNI == k.vni
  {
    hide BusState.PrefixInCIDRs;
    assert BusSync.TableAt(w, k) == BusSync.WantedEntry(c, w, k);
  }

  /** End to end. The reflector ran, the node's queue dropped nothing and is drained, the agent took its messages amid
      failing calls and losses, and the dataplane has settled. Then every advertised key of the VNI that this node
      neither originated nor hosts is routed to the first nexthop the reflector advertises, on its own VNI. */
  lemma DataplaneFollowsReflector(t: Texts, rib: seq<Rib>, ops: seq<Op>, sub: Subscription, k: RouteKey,
      events: seq<Event>, n: nat, c: BusState.Env, bus: seq<BusWorld>, busOps: seq<BusOp>, i: nat,
      stale: BusState.Learned)
    requires IsRun(t, rib, ops) && sub in rib[|ops|].subscribers && k.vni == sub.vni
    requires sub in OriginatedBy(rib, ops, |ops|) ==> k !in OriginatedBy(rib, ops, |ops|)[sub]
    requires HistoryOf(events).offered == Log(rib[|ops|].sent, rib[|ops|].subscribers[sub])
    requires HistoryOf(events).queue.dropped == 0 && HistoryOf(events).queue.pending == []
    requires n <= |BusReplay.BeforeReplay(HistoryOf(events).offered, k.vni)| && n <= |HistoryOf(events).taken|
    requires BusReplay.AddsOf(BusReplay.BeforeReplay(HistoryOf(events).offered, k.vni)[n..], k.vni) == 0
    requires Follows(c, bus, busOps, i, k.vni, stale, HistoryOf(events).taken[n..])
    requires BusSync.Matches(c, bus[|busOps|])
    requires k.vni != BusState.PUBLIC_VNI && k !in bus[|busOps|].inputs.localHosts
    ensures var w, advertised := bus[|busOps|], AdvertisedAt(t, rib[|ops|], k);
            && (k in w.inputs.learned.own <==> advertised != [])
            && (advertised != [] ==>
                 k in w.table && w.table[k].nexthop == advertised[0] && w.table[k].deliveryVNI == k.vni)
  {
    assert |rib| == |ops| + 1 && |bus| == |busOps| + 1;
    hide IsRun, AdvertisedAt, HistoryOf, BusState.LearnAll, BusState.ResetSnapshot, BusReplay.BeforeReplay,
      BusReplay.AddsOf, BusSync.Matches, OriginatedBy, Log, BusRepair.IsRun, Taught, RoutesOnly, Undisturbed;
    BusReplay.ResubscribedAgentHolds(t, rib, ops, sub, k, events, stale, n);
    FollowsLearns(c, bus, busOps, i, k.vni, stale, HistoryOf(events).taken[n..]);
    hide Follows;
    var advertised := AdvertisedAt(t, rib[|ops|], k);
    if advertised != [] { SettledByNexthops(c, bus[|busOps|], k, advertised); }
  }
}
