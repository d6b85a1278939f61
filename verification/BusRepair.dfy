/** Runs of the agent against a dataplane whose calls may fail either way and which may lose any part
    of its table: nothing owed is ever forgotten, and once calls are accepted every key converges. */
module BusRepair {
  import opened Order
  import opened RouteBus
  import opened BusState
  import opened BusSync
  import opened BusResync

  /** How far the record can be trusted: never mind the table's losses, but for keys still owed a re-send, or at
      every key. */
  datatype Grade = Lossy | Mended | Intact

  /** The record is right or the key is unknown; or, by grade, the dataplane lost the key, or lost it and the re-send
      is still owed. */
  predicate FineAt(w: World, k: RouteKey, g: Grade) {
    || TruthfulAt(w, k)
    || (k !in w.table && match g case Lossy => true case Mended => k in w.resend case Intact => false)
  }

  /** No backoff reaches further than its cap. */
  ghost predicate BackoffsBounded(w: World) {
    forall k :: k in w.retries ==> w.retries[k].nextTick <= w.ticks + RETRY_MAX_TICKS
  }

  /** What every step keeps. */
  ghost predicate Safe(w: World, g: Grade) { (forall k :: FineAt(w, k, g)) && BackoffsBounded(w) }

  lemma SafeAnyway(w: World, g: Grade)
    requires Safe(w, g)
    ensures Safe(w, Lossy) && (!g.Lossy? ==> Safe(w, Mended))
  {
    forall k ensures FineAt(w, k, Lossy) && (!g.Lossy? ==> FineAt(w, k, Mended)) { assert FineAt(w, k, g); }
  }

  lemma BackoffCapped(failures: nat)
    requires failures > 0
    ensures Backoff(failures) <= RETRY_MAX_TICKS
  {
  }

  lemma SyncSafe(c: Env, w: World, k: RouteKey, force: bool, g: Grade)
    requires Safe(w, g)
    ensures Safe(SyncKey(c, w, k, force).world, g)
  {
    hide Desired, Backoff;
    var w' := SyncKey(c, w, k, force).world;
    forall f: nat | f > 0 ensures Backoff(f) <= RETRY_MAX_TICKS { BackoffCapped(f); }
    if Drifted(c, w, k) || force {
      CallEffect(c, w, k, k);
      forall j ensures FineAt(w', j, g) {
        CallEffect(c, w, k, j);
        assert FineAt(w, j, g) && FineAt(w, k, g);
      }
    }
  }

  /** A popped key that gets no call needed none. */
  lemma PopSafe(c: Env, w: World, g: Grade)
    requires Safe(w, g) && w.resend != []
    ensures var k, w' := w.resend[0], w.(resend := w.resend[1..]);
            && (k !in w.programmed ==> Safe(w', g))
            && Safe(SyncKey(c, w', k, true).world, g)
  {
    hide Desired, NoteFailure;
    var k, w' := w.resend[0], w.(resend := w.resend[1..]);
    forall j ensures FineAt(w', j, Lossy) && (j != k ==> FineAt(w', j, g)) {
      assert FineAt(w, j, g);
      assert j in w.resend && j != k ==> j in w.resend[1..];
    }
    assert FineAt(w', k, Lossy);
    assert k !in w.programmed ==> TruthfulAt(w', k);
    var w'' := SyncKey(c, w', k, true).world;
    CallEffect(c, w', k, k);
    forall j ensures FineAt(w'', j, g) {
      CallEffect(c, w', k, j);
      assert FineAt(w', j, Lossy) && (j != k ==> FineAt(w', j, g));
    }
    SyncSafe(c, w', k, true, Lossy);
  }

  lemma {:induction false} SyncEachSafe(c: Env, w: World, order: seq<RouteKey>, g: Grade)
    requires Safe(w, g)
    ensures Safe(SyncEach(c, w, order), g)
  {
    hide Safe, SyncKey;
    if order != [] {
      SyncEachSafe(c, w, order[..|order| - 1], g);
      SyncSafe(c, SyncEach(c, w, order[..|order| - 1]), order[|order| - 1], false, g);
    }
  }

  lemma SyncLearnedSafe(c: Env, w: World, k: RouteKey, force: bool, importers: seq<RouteKey>, g: Grade)
    requires Safe(w, g)
    ensures Safe(SyncLearned(c, w, k, force, importers), g)
  {
    hide Safe, SyncKey, SyncEach;
    SyncEachSafe(c, w, EgressKeys(w.inputs.egressVNIs, k.prefix), g);
    SyncSafe(c, w, k, force, g);
    SyncEachSafe(c, SyncKey(c, w, k, force).world, importers, g);
  }

  lemma {:induction false} SyncStaleSafe(c: Env, w: World, vni: nat, stale: seq<string>, importers: seq<seq<RouteKey>>,
      g: Grade)
    requires Safe(w, g) && |stale| == |importers|
    ensures Safe(SyncStale(c, w, vni, stale, importers), g)
  {
    hide Safe, SyncLearned;
    if stale != [] {
      var n := |stale| - 1;
      SyncStaleSafe(c, w, vni, stale[..n], importers[..n], g);
      SyncLearnedSafe(c, SyncStale(c, w, vni, stale[..n], importers[..n]), RouteKey(vni, stale[n]), false,
        importers[n], g);
    }
  }

  /** The wanted routes may change freely: safety is about the record and the table. */
  lemma InputsSafe(w: World, w': World, g: Grade)
    requires Safe(w, g)
    requires w'.table == w.table && w'.programmed == w.programmed && w'.resend == w.resend && w.ticks <= w'.ticks
    requires forall k :: k in w'.retries ==> k in w.retries && w'.retries[k] == w.retries[k]
    ensures Safe(w', g)
  {
    forall k ensures FineAt(w', k, g) { assert FineAt(w, k, g); }
  }

  lemma {:induction false} DiffAllSafe(c: Env, l: Loop, order: seq<RouteKey>, g: Grade)
    requires Safe(l.world, g)
    ensures Safe(DiffAll(c, l, order).world, g)
  {
    hide Safe, SyncKey, Waits;
    if order != [] {
      DiffAllSafe(c, l, order[..|order| - 1], g);
      var l1, k := DiffAll(c, l, order[..|order| - 1]), order[|order| - 1];
      InputsSafe(l1.world, Unwaited(c, l1.world, k), g);
      SyncSafe(c, Unwaited(c, l1.world, k), k, false, g);
    }
  }

  lemma {:induction false} ResendSafe(c: Env, w: World, budget: nat, g: Grade)
    requires Safe(w, g)
    ensures Safe(ResendLoop(c, w, budget), g)
    decreases |w.resend|
  {
    hide Safe, Desired, Drifted, Call;
    if w.resend != [] && budget > 0 {
      var k, w' := w.resend[0], w.(resend := w.resend[1..]);
      PopSafe(c, w, g);
      if Desired(c, w.inputs, k).None? && k !in w.programmed && k !in w.inputs.localHosts {
        ResendSafe(c, w', budget, g);
      } else {
        var s := SyncKey(c, w', k, true);
        SyncEffect(c, w', k, true, k);
        if !s.outcome.Unreachable? { ResendSafe(c, s.world, budget - 1, g); }
      }
    }
  }

  lemma ResyncSafe(c: Env, w: World, order: seq<RouteKey>, g: Grade)
    requires Safe(w, g)
    ensures Safe(Resync(c, w, order), g)
  {
    hide Safe, DiffAll, ResendLoop, RouteKeys;
    InputsSafe(w, Cleaned(c, w), g);
    var l := Loop(Cleaned(c, w), ROUTE_CALLS_PER_TICK, false);
    DiffAllSafe(c, l, order, g);
    var l' := DiffAll(c, l, order);
    ResendSafe(c, l'.world, l'.budget, g);
  }

  lemma TickSafe(c: Env, w: World, order: seq<RouteKey>, g: Grade)
    requires Safe(w, g)
    ensures Safe(Tick(c, w, order), g)
  {
    hide Safe, Resync;
    InputsSafe(w, Ticked(w), g);
    ResyncSafe(c, Ticked(w), order, g);
  }

  lemma {:induction false} ReleaseEachSafe(c: Env, w: World, order: seq<RouteKey>, g: Grade)
    requires Safe(w, g)
    ensures Safe(ReleaseEach(c, w, order), g)
  {
    hide Safe, SyncKey, Foreign;
    if order != [] {
      ReleaseEachSafe(c, w, order[..|order| - 1], g);
      var w1, k := ReleaseEach(c, w, order[..|order| - 1]), order[|order| - 1];
      var own := w1.inputs.learned.own;
      var w2 := if k !in own then w1
                else Relearned(w1,
                  w1.inputs.learned.(own :=
                    own[k := own[k].(nexthops := Foreign(w1.inputs.ownUnderlays, own[k].nexthops))]));
      InputsSafe(w1, w2, g);
      SyncSafe(c, w2, k, true, g);
    }
  }

  lemma RefreshSafe(c: Env, w: World, self: string, reply: ListReply, left: seq<RouteKey>, g: Grade)
    requires Safe(w, g)
    ensures Safe(Refreshed(c, w, self, reply, left), g)
  {
    hide Safe, ReleaseEach, HostsOf, UnderlaysOf;
    if reply.ListOk? {
      var w1 :=
        w.(inputs := w.inputs.(localHosts := HostsOf(reply.ifaces), ownUnderlays := UnderlaysOf(self, reply.ifaces)));
      InputsSafe(w, w1, g);
      ReleaseEachSafe(c, w1, left, g);
    }
  }

  /** A full re-send mends what was lost. */
  function Mend(g: Grade): Grade { if g.Lossy? then Mended else g }

  /** A whole tick keeps what is safe, and one that queues the full re-send mends. */
  lemma SyncRoutesSafe(c: Env, w: World, p: Probe, self: string, reply: ListReply, due: bool, o: TickOrders, g: Grade)
    requires Safe(w, g) && TickOrdered(c, w, p, self, reply, due, o)
    ensures var owes := OwesResend(Refreshed(c, Ticked(w), self, reply, o.left), p, reply, due);
            Safe(SyncRoutes(c, w, p, self, reply, due, o), if owes then Mend(g) else g)
  {
    hide Safe, Resync, Refreshed, RouteKeys, Enumerates, OwesAll;
    InputsSafe(w, Ticked(w), g);
    RefreshSafe(c, Ticked(w), self, reply, o.left, g);
    var w1 := Refreshed(c, Ticked(w), self, reply, o.left);
    var owes := OwesResend(w1, p, reply, due);
    if owes { DetectSafe(c, w1, o.resend, g); }
    ResyncSafe(c, Swept(c, w, p, self, reply, due, o), o.diff, if owes then Mend(g) else g);
  }

  // ---------------------------------------------------------------- runs

  /** A tick carries the answer its read of the interfaces got, and whether the slow sweep was due. */
  datatype BusOp =
    | Receive(key: RouteKey, nexthops: seq<string>, add: bool, external: bool, importers: seq<RouteKey>)
    | EndReplay(vni: nat, count: nat, stale: seq<string>, staleImporters: seq<seq<RouteKey>>)
    | DoTick(self: string, reply: ListReply, due: bool, orders: TickOrders)
    | Reconfigure(inputs: Inputs)
    | Lose(lost: set<RouteKey>)

  /** What the ticks among the first n steps told of the dataplane. */
  function ProbeAt(ops: seq<BusOp>, n: nat): Probe
    requires n <= |ops|
  {
    if n == 0 then NoProbe
    else if ops[n - 1].DoTick? then Probed(ProbeAt(ops, n - 1), ops[n - 1].reply)
    else ProbeAt(ops, n - 1)
  }

  ghost predicate WellShaped(c: Env, w: World, p: Probe, op: BusOp) {
    match op
    case EndReplay(_, _, stale, importers) => |stale| == |importers|
    case DoTick(self, reply, due, o) => TickOrdered(c, w, p, self, reply, due, o)
    case _ => true
  }

  /** Reconfigure covers peering and egress edits, a new session and forgotten VNIs. */
  ghost function Step(c: Env, w: World, p: Probe, op: BusOp): World
    requires WellShaped(c, w, p, op)
  {
    match op
    case Receive(k, nhs, add, ext, importers) => Apply(c, w, k, nhs, add, ext, importers)
    case EndReplay(vni, count, stale, importers) => PruneVNI(c, w, vni, count, stale, importers)
    case DoTick(self, reply, due, o) => SyncRoutes(c, w, p, self, reply, due, o)
    case Reconfigure(i) => w.(inputs := i)
    case Lose(lost) => w.(table := w.table - lost)
  }

  ghost predicate Fresh(w: World) { w.programmed == map[] && w.table == map[] && w.retries == map[] && w.resend == [] }

  ghost predicate IsRun(c: Env, run: seq<World>, ops: seq<BusOp>) {
    && |run| == |ops| + 1 && Fresh(run[0])
    && forall i :: 0 <= i < |ops| ==>
         WellShaped(c, run[i], ProbeAt(ops, i), ops[i]) && run[i + 1] == Step(c, run[i], ProbeAt(ops, i), ops[i])
  }

  predicate Notices(p: Probe, op: BusOp) { op.DoTick? && Restarted(p, op.reply) }

  /** The tick queues the full re-send: it notices a restart, or the sweep is due. */
  predicate Resends(c: Env, w: World, p: Probe, op: BusOp) {
    op.DoTick? && OwesResend(Refreshed(c, Ticked(w), op.self, op.reply, op.orders.left), p, op.reply, op.due)
  }

  /** What the first n steps leave: a loss spoils the record until a full re-send answers it. */
  ghost function GradeAt(c: Env, run: seq<World>, ops: seq<BusOp>, n: nat): Grade
    requires n <= |ops| < |run|
  {
    if n == 0 then Intact
    else if ops[n - 1].Lose? then Lossy
    else if Resends(c, run[n - 1], ProbeAt(ops, n - 1), ops[n - 1]) then Mend(GradeAt(c, run, ops, n - 1))
    else GradeAt(c, run, ops, n - 1)
  }

  lemma StepSafe(c: Env, w: World, p: Probe, op: BusOp, g: Grade)
    requires Safe(w, g) && WellShaped(c, w, p, op)
    ensures Safe(Step(c, w, p, op), if op.Lose? then Lossy else if Resends(c, w, p, op) then Mend(g) else g)
  {
    hide SyncLearned, SyncStale, SyncRoutes, SyncKey, RouteKeys, Prune, LearnRoute, TickOrdered, Refreshed, OwesResend;
    match op
    case Receive(k, nhs, add, ext, importers) =>
      var w1 := Relearned(w, LearnRoute(w.inputs.learned, k, nhs, add, ext));
      InputsSafe(w, w1, g);
      SyncLearnedSafe(c, w1, k, true, importers, g);
    case EndReplay(vni, count, stale, importers) =>
      var w1 := Relearned(w, Prune(w.inputs.learned, vni, count));
      InputsSafe(w, w1, g);
      SyncStaleSafe(c, w1, vni, stale, importers, g);
    case DoTick(self, reply, due, o) => SyncRoutesSafe(c, w, p, self, reply, due, o, g);
    case Reconfigure(i) => InputsSafe(w, w.(inputs := i), g);
    case Lose(lost) => LossSafe(w, lost, g);
  }

  lemma LossSafe(w: World, lost: set<RouteKey>, g: Grade)
    requires Safe(w, g)
    ensures Safe(w.(table := w.table - lost), Lossy)
  {
    var w' := w.(table := w.table - lost);
    forall k ensures FineAt(w', k, Lossy) { assert FineAt(w, k, g); }
  }

  lemma DetectSafe(c: Env, w: World, order: seq<RouteKey>, g: Grade)
    requires Safe(w, g) && OwesAll(c, w, order)
    ensures Safe(QueueFullResend(w, order), Mend(g))
  {
    var w' := QueueFullResend(w, order);
    forall k ensures FineAt(w', k, Mend(g)) {
      assert FineAt(w, k, g);
      assert k in w.programmed ==> k in RouteKeys(c, w);
    }
  }

  lemma FreshIsSafe(w: World)
    requires Fresh(w)
    ensures Safe(w, Intact)
  {
    assert forall k :: FineAt(w, k, Intact);
  }

  /** In every run, whatever calls fail and however: no key of the dataplane ever holds a route the
      record contradicts, and once a loss has been answered by a full re-send each key's record is right, or the key is
      unknown, or it is still queued for its re-send. */
  lemma {:induction false} NothingOwedIsForgotten(c: Env, run: seq<World>, ops: seq<BusOp>, n: nat)
    requires IsRun(c, run, ops) && n <= |ops|
    ensures Safe(run[n], GradeAt(c, run, ops, n))
  {
    hide Safe, Step, Resends, WellShaped;
    if n == 0 {
      FreshIsSafe(run[0]);
    } else {
      NothingOwedIsForgotten(c, run, ops, n - 1);
      StepSafe(c, run[n - 1], ProbeAt(ops, n - 1), ops[n - 1], GradeAt(c, run, ops, n - 1));
      assert run[n - 1 + 1] == Step(c, run[n - 1], ProbeAt(ops, n - 1), ops[n - 1]);
    }
  }

  /** As long as the dataplane loses nothing, `programmed` never misstates it: whichever failed calls
      landed, whatever restarts or outages were suspected and re-sent for. */
  lemma RecordNeverLies(c: Env, run: seq<World>, ops: seq<BusOp>, n: nat)
    requires IsRun(c, run, ops) && n <= |ops|
    requires forall i :: 0 <= i < n ==> !ops[i].Lose?
    ensures Truthful(run[n])
  {
    NothingOwedIsForgotten(c, run, ops, n);
    hide IsRun, TruthfulAt;
    IntactWithoutLoss(c, run, ops, n);
    forall k ensures TruthfulAt(run[n], k) { assert FineAt(run[n], k, Intact); }
  }

  lemma {:induction false} IntactWithoutLoss(c: Env, run: seq<World>, ops: seq<BusOp>, n: nat)
    requires n <= |ops| < |run| && forall i :: 0 <= i < n ==> !ops[i].Lose?
    ensures GradeAt(c, run, ops, n).Intact?
  {
    hide Resends;
    if n > 0 { IntactWithoutLoss(c, run, ops, n - 1); }
  }

  // ---------------------------------------------------------------- noticing a restart

  /** A tick takes the dataplane for restarted exactly when it gets an answer and the tick before got none, or one
      of another instance. */
  lemma RestartNoticedExactly(ops: seq<BusOp>, j: nat, n: nat)
    requires j < n < |ops| && ops[n].DoTick? && forall m :: j < m < n ==> !ops[m].DoTick?
    requires ops[j].DoTick?
    ensures Notices(ProbeAt(ops, n), ops[n]) <==>
            ops[n].reply.ListOk? && (ops[j].reply.ListFailed? || ops[j].reply.instance != ops[n].reply.instance)
  {
    ProbeUnmoved(ops, j + 1, n);
  }

  lemma {:induction false} ProbeUnmoved(ops: seq<BusOp>, i: nat, n: nat)
    requires i <= n <= |ops| && forall m :: i <= m < n ==> !ops[m].DoTick?
    ensures ProbeAt(ops, n) == ProbeAt(ops, i)
  {
    if i < n { ProbeUnmoved(ops, i, n - 1); }
  }

  /** Between answers of two instances some tick notices: a restart is never slept through. */
  lemma {:induction false} RestartAlwaysNoticed(ops: seq<BusOp>, i: nat, n: nat)
    requires i < n < |ops| && ops[i].DoTick? && ops[i].reply.ListOk? && ops[n].DoTick? && ops[n].reply.ListOk?
    requires ops[i].reply.instance != ops[n].reply.instance
    ensures exists m :: i < m <= n && Notices(ProbeAt(ops, m), ops[m])
  {
    if forall m :: i < m <= n ==> !Notices(ProbeAt(ops, m), ops[m]) {
      UnnoticedInstance(ops, i, n);
      assert !Notices(ProbeAt(ops, n), ops[n]);
    }
  }

  /** While no tick notices anything, the last answer's instance is the one remembered. */
  lemma {:induction false} UnnoticedInstance(ops: seq<BusOp>, i: nat, n: nat)
    requires i < n <= |ops| && ops[i].DoTick? && ops[i].reply.ListOk?
    requires forall m :: i < m < n ==> !Notices(ProbeAt(ops, m), ops[m])
    ensures var p := ProbeAt(ops, n); p.seen && (p.unreachable || p.instance == ops[i].reply.instance)
  {
    if i < n - 1 {
      UnnoticedInstance(ops, i, n - 1);
      assert !Notices(ProbeAt(ops, n - 1), ops[n - 1]);
    }
  }

  // ---------------------------------------------------------------- convergence in bounded ticks

  /** A tick that finds the interfaces as they were and owes no re-send is the resync alone. */
  lemma UnchangedViewTicks(c: Env, w: World, p: Probe, self: string, reply: ListReply, due: bool, o: TickOrders)
    requires TickOrdered(c, w, p, self, reply, due, o) && !OwesResend(w, p, reply, due)
    requires reply.ListOk? ==>
             HostsOf(reply.ifaces) == w.inputs.localHosts && UnderlaysOf(self, reply.ifaces) == w.inputs.ownUnderlays
    ensures SyncRoutes(c, w, p, self, reply, due, o) == Tick(c, w, o.diff)
  {
    hide Resync, HostsOf, UnderlaysOf, RouteKeys, OwesAll;
    if reply.ListOk? {
      assert w.inputs.localHosts - HostsOf(reply.ifaces) == {};
      Inhabited(o.left);
      assert o.left == [];
    }
  }

  /** Ticks over fixed inputs, each visiting every key in some order. */
  ghost predicate AreTicks(c: Env, run: seq<World>, orders: seq<seq<RouteKey>>) {
    && |run| == |orders| + 1
    && forall i :: 0 <= i < |orders| ==>
         Enumerates(orders[i], RouteKeys(c, run[i])) && run[i + 1] == Tick(c, run[i], orders[i])
  }

  /** What the first n accepted ticks keep. */
  lemma {:induction false} TicksKeep(c: Env, run: seq<World>, orders: seq<seq<RouteKey>>, n: nat)
    requires AreTicks(c, run, orders) && n <= |orders| && AcceptedFrom(c, run[0].calls) && Safe(run[0], Mended)
    ensures Safe(run[n], Mended) && run[0].calls <= run[n].calls && run[n].inputs == run[0].inputs
    ensures run[n].ticks == run[0].ticks + n && Debt(c, run[n]) <= Debt(c, run[0])
    ensures forall j :: j in run[n].retries ==> j in run[0].retries && run[n].retries[j] == run[0].retries[j]
  {
    hide Safe, Tick, RouteKeys, Drifted;
    if n > 0 {
      TicksKeep(c, run, orders, n - 1);
      TickSafe(c, run[n - 1], orders[n - 1], Mended);
      TickPays(c, run[n - 1], orders[n - 1]);
    }
  }

  lemma WaitsPersist(c: Env, w: World, w': World)
    requires NoneWaits(c, w) && w'.inputs == w.inputs && w.ticks <= w'.ticks
    requires forall j :: j in w'.retries ==> j in w.retries && w'.retries[j] == w.retries[j]
    ensures NoneWaits(c, w')
  {
    hide Desired;
    forall k ensures !Waits(c, Ticked(w'), k) { assert !Waits(c, Ticked(w), k); }
  }

  lemma {:induction false} DebtPaidDown(c: Env, run: seq<World>, orders: seq<seq<RouteKey>>, n: nat)
    requires AreTicks(c, run, orders) && n <= |orders| && AcceptedFrom(c, run[0].calls) && Safe(run[0], Mended)
    requires NoneWaits(c, run[0])
    ensures Debt(c, run[n]) == 0 || Debt(c, run[n]) + n * ROUTE_CALLS_PER_TICK <= Debt(c, run[0])
  {
    hide Safe, Tick, RouteKeys, Drifted, NoneWaits;
    if n > 0 {
      DebtPaidDown(c, run, orders, n - 1);
      TicksKeep(c, run, orders, n - 1);
      WaitsPersist(c, run[0], run[n - 1]);
      TickPays(c, run[n - 1], orders[n - 1]);
    }
  }

  /** Nothing drifted, nothing owed and a repaired record: every key holds what is wanted. */
  lemma NoDebtMatches(c: Env, w: World)
    requires Safe(w, Mended) && Debt(c, w) == 0
    ensures Truthful(w) && Matches(c, w)
  {
    hide Desired;
    forall k ensures TruthfulAt(w, k) { assert FineAt(w, k, Mended); }
    assert Drift(c, w) == {};
    forall k ensures !Drifted(c, w, k) { assert k !in Drift(c, w); }
    NoDriftMatches(c, w);
  }

  /** With fixed inputs, calls accepted and no key backing off, d drifted and q owed keys converge in
      ceil((d + q) / 256) ticks, after which a tick calls nothing. */
  lemma ResyncConverges(c: Env, run: seq<World>, orders: seq<seq<RouteKey>>, last: seq<RouteKey>)
    requires AreTicks(c, run, orders) && AcceptedFrom(c, run[0].calls) && Safe(run[0], Mended) && NoneWaits(c, run[0])
    requires Debt(c, run[0]) <= ROUTE_CALLS_PER_TICK * |orders|
    requires Enumerates(last, RouteKeys(c, run[|orders|]))
    ensures var w := run[|orders|];
            && Matches(c, w)
            && Tick(c, w, last).calls == w.calls && Tick(c, w, last).table == w.table
  {
    hide Tick, RouteKeys, Drifted, Desired, Safe, NoneWaits;
    var n := |orders|;
    DebtPaidDown(c, run, orders, n);
    TicksKeep(c, run, orders, n);
    NoDebtMatches(c, run[n]);
    WaitsPersist(c, run[0], run[n]);
    TickPays(c, run[n], last);
  }

  /** Whatever was backing off: from any safe state, once calls are accepted every wanted route is
      restored within the longest backoff plus ceil((d + q) / 256) ticks. */
  lemma EventuallyRestored(c: Env, run: seq<World>, orders: seq<seq<RouteKey>>)
    requires AreTicks(c, run, orders) && AcceptedFrom(c, run[0].calls) && Safe(run[0], Mended)
    requires RETRY_MAX_TICKS <= |orders| && Debt(c, run[0]) <= ROUTE_CALLS_PER_TICK * (|orders| - RETRY_MAX_TICKS)
    ensures Matches(c, run[|orders|])
  {
    hide Tick, RouteKeys, Drifted, Desired;
    var m := RETRY_MAX_TICKS;
    TicksKeep(c, run, orders, m);
    forall k ensures !Waits(c, Ticked(run[m]), k) {
      assert k in run[m].retries ==> run[m].retries[k].nextTick <= run[0].ticks + RETRY_MAX_TICKS;
    }
    assert NoneWaits(c, run[m]);
    var run', orders' := run[m..], orders[m..];
    assert AreTicks(c, run', orders');
    DebtPaidDown(c, run', orders', |orders'|);
    TicksKeep(c, run, orders, |orders|);
    assert run'[|orders'|] == run[|orders|];
    NoDebtMatches(c, run[|orders|]);
  }

  // ---------------------------------------------------------------- from a loss to its repair

  /** A noticed restart answers every loss before it, and with none after it all stay answered. */
  lemma {:induction false} NoticeAnswers(c: Env, run: seq<World>, ops: seq<BusOp>, m: nat, n: nat)
    requires m < n <= |ops| < |run| && Notices(ProbeAt(ops, m), ops[m]) && forall q :: m < q < n ==> !ops[q].Lose?
    ensures !GradeAt(c, run, ops, n).Lossy?
  {
    hide Refreshed, ProbeAt;
    if m < n - 1 { NoticeAnswers(c, run, ops, m, n - 1); }
  }

  /** The dataplane answers every tick from the n-th on, as one instance. */
  ghost predicate Steady(ops: seq<BusOp>, n: nat, instance: string) {
    forall k :: n <= k < |ops| ==> ops[k].DoTick? && ops[k].reply.ListOk? && ops[k].reply.instance == instance
  }

  lemma SteadyProbe(ops: seq<BusOp>, n: nat, instance: string, k: nat)
    requires Steady(ops, n, instance) && n < k <= |ops|
    ensures ProbeAt(ops, k) == Probe(instance, true, false)
  {
  }

  /** Every tick from the n-th on finds the interfaces as the agent last saw them. */
  ghost predicate SameView(ops: seq<BusOp>, n: nat, i: Inputs) {
    forall k :: n <= k < |ops| && ops[k].DoTick? && ops[k].reply.ListOk? ==>
      HostsOf(ops[k].reply.ifaces) == i.localHosts && UnderlaysOf(ops[k].self, ops[k].reply.ifaces) == i.ownUnderlays
  }

  function DiffsOf(ops: seq<BusOp>, n: nat, m: nat): seq<seq<RouteKey>>
    requires n <= m <= |ops| && forall k :: n <= k < m ==> ops[k].DoTick?
  {
    seq(m - n, k requires 0 <= k < m - n => ops[n + k].orders.diff)
  }

  /** Steady ticks over an unchanged view are plain resyncs. */
  lemma SteadyStep(c: Env, run: seq<World>, ops: seq<BusOp>, n: nat, instance: string, k: nat)
    requires IsRun(c, run, ops) && Steady(ops, n, instance) && instance != "" && n < k < |ops|
             && SameView(ops, k, run[k].inputs)
    ensures run[k + 1] == Tick(c, run[k], ops[k].orders.diff) && Enumerates(ops[k].orders.diff, RouteKeys(c, run[k]))
  {
    hide Resync, HostsOf, UnderlaysOf, RouteKeys, OwesAll, Enumerates;
    var w, p, op := run[k], ProbeAt(ops, k), ops[k];
    SteadyProbe(ops, n, instance, k);
    assert WellShaped(c, w, p, op) && run[k + 1] == Step(c, w, p, op);
    assert !OwesResend(w, p, op.reply, op.due);
    UnchangedViewTicks(c, w, p, op.self, op.reply, op.due, op.orders);
    UnchangedSwept(c, w, p, op.self, op.reply, op.due, op.orders);
    SameRouteKeys(c, w);
  }

  lemma UnchangedSwept(c: Env, w: World, p: Probe, self: string, reply: ListReply, due: bool, o: TickOrders)
    requires TickOrdered(c, w, p, self, reply, due, o) && !OwesResend(w, p, reply, due)
    requires reply.ListOk? ==>
             HostsOf(reply.ifaces) == w.inputs.localHosts && UnderlaysOf(self, reply.ifaces) == w.inputs.ownUnderlays
    ensures Swept(c, w, p, self, reply, due, o) == Ticked(w)
  {
    hide HostsOf, UnderlaysOf, RouteKeys, OwesAll;
    if reply.ListOk? {
      assert w.inputs.localHosts - HostsOf(reply.ifaces) == {};
      Inhabited(o.left);
      assert o.left == [];
    }
  }

  lemma SameRouteKeys(c: Env, w: World)
    ensures RouteKeys(c, Ticked(w)) == RouteKeys(c, w)
  {
  }

  lemma {:induction false} SteadyTicks(c: Env, run: seq<World>, ops: seq<BusOp>, n: nat, instance: string, m: nat)
    requires IsRun(c, run, ops) && Steady(ops, n, instance) && instance != "" && n < m <= |ops|
             && SameView(ops, n + 1, run[n + 1].inputs)
    requires AcceptedFrom(c, run[n + 1].calls) && Safe(run[n + 1], Mended)
    ensures AreTicks(c, run[n + 1..m + 1], DiffsOf(ops, n + 1, m))
  {
    hide IsRun, Tick, RouteKeys, Enumerates, Safe, HostsOf, UnderlaysOf, AreTicks, AcceptedFrom;
    RunLength(c, run, ops);
    if m == n + 1 {
      NoTicks(c, run[m]);
      assert run[n + 1..m + 1] == [run[m]] && DiffsOf(ops, n + 1, m) == [];
    } else {
      SteadyTicks(c, run, ops, n, instance, m - 1);
      var short, diffs := run[n + 1..m], DiffsOf(ops, n + 1, m - 1);
      TicksKeepInputs(c, short, diffs);
      assert short[|diffs|] == run[m - 1] && short[0] == run[n + 1];
      SteadyStep(c, run, ops, n, instance, m - 1);
      TicksOneMore(c, short, diffs, run[m], ops[m - 1].orders.diff);
      assert run[n + 1..m + 1] == short + [run[m]] && DiffsOf(ops, n + 1, m) == diffs + [ops[m - 1].orders.diff];
    }
  }

  lemma NoTicks(c: Env, w: World)
    ensures AreTicks(c, [w], [])
  {
  }

  lemma TicksKeepInputs(c: Env, run: seq<World>, orders: seq<seq<RouteKey>>)
    requires AreTicks(c, run, orders) && AcceptedFrom(c, run[0].calls) && Safe(run[0], Mended)
    ensures run[|orders|].inputs == run[0].inputs
  {
    hide Safe, Tick, RouteKeys;
    TicksKeep(c, run, orders, |orders|);
  }

  lemma TicksOneMore(c: Env, run: seq<World>, orders: seq<seq<RouteKey>>, next: World, diff: seq<RouteKey>)
    requires AreTicks(c, run, orders) && Enumerates(diff, RouteKeys(c, run[|orders|]))
             && next == Tick(c, run[|orders|], diff)
    ensures AreTicks(c, run + [next], orders + [diff])
  {
    hide Tick, RouteKeys, Enumerates;
  }

  lemma RunLength(c: Env, run: seq<World>, ops: seq<BusOp>)
    requires IsRun(c, run, ops)
    ensures |run| == |ops| + 1
  {
  }

  /** From loss to repair, in one run. The dataplane answers tick i as one instance, loses any part of its table before
      the next tick, and answers tick n as another; from then on it answers as that one and accepts calls, while the
      wanted routes stand. Then every wanted route is back within the longest backoff plus ceil((d + q) / 256) ticks,
      whatever updates, failed calls and failed reads lay in between. */
  lemma LossIsRepaired(c: Env, run: seq<World>, ops: seq<BusOp>, i: nat, n: nat, instance: string)
    requires IsRun(c, run, ops) && i < n < |ops| && ops[i].DoTick? && ops[i].reply.ListOk?
             && ops[i].reply.instance != instance && instance != ""
    requires forall q, m :: i < q < |ops| && i < m < |ops| && ops[q].Lose? && ops[m].DoTick? ==> q < m
    requires Steady(ops, n, instance) && SameView(ops, n + 1, run[n + 1].inputs) && AcceptedFrom(c, run[n + 1].calls)
    requires RETRY_MAX_TICKS <= |ops| - n - 1
             && Debt(c, run[n + 1]) <= ROUTE_CALLS_PER_TICK * (|ops| - n - 1 - RETRY_MAX_TICKS)
    ensures Matches(c, run[|ops|])
  {
    hide IsRun, Safe, RouteKeys, Tick, AcceptedFrom, Debt, Matches, SameView, ProbeAt, Restarted, GradeAt;
    RunLength(c, run, ops);
    RestartAlwaysNoticed(ops, i, n);
    var m :| i < m <= n && Notices(ProbeAt(ops, m), ops[m]);
    NoticeAnswers(c, run, ops, m, n + 1);
    NothingOwedIsForgotten(c, run, ops, n + 1);
    SafeAnyway(run[n + 1], GradeAt(c, run, ops, n + 1));
    SteadyTicks(c, run, ops, n, instance, |ops|);
    var ticks, diffs := run[n + 1..|ops| + 1], DiffsOf(ops, n + 1, |ops|);
    assert ticks[0] == run[n + 1] && ticks[|diffs|] == run[|ops|];
    EventuallyRestored(c, ticks, diffs);
  }
}
