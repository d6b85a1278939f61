/** Moving a VM between pools, break before make. A VM's twin in a pool's namespace is what lets that
    pool run it; a twin to be given up is retired and stays until its pool reports release. */
module MoveGate {
  import opened Order

  /** The twin of a source VM in a pool's namespace. */
  datatype TwinKey = TwinKey(source: string, pool: string)

  datatype Twin = Twin(deleting: bool, finalizer: bool, released: bool)

  // ---------------------------------------------------------------- the gate

  datatype TwinView = TwinView(namespace: string, clusterName: string, deleting: bool)

  /** By cluster, then namespace. */
  predicate ViewLess(a: TwinView, b: TwinView) {
    if a.clusterName != b.clusterName then Less(a.clusterName, b.clusterName) else Less(a.namespace, b.namespace)
  }

  lemma ViewLessIsStrict()
    ensures StrictOrder(ViewLess)
    ensures forall a: TwinView, b: TwinView :: a.namespace != b.namespace ==> ViewLess(a, b) || ViewLess(b, a)
  {
    StringsStrictlyOrdered();
    hide Less;
  }

  lemma SortedViews(out: seq<TwinView>)
    requires forall i, j :: 0 <= i < j < |out| ==> out[i].namespace != out[j].namespace
    ensures var held := Sort(ViewLess, out);
            && (forall t :: t in held <==> t in out)
            && forall i, j :: 0 <= i < j < |held| ==>
                 if held[i].clusterName == held[j].clusterName then Less(held[i].namespace, held[j].namespace)
                 else Less(held[i].clusterName, held[j].clusterName)
  {
    ViewLessIsStrict();
    SortAscending(ViewLess, out);
    hide Sort, Less;
    var held := Sort(ViewLess, out);
    forall i, j | 0 <= i < j < |held| ensures ViewLess(held[i], held[j]) {}
  }

  /** The twins that keep the pool closed, in reporting order: every twin elsewhere, and one here that is
      already on its way out. None, exactly when every twin is a live one in this pool. */
  method AwaitingRelease(pool: string, twins: seq<TwinView>) returns (held: seq<TwinView>)
    requires forall i, j :: 0 <= i < j < |twins| ==> twins[i].namespace != twins[j].namespace
    ensures forall t :: t in held <==> t in twins && (t.namespace != pool || t.deleting)
    ensures forall i, j :: 0 <= i < j < |held| ==>
              if held[i].clusterName == held[j].clusterName then Less(held[i].namespace, held[j].namespace)
              else Less(held[i].clusterName, held[j].clusterName)
    ensures held == [] <==> forall t :: t in twins ==> t.namespace == pool && !t.deleting
  {
    var out: seq<TwinView> := [];
    for i := 0 to |twins|
      invariant forall t :: t in out <==> t in twins[..i] && (t.namespace != pool || t.deleting)
      invariant forall a, b :: 0 <= a < b < |out| ==> out[a].namespace != out[b].namespace
    {
      assert twins[..i + 1] == twins[..i] + [twins[i]];
      assert forall t :: t in out ==> t.namespace != twins[i].namespace;
      if twins[i].namespace != pool || twins[i].deleting { out := out + [twins[i]]; }
    }
    assert twins[..|twins|] == twins;
    ViewLessIsStrict();
    SortedViews(out);
    hide ViewLess;
    held := Sort(ViewLess, out);
    Inhabited(held);
  }

  // ---------------------------------------------------------------- the protocol

  /** Where the one reconcile of a source that may be under way stands: past an open gate and about to
      create, or retiring the twins it found in other pools. */
  datatype Phase = Idle | Gated(pool: string) | Retiring(pools: set<string>)

  /** The dispatch's twins, each source's reconcile, where VMs run, and the fenced pools. */
  datatype World = World(twins: map<TwinKey, Twin>, phases: map<string, Phase>, running: set<TwinKey>,
      fenced: set<string>)

  function PhaseOf(w: World, source: string): Phase { if source in w.phases then w.phases[source] else Idle }

  function InPhase(w: World, source: string, p: Phase): World { w.(phases := w.phases[source := p]) }

  /** What an uncached list of the source's twins shows to be in the way of `pool`. */
  function InTheWay(w: World, source: string, pool: string): set<TwinKey> {
    set k | k in w.twins && k.source == source && (k.pool != pool || w.twins[k].deleting)
  }

  datatype Event =
    | Gate(source: string, pool: string)
    | Retire(source: string, pool: string)
    | Create(source: string)
    | EndReconcile(source: string)
    | DeleteTwin(key: TwinKey)
    | ReportRelease(key: TwinKey)
    | DropFinalizer(key: TwinKey)
    | StartVM(key: TwinKey)
    | StopVM(key: TwinKey)
    | Fence(pool: string)
    | Unfence(pool: string)

  /** Gate takes any pool, for the VM's clusterName may have been edited in any way. A twin may be
      deleted by anyone at any time (teardown, orphan sweep, an operator); a pool may run a VM as long as
      it holds an unreleased twin and is not fenced; release is reported for a twin on its way out once
      nothing of it runs there. */
  predicate Allowed(w: World, e: Event) {
    match e
    case Gate(s, _) => PhaseOf(w, s).Idle?
    case Retire(s, pool) => PhaseOf(w, s).Retiring? && pool in PhaseOf(w, s).pools
    case Create(s) => PhaseOf(w, s).Gated?
    case EndReconcile(_) => true
    case DeleteTwin(k) => k in w.twins
    case ReportRelease(k) => k in w.twins && w.twins[k].deleting && !w.twins[k].released && k !in w.running
    case DropFinalizer(k) => k in w.twins && w.twins[k].deleting && w.twins[k].released
    case StartVM(k) => k in w.twins && !w.twins[k].released && k.pool !in w.fenced
    case StopVM(_) => true
    case Fence(_) => true
    case Unfence(_) => true
  }

  /** Delete: with the finalizer the twin is only marked; without one it is gone. */
  function Deleted(w: World, k: TwinKey): World
    requires k in w.twins
  {
    if w.twins[k].finalizer then w.(twins := w.twins[k := w.twins[k].(deleting := true)])
      else w.(twins := w.twins - {k})
  }

  /** retireTwin: a twin already terminating is left alone; else the finalizer first, then the delete. */
  function Retired(w: World, k: TwinKey): World {
    if k !in w.twins || w.twins[k].deleting then w
    else Deleted(w.(twins := w.twins[k := w.twins[k].(finalizer := true)]), k)
  }

  /** The finalizer dropped from a terminating twin: Kubernetes completes the delete. */
  function Freed(w: World, k: TwinKey): World { w.(twins := w.twins - {k}) }

  function After(w: World, e: Event): World
    requires Allowed(w, e)
  {
    match e
    case Gate(s, pool) =>
      var held := InTheWay(w, s, pool);
      InPhase(w, s, if held == {} then Gated(pool) else Retiring(set k | k in held && k.pool != pool :: k.pool))
    case Retire(s, pool) => InPhase(Retired(w, TwinKey(s, pool)), s, Retiring(PhaseOf(w, s).pools - {pool}))
    case Create(s) =>
      var k := TwinKey(s, PhaseOf(w, s).pool);
      var t := if k in w.twins then w.twins[k].(finalizer := true) else Twin(false, true, false);
      InPhase(w.(twins := w.twins[k := t]), s, Idle)
    case EndReconcile(s) => InPhase(w, s, Idle)
    case DeleteTwin(k) => Deleted(w, k)
    case ReportRelease(k) => w.(twins := w.twins[k := w.twins[k].(released := true)])
    case DropFinalizer(k) => Freed(w, k)
    case StartVM(k) => w.(running := w.running + {k})
    case StopVM(k) => w.(running := w.running - {k})
    case Fence(pool) => w.(fenced := w.fenced + {pool}, running := set k | k in w.running && k.pool != pool)
    case Unfence(pool) => w.(fenced := w.fenced - {pool})
  }

  ghost predicate Steps(run: seq<World>, events: seq<Event>) {
    |run| == |events| + 1
      && forall i :: 0 <= i < |events| ==> Allowed(run[i], events[i]) && run[i + 1] == After(run[i], events[i])
  }

  // ---------------------------------------------------------------- safety

  ghost predicate OneTwin(w: World) {
    forall a, b :: a in w.twins && b in w.twins && a.source == b.source ==> a == b
  }

  ghost predicate Safe(w: World) {
    && OneTwin(w)
    && (forall k :: k in w.twins ==>
       (w.twins[k].deleting ==> w.twins[k].finalizer) && (w.twins[k].released ==> w.twins[k].deleting))
    && (forall k :: k in w.running ==> k in w.twins && !w.twins[k].released)
    && (forall s, k :: PhaseOf(w, s).Gated? && k in w.twins && k.source == s ==> k.pool == PhaseOf(w, s).pool)
  }

  /** A run from any safe state; twins compiled before the release finalizer existed have none. */
  ghost predicate IsRun(run: seq<World>, events: seq<Event>) { Steps(run, events) && Safe(run[0]) }

  /** Somebody deletes a twin that has no finalizer while its VM runs. */
  predicate Careless(w: World, e: Event) {
    e.DeleteTwin? && e.key in w.twins && !w.twins[e.key].finalizer && e.key in w.running
  }

  /** Every twin has the release finalizer. */
  ghost predicate Guarded(w: World) { forall k :: k in w.twins ==> w.twins[k].finalizer }

  /** Nothing careless among the first n steps, as when every twin was guarded at the start. */
  ghost predicate Sheltered(run: seq<World>, events: seq<Event>, n: nat)
    requires n <= |events| < |run|
  {
    Guarded(run[0]) || forall i :: 0 <= i < n ==> !Careless(run[i], events[i])
  }

  lemma GateSafe(w: World, s: string, pool: string)
    requires Safe(w) && PhaseOf(w, s).Idle?
    ensures Safe(After(w, Gate(s, pool)))
  {
    var w' := After(w, Gate(s, pool));
    forall t, k | PhaseOf(w', t).Gated? && k in w'.twins && k.source == t ensures k.pool == PhaseOf(w', t).pool {
      if t == s {
        assert InTheWay(w, s, pool) == {};
        assert k !in InTheWay(w, s, pool);
      } else {
        assert PhaseOf(w', t) == PhaseOf(w, t);
      }
    }
  }

  lemma StepSafe(w: World, e: Event)
    requires Safe(w) && Allowed(w, e) && !Careless(w, e)
    ensures Safe(After(w, e))
  {
    if e.Gate? {
      GateSafe(w, e.source, e.pool);
    } else {
      var w' := After(w, e);
      forall t, k | PhaseOf(w', t).Gated? && k in w'.twins && k.source == t ensures k.pool == PhaseOf(w', t).pool {
        assert PhaseOf(w, t) == PhaseOf(w', t);
      }
    }
  }

  /** A step from a safe state is safe if and only if it is not the careless one. */
  lemma StepSafeExactly(w: World, e: Event)
    requires Safe(w) && Allowed(w, e)
    ensures Safe(After(w, e)) <==> !Careless(w, e)
  {
    if !Careless(w, e) {
      hide Safe, After;
      StepSafe(w, e);
    } else {
      assert e.key in After(w, e).running && e.key !in After(w, e).twins;
    }
  }

  lemma StepGuarded(w: World, e: Event)
    requires Guarded(w) && Allowed(w, e)
    ensures Guarded(After(w, e)) && !Careless(w, e)
  {
  }

  lemma {:induction false} StaysGuarded(run: seq<World>, events: seq<Event>, n: nat)
    requires Steps(run, events) && n <= |events| && Guarded(run[0])
    ensures Guarded(run[n]) && forall i :: 0 <= i < n ==> !Careless(run[i], events[i])
  {
    hide After, Allowed, Guarded, Careless;
    if n > 0 {
      StaysGuarded(run, events, n - 1);
      StepGuarded(run[n - 1], events[n - 1]);
      assert run[n - 1 + 1] == After(run[n - 1], events[n - 1]);
    }
  }

  lemma {:induction false} AlwaysSafe(run: seq<World>, events: seq<Event>, n: nat)
    requires IsRun(run, events) && n <= |events| && Sheltered(run, events, n)
    ensures Safe(run[n])
  {
    hide After, Safe, Guarded, Careless, Allowed;
    if n > 0 {
      if Guarded(run[0]) { StaysGuarded(run, events, n); }
      AlwaysSafe(run, events, n - 1);
      StepSafe(run[n - 1], events[n - 1]);
      assert run[n - 1 + 1] == After(run[n - 1], events[n - 1]);
    }
  }

  /** In every sheltered run of reconciles, clusterName edits and reversals, deletions, release reports and fences:
      a VM has at most one twin, and no two pools ever run it. */
  lemma NeverTwoPools(run: seq<World>, events: seq<Event>, n: nat, a: TwinKey, b: TwinKey)
    requires IsRun(run, events) && n <= |events| && Sheltered(run, events, n) && a.source == b.source
    ensures a in run[n].twins && b in run[n].twins ==> a == b
    ensures a in run[n].running && b in run[n].running ==> a == b
  {
    AlwaysSafe(run, events, n);
  }

  /** A twin disappears only once it was retired and its pool had reported release, or by the delete of one without the
      finalizer; and nothing of it runs then. */
  lemma GoneOnlyAfterRelease(run: seq<World>, events: seq<Event>, n: nat, k: TwinKey)
    requires IsRun(run, events) && n < |events| && Sheltered(run, events, n + 1) && k in run[n].twins
             && k !in run[n + 1].twins
    ensures || (events[n] == DropFinalizer(k) && run[n].twins[k].deleting && run[n].twins[k].released)
            || (events[n] == DeleteTwin(k) && !run[n].twins[k].finalizer)
    ensures k !in run[n].running && k !in run[n + 1].running
  {
    AlwaysSafe(run, events, n);
    AlwaysSafe(run, events, n + 1);
    if Guarded(run[0]) { StaysGuarded(run, events, n + 1); }
    assert run[n + 1] == After(run[n], events[n]) && !Careless(run[n], events[n]);
  }

  /** A pool that starts a VM starts it when no other pool runs it, and every earlier twin of the VM has
      been released. */
  lemma StartIsExclusive(run: seq<World>, events: seq<Event>, n: nat, k: TwinKey, other: TwinKey)
    requires IsRun(run, events) && n < |events| && Sheltered(run, events, n + 1)
    requires events[n] == StartVM(k) && other.source == k.source && other != k
    ensures other !in run[n].twins && other !in run[n].running && other !in run[n + 1].running
  {
    AlwaysSafe(run, events, n);
    AlwaysSafe(run, events, n + 1);
  }

  /** The condition is needed: a twin of before the finalizer, deleted by hand while its VM runs, is gone at once; the
      next reconcile finds the gate open, and two pools run the VM. */
  lemma CarelessDeleteSplits(s: string, a: string, b: string) returns (run: seq<World>)
    requires a != b
    ensures IsRun(run, [DeleteTwin(TwinKey(s, a)), Gate(s, b), Create(s), StartVM(TwinKey(s, b))])
    ensures Careless(run[0], DeleteTwin(TwinKey(s, a))) && TwinKey(s, a) in run[4].running
            && TwinKey(s, b) in run[4].running
  {
    var k, j := TwinKey(s, a), TwinKey(s, b);
    var w0 := World(map[k := Twin(false, false, false)], map[], {k}, {});
    var w1 := After(w0, DeleteTwin(k));
    assert w1.twins == map[] && InTheWay(w1, s, b) == {};
    var w2 := After(w1, Gate(s, b));
    var w3 := After(w2, Create(s));
    run := [w0, w1, w2, w3, After(w3, StartVM(j))];
  }

  // ---------------------------------------------------------------- running and fenced

  /** From step i on, or from the start, the VM of k runs. */
  predicate Started(run: seq<World>, events: seq<Event>, k: TwinKey, i: nat)
    requires i <= |events| < |run|
  {
    if i == 0 then k in run[0].running else events[i - 1] == StartVM(k)
  }

  predicate Stops(e: Event, k: TwinKey) { e == StopVM(k) || e == Fence(k.pool) }

  /** A VM runs in a pool if and only if it was started there, or ran from the start, and since then was neither stopped
      nor its pool fenced. */
  lemma {:induction false} RunningExactly(run: seq<World>, events: seq<Event>, n: nat, k: TwinKey)
    requires Steps(run, events) && n <= |events|
    ensures k in run[n].running <==>
            exists i :: 0 <= i <= n && Started(run, events, k, i) && forall j :: i <= j < n ==> !Stops(events[j], k)
  {
    if n == 0 {
      assert k in run[0].running ==> Started(run, events, k, 0);
    } else {
      RunningExactly(run, events, n - 1, k);
      RunningStep(run[n - 1], events[n - 1], k);
      assert run[n - 1 + 1] == After(run[n - 1], events[n - 1]);
      assert events[n - 1] == StartVM(k) ==> Started(run, events, k, n);
      hide After, Allowed, Started;
      if i :| 0 <= i <= n - 1 && Started(run, events, k, i) && (forall j :: i <= j < n - 1 ==> !Stops(events[j], k))
              && !Stops(events[n - 1], k)
      {
        assert forall j :: i <= j < n ==> !Stops(events[j], k);
      }
      if i :| 0 <= i <= n && Started(run, events, k, i) && forall j :: i <= j < n ==> !Stops(events[j], k) {
        if i < n { assert !Stops(events[n - 1], k); } else { StartsHere(run, events, k, n); }
      }
    }
  }

  lemma StartsHere(run: seq<World>, events: seq<Event>, k: TwinKey, n: nat)
    requires 0 < n <= |events| < |run| && Started(run, events, k, n)
    ensures events[n - 1] == StartVM(k)
  {
  }

  lemma RunningStep(w: World, e: Event, k: TwinKey)
    requires Allowed(w, e)
    ensures k in After(w, e).running <==> e == StartVM(k) || (k in w.running && !Stops(e, k))
  {
  }

  predicate FencedFrom(run: seq<World>, events: seq<Event>, pool: string, i: nat)
    requires i <= |events| < |run|
  {
    if i == 0 then pool in run[0].fenced else events[i - 1] == Fence(pool)
  }

  /** A pool is fenced if and only if it was fenced, or was from the start, and has not been unfenced since. */
  lemma {:induction false} FencedExactly(run: seq<World>, events: seq<Event>, n: nat, pool: string)
    requires Steps(run, events) && n <= |events|
    ensures pool in run[n].fenced <==>
            exists i :: 0 <= i <= n && FencedFrom(run, events, pool, i)
              && forall j :: i <= j < n ==> events[j] != Unfence(pool)
  {
    if n > 0 {
      FencedExactly(run, events, n - 1, pool);
      assert run[n - 1 + 1] == After(run[n - 1], events[n - 1]);
      FencedStep(run[n - 1], events[n - 1], pool);
      hide After, Allowed;
      assert events[n - 1] == Fence(pool) ==> FencedFrom(run, events, pool, n);
      if i :| 0 <= i <= n - 1 && FencedFrom(run, events, pool, i)
              && (forall j :: i <= j < n - 1 ==> events[j] != Unfence(pool)) && events[n - 1] != Unfence(pool)
      {
        assert forall j :: i <= j < n ==> events[j] != Unfence(pool);
      }
    } else {
      assert pool in run[0].fenced ==> FencedFrom(run, events, pool, 0);
    }
  }

  lemma FencedStep(w: World, e: Event, pool: string)
    requires Allowed(w, e)
    ensures pool in After(w, e).fenced <==> e == Fence(pool) || (pool in w.fenced && e != Unfence(pool))
  {
  }

  /** Nothing runs in a fenced pool, in any run that starts so. */
  lemma {:induction false} FencedPoolsRunNothing(run: seq<World>, events: seq<Event>, n: nat, k: TwinKey)
    requires Steps(run, events) && n <= |events| && forall j :: j in run[0].running ==> j.pool !in run[0].fenced
    ensures k in run[n].running ==> k.pool !in run[n].fenced
  {
    if n > 0 {
      FencedPoolsRunNothing(run, events, n - 1, k);
      var w, e := run[n - 1], events[n - 1];
      assert Allowed(w, e) && run[n - 1 + 1] == After(w, e);
      RunningStep(w, e, k);
      FencedStep(w, e, k.pool);
      assert e == StartVM(k) ==> k.pool !in w.fenced;
      hide After, Allowed;
    }
  }

  /** A reconcile retires each pool it found once. */
  lemma RetiresOnce(w: World, s: string, pool: string)
    requires Allowed(w, Retire(s, pool))
    ensures PhaseOf(After(w, Retire(s, pool)), s).Retiring?
    ensures var left := PhaseOf(After(w, Retire(s, pool)), s).pools;
            pool !in left && left + {pool} == PhaseOf(w, s).pools && |left| == |PhaseOf(w, s).pools| - 1
  {
  }

  // ---------------------------------------------------------------- the gate does open

  lemma StepsConcat(r: seq<World>, es: seq<Event>, q: seq<World>, fs: seq<Event>)
    requires Steps(r, es) && Steps(q, fs) && r[|es|] == q[0]
    ensures Steps(r + q[1..], es + fs)
  {
    hide Allowed, After;
    var run, events := r + q[1..], es + fs;
    forall i | 0 <= i < |events| ensures Allowed(run[i], events[i]) && run[i + 1] == After(run[i], events[i]) {
      if i >= |es| { assert events[i] == fs[i - |es|] && run[i] == q[i - |es|] && run[i + 1] == q[i - |es| + 1]; }
    }
  }

  lemma RetiredEffect(w: World, k: TwinKey)
    requires k in w.twins && !w.twins[k].deleting
    ensures Retired(w, k) == w.(twins := w.twins[k := Twin(true, true, w.twins[k].released)])
  {
  }

  /** A reconcile that finds the VM's twin in another pool retires it. */
  lemma MoveRetires(w: World, s: string, a: string, b: string) returns (run: seq<World>)
    requires Safe(w) && PhaseOf(w, s).Idle? && a != b && TwinKey(s, a) in w.twins && !w.twins[TwinKey(s, a)].deleting
    ensures Steps(run, [Gate(s, b), Retire(s, a), EndReconcile(s)]) && run[0] == w
    ensures PhaseOf(run[3], s).Idle? && run[3].twins == w.twins[TwinKey(s, a) := Twin(true, true, false)]
  {
    hide Retired;
    var k := TwinKey(s, a);
    assert k in InTheWay(w, s, b);
    var w1 := After(w, Gate(s, b));
    assert (set j | j in InTheWay(w, s, b) && j.pool != b :: j.pool) == {a};
    assert PhaseOf(w1, s) == Retiring({a});
    RetiredEffect(w1, k);
    var w2 := After(w1, Retire(s, a));
    run := [w, w1, w2, After(w2, EndReconcile(s))];
  }

  /** A retired twin is freed once its pool has stopped the VM and said so. */
  lemma MoveFrees(w: World, k: TwinKey) returns (run: seq<World>)
    requires k in w.twins && w.twins[k] == Twin(true, true, false)
    ensures Steps(run, [StopVM(k), ReportRelease(k), DropFinalizer(k)]) && run[0] == w
    ensures run[3].twins == w.twins - {k} && run[3].phases == w.phases
  {
    var w1 := After(w, StopVM(k));
    var w2 := After(w1, ReportRelease(k));
    run := [w, w1, w2, After(w2, DropFinalizer(k))];
  }

  /** With no twin left the gate is open, and the VM is compiled into the new pool. */
  lemma MoveOpens(w: World, s: string, b: string) returns (run: seq<World>)
    requires PhaseOf(w, s).Idle? && forall k :: k in w.twins ==> k.source != s
    ensures Steps(run, [Gate(s, b), Create(s)]) && run[0] == w
    ensures run[2].twins == w.twins[TwinKey(s, b) := Twin(false, true, false)]
  {
    assert InTheWay(w, s, b) == {};
    var w1 := After(w, Gate(s, b));
    run := [w, w1, After(w1, Create(s))];
  }

  /** The steps a move of `s` to pool `b` takes: its own reconciles, and its twin's pool stopping the VM, reporting
      and being freed. */
  predicate MoveStep(s: string, b: string, e: Event) {
    match e
    case Gate(x, pool) => x == s && pool == b
    case Retire(x, _) => x == s
    case Create(x) => x == s
    case EndReconcile(x) => x == s
    case StopVM(k) => k.source == s
    case ReportRelease(k) => k.source == s
    case DropFinalizer(k) => k.source == s
    case _ => false
  }

  ghost predicate Moves(run: seq<World>, events: seq<Event>, s: string, b: string) {
    Steps(run, events) && forall e :: e in events ==> MoveStep(s, b, e)
  }

  lemma MovesConcat(r: seq<World>, es: seq<Event>, q: seq<World>, fs: seq<Event>, s: string, b: string)
    requires Moves(r, es, s, b) && Moves(q, fs, s, b) && r[|es|] == q[0]
    ensures Moves(r + q[1..], es + fs, s, b) && (r + q[1..])[0] == r[0] && (r + q[1..])[|es + fs|] == q[|fs|]
  {
    hide MoveStep, Allowed, After;
    StepsConcat(r, es, q, fs);
  }

  function OtherTwins(w: World, s: string): map<TwinKey, Twin> { map k | k in w.twins && k.source != s :: w.twins[k] }

  /** A twin on its way out goes, whether or not its pool has reported yet. */
  lemma TerminatingGoes(w: World, k: TwinKey, b: string) returns (run: seq<World>, events: seq<Event>)
    requires Safe(w) && k in w.twins && w.twins[k].deleting
    ensures Moves(run, events, k.source, b) && run[0] == w
    ensures run[|events|].twins == OtherTwins(w, k.source) && run[|events|].phases == w.phases
  {
    assert w.twins - {k} == OtherTwins(w, k.source);
    if w.twins[k].released {
      run, events := [w, After(w, DropFinalizer(k))], [DropFinalizer(k)];
    } else {
      run := MoveFrees(w, k);
      events := [StopVM(k), ReportRelease(k), DropFinalizer(k)];
    }
  }

  /** Whatever the VM's twin, unless it is a live one in the target pool already, it comes to go. */
  lemma OldTwinGoes(w: World, s: string, a: string, b: string) returns (run: seq<World>, events: seq<Event>)
    requires Safe(w) && PhaseOf(w, s).Idle? && TwinKey(s, a) in w.twins && (a != b || w.twins[TwinKey(s, a)].deleting)
    ensures Moves(run, events, s, b) && run[0] == w
    ensures run[|events|].twins == OtherTwins(w, s) && PhaseOf(run[|events|], s).Idle?
  {
    hide Allowed, After, InTheWay;
    if w.twins[TwinKey(s, a)].deleting {
      run, events := TerminatingGoes(w, TwinKey(s, a), b);
    } else {
      var es := [Gate(s, b), Retire(s, a), EndReconcile(s)];
      var r := MoveRetires(w, s, a, b);
      AlwaysSafe(r, es, 3);
      var q, fs := TerminatingGoes(r[3], TwinKey(s, a), b);
      assert OtherTwins(r[3], s) == OtherTwins(w, s);
      MovesConcat(r, es, q, fs, s, b);
      run, events := r + q[1..], es + fs;
    }
  }

  /** With a live twin in the target pool the gate is open, and the reconcile leaves it there under the finalizer. */
  lemma AlreadyThere(w: World, s: string, b: string) returns (run: seq<World>)
    requires Safe(w) && PhaseOf(w, s).Idle? && TwinKey(s, b) in w.twins && !w.twins[TwinKey(s, b)].deleting
    ensures Steps(run, [Gate(s, b), Create(s)]) && run[0] == w
    ensures run[2].twins == OtherTwins(w, s)[TwinKey(s, b) := Twin(false, true, false)]
  {
    assert InTheWay(w, s, b) == {};
    var w1 := After(w, Gate(s, b));
    run := [w, w1, After(w1, Create(s))];
  }

  lemma IdleMoves(w: World, s: string, b: string) returns (run: seq<World>, events: seq<Event>)
    requires Safe(w) && PhaseOf(w, s).Idle?
    ensures Moves(run, events, s, b) && run[0] == w
    ensures run[|events|].twins == OtherTwins(w, s)[TwinKey(s, b) := Twin(false, true, false)]
  {
    hide Allowed, After, InTheWay;
    if k :| k in w.twins && k.source == s && (k.pool != b || w.twins[k].deleting) {
      assert k == TwinKey(s, k.pool);
      var r, es := OldTwinGoes(w, s, k.pool, b);
      var o := MoveOpens(r[|es|], s, b);
      assert Moves(o, [Gate(s, b), Create(s)], s, b);
      MovesConcat(r, es, o, [Gate(s, b), Create(s)], s, b);
      run, events := r + o[1..], es + [Gate(s, b), Create(s)];
    } else if TwinKey(s, b) in w.twins {
      events := [Gate(s, b), Create(s)];
      run := AlreadyThere(w, s, b);
    } else {
      events := [Gate(s, b), Create(s)];
      assert forall k :: k in w.twins && k.source == s ==> k == TwinKey(s, k.pool);
      assert OtherTwins(w, s) == w.twins;
      run := MoveOpens(w, s, b);
    }
  }

  /** A move is never stuck. From every safe state, a reconcile under way or not, the VM's twin live, terminating
      or released, in the target pool or another, the move's own steps lead to exactly one twin, a live one in the
      target pool; the twins of other VMs are as they were. */
  lemma MoveCompletes(w: World, s: string, b: string) returns (run: seq<World>, events: seq<Event>)
    requires Safe(w)
    ensures Moves(run, events, s, b) && run[0] == w
    ensures run[|events|].twins == OtherTwins(w, s)[TwinKey(s, b) := Twin(false, true, false)]
    ensures forall k :: k in run[|events|].twins && k.source == s ==> k == TwinKey(s, b)
  {
    StepSafe(w, EndReconcile(s));
    var w1 := After(w, EndReconcile(s));
    assert OtherTwins(w1, s) == OtherTwins(w, s) && PhaseOf(w1, s).Idle?;
    assert Moves([w, w1], [EndReconcile(s)], s, b);
    hide Allowed, After, InTheWay, Safe;
    var r, es := IdleMoves(w1, s, b);
    MovesConcat([w, w1], [EndReconcile(s)], r, es, s, b);
    run, events := [w, w1] + r[1..], [EndReconcile(s)] + es;
  }
}
