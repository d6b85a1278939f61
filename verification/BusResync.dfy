/** The budgeted resync: how fast drift and owed re-sends are paid, and why a restart loses nothing. */
module BusResync {
  import opened Order
  import opened RouteBus
  import opened BusState
  import opened BusSync

  // ---------------------------------------------------------------- routeKeys reaches every key

  lemma {:induction false} PeerRouteReached(c: Env, w: World, k: RouteKey, n: nat)
    requires n <= |ImportsOf(w.inputs, k.vni)| && PeerRoute(c, w.inputs, k, ImportsOf(w.inputs, k.vni)[n..]).Some?
    ensures k in RouteKeys(c, w)
    decreases |ImportsOf(w.inputs, k.vni)| - n
  {
    var imports := ImportsOf(w.inputs, k.vni);
    if n < |imports| {
      assert imports[n..][1..] == imports[n + 1..];
      var peer := RouteKey(imports[n].peerVNI, k.prefix);
      if peer in w.inputs.learned.own && PrefixInCIDRs(c, k.prefix, imports[n].prefixes) {
        assert w.inputs.peerImports[k.vni][n] == imports[n];
        assert RouteKey(k.vni, peer.prefix) == k;
      } else {
        PeerRouteReached(c, w, k, n + 1);
      }
    }
  }

  /** Every key that wants a route, or has one programmed, is one the resync visits. */
  lemma DriftReached(c: Env, w: World, k: RouteKey)
    ensures Drifted(c, w, k) ==> k in RouteKeys(c, w)
    ensures Desired(c, w.inputs, k).Some? ==> k in RouteKeys(c, w)
  {
    var imports := ImportsOf(w.inputs, k.vni);
    assert imports[0..] == imports;
    if PeerRoute(c, w.inputs, k, imports).Some? { PeerRouteReached(c, w, k, 0); }
    assert RouteKey(k.vni, k.prefix) == k;
  }

  ghost function Drift(c: Env, w: World): (s: set<RouteKey>)
    ensures forall k :: k in s <==> Drifted(c, w, k)
  {
    assert forall k :: Drifted(c, w, k) ==> k in RouteKeys(c, w) by {
      forall k | Drifted(c, w, k) ensures k in RouteKeys(c, w) { DriftReached(c, w, k); }
    }
    set k | k in RouteKeys(c, w) && Drifted(c, w, k)
  }

  /** What the resync still has to do. */
  ghost function Debt(c: Env, w: World): nat { |Drift(c, w)| + |w.resend| }

  // ---------------------------------------------------------------- an accepted sync

  lemma SyncDrift(c: Env, w: World, k: RouteKey, force: bool)
    requires c.oracle(w.calls).Accepted?
    ensures var s := SyncKey(c, w, k, force);
            && Drift(c, s.world) == Drift(c, w) - {k}
            && s.sent == (force || k in Drift(c, w)) && !s.outcome.Unreachable?
            && s.world.calls == w.calls + (if s.sent then 1 else 0)
            && s.world.inputs == w.inputs && s.world.resend == w.resend && s.world.ticks == w.ticks
            && s.world.retries.Keys <= w.retries.Keys
               && (forall j :: j in s.world.retries ==> s.world.retries[j] == w.retries[j])
  {
    hide Desired;
    var w' := SyncKey(c, w, k, force).world;
    forall j ensures j in Drift(c, w') <==> j in Drift(c, w) - {k} {
      SyncEffect(c, w, k, force, j);
    }
  }

  /** Retries only go away, and nothing else about the inputs moved. */
  ghost predicate Settles(w: World, w': World) {
    && w'.inputs == w.inputs && w'.ticks == w.ticks && w.calls <= w'.calls
    && (forall j :: j in w'.retries ==> j in w.retries && w'.retries[j] == w.retries[j])
  }

  lemma SettledWaits(c: Env, w: World, w': World, k: RouteKey)
    requires Settles(w, w') && Waits(c, w', k)
    ensures Waits(c, w, k)
  {
  }

  lemma DriftByRecord(c: Env, w: World, w': World)
    requires w'.inputs == w.inputs && w'.programmed == w.programmed
    ensures Drift(c, w') == Drift(c, w)
  {
  }

  // ---------------------------------------------------------------- the diff loop

  /** One key of the diff loop with its call accepted: a drifted key that is not waiting is paid. */
  lemma DiffStepPays(c: Env, l: Loop, k: RouteKey)
    requires c.oracle(l.world.calls).Accepted? && !l.stopped && l.budget > 0
    ensures var l' := DiffStep(c, l, k);
            && !l'.stopped && Settles(l.world, l'.world) && l'.world.resend == l.world.resend
            && (if k in Drift(c, l.world) && !Waits(c, l.world, k)
                then
                  && Drift(c, l'.world) == Drift(c, l.world) - {k} && l'.budget == l.budget - 1
                  && l'.world.calls == l.world.calls + 1
                else
                  && Drift(c, l'.world) == Drift(c, l.world) && l'.budget == l.budget
                  && l'.world.calls == l.world.calls)
  {
    hide Drifted, SyncKey, Desired;
    if !Waits(c, l.world, k) {
      var w := Unwaited(c, l.world, k);
      DriftByRecord(c, l.world, w);
      SyncDrift(c, w, k, false);
      assert k !in Drift(c, l.world) ==> Drift(c, l.world) - {k} == Drift(c, l.world);
    }
  }

  /** The books of the diff loop, all calls accepted: what left the drift is what was paid for. */
  ghost predicate Booked(c: Env, w: World, budget: nat, l: Loop, order: seq<RouteKey>) {
    && Settles(w, l.world) && l.world.resend == w.resend
    && Drift(c, l.world) <= Drift(c, w)
    && l.budget + |Drift(c, w)| == budget + |Drift(c, l.world)|
    && l.world.calls + |Drift(c, l.world)| == w.calls + |Drift(c, w)|
    && (l.stopped ==> l.budget == 0)
    && (!l.stopped ==> forall k :: k in order && k in Drift(c, l.world) ==> Waits(c, w, k))
  }

  lemma BookedOneMore(c: Env, w: World, budget: nat, l: Loop, order: seq<RouteKey>, k: RouteKey)
    requires AcceptedFrom(c, w.calls) && Booked(c, w, budget, l, order)
    ensures Booked(c, w, budget, DiffStep(c, l, k), order + [k])
  {
    hide DiffStep, Drifted, Waits;
    if l.stopped || l.budget == 0 {
      StoppedStays(c, l, k);
    } else {
      DiffStepPays(c, l, k);
      var d, d' := Drift(c, l.world), Drift(c, DiffStep(c, l, k).world);
      assert k in d && d' == d - {k} ==> |d'| == |d| - 1;
      if Waits(c, l.world, k) { SettledWaits(c, w, l.world, k); }
    }
  }

  lemma {:induction false} DiffAllPays(c: Env, w: World, budget: nat, order: seq<RouteKey>)
    requires AcceptedFrom(c, w.calls)
    ensures Booked(c, w, budget, DiffAll(c, Loop(w, budget, false), order), order)
  {
    hide DiffStep;
    if order != [] {
      hide Booked;
      var init, k := order[..|order| - 1], order[|order| - 1];
      DiffAllPays(c, w, budget, init);
      assert order == init + [k];
      BookedOneMore(c, w, budget, DiffAll(c, Loop(w, budget, false), init), init, k);
    }
  }

  lemma StoppedStays(c: Env, l: Loop, k: RouteKey)
    requires l.stopped || l.budget == 0
    ensures DiffStep(c, l, k) == l.(stopped := true)
  {
  }

  // ---------------------------------------------------------------- the re-send loop

  /** Accepted re-sends keep the drift down and pay the queue one for one. */
  lemma {:induction false} ResendPays(c: Env, w: World, budget: nat)
    requires AcceptedFrom(c, w.calls)
    ensures var w' := ResendLoop(c, w, budget);
            && Settles(w, w') && Drift(c, w') <= Drift(c, w)
            && (w'.resend == [] || |w'.resend| + budget <= |w.resend|) && |w'.resend| <= |w.resend|
            && (w.resend == [] ==> w' == w)
    decreases |w.resend|
  {
    hide Drifted, Desired, SyncKey;
    if w.resend != [] && budget > 0 {
      var k := w.resend[0];
      var w1 := w.(resend := w.resend[1..]);
      DriftByRecord(c, w, w1);
      if Desired(c, w.inputs, k).None? && k !in w.programmed && k !in w.inputs.localHosts {
        ResendPays(c, w1, budget);
      } else {
        SyncDrift(c, w1, k, true);
        ResendPays(c, SyncKey(c, w1, k, true).world, budget - 1);
      }
    }
  }

  // ---------------------------------------------------------------- one tick

  ghost predicate NoneWaits(c: Env, w: World) { forall k :: !Waits(c, Ticked(w), k) }

  /** With every call accepted a tick never adds debt; with no key waiting it pays a full budget. */
  lemma TickPays(c: Env, w: World, order: seq<RouteKey>)
    requires AcceptedFrom(c, w.calls) && Enumerates(order, RouteKeys(c, w))
    ensures var w' := Tick(c, w, order);
            && Debt(c, w') <= Debt(c, w)
            && (NoneWaits(c, w) ==> Debt(c, w') == 0 || Debt(c, w') + ROUTE_CALLS_PER_TICK <= Debt(c, w))
            && w'.inputs == w.inputs && w'.ticks == w.ticks + 1 && w.calls <= w'.calls
            && (forall j :: j in w'.retries ==> j in w.retries && w'.retries[j] == w.retries[j])
            && (NoneWaits(c, w) && Debt(c, w) == 0 ==> w'.calls == w.calls && w'.table == w.table)
  {
    hide DiffAll, ResendLoop, Waits, Drifted, RouteKeys;
    var w0 := Ticked(w);
    var w1 := Cleaned(c, w0);
    DriftByRecord(c, w, w1);
    DiffAllPays(c, w1, ROUTE_CALLS_PER_TICK, order);
    var l := DiffAll(c, Loop(w1, ROUTE_CALLS_PER_TICK, false), order);
    SubsetCard(Drift(c, l.world), Drift(c, w1));
    if NoneWaits(c, w) {
      forall k ensures !Waits(c, w1, k) { CleanedWaits(c, w0, k); }
      if !l.stopped {
        forall k | k in Drift(c, l.world) ensures k in order { DriftReached(c, w, k); OrderCovers(c, w, order, k); }
        assert Drift(c, l.world) == {};
      }
    }
    if !l.stopped {
      ResendPays(c, l.world, l.budget);
      SubsetCard(Drift(c, ResendLoop(c, l.world, l.budget)), Drift(c, l.world));
    }
    if NoneWaits(c, w) && Debt(c, w) == 0 {
      QuietDiff(c, w1, ROUTE_CALLS_PER_TICK, order);
    }
  }

  lemma OrderCovers(c: Env, w: World, order: seq<RouteKey>, k: RouteKey)
    requires Enumerates(order, RouteKeys(c, w)) && k in RouteKeys(c, w)
    ensures k in order
  {
  }

  lemma CleanedWaits(c: Env, w: World, k: RouteKey)
    ensures Waits(c, Cleaned(c, w), k) ==> Waits(c, w, k)
  {
  }

  lemma SubsetCard<T>(a: set<T>, b: set<T>)
    requires a <= b
    ensures |a| <= |b| && (|a| == |b| ==> a == b)
  {
    assert b == a + (b - a);
  }

  /** With nothing drifted the diff loop leaves table and record alone. */
  lemma {:induction false} QuietDiff(c: Env, w: World, budget: nat, order: seq<RouteKey>)
    requires Drift(c, w) == {}
    ensures var l := DiffAll(c, Loop(w, budget, false), order);
            l.world.table == w.table && l.world.programmed == w.programmed && l.world.inputs == w.inputs
  {
    hide Desired;
    if order != [] {
      var init, k := order[..|order| - 1], order[|order| - 1];
      QuietDiff(c, w, budget, init);
      assert !Drifted(c, w, k);
    }
  }
}
