/** What each record makes of the edge's dataplane, call by call, and that nothing is left behind on it. */
module EdgeExact {
  import opened Order
  import opened RouteBus
  import opened EdgeState
  import opened EdgeMirror

  // ---------------------------------------------------------------- nothing left behind

  /** Beyond the recorded balancers r's dataplane holds only what e's held beyond its own. */
  ghost predicate LeavesNothing(e: Edge, r: Edge) {
    forall id :: id in r.dp.table && id !in r.mirror ==>
      id in e.dp.table && id !in e.mirror && r.dp.table[id] == e.dp.table[id]
  }

  lemma LeavesTrans(a: Edge, b: Edge, c: Edge)
    requires LeavesNothing(a, b) && LeavesNothing(b, c)
    ensures LeavesNothing(a, c)
  {
  }

  lemma RegisterLeaves(fails: nat -> bool, e: Edge, id: string, ports: seq<LbPort>)
    requires id !in e.mirror
    ensures LeavesNothing(e, Register(fails, e, id, ports).edge)
  {
  }

  lemma AttachLeaves(fails: nat -> bool, e: Edge, id: string, bk: Backend, vni: nat)
    requires id in e.mirror
    ensures LeavesNothing(e, AttachOne(fails, e, id, bk, vni))
  {
  }

  lemma DetachLeaves(fails: nat -> bool, e: Edge, id: string, bk: Backend)
    requires id in e.mirror
    ensures LeavesNothing(e, DetachOne(fails, e, id, bk).edge) && LeavesNothing(e, DropEmpty(fails, e, id))
  {
  }

  lemma {:induction false} ReattachLeaves(fails: nat -> bool, e: Edge, id: string, prev: map<Backend, nat>,
      order: seq<Backend>)
    requires id in e.mirror && forall bk :: bk in order ==> bk in prev
    ensures LeavesNothing(e, Reattach(fails, e, id, prev, order))
  {
    if order != [] {
      var bk, mid := order[|order| - 1], Reattach(fails, e, id, prev, order[..|order| - 1]);
      ReattachLeaves(fails, e, id, prev, order[..|order| - 1]);
      AttachLeaves(fails, mid, id, bk, prev[bk]);
      hide LeavesNothing, AttachOne;
      LeavesTrans(e, mid, AttachOne(fails, mid, id, bk, prev[bk]));
    }
  }

  lemma RebuildLeaves(fails: nat -> bool, e: Edge, id: string, ports: seq<LbPort>, order: seq<Backend>)
    requires id in e.mirror && forall bk :: bk in order ==> bk in e.mirror[id].backends
    ensures LeavesNothing(e, Rebuild(fails, e, id, ports, order).edge)
  {
    hide Register, Reattach;
    var del := DeleteLb(fails, e.dp, id);
    if del.ok {
      var e1 := e.(dp := del.dp, mirror := e.mirror - {id});
      var reg := Register(fails, e1, id, ports);
      RegisterLeaves(fails, e1, id, ports);
      assert LeavesNothing(e, e1);
      LeavesTrans(e, e1, reg.edge);
      if reg.ok {
        RegisterOk(fails, e1, id, ports);
        ReattachLeaves(fails, reg.edge, id, e.mirror[id].backends, order);
        hide LeavesNothing;
        LeavesTrans(e, reg.edge, Reattach(fails, reg.edge, id, e.mirror[id].backends, order));
      }
    }
  }

  lemma RegisterOk(fails: nat -> bool, e: Edge, id: string, ports: seq<LbPort>)
    ensures Register(fails, e, id, ports).ok ==> id in Register(fails, e, id, ports).edge.mirror
  {
  }

  lemma AddLeaves(fails: nat -> bool, e: Edge, rec: LbRecord, order: seq<Backend>)
    requires RebuildOrder(e, rec, order)
    ensures LeavesNothing(e, AddBackend(fails, e, rec, order))
  {
    hide Register, Rebuild, AttachOne;
    var id, p := rec.lbIP, Prepare(fails, e, rec, order);
    if id !in e.mirror {
      RegisterLeaves(fails, e, id, rec.ports);
    } else if e.mirror[id].ports != rec.ports {
      RebuildLeaves(fails, e, id, rec.ports, order);
    }
    assert LeavesNothing(e, p.edge);
    if p.ok && rec.backend !in p.edge.mirror[id].backends {
      AttachLeaves(fails, p.edge, id, rec.backend, rec.vni);
      hide LeavesNothing;
      LeavesTrans(e, p.edge, AttachOne(fails, p.edge, id, rec.backend, rec.vni));
    }
  }

  lemma DelLeaves(fails: nat -> bool, e: Edge, rec: LbRecord)
    ensures LeavesNothing(e, DelBackend(fails, e, rec))
  {
    hide DetachOne, DropEmpty;
    if rec.lbIP in e.mirror {
      DetachLeaves(fails, e, rec.lbIP, rec.backend);
      var d := DetachOne(fails, e, rec.lbIP, rec.backend);
      DetachKeeps(fails, e, rec.lbIP, rec.backend);
      DetachLeaves(fails, d.edge, rec.lbIP, rec.backend);
      LeavesTrans(e, d.edge, DropEmpty(fails, d.edge, rec.lbIP));
    }
  }

  lemma DetachKeeps(fails: nat -> bool, e: Edge, id: string, bk: Backend)
    requires id in e.mirror
    ensures id in DetachOne(fails, e, id, bk).edge.mirror
  {
  }

  lemma {:induction false} PruneBackendsLeaves(fails: nat -> bool, e: Edge, id: string, order: seq<Backend>)
    requires id in e.mirror
    ensures LeavesNothing(e, PruneBackends(fails, e, id, order))
  {
    if order != [] {
      hide LeavesNothing, DetachOne;
      var mid := PruneBackends(fails, e, id, order[..|order| - 1]);
      PruneBackendsLeaves(fails, e, id, order[..|order| - 1]);
      DetachLeaves(fails, mid, id, order[|order| - 1]);
      LeavesTrans(e, mid, DetachOne(fails, mid, id, order[|order| - 1]).edge);
    }
  }

  lemma {:induction false} PruneLeaves(fails: nat -> bool, e: Edge, order: seq<string>,
      inner: map<string, seq<Backend>>)
    requires forall i, j :: 0 <= i < j < |order| ==> order[i] != order[j]
    requires forall id :: id in order ==> id in e.mirror && id in inner
    ensures LeavesNothing(e, Prune(fails, e, order, inner))
  {
    if order != [] {
      var init, id := order[..|order| - 1], order[|order| - 1];
      assert order == init + [id] && id !in init;
      var prev := Prune(fails, e, init, inner);
      PruneLeaves(fails, e, init, inner);
      UntouchedAt(e, prev, init, id);
      hide LeavesNothing, PruneBackends, DropEmpty, DetachOne;
      var mid := PruneBackends(fails, prev, id, inner[id]);
      PruneBackendsLeaves(fails, prev, id, inner[id]);
      DetachLeaves(fails, mid, id, Backend("", ""));
      LeavesTrans(e, prev, mid);
      LeavesTrans(e, mid, DropEmpty(fails, mid, id));
    }
  }

  lemma StepLeaves(fails: nat -> bool, e: Edge, ev: Event)
    requires Allowed(e, ev) && !ev.AgentRestart?
    ensures LeavesNothing(e, After(fails, e, ev))
  {
    hide AddBackend, DelBackend, Prune;
    match ev
    case LbAdd(rec, order) => AddLeaves(fails, Noted(e, rec, true), rec, order);
    case LbWithdraw(rec) => DelLeaves(fails, Noted(e, rec, false), rec);
    case EndOfSnapshot(want, order, inner) => if e.records == want { PruneLeaves(fails, e, order, inner); }
    case _ =>
  }

  /** In every run, whatever calls fail: while the agent does not restart, the dataplane holds exactly the recorded
      balancers and, untouched, some of those it held before that no record has named. */
  lemma {:induction false} NothingLeftBehind(fails: nat -> bool, run: seq<Edge>, events: seq<Event>, i: nat, n: nat)
    requires IsRun(fails, run, events) && i <= n <= |events| && forall j :: i <= j < n ==> !events[j].AgentRestart?
    ensures LeavesNothing(run[i], run[n]) && Mirrors(run[n])
  {
    hide After, LeavesNothing, Mirrors, Allowed;
    MirrorMatchesDataplane(fails, run, events, n);
    if n == i {
      SameLeaves(run[i]);
    } else {
      NothingLeftBehind(fails, run, events, i, n - 1);
      assert Allowed(run[n - 1], events[n - 1]) && run[n - 1 + 1] == After(fails, run[n - 1], events[n - 1]);
      StepLeaves(fails, run[n - 1], events[n - 1]);
      LeavesTrans(run[i], run[n - 1], run[n]);
    }
  }

  lemma SameLeaves(e: Edge)
    ensures LeavesNothing(e, e)
  {
  }

  /** Beside a dataplane that held no balancer the two are always equal. */
  lemma TableIsMirror(fails: nat -> bool, run: seq<Edge>, events: seq<Event>, n: nat)
    requires IsRun(fails, run, events) && n <= |events| && forall j :: 0 <= j < n ==> !events[j].AgentRestart?
    requires run[0].dp.table == map[]
    ensures run[n].dp.table == run[n].mirror
  {
    hide After, Allowed;
    NothingLeftBehind(fails, run, events, 0, n);
  }

  /** After any history, a new session or a restarted agent starts clean: the snapshot it takes, its calls succeeding
      and its count right, leaves exactly the replayed backends attached and no balancer empty. */
  lemma ReconnectConverges(fails: nat -> bool, run: seq<Edge>, events: seq<Event>, start: Event, replay: seq<Edge>,
      feed: seq<Event>, order: seq<string>, inner: map<string, seq<Backend>>)
    requires IsRun(fails, run, events) && (start.NewSession? || start.AgentRestart?)
    requires IsReplay(fails, replay, feed) && replay[0] == After(fails, run[|events|], start)
    requires Healthy(fails, replay[0].dp) && PruneOrder(replay[|feed|], order, inner)
    ensures var r := After(fails, replay[|feed|], EndOfSnapshot(|feed|, order, inner));
            && Mirrors(r) && NoneEmpty(r)
            && forall id, bk :: Attached(r, id, bk) <==> Carried(feed, Entry(id, bk))
  {
    MirrorMatchesDataplane(fails, run, events, |events|);
    hide Prune, Healthy, IsReplay, NoneEmpty, IsRun, PruneOrder;
    assert Mirrors(replay[0]) && replay[0].seen == {} && replay[0].records == 0;
    hide Mirrors;
    SnapshotConverges(fails, replay, feed, |feed|, order, inner);
  }

  // ---------------------------------------------------------------- call by call

  /** The edge after `calls` more calls, with balancer id as `lb` in both record and dataplane, or in neither. */
  function AtBoth(e: Edge, id: string, lb: Option<Lb>, calls: nat): Edge {
    if lb.None? then e.(mirror := e.mirror - {id}, dp := Dp(e.dp.table - {id}, e.dp.calls + calls))
    else e.(mirror := e.mirror[id := lb.value], dp := Dp(e.dp.table[id := lb.value], e.dp.calls + calls))
  }

  function Waited(e: Edge, calls: nat): Edge { e.(dp := e.dp.(calls := e.dp.calls + calls)) }

  /** A balancer not recorded: one call if the first create is taken; else a delete and a second create. Only a failed
      second create takes down what an earlier agent left. */
  lemma RegisterExactly(fails: nat -> bool, e: Edge, id: string, ports: seq<LbPort>)
    requires id !in e.mirror
    ensures var n, lb, r := e.dp.calls, Some(Lb(ports, map[])), Register(fails, e, id, ports);
            if !fails(n) && id !in e.dp.table then r == Registration(AtBoth(e, id, lb, 1), true)
            else if fails(n + 1) then r == Registration(Waited(e, 2), false)
            else if fails(n + 2) then r == Registration(AtBoth(e, id, None, 3), false)
            else r == Registration(AtBoth(e, id, lb, 3), true)
  {
    assert e.mirror - {id} == e.mirror;
    assert (e.dp.table - {id})[id := Lb(ports, map[])] == e.dp.table[id := Lb(ports, map[])];
  }

  /** A recorded balancer gains a backend by one call, in both places or in neither. */
  lemma AttachExactly(fails: nat -> bool, e: Edge, id: string, bk: Backend, vni: nat)
    requires Mirrors(e) && id in e.mirror && bk !in e.mirror[id].backends
    ensures var lb := e.mirror[id];
            AttachOne(fails, e, id, bk, vni) ==
            if fails(e.dp.calls) then Waited(e, 1) else AtBoth(e, id, Some(lb.(backends := lb.backends[bk := vni])), 1)
  {
  }

  /** A rebuild re-attaches each backend by one call, those whose call does not fail. */
  lemma {:induction false} ReattachExactly(fails: nat -> bool, e: Edge, id: string, prev: map<Backend, nat>,
      order: seq<Backend>)
    requires Mirrors(e) && id in e.mirror && e.mirror[id].backends == map[] && forall bk :: bk in order ==> bk in prev
    requires forall i, j :: 0 <= i < j < |order| ==> order[i] != order[j]
    ensures var r := Reattach(fails, e, id, prev, order);
            && r.dp.calls == e.dp.calls + |order| && Mirrors(r) && r.mirror[id].ports == e.mirror[id].ports
            && forall bk :: bk in r.mirror[id].backends <==>
                 exists i :: 0 <= i < |order| && order[i] == bk && !fails(e.dp.calls + i)
  {
    if order != [] {
      var init, bk := order[..|order| - 1], order[|order| - 1];
      ReattachExactly(fails, e, id, prev, init);
      var mid := Reattach(fails, e, id, prev, init);
      assert order == init + [bk] && bk !in init;
      assert forall i :: 0 <= i < |init| ==> order[i] == init[i];
      assert bk !in mid.mirror[id].backends;
      AttachExactly(fails, mid, id, bk, prev[bk]);
      AttachMirrors(fails, mid, id, bk, prev[bk]);
      hide Mirrors, AttachOne;
      var r := AttachOne(fails, mid, id, bk, prev[bk]);
      assert r.dp.calls == e.dp.calls + |order| && r.mirror[id].ports == e.mirror[id].ports;
      forall x ensures x in r.mirror[id].backends <==>
                       exists i :: 0 <= i < |order| && order[i] == x && !fails(e.dp.calls + i)
      {
        if x == bk && !fails(e.dp.calls + |init|) { assert order[|init|] == x; }
      }
    }
  }

  /** New ports: a failed delete leaves the balancer as it was and no backend is attached; else it is deleted, then
      registered anew. */
  lemma RebuildExactly(fails: nat -> bool, e: Edge, id: string, ports: seq<LbPort>, order: seq<Backend>)
    requires Mirrors(e) && id in e.mirror && forall bk :: bk in order ==> bk in e.mirror[id].backends
    ensures var n, r := e.dp.calls, Rebuild(fails, e, id, ports, order);
            && (fails(n) ==> r == Registration(Waited(e, 1), false))
            && (!fails(n) ==> (r.ok <==> !fails(n + 1) || (!fails(n + 2) && !fails(n + 3))))
            && (!fails(n) && !r.ok ==> r.edge == AtBoth(e, id, None, if fails(n + 2) then 3 else 4))
  {
    hide Reattach;
    if !fails(e.dp.calls) {
      var e1 := AtBoth(e, id, None, 1);
      hide Register;
      RegisterExactly(fails, e1, id, ports);
    }
  }

  /** A withdraw: an unrecorded balancer is left alone; a failed detach changes nothing; the last backend to go takes
      the balancer along, unless that call fails. */
  lemma WithdrawExactly(fails: nat -> bool, e: Edge, rec: LbRecord)
    requires Mirrors(e)
    ensures var n, id, r := e.dp.calls, rec.lbIP, DelBackend(fails, e, rec);
            if id !in e.mirror then r == e
            else
              var lb := e.mirror[id];
              var rest := lb.backends - {rec.backend};
              if rec.backend !in lb.backends then
                (if lb.backends != map[] then r == e
                 else r == if fails(n) then Waited(e, 1) else AtBoth(e, id, None, 1))
              else if fails(n) then r == Waited(e, 1)
              else if rest != map[] then r == AtBoth(e, id, Some(Lb(lb.ports, rest)), 1)
              else r == if fails(n + 1) then AtBoth(e, id, Some(Lb(lb.ports, map[])), 2) else AtBoth(e, id, None, 2)
  {
    if rec.lbIP in e.mirror {
      var lb := Lb(e.mirror[rec.lbIP].ports, map[]);
      assert e.mirror[rec.lbIP := lb] - {rec.lbIP} == e.mirror - {rec.lbIP};
      assert e.dp.table[rec.lbIP := lb] - {rec.lbIP} == e.dp.table - {rec.lbIP};
    }
  }
}
