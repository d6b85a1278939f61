/** The edge's load-balancer programming as it runs: objects updated call by call. */
module EdgeAgent {
  import opened Order
  import opened RouteBus
  import opened EdgeState

  class LbDataplane {
    const fails: nat -> bool
    var table: map<string, Lb>
    var calls: nat

    constructor (fails: nat -> bool, table: map<string, Lb>)
      ensures this.fails == fails && State() == Dp(table, 0)
    {
      this.fails := fails;
      this.table := table;
      calls := 0;
    }

    ghost function State(): Dp
      reads this
    {
      Dp(table, calls)
    }

    method AddLoadBalancer(id: string, ports: seq<LbPort>) returns (ok: bool)
      modifies this
      ensures Answer(State(), ok) == CreateLb(fails, old(State()), id, ports)
    {
      ok := !fails(calls) && id !in table;
      calls := calls + 1;
      if ok { table := table[id := Lb(ports, map[])]; }
    }

    method DelLoadBalancer(id: string) returns (ok: bool)
      modifies this
      ensures Answer(State(), ok) == DeleteLb(fails, old(State()), id)
    {
      ok := !fails(calls);
      calls := calls + 1;
      if ok { table := table - {id}; }
    }

    method AddLbBackend(id: string, bk: Backend, vni: nat) returns (ok: bool)
      modifies this
      ensures Answer(State(), ok) == Attach(fails, old(State()), id, bk, vni)
    {
      ok := !fails(calls) && id in table && bk !in table[id].backends;
      calls := calls + 1;
      if ok { table := table[id := Lb(table[id].ports, table[id].backends[bk := vni])]; }
    }

    method DelLbBackend(id: string, bk: Backend) returns (ok: bool)
      modifies this
      ensures Answer(State(), ok) == Detach(fails, old(State()), id, bk)
    {
      ok := !fails(calls) && id in table && bk in table[id].backends;
      calls := calls + 1;
      if ok { table := table[id := Lb(table[id].ports, table[id].backends - {bk})]; }
    }
  }

  class EdgeBus {
    const dp: LbDataplane
    var edgeLbs: map<string, Lb>
    var seenPublic: set<Entry>
    var globalRecords: nat

    constructor (dp: LbDataplane)
      ensures this.dp == dp && edgeLbs == map[] && seenPublic == {} && globalRecords == 0
    {
      this.dp := dp;
      edgeLbs := map[];
      seenPublic := {};
      globalRecords := 0;
    }

    ghost function State(): Edge
      reads this, dp
    {
      Edge(edgeLbs, seenPublic, globalRecords, dp.State())
    }

    method RegisterLoadBalancer(id: string, ports: seq<LbPort>) returns (ok: bool)
      modifies this`edgeLbs, dp
      ensures Registration(State(), ok) == Register(dp.fails, old(State()), id, ports)
    {
      ok := dp.AddLoadBalancer(id, ports);
      if !ok {
        var deleted := dp.DelLoadBalancer(id);
        if !deleted { return false; }
        ok := dp.AddLoadBalancer(id, ports);
        if !ok { return; }
      }
      edgeLbs := edgeLbs[id := Lb(ports, map[])];
    }

    /** Attaches a backend and records it; a failed call is only logged. */
    method AttachBackend(id: string, bk: Backend, vni: nat)
      requires id in edgeLbs
      modifies this`edgeLbs, dp
      ensures State() == AttachOne(dp.fails, old(State()), id, bk, vni) && id in edgeLbs
    {
      var ok := dp.AddLbBackend(id, bk, vni);
      if ok { edgeLbs := edgeLbs[id := Lb(edgeLbs[id].ports, edgeLbs[id].backends[bk := vni])]; }
    }

    method ReattachAll(id: string, prev: map<Backend, nat>) returns (ghost order: seq<Backend>)
      requires id in edgeLbs
      modifies this`edgeLbs, dp
      ensures Enumerates(order, prev.Keys)
      ensures State() == Reattach(dp.fails, old(State()), id, prev, order)
    {
      hide AttachOne;
      order := [];
      var todo := prev.Keys;
      while todo != {}
        invariant todo <= prev.Keys && Enumerates(order, prev.Keys - todo) && id in edgeLbs
        invariant State() == Reattach(dp.fails, old(State()), id, prev, order)
        decreases |todo|
      {
        var bk :| bk in todo;
        todo := todo - {bk};
        ghost var before := order;
        order := order + [bk];
        assert order[..|order| - 1] == before;
        AttachBackend(id, bk, prev[bk]);
      }
      assert prev.Keys - todo == prev.Keys;
    }

    method RebuildLoadBalancer(id: string, ports: seq<LbPort>) returns (ok: bool, ghost order: seq<Backend>)
      requires id in edgeLbs
      modifies this`edgeLbs, dp
      ensures Enumerates(order, old(edgeLbs[id].backends.Keys))
      ensures Registration(State(), ok) == Rebuild(dp.fails, old(State()), id, ports, order)
    {
      hide Reattach, Register;
      var prev := edgeLbs[id].backends;
      order := Listing(prev.Keys);
      ok := dp.DelLoadBalancer(id);
      if !ok { return; }
      edgeLbs := edgeLbs - {id};
      ghost var cleared := State();
      ok := RegisterLoadBalancer(id, ports);
      if !ok { return; }
      RegisteredIsRecorded(dp.fails, cleared, id, ports);
      order := ReattachAll(id, prev);
    }

    method AddBackendRecord(rec: LbRecord) returns (ghost order: seq<Backend>)
      modifies this`edgeLbs, dp
      ensures RebuildOrder(old(State()), rec, order)
      ensures State() == AddBackend(dp.fails, old(State()), rec, order)
    {
      hide Rebuild, Register, AttachOne;
      order := [];
      if rec.lbIP !in edgeLbs {
        var ok := RegisterLoadBalancer(rec.lbIP, rec.ports);
        if !ok { return; }
        assert rec.lbIP in edgeLbs by { RegisteredIsRecorded(dp.fails, old(State()), rec.lbIP, rec.ports); }
      } else if edgeLbs[rec.lbIP].ports != rec.ports {
        var ok;
        ok, order := RebuildLoadBalancer(rec.lbIP, rec.ports);
        if !ok { return; }
        assert rec.lbIP in edgeLbs by { RebuiltIsRecorded(dp.fails, old(State()), rec.lbIP, rec.ports, order); }
      }
      if rec.backend in edgeLbs[rec.lbIP].backends { return; }
      AttachBackend(rec.lbIP, rec.backend, rec.vni);
    }

    method DropIfEmpty(id: string)
      requires id in edgeLbs
      modifies this`edgeLbs, dp
      ensures State() == DropEmpty(dp.fails, old(State()), id)
    {
      if edgeLbs[id].backends != map[] { return; }
      var ok := dp.DelLoadBalancer(id);
      if ok { edgeLbs := edgeLbs - {id}; }
    }

    method DetachBackend(id: string, bk: Backend) returns (ok: bool)
      requires id in edgeLbs
      modifies this`edgeLbs, dp
      ensures Registration(State(), ok) == DetachOne(dp.fails, old(State()), id, bk) && id in edgeLbs
    {
      ok := dp.DelLbBackend(id, bk);
      if ok { edgeLbs := edgeLbs[id := Lb(edgeLbs[id].ports, edgeLbs[id].backends - {bk})]; }
    }

    method DelBackendRecord(rec: LbRecord)
      modifies this`edgeLbs, dp
      ensures State() == DelBackend(dp.fails, old(State()), rec)
    {
      hide DropEmpty, DetachOne;
      if rec.lbIP !in edgeLbs { return; }
      if rec.backend in edgeLbs[rec.lbIP].backends {
        var ok := DetachBackend(rec.lbIP, rec.backend);
        if !ok { return; }
      }
      DropIfEmpty(rec.lbIP);
    }

    /** A record of the global feed that is none of the balancers'. */
    method CountRecord()
      modifies this`globalRecords
      ensures State() == After(dp.fails, old(State()), OtherRecord)
    {
      globalRecords := globalRecords + 1;
    }

    method ResetGlobalSnapshot()
      modifies this`seenPublic, this`globalRecords
      ensures State() == After(dp.fails, old(State()), NewSession)
    {
      seenPublic := {};
      globalRecords := 0;
    }

    /** The LB_IP branch of applyPublic: seen is marked whether or not the attach succeeds. */
    method ApplyLbRecord(rec: LbRecord, add: bool) returns (ghost order: seq<Backend>)
      modifies this, dp
      ensures add ==> Allowed(old(State()), LbAdd(rec, order))
      ensures add ==> State() == After(dp.fails, old(State()), LbAdd(rec, order))
      ensures !add ==> State() == After(dp.fails, old(State()), LbWithdraw(rec))
    {
      hide AddBackend, DelBackend;
      order := [];
      globalRecords := globalRecords + 1;
      if add {
        seenPublic := seenPublic + {EntryOf(rec)};
        order := AddBackendRecord(rec);
      } else {
        seenPublic := seenPublic - {EntryOf(rec)};
        DelBackendRecord(rec);
      }
    }

    method PruneBalancer(id: string) returns (ghost order: seq<Backend>)
      requires id in edgeLbs
      modifies this`edgeLbs, dp
      ensures Enumerates(order, old(edgeLbs[id].backends.Keys))
      ensures State() == PruneOne(dp.fails, old(State()), id, order)
    {
      hide DetachOne, DropEmpty, Elsewhere;
      order := [];
      var all := edgeLbs[id].backends.Keys;
      var todo := all;
      while todo != {}
        invariant todo <= all && Enumerates(order, all - todo) && id in edgeLbs
        invariant State() == PruneBackends(dp.fails, old(State()), id, order)
        decreases |todo|
      {
        var bk :| bk in todo;
        todo := todo - {bk};
        ghost var before := order;
        order := order + [bk];
        assert order[..|order| - 1] == before;
        if Entry(id, bk) in seenPublic { continue; }
        var ok := DetachBackend(id, bk);
      }
      assert all - todo == all;
      DropIfEmpty(id);
    }

    method PruneLbBackends() returns (ghost order: seq<string>, ghost inner: map<string, seq<Backend>>)
      modifies this`edgeLbs, dp
      ensures PruneOrder(old(State()), order, inner)
      ensures State() == Prune(dp.fails, old(State()), order, inner)
    {
      hide PruneOne, Prune, Elsewhere, Untouched, Pruned, Enumerates;
      ghost var e := State();
      order, inner := [], map[];
      var all := edgeLbs.Keys;
      var todo := all;
      PruneNothing(dp.fails, e);
      assert all - todo == {};
      while todo != {}
        invariant todo <= all == e.mirror.Keys && Pruned(dp.fails, e, order, inner, all - todo, State())
        decreases |todo|
      {
        var id :| id in todo;
        ghost var done := all - todo;
        todo := todo - {id};
        ghost var e1 := State();
        NotYet(dp.fails, e, order, inner, done, e1, id);
        ghost var listed := PruneBalancer(id);
        PruneNext(dp.fails, e, order, inner, done, e1, id, listed);
        order := order + [id];
        inner := inner[id := listed];
        assert all - todo == done + {id};
      }
      assert all - todo == all;
      PrunedAll(dp.fails, e, order, inner, State());
    }

    /** The load-balancer half of pruneGlobal. */
    method PruneGlobal(want: nat) returns (ghost order: seq<string>, ghost inner: map<string, seq<Backend>>)
      modifies this`edgeLbs, dp
      ensures PruneOrder(old(State()), order, inner)
      ensures State() == After(dp.fails, old(State()), EndOfSnapshot(want, order, inner))
    {
      hide Prune;
      if globalRecords != want {
        order := Listing(edgeLbs.Keys);
        inner := map id | id in edgeLbs :: Listing(edgeLbs[id].backends.Keys);
      } else {
        order, inner := PruneLbBackends();
      }
    }
  }

  lemma RegisteredIsRecorded(fails: nat -> bool, e: Edge, id: string, ports: seq<LbPort>)
    ensures Register(fails, e, id, ports).ok ==> id in Register(fails, e, id, ports).edge.mirror
  {
  }

  lemma RebuiltIsRecorded(fails: nat -> bool, e: Edge, id: string, ports: seq<LbPort>, order: seq<Backend>)
    requires id in e.mirror && forall bk :: bk in order ==> bk in e.mirror[id].backends
    ensures Rebuild(fails, e, id, ports, order).ok ==> id in Rebuild(fails, e, id, ports, order).edge.mirror
  {
  }

  /** The balancers of `done` have been pruned, in this order and each with its backends in that one. */
  ghost predicate Pruned(fails: nat -> bool, e: Edge, order: seq<string>, inner: map<string, seq<Backend>>,
      done: set<string>, now: Edge) {
    && Enumerates(order, done) && inner.Keys == done <= e.mirror.Keys
    && (forall id :: id in inner ==> Enumerates(inner[id], e.mirror[id].backends.Keys))
    && now == Prune(fails, e, order, inner)
  }

  lemma PrunedAll(fails: nat -> bool, e: Edge, order: seq<string>, inner: map<string, seq<Backend>>, now: Edge)
    requires Pruned(fails, e, order, inner, e.mirror.Keys, now)
    ensures PruneOrder(e, order, inner) && now == Prune(fails, e, order, inner)
  {
  }

  lemma PruneNothing(fails: nat -> bool, e: Edge)
    ensures Pruned(fails, e, [], map[], {}, e)
  {
  }

  lemma NotYet(fails: nat -> bool, e: Edge, order: seq<string>, inner: map<string, seq<Backend>>, done: set<string>,
      now: Edge, id: string)
    requires Pruned(fails, e, order, inner, done, now) && id in e.mirror && id !in done
    ensures id in now.mirror && now.mirror[id] == e.mirror[id]
  {
  }

  lemma PruneNext(fails: nat -> bool, e: Edge, order: seq<string>, inner: map<string, seq<Backend>>, done: set<string>,
      now: Edge, id: string, listed: seq<Backend>)
    requires Pruned(fails, e, order, inner, done, now) && id in e.mirror && id !in done && id in now.mirror
    requires Enumerates(listed, e.mirror[id].backends.Keys)
    ensures Pruned(fails, e, order + [id], inner[id := listed], done + {id}, PruneOne(fails, now, id, listed))
  {
    hide PruneOne, Prune;
    OneMoreListed(order, done, id);
    PruneLast(fails, e, order, inner, id, listed);
  }

  lemma OneMoreListed(order: seq<string>, done: set<string>, id: string)
    requires Enumerates(order, done) && id !in done
    ensures Enumerates(order + [id], done + {id})
  {
  }

  lemma PruneLast(fails: nat -> bool, e: Edge, order: seq<string>, inner: map<string, seq<Backend>>, id: string,
      listed: seq<Backend>)
    requires forall i, j :: 0 <= i < j < |order| ==> order[i] != order[j]
    requires (forall j :: j in order ==> j in e.mirror && j in inner) && id in e.mirror && id !in order
    ensures id in Prune(fails, e, order, inner).mirror
    ensures Prune(fails, e, order + [id], inner[id := listed]) ==
            PruneOne(fails, Prune(fails, e, order, inner), id, listed)
  {
    hide PruneOne, Elsewhere;
    assert (order + [id])[..|order|] == order;
    PruneIgnores(fails, e, order, inner, inner[id := listed]);
  }

  lemma {:induction false} PruneIgnores(fails: nat -> bool, e: Edge, order: seq<string>, a: map<string, seq<Backend>>,
      b: map<string, seq<Backend>>)
    requires forall i, j :: 0 <= i < j < |order| ==> order[i] != order[j]
    requires forall id :: id in order ==> id in e.mirror && id in a && id in b && a[id] == b[id]
    ensures Prune(fails, e, order, a) == Prune(fails, e, order, b)
  {
    hide PruneOne, Elsewhere;
    if order != [] {
      assert order == order[..|order| - 1] + [order[|order| - 1]];
      PruneIgnores(fails, e, order[..|order| - 1], a, b);
    }
  }
}
