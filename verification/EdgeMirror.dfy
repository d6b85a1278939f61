/** What the edge keeps true of its load-balancer mirror. */
module EdgeMirror {
  import opened Order
  import opened RouteBus
  import opened EdgeState

  /** Each recorded balancer stands on the dataplane with those ports and those backends. */
  ghost predicate Mirrors(e: Edge) {
    forall id :: id in e.mirror ==> id in e.dp.table && e.dp.table[id] == e.mirror[id]
  }

  lemma RegisterMirrors(fails: nat -> bool, e: Edge, id: string, ports: seq<LbPort>)
    requires Mirrors(e) && id !in e.mirror
    ensures var r := Register(fails, e, id, ports);
            && Mirrors(r.edge) && r.edge.seen == e.seen && r.edge.records == e.records && r.edge.dp.calls >= e.dp.calls
            && r.edge.mirror == if r.ok then e.mirror[id := Lb(ports, map[])] else e.mirror
  {
  }

  lemma AttachMirrors(fails: nat -> bool, e: Edge, id: string, bk: Backend, vni: nat)
    requires Mirrors(e) && id in e.mirror
    ensures Mirrors(AttachOne(fails, e, id, bk, vni))
  {
  }

  lemma {:induction false} ReattachMirrors(fails: nat -> bool, e: Edge, id: string, prev: map<Backend, nat>,
      order: seq<Backend>)
    requires Mirrors(e) && id in e.mirror && forall bk :: bk in order ==> bk in prev
    ensures Mirrors(Reattach(fails, e, id, prev, order))
  {
    if order != [] {
      ReattachMirrors(fails, e, id, prev, order[..|order| - 1]);
      var bk := order[|order| - 1];
      AttachMirrors(fails, Reattach(fails, e, id, prev, order[..|order| - 1]), id, bk, prev[bk]);
    }
  }

  lemma AddMirrors(fails: nat -> bool, e: Edge, rec: LbRecord, order: seq<Backend>)
    requires Mirrors(e) && RebuildOrder(e, rec, order)
    ensures Mirrors(AddBackend(fails, e, rec, order))
  {
    hide Register, Reattach, AttachOne;
    var id := rec.lbIP;
    if id !in e.mirror {
      RegisterMirrors(fails, e, id, rec.ports);
    } else if e.mirror[id].ports != rec.ports {
      var del := DeleteLb(fails, e.dp, id);
      if del.ok {
        var e1 := e.(dp := del.dp, mirror := e.mirror - {id});
        RegisterMirrors(fails, e1, id, rec.ports);
        var reg := Register(fails, e1, id, rec.ports);
        if reg.ok { ReattachMirrors(fails, reg.edge, id, e.mirror[id].backends, order); }
      }
    }
    var p := Prepare(fails, e, rec, order);
    assert Mirrors(p.edge);
    if p.ok { AttachMirrors(fails, p.edge, id, rec.backend, rec.vni); }
  }

  lemma DropMirrors(fails: nat -> bool, e: Edge, id: string, bk: Backend)
    requires Mirrors(e) && id in e.mirror
    ensures Mirrors(DropEmpty(fails, e, id)) && Mirrors(DetachOne(fails, e, id, bk).edge)
  {
  }

  lemma {:induction false} PruneBackendsMirrors(fails: nat -> bool, e: Edge, id: string, order: seq<Backend>)
    requires Mirrors(e) && id in e.mirror
    ensures Mirrors(PruneBackends(fails, e, id, order))
  {
    hide DetachOne, Mirrors;
    if order != [] {
      PruneBackendsMirrors(fails, e, id, order[..|order| - 1]);
      DropMirrors(fails, PruneBackends(fails, e, id, order[..|order| - 1]), id, order[|order| - 1]);
    }
  }

  lemma {:induction false} PruneMirrors(fails: nat -> bool, e: Edge, order: seq<string>,
      inner: map<string, seq<Backend>>)
    requires Mirrors(e)
    requires forall i, j :: 0 <= i < j < |order| ==> order[i] != order[j]
    requires forall id :: id in order ==> id in e.mirror && id in inner
    ensures Mirrors(Prune(fails, e, order, inner))
  {
    hide PruneBackends, DropEmpty, Mirrors;
    if order != [] {
      var init, id := order[..|order| - 1], order[|order| - 1];
      assert order == init + [id] && id !in init;
      PruneMirrors(fails, e, init, inner);
      PruneBackendsMirrors(fails, Prune(fails, e, init, inner), id, inner[id]);
      DropMirrors(fails, PruneBackends(fails, Prune(fails, e, init, inner), id, inner[id]), id, Backend("", ""));
    }
  }

  lemma EventMirrors(fails: nat -> bool, e: Edge, ev: Event)
    requires Mirrors(e) && Allowed(e, ev)
    ensures Mirrors(After(fails, e, ev))
  {
    hide AddBackend, Prune, DropEmpty, DetachOne;
    match ev
    case LbAdd(rec, order) => AddMirrors(fails, Noted(e, rec, true), rec, order);
    case LbWithdraw(rec) => DelMirrors(fails, Noted(e, rec, false), rec);
    case EndOfSnapshot(_, order, inner) => PruneMirrors(fails, e, order, inner);
    case _ =>
  }

  lemma DelMirrors(fails: nat -> bool, e: Edge, rec: LbRecord)
    requires Mirrors(e)
    ensures Mirrors(DelBackend(fails, e, rec))
  {
  }

  /** In every run, whatever calls fail: each recorded balancer matches the dataplane's. */
  lemma {:induction false} MirrorMatchesDataplane(fails: nat -> bool, run: seq<Edge>, events: seq<Event>, n: nat)
    requires IsRun(fails, run, events) && n <= |events|
    ensures Mirrors(run[n])
  {
    hide After;
    if n > 0 {
      MirrorMatchesDataplane(fails, run, events, n - 1);
      EventMirrors(fails, run[n - 1], events[n - 1]);
    }
  }

  // ---------------------------------------------------------------- a known snapshot

  /** The record is already in force: its balancer has these ports and this backend. */
  predicate Known(e: Edge, rec: LbRecord) {
    rec.lbIP in e.mirror && e.mirror[rec.lbIP].ports == rec.ports && rec.backend in e.mirror[rec.lbIP].backends
  }

  /** A replay: the feed's records in turn, those of balancers added with the rebuild orders they met. */
  ghost predicate IsReplay(fails: nat -> bool, run: seq<Edge>, feed: seq<Event>) {
    && |run| == |feed| + 1
    && forall i :: 0 <= i < |feed| ==>
         (feed[i].LbAdd? || feed[i].OtherRecord?) && Allowed(run[i], feed[i])
           && run[i + 1] == After(fails, run[i], feed[i])
  }

  lemma KnownIsSilent(fails: nat -> bool, e: Edge, rec: LbRecord, order: seq<Backend>)
    requires Known(e, rec) && Allowed(e, LbAdd(rec, order))
    ensures After(fails, e, LbAdd(rec, order)) == Noted(e, rec, true)
  {
  }

  /** The entries the first n records of a feed name. */
  ghost function EntriesOf(feed: seq<Event>, n: nat): set<Entry>
    requires n <= |feed|
  {
    if n == 0 then {} else EntriesOf(feed, n - 1) + if feed[n - 1].LbAdd? then {EntryOf(feed[n - 1].rec)} else {}
  }

  /** Replaying records already in force makes no dataplane call and changes no record. */
  lemma {:induction false} KnownReplayIsSilent(fails: nat -> bool, run: seq<Edge>, feed: seq<Event>, n: nat)
    requires IsReplay(fails, run, feed) && n <= |feed|
    requires forall ev :: ev in feed && ev.LbAdd? ==> Known(run[0], ev.rec)
    ensures run[n].dp == run[0].dp && run[n].mirror == run[0].mirror && run[n].records == run[0].records + n
    ensures run[n].seen == run[0].seen + EntriesOf(feed, n)
  {
    hide AddBackend, RebuildOrder;
    if n > 0 {
      KnownReplayIsSilent(fails, run, feed, n - 1);
      var ev := feed[n - 1];
      assert ev in feed && run[n - 1 + 1] == After(fails, run[n - 1], ev);
      if ev.LbAdd? {
        assert Known(run[0], ev.rec) && Known(run[n - 1], ev.rec);
        KnownIsSilent(fails, run[n - 1], ev.rec, ev.rebuild);
      }
    }
  }

  // ---------------------------------------------------------------- a session without failed calls

  /** No call from here on fails of its own accord. */
  ghost predicate Healthy(fails: nat -> bool, d: Dp) { forall n :: n >= d.calls ==> !fails(n) }

  predicate Attached(e: Edge, id: string, bk: Backend) { id in e.mirror && bk in e.mirror[id].backends }

  function VniOf(e: Edge, id: string, bk: Backend): nat
    requires Attached(e, id, bk)
  {
    e.mirror[id].backends[bk]
  }

  lemma RegisterHealthy(fails: nat -> bool, e: Edge, id: string, ports: seq<LbPort>)
    requires Mirrors(e) && id !in e.mirror && Healthy(fails, e.dp)
    ensures var r := Register(fails, e, id, ports);
            && r.ok && r.edge.mirror == e.mirror[id := Lb(ports, map[])] && r.edge.seen == e.seen
               && r.edge.records == e.records
            && Healthy(fails, r.edge.dp) && Mirrors(r.edge)
  {
  }

  lemma AttachHealthy(fails: nat -> bool, e: Edge, id: string, bk: Backend, vni: nat)
    requires Mirrors(e) && id in e.mirror && Healthy(fails, e.dp) && bk !in e.mirror[id].backends
    ensures var r := AttachOne(fails, e, id, bk, vni);
            && r.mirror == e.mirror[id := Lb(e.mirror[id].ports, e.mirror[id].backends[bk := vni])]
            && r.seen == e.seen && r.records == e.records && Healthy(fails, r.dp) && Mirrors(r)
  {
  }

  ghost function Among(prev: map<Backend, nat>, order: seq<Backend>): map<Backend, nat> {
    map bk | bk in order && bk in prev :: prev[bk]
  }

  lemma OneMoreAmong(prev: map<Backend, nat>, order: seq<Backend>)
    requires order != [] && order[|order| - 1] in prev
    ensures var bk := order[|order| - 1]; Among(prev, order) == Among(prev, order[..|order| - 1])[bk := prev[bk]]
  {
  }

  /** A re-attach brings back exactly the listed backends, under their old VNIs. */
  lemma {:induction false} ReattachHealthy(fails: nat -> bool, e: Edge, id: string, prev: map<Backend, nat>,
      order: seq<Backend>)
    requires Mirrors(e) && id in e.mirror && e.mirror[id].backends == map[] && Healthy(fails, e.dp)
    requires (forall bk :: bk in order ==> bk in prev) && forall i, j :: 0 <= i < j < |order| ==> order[i] != order[j]
    ensures var r := Reattach(fails, e, id, prev, order);
            && r.mirror == e.mirror[id := Lb(e.mirror[id].ports, Among(prev, order))]
            && r.seen == e.seen && r.records == e.records && Healthy(fails, r.dp) && Mirrors(r)
  {
    hide AttachOne, Mirrors, Healthy, Among;
    if order != [] {
      var init, bk := order[..|order| - 1], order[|order| - 1];
      assert order == init + [bk] && bk !in init;
      ReattachHealthy(fails, e, id, prev, init);
      assert bk !in Among(prev, init) by { NotAmong(prev, init, bk); }
      AttachHealthy(fails, Reattach(fails, e, id, prev, init), id, bk, prev[bk]);
      OneMoreAmong(prev, order);
    } else {
      NotAmong(prev, order, Backend("", ""));
      assert e.mirror == e.mirror[id := e.mirror[id]];
    }
  }

  lemma NotAmong(prev: map<Backend, nat>, order: seq<Backend>, bk: Backend)
    requires bk !in order
    ensures bk !in Among(prev, order) && (order == [] ==> Among(prev, order) == map[])
  {
  }

  /** Getting a record's balancer ready succeeds and loses no backend. */
  lemma PrepareHealthy(fails: nat -> bool, e: Edge, rec: LbRecord, order: seq<Backend>)
    requires Mirrors(e) && Healthy(fails, e.dp) && RebuildOrder(e, rec, order)
    ensures var p := Prepare(fails, e, rec, order);
            var had := if rec.lbIP in e.mirror then e.mirror[rec.lbIP].backends else map[];
            && p.ok && p.edge.mirror == e.mirror[rec.lbIP := Lb(rec.ports, had)] && p.edge.seen == e.seen
               && p.edge.records == e.records
            && Healthy(fails, p.edge.dp) && Mirrors(p.edge)
  {
    hide Register, Reattach;
    var id := rec.lbIP;
    if id !in e.mirror {
      RegisterHealthy(fails, e, id, rec.ports);
    } else if e.mirror[id].ports != rec.ports {
      var del := DeleteLb(fails, e.dp, id);
      var e1 := e.(dp := del.dp, mirror := e.mirror - {id});
      RegisterHealthy(fails, e1, id, rec.ports);
      var reg := Register(fails, e1, id, rec.ports);
      var had := e.mirror[id].backends;
      ReattachHealthy(fails, reg.edge, id, had, order);
      assert Among(had, order) == had;
    } else {
      assert e.mirror == e.mirror[id := e.mirror[id]];
    }
  }

  lemma AddHealthy(fails: nat -> bool, e: Edge, rec: LbRecord, order: seq<Backend>)
    requires Mirrors(e) && Healthy(fails, e.dp) && RebuildOrder(e, rec, order)
    ensures var r := AddBackend(fails, e, rec, order);
            && Known(r, rec) && r.seen == e.seen && r.records == e.records && Healthy(fails, r.dp) && Mirrors(r)
            && (forall id, bk :: Attached(r, id, bk) <==> Attached(e, id, bk) || Entry(id, bk) == EntryOf(rec))
            && (forall id :: id in e.mirror && id != rec.lbIP ==> id in r.mirror && r.mirror[id] == e.mirror[id])
            && (forall id, bk :: Attached(r, id, bk) ==>
               VniOf(r, id, bk) == if Attached(e, id, bk) then VniOf(e, id, bk) else rec.vni)
  {
    hide Prepare, AttachOne, Mirrors, Healthy;
    PrepareHealthy(fails, e, rec, order);
    var p := Prepare(fails, e, rec, order);
    if rec.backend !in p.edge.mirror[rec.lbIP].backends {
      AttachHealthy(fails, p.edge, rec.lbIP, rec.backend, rec.vni);
    }
  }

  lemma DetachHealthy(fails: nat -> bool, e: Edge, id: string, bk: Backend)
    requires Mirrors(e) && Healthy(fails, e.dp) && Attached(e, id, bk)
    ensures var d := DetachOne(fails, e, id, bk);
            && d.ok && d.edge.mirror == e.mirror[id := Lb(e.mirror[id].ports, e.mirror[id].backends - {bk})]
            && d.edge.seen == e.seen && d.edge.records == e.records && Healthy(fails, d.edge.dp) && Mirrors(d.edge)
  {
  }

  lemma DropHealthy(fails: nat -> bool, e: Edge, id: string)
    requires Mirrors(e) && Healthy(fails, e.dp) && id in e.mirror
    ensures var r := DropEmpty(fails, e, id);
            && r.mirror == (if e.mirror[id].backends == map[] then e.mirror - {id} else e.mirror)
            && r.seen == e.seen && r.records == e.records && Healthy(fails, r.dp) && Mirrors(r)
  {
  }

  lemma LastOne(m: map<Backend, nat>, bk: Backend)
    ensures m - {bk} == map[] ==> forall b :: b in m ==> b == bk
  {
    assert forall b :: b in m && b != bk ==> b in m - {bk};
  }

  lemma DelHealthy(fails: nat -> bool, e: Edge, rec: LbRecord)
    requires Mirrors(e) && Healthy(fails, e.dp)
    ensures var r := DelBackend(fails, e, rec);
            && r.seen == e.seen && r.records == e.records && Healthy(fails, r.dp) && Mirrors(r)
            && (forall id, bk :: Attached(r, id, bk) <==> Attached(e, id, bk) && Entry(id, bk) != EntryOf(rec))
  {
    hide DetachOne, DropEmpty, Mirrors, Healthy;
    var id := rec.lbIP;
    if id in e.mirror {
      if rec.backend in e.mirror[id].backends {
        DetachHealthy(fails, e, id, rec.backend);
        LastOne(e.mirror[id].backends, rec.backend);
        DropHealthy(fails, DetachOne(fails, e, id, rec.backend).edge, id);
      } else {
        DropHealthy(fails, e, id);
      }
    }
  }

  /** What a prune leaves of one balancer's backends. */
  function Replayed(e: Edge, id: string): map<Backend, nat>
    requires id in e.mirror
  {
    map bk | bk in e.mirror[id].backends && Entry(id, bk) in e.seen :: e.mirror[id].backends[bk]
  }

  lemma {:induction false} PruneBackendsHealthy(fails: nat -> bool, e: Edge, id: string, order: seq<Backend>)
    requires Mirrors(e) && Healthy(fails, e.dp) && id in e.mirror
    requires (forall bk :: bk in order ==> bk in e.mirror[id].backends)
             && forall i, j :: 0 <= i < j < |order| ==> order[i] != order[j]
    ensures var r := PruneBackends(fails, e, id, order);
            && (forall bk :: bk in r.mirror[id].backends <==>
               bk in e.mirror[id].backends && (bk in order ==> Entry(id, bk) in e.seen))
            && (forall bk :: bk in r.mirror[id].backends ==> r.mirror[id].backends[bk] == e.mirror[id].backends[bk])
            && r.mirror[id].ports == e.mirror[id].ports && Healthy(fails, r.dp) && Mirrors(r)
  {
    hide DetachOne, Mirrors, Healthy, Elsewhere;
    if order != [] {
      var init, bk := order[..|order| - 1], order[|order| - 1];
      assert order == init + [bk] && bk !in init;
      PruneBackendsHealthy(fails, e, id, init);
      if Entry(id, bk) !in e.seen {
        DetachHealthy(fails, PruneBackends(fails, e, id, init), id, bk);
      }
    }
  }

  lemma PruneOneHealthy(fails: nat -> bool, e: Edge, id: string, order: seq<Backend>)
    requires Mirrors(e) && Healthy(fails, e.dp) && id in e.mirror && Enumerates(order, e.mirror[id].backends.Keys)
    ensures var r := PruneOne(fails, e, id, order);
            && (if Replayed(e, id) == map[] then id !in r.mirror
                else id in r.mirror && r.mirror[id] == Lb(e.mirror[id].ports, Replayed(e, id)))
            && Healthy(fails, r.dp) && Mirrors(r)
  {
    hide PruneBackends, DropEmpty, Mirrors, Healthy, Elsewhere;
    PruneBackendsHealthy(fails, e, id, order);
    var p := PruneBackends(fails, e, id, order);
    assert p.mirror[id].backends == Replayed(e, id);
    DropHealthy(fails, p, id);
  }

  lemma {:induction false} PruneHealthy(fails: nat -> bool, e: Edge, order: seq<string>,
      inner: map<string, seq<Backend>>)
    requires Mirrors(e) && Healthy(fails, e.dp)
    requires forall i, j :: 0 <= i < j < |order| ==> order[i] != order[j]
    requires forall id :: id in order ==>
             id in e.mirror && id in inner && Enumerates(inner[id], e.mirror[id].backends.Keys)
    ensures var r := Prune(fails, e, order, inner);
            && Healthy(fails, r.dp) && Mirrors(r)
            && forall id :: id in order ==>
                 if Replayed(e, id) == map[] then id !in r.mirror
                 else id in r.mirror && r.mirror[id] == Lb(e.mirror[id].ports, Replayed(e, id))
  {
    hide PruneOne, Mirrors, Healthy;
    if order != [] {
      var init, id := order[..|order| - 1], order[|order| - 1];
      assert order == init + [id] && id !in init;
      PruneHealthy(fails, e, init, inner);
      var prev := Prune(fails, e, init, inner);
      PruneOneHealthy(fails, prev, id, inner[id]);
      var r := PruneOne(fails, prev, id, inner[id]);
      ElsewhereAt(prev, r, id);
      assert Replayed(prev, id) == Replayed(e, id);
    }
  }

  /** No recorded balancer is without backends. */
  ghost predicate NoneEmpty(e: Edge) { forall id :: id in e.mirror ==> e.mirror[id].backends != map[] }

  /** A prune whose calls succeed keeps exactly the attached backends this session has seen. */
  lemma PruneKeepsSeen(fails: nat -> bool, e: Edge, order: seq<string>, inner: map<string, seq<Backend>>)
    requires Mirrors(e) && Healthy(fails, e.dp) && PruneOrder(e, order, inner)
    ensures var r := Prune(fails, e, order, inner);
            && Mirrors(r) && NoneEmpty(r)
            && (forall id, bk :: Attached(r, id, bk) <==> Attached(e, id, bk) && Entry(id, bk) in e.seen)
            && (forall id :: id in r.mirror ==> id in e.mirror && r.mirror[id].ports == e.mirror[id].ports)
            && (forall id, bk :: Attached(r, id, bk) ==> VniOf(r, id, bk) == VniOf(e, id, bk))
  {
    hide Prune, Mirrors, Healthy;
    PruneHealthy(fails, e, order, inner);
    var r := Prune(fails, e, order, inner);
    forall id, bk ensures Attached(r, id, bk) <==> Attached(e, id, bk) && Entry(id, bk) in e.seen {
      assert id in order <==> id in e.mirror.Keys;
      if id in e.mirror && Attached(e, id, bk) && Entry(id, bk) in e.seen { assert bk in Replayed(e, id); }
    }
    forall id | id in r.mirror
      ensures r.mirror[id].backends != map[] && id in e.mirror && r.mirror[id].ports == e.mirror[id].ports
    {
      assert id in order <==> id in e.mirror.Keys;
    }
  }

  /** Everything this session has seen is attached. */
  ghost predicate SeenAttached(e: Edge) { forall en: Entry :: en in e.seen ==> Attached(e, en.lbIP, en.backend) }

  /** Records of the feed, added or withdrawn in a session, keep it so. */
  lemma RecordHealthy(fails: nat -> bool, e: Edge, ev: Event)
    requires Mirrors(e) && Healthy(fails, e.dp) && SeenAttached(e) && Allowed(e, ev)
             && (ev.LbAdd? || ev.LbWithdraw? || ev.OtherRecord?)
    ensures var r := After(fails, e, ev);
            && Mirrors(r) && Healthy(fails, r.dp) && SeenAttached(r) && r.records == e.records + 1
            && r.seen == match ev
                         case LbAdd(rec, _) => e.seen + {EntryOf(rec)}
                         case LbWithdraw(rec) => e.seen - {EntryOf(rec)}
                         case _ => e.seen
  {
    hide AddBackend, DelBackend;
    match ev
    case LbAdd(rec, order) => AddHealthy(fails, Noted(e, rec, true), rec, order);
    case LbWithdraw(rec) => DelHealthy(fails, Noted(e, rec, false), rec);
    case OtherRecord =>
  }

  // ---------------------------------------------------------------- what a snapshot leaves

  /** The feed names this backend of this balancer. */
  ghost predicate Carried(feed: seq<Event>, en: Entry) { exists ev :: ev in feed && ev.LbAdd? && EntryOf(ev.rec) == en }

  /** The ports the feed's last record of a balancer gives it. */
  function PortsTold(feed: seq<Event>, id: string): Option<seq<LbPort>> {
    if feed == [] then None
    else
      var ev := feed[|feed| - 1];
      if ev.LbAdd? && ev.rec.lbIP == id then Some(ev.rec.ports) else PortsTold(feed[..|feed| - 1], id)
  }

  /** The VNI the feed's first record of a backend gives it. */
  function VniTold(feed: seq<Event>, en: Entry): Option<nat> {
    if feed == [] then None
    else
      var before, ev := VniTold(feed[..|feed| - 1], en), feed[|feed| - 1];
      if before.None? && ev.LbAdd? && EntryOf(ev.rec) == en then Some(ev.rec.vni) else before
  }

  /** What e was, with the feed's records on top: attached backends, the balancers' ports, the backends' VNIs. */
  ghost predicate Overlaid(e: Edge, feed: seq<Event>, r: Edge) {
    && (forall id, bk :: Attached(r, id, bk) <==> Attached(e, id, bk) || VniTold(feed, Entry(id, bk)).Some?)
    && (forall id, bk :: Attached(r, id, bk) ==>
          VniOf(r, id, bk) == if Attached(e, id, bk) then VniOf(e, id, bk) else VniTold(feed, Entry(id, bk)).value)
    && (forall id :: id in r.mirror <==> id in e.mirror || PortsTold(feed, id).Some?)
    && (forall id :: id in r.mirror ==>
       r.mirror[id].ports == if PortsTold(feed, id).Some? then PortsTold(feed, id).value else e.mirror[id].ports)
    && (forall en :: en in r.seen <==> VniTold(feed, en).Some?)
    && r.records == |feed|
  }

  lemma OverlaidOneMore(e: Edge, feed: seq<Event>, r: Edge, r': Edge, rec: LbRecord, order: seq<Backend>)
    requires Overlaid(e, feed, r) && Known(r', rec) && r'.records == r.records + 1 && r'.seen == r.seen + {EntryOf(rec)}
    requires forall id, bk :: Attached(r', id, bk) <==> Attached(r, id, bk) || Entry(id, bk) == EntryOf(rec)
    requires forall id, bk :: Attached(r', id, bk) ==>
             VniOf(r', id, bk) == if Attached(r, id, bk) then VniOf(r, id, bk) else rec.vni
    requires r'.mirror.Keys == r.mirror.Keys + {rec.lbIP}
             && forall id :: id in r.mirror && id != rec.lbIP ==> r'.mirror[id] == r.mirror[id]
    ensures Overlaid(e, feed + [LbAdd(rec, order)], r')
  {
    hide Attached, VniOf;
    var more := feed + [LbAdd(rec, order)];
    assert more[..|feed|] == feed;
    assert forall id :: PortsTold(more, id) == if id == rec.lbIP then Some(rec.ports) else PortsTold(feed, id);
    assert forall en ::
        VniTold(more, en) == if VniTold(feed, en).None? && en == EntryOf(rec) then Some(rec.vni) else VniTold(feed, en);
    hide PortsTold, VniTold;
  }

  lemma {:induction false} ReplayOverlays(fails: nat -> bool, run: seq<Edge>, feed: seq<Event>, n: nat)
    requires IsReplay(fails, run, feed) && n <= |feed|
    requires Mirrors(run[0]) && run[0].seen == {} && run[0].records == 0 && Healthy(fails, run[0].dp)
    ensures Mirrors(run[n]) && Healthy(fails, run[n].dp) && Overlaid(run[0], feed[..n], run[n])
  {
    if n > 0 {
      ReplayOverlays(fails, run, feed, n - 1);
      var e, r, ev := run[n - 1], run[n], feed[n - 1];
      assert r == After(fails, e, ev) by { assert run[n - 1 + 1] == r; }
      assert feed[..n] == feed[..n - 1] + [ev];
      hide Overlaid, Mirrors, Healthy, AddBackend, IsReplay;
      if ev.LbAdd? {
        AddOverlays(fails, run[0], feed[..n - 1], e, ev.rec, ev.rebuild);
      } else {
        OtherOverlays(run[0], feed[..n - 1], e);
      }
    }
  }

  lemma AddOverlays(fails: nat -> bool, e0: Edge, feed: seq<Event>, e: Edge, rec: LbRecord, order: seq<Backend>)
    requires Mirrors(e) && Healthy(fails, e.dp) && RebuildOrder(e, rec, order) && Overlaid(e0, feed, e)
    ensures var r := After(fails, e, LbAdd(rec, order));
            Mirrors(r) && Healthy(fails, r.dp) && Overlaid(e0, feed + [LbAdd(rec, order)], r)
  {
    hide Mirrors, Healthy, AddBackend, Overlaid;
    var e1 := Noted(e, rec, true);
    assert Mirrors(e1) by { MirrorsFrame(e, e1); }
    AddHealthy(fails, e1, rec, order);
    var r := AddBackend(fails, e1, rec, order);
    assert r.mirror.Keys == e.mirror.Keys + {rec.lbIP} by { AddKeys(fails, e1, rec, order); }
    assert forall id, bk :: Attached(e1, id, bk) <==> Attached(e, id, bk);
    OverlaidOneMore(e0, feed, e, r, rec, order);
  }

  lemma AddKeys(fails: nat -> bool, e: Edge, rec: LbRecord, order: seq<Backend>)
    requires Mirrors(e) && Healthy(fails, e.dp) && RebuildOrder(e, rec, order)
    ensures AddBackend(fails, e, rec, order).mirror.Keys == e.mirror.Keys + {rec.lbIP}
  {
    hide Prepare, Mirrors, Healthy;
    PrepareHealthy(fails, e, rec, order);
  }

  lemma OtherOverlays(e0: Edge, feed: seq<Event>, e: Edge)
    requires Mirrors(e) && Overlaid(e0, feed, e)
    ensures var r := e.(records := e.records + 1); Mirrors(r) && Overlaid(e0, feed + [OtherRecord], r)
  {
    var r, more := e.(records := e.records + 1), feed + [OtherRecord];
    assert more[..|feed|] == feed;
    assert forall id :: PortsTold(more, id) == PortsTold(feed, id);
    assert forall en :: VniTold(more, en) == VniTold(feed, en);
    assert forall id, bk :: Attached(r, id, bk) <==> Attached(e, id, bk);
    hide PortsTold, VniTold;
  }

  lemma {:induction false} CarriedIsTold(feed: seq<Event>, en: Entry)
    ensures Carried(feed, en) <==> VniTold(feed, en).Some?
  {
    if feed != [] {
      var init, ev := feed[..|feed| - 1], feed[|feed| - 1];
      assert feed == init + [ev];
      CarriedIsTold(init, en);
    }
  }

  /** From any stale mirror and any stale dataplane: a replay and its marker, their calls succeeding. When the
      marker's count is right, exactly the replayed backends are attached, on both sides, and no balancer is empty;
      else nothing is lost either. A replayed balancer has the ports of its last record; a backend that was attached
      before keeps its old VNI, a new one takes that of its first record. */
  lemma SnapshotConverges(fails: nat -> bool, run: seq<Edge>, feed: seq<Event>, want: nat, order: seq<string>,
      inner: map<string, seq<Backend>>)
    requires IsReplay(fails, run, feed) && Mirrors(run[0]) && run[0].seen == {} && run[0].records == 0
             && Healthy(fails, run[0].dp)
    requires PruneOrder(run[|feed|], order, inner)
    ensures var e, r := run[0], After(fails, run[|feed|], EndOfSnapshot(want, order, inner));
            && Mirrors(r) && (want == |feed| ==> NoneEmpty(r))
            && (forall id, bk :: Attached(r, id, bk) <==>
               Carried(feed, Entry(id, bk)) || (want != |feed| && Attached(e, id, bk)))
            && (forall id :: id in r.mirror && PortsTold(feed, id).Some? ==>
               r.mirror[id].ports == PortsTold(feed, id).value)
            && (forall id, bk :: Attached(r, id, bk) ==>
                  VniTold(feed, Entry(id, bk)).Some? || Attached(e, id, bk))
            && (forall id, bk :: Attached(r, id, bk) ==>
                  VniOf(r, id, bk) ==
                    if Attached(e, id, bk) then VniOf(e, id, bk) else VniTold(feed, Entry(id, bk)).value)
  {
    assert |run| == |feed| + 1;
    hide Prune, Mirrors, Healthy, IsReplay, NoneEmpty;
    ReplayOverlays(fails, run, feed, |feed|);
    assert feed[..|feed|] == feed;
    forall en ensures Carried(feed, en) <==> VniTold(feed, en).Some? { CarriedIsTold(feed, en); }
    PruneKeepsSeen(fails, run[|feed|], order, inner);
    hide PortsTold, VniTold, Carried;
  }

  /** The ports a snapshot leaves are those of every record exactly when the records of a balancer agree on them. */
  lemma {:induction false} PortsToldAgree(feed: seq<Event>)
    ensures (forall ev :: ev in feed && ev.LbAdd? ==> PortsTold(feed, ev.rec.lbIP) == Some(ev.rec.ports)) <==>
            forall a, b :: a in feed && b in feed && a.LbAdd? && b.LbAdd? && a.rec.lbIP == b.rec.lbIP ==>
              a.rec.ports == b.rec.ports
  {
    forall ev | ev in feed && ev.LbAdd? ensures PortsToldBy(feed, ev.rec.lbIP) { PortsComeFrom(feed, ev.rec.lbIP); }
  }

  ghost predicate PortsToldBy(feed: seq<Event>, id: string) {
    exists b :: b in feed && b.LbAdd? && b.rec.lbIP == id && PortsTold(feed, id) == Some(b.rec.ports)
  }

  lemma {:induction false} PortsComeFrom(feed: seq<Event>, id: string)
    requires exists ev :: ev in feed && ev.LbAdd? && ev.rec.lbIP == id
    ensures PortsToldBy(feed, id)
  {
    var init, last := feed[..|feed| - 1], feed[|feed| - 1];
    assert feed == init + [last] && last in feed;
    if !(last.LbAdd? && last.rec.lbIP == id) { PortsComeFrom(init, id); }
  }

  lemma {:induction false} VniComesFrom(feed: seq<Event>, en: Entry)
    requires Carried(feed, en)
    ensures exists b :: b in feed && b.LbAdd? && EntryOf(b.rec) == en && VniTold(feed, en) == Some(b.rec.vni)
  {
    var init, last := feed[..|feed| - 1], feed[|feed| - 1];
    assert feed == init + [last] && last in feed;
    CarriedIsTold(init, en);
    if Carried(init, en) { VniComesFrom(init, en); }
  }

  /** The mirror has the VNI of each of the feed's records; those of them it knows; the records agree. */
  ghost predicate VnisRight(feed: seq<Event>, r: Edge) {
    forall ev :: ev in feed && ev.LbAdd? ==>
      Attached(r, ev.rec.lbIP, ev.rec.backend) && VniOf(r, ev.rec.lbIP, ev.rec.backend) == ev.rec.vni
  }

  ghost predicate KnownVnisRight(feed: seq<Event>, e: Edge) {
    forall ev :: ev in feed && ev.LbAdd? && Attached(e, ev.rec.lbIP, ev.rec.backend) ==>
      VniOf(e, ev.rec.lbIP, ev.rec.backend) == ev.rec.vni
  }

  ghost predicate VnisAgree(feed: seq<Event>) {
    forall a, b :: a in feed && b in feed && a.LbAdd? && b.LbAdd? && EntryOf(a.rec) == EntryOf(b.rec) ==>
      a.rec.vni == b.rec.vni
  }

  /** What a snapshot leaves of one record. */
  ghost predicate Settled(feed: seq<Event>, e: Edge, r: Edge, rec: LbRecord) {
    && Attached(r, rec.lbIP, rec.backend) && VniTold(feed, EntryOf(rec)).Some?
    && VniOf(r, rec.lbIP, rec.backend) ==
       if Attached(e, rec.lbIP, rec.backend) then VniOf(e, rec.lbIP, rec.backend) else VniTold(feed, EntryOf(rec)).value
  }

  lemma RightIsAgreed(feed: seq<Event>, e: Edge, r: Edge)
    requires forall ev :: ev in feed && ev.LbAdd? ==> Settled(feed, e, r, ev.rec)
    ensures VnisRight(feed, r) <==> KnownVnisRight(feed, e) && VnisAgree(feed)
  {
    hide VniTold, Attached, VniOf;
    if VnisRight(feed, r) {
      assert forall ev :: ev in feed && ev.LbAdd? ==> Settled(feed, e, r, ev.rec);
    }
    if KnownVnisRight(feed, e) && VnisAgree(feed) {
      forall ev | ev in feed && ev.LbAdd? ensures VniOf(r, ev.rec.lbIP, ev.rec.backend) == ev.rec.vni {
        assert Settled(feed, e, r, ev.rec);
        assert Carried(feed, EntryOf(ev.rec));
        VniComesFrom(feed, EntryOf(ev.rec));
      }
    }
  }

  /** After a snapshot every replayed backend has the VNI its records name exactly when those records agree and the
      mirror held no other VNI for it before: a known backend that is announced anew with another VNI is left alone. */
  lemma VnisAgreeExactly(fails: nat -> bool, run: seq<Edge>, feed: seq<Event>, want: nat, order: seq<string>,
      inner: map<string, seq<Backend>>)
    requires IsReplay(fails, run, feed) && Mirrors(run[0]) && run[0].seen == {} && run[0].records == 0
             && Healthy(fails, run[0].dp)
    requires PruneOrder(run[|feed|], order, inner)
    ensures VnisRight(feed, After(fails, run[|feed|], EndOfSnapshot(want, order, inner))) <==>
            KnownVnisRight(feed, run[0]) && VnisAgree(feed)
  {
    SnapshotConverges(fails, run, feed, want, order, inner);
    assert |run| == |feed| + 1;
    hide After, Mirrors, Healthy, IsReplay, NoneEmpty, VniTold, PortsTold, VnisRight, KnownVnisRight, VnisAgree,
         PruneOrder;
    var r := After(fails, run[|feed|], EndOfSnapshot(want, order, inner));
    forall ev | ev in feed && ev.LbAdd? ensures Settled(feed, run[0], r, ev.rec) {
      assert Carried(feed, EntryOf(ev.rec));
      CarriedIsTold(feed, EntryOf(ev.rec));
      assert Entry(ev.rec.lbIP, ev.rec.backend) == EntryOf(ev.rec);
      assert Attached(r, ev.rec.lbIP, ev.rec.backend);
    }
    RightIsAgreed(feed, run[0], r);
  }

  /** The failing run: a fresh agent, a backend, a new session, and the backend's record with another VNI. Every call
      succeeds and the old VNI stays. */
  lemma KnownBackendKeepsItsVni(id: string, bk: Backend, ports: seq<LbPort>) returns (run: seq<Edge>)
    ensures var was, now := LbRecord(id, bk, 1, ports), LbRecord(id, bk, 2, ports);
            IsRun(n => false, run, [LbAdd(was, []), NewSession, LbAdd(now, [])])
    ensures Attached(run[3], id, bk) && VniOf(run[3], id, bk) == 1
  {
    var fails := (n: nat) => false;
    var was, now := LbRecord(id, bk, 1, ports), LbRecord(id, bk, 2, ports);
    var e0 := Edge(map[], {}, 0, Dp(map[], 0));
    var e1 := After(fails, e0, LbAdd(was, []));
    assert e1.mirror == map[id := Lb(ports, map[bk := 1])];
    var e2 := After(fails, e1, NewSession);
    KnownIsSilent(fails, e2, now, []);
    run := [e0, e1, e2, After(fails, e2, LbAdd(now, []))];
  }

  /** Once a snapshot whose records agree on each balancer's ports has been applied, replaying it makes
      no call at all. */
  lemma ReplayIsIdempotent(fails: nat -> bool, run: seq<Edge>, feed: seq<Event>, again: seq<Edge>, feed': seq<Event>)
    requires IsReplay(fails, run, feed) && Mirrors(run[0]) && run[0].seen == {} && run[0].records == 0
             && Healthy(fails, run[0].dp)
    requires forall a, b :: a in feed && b in feed && a.LbAdd? && b.LbAdd? && a.rec.lbIP == b.rec.lbIP ==>
             a.rec.ports == b.rec.ports
    requires IsReplay(fails, again, feed') && again[0] == run[|feed|].(seen := {}, records := 0)
    requires forall ev :: ev in feed' && ev.LbAdd? ==> exists was :: was in feed && was.LbAdd? && was.rec == ev.rec
    ensures again[|feed'|].dp == run[|feed|].dp && again[|feed'|].mirror == run[|feed|].mirror
  {
    hide After, Mirrors, Healthy, Overlaid;
    ReplayOverlays(fails, run, feed, |feed|);
    assert feed[..|feed|] == feed;
    PortsToldAgree(feed);
    forall ev | ev in feed' && ev.LbAdd? ensures Known(again[0], ev.rec) {
      var was :| was in feed && was.LbAdd? && was.rec == ev.rec;
      OverlaidKnown(run[0], feed, run[|feed|], was);
    }
    KnownReplayIsSilent(fails, again, feed', |feed'|);
  }

  lemma OverlaidKnown(e: Edge, feed: seq<Event>, r: Edge, ev: Event)
    requires Overlaid(e, feed, r) && ev in feed && ev.LbAdd? && PortsTold(feed, ev.rec.lbIP) == Some(ev.rec.ports)
    ensures Known(r, ev.rec)
  {
    assert Carried(feed, EntryOf(ev.rec));
    CarriedIsTold(feed, EntryOf(ev.rec));
    assert Attached(r, ev.rec.lbIP, ev.rec.backend);
  }

  lemma MirrorsFrame(e: Edge, r: Edge)
    requires Mirrors(e) && r.mirror == e.mirror && r.dp == e.dp
    ensures Mirrors(r)
  {
  }
}
