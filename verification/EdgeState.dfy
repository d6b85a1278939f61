/** The edge's mirror of the load balancers it registered, beside a dataplane whose load-balancer calls
    are not idempotent: creating a known balancer, or attaching a backend twice, is an error. A call
    that fails changes nothing; which calls fail besides is `fails`, by call number. */
module EdgeState {
  import opened Order
  import opened RouteBus

  datatype Backend = Backend(owner: string, overlay: string)

  datatype Lb = Lb(ports: seq<LbPort>, backends: map<Backend, nat>)

  datatype Entry = Entry(lbIP: string, backend: Backend)

  /** An LB_IP record, its prefix already stripped to the address. */
  datatype LbRecord = LbRecord(lbIP: string, backend: Backend, vni: nat, ports: seq<LbPort>)

  function EntryOf(rec: LbRecord): Entry { Entry(rec.lbIP, rec.backend) }

  // ---------------------------------------------------------------- the dataplane

  datatype Dp = Dp(table: map<string, Lb>, calls: nat)

  datatype Answer = Answer(dp: Dp, ok: bool)

  function Refused(d: Dp): Answer { Answer(d.(calls := d.calls + 1), false) }

  function Did(d: Dp, table: map<string, Lb>): Answer { Answer(Dp(table, d.calls + 1), true) }

  function CreateLb(fails: nat -> bool, d: Dp, id: string, ports: seq<LbPort>): Answer {
    if fails(d.calls) || id in d.table then Refused(d) else Did(d, d.table[id := Lb(ports, map[])])
  }

  /** Deleting a balancer the dataplane does not know is no error. */
  function DeleteLb(fails: nat -> bool, d: Dp, id: string): Answer {
    if fails(d.calls) then Refused(d) else Did(d, d.table - {id})
  }

  function Attach(fails: nat -> bool, d: Dp, id: string, bk: Backend, vni: nat): Answer {
    if fails(d.calls) || id !in d.table || bk in d.table[id].backends then Refused(d)
    else Did(d, d.table[id := Lb(d.table[id].ports, d.table[id].backends[bk := vni])])
  }

  function Detach(fails: nat -> bool, d: Dp, id: string, bk: Backend): Answer {
    if fails(d.calls) || id !in d.table || bk !in d.table[id].backends then Refused(d)
    else Did(d, d.table[id := Lb(d.table[id].ports, d.table[id].backends - {bk})])
  }

  // ---------------------------------------------------------------- the agent's steps

  /** The mirror, the entries and the number of global records this session has received, and the dataplane. */
  datatype Edge = Edge(mirror: map<string, Lb>, seen: set<Entry>, records: nat, dp: Dp)

  function Recorded(e: Edge, id: string, bk: Backend, vni: nat): Edge
    requires id in e.mirror
  {
    e.(mirror := e.mirror[id := Lb(e.mirror[id].ports, e.mirror[id].backends[bk := vni])])
  }

  function Forgotten(e: Edge, id: string, bk: Backend): Edge
    requires id in e.mirror
  {
    e.(mirror := e.mirror[id := Lb(e.mirror[id].ports, e.mirror[id].backends - {bk})])
  }

  datatype Registration = Registration(edge: Edge, ok: bool)

  /** Creates and records a balancer, re-creating it when the first attempt is refused. */
  function Register(fails: nat -> bool, e: Edge, id: string, ports: seq<LbPort>): Registration {
    var first := CreateLb(fails, e.dp, id, ports);
    if first.ok then Registration(e.(dp := first.dp, mirror := e.mirror[id := Lb(ports, map[])]), true)
    else
      var del := DeleteLb(fails, first.dp, id);
      if !del.ok then Registration(e.(dp := del.dp), false)
      else
        var second := CreateLb(fails, del.dp, id, ports);
        if second.ok then Registration(e.(dp := second.dp, mirror := e.mirror[id := Lb(ports, map[])]), true)
        else Registration(e.(dp := second.dp), false)
  }

  /** Attaches and, when the call succeeds, records. */
  function AttachOne(fails: nat -> bool, e: Edge, id: string, bk: Backend, vni: nat): Edge
    requires id in e.mirror
  {
    var a := Attach(fails, e.dp, id, bk, vni);
    if a.ok then Recorded(e.(dp := a.dp), id, bk, vni) else e.(dp := a.dp)
  }

  /** Re-attaches the backends a rebuild took down, in some order. */
  function Reattach(fails: nat -> bool, e: Edge, id: string, prev: map<Backend, nat>, order: seq<Backend>): (r: Edge)
    requires id in e.mirror && forall bk :: bk in order ==> bk in prev
    ensures r.mirror.Keys == e.mirror.Keys && r.seen == e.seen && r.records == e.records
  {
    if order == [] then e
    else
      var bk := order[|order| - 1];
      AttachOne(fails, Reattach(fails, e, id, prev, order[..|order| - 1]), id, bk, prev[bk])
  }

  /** The balancer's ports changed: tear it down, register it anew and re-attach what it had. */
  function Rebuild(fails: nat -> bool, e: Edge, id: string, ports: seq<LbPort>, order: seq<Backend>): Registration
    requires id in e.mirror && forall bk :: bk in order ==> bk in e.mirror[id].backends
  {
    var del := DeleteLb(fails, e.dp, id);
    if !del.ok then Registration(e.(dp := del.dp), false)
    else
      var reg := Register(fails, e.(dp := del.dp, mirror := e.mirror - {id}), id, ports);
      if !reg.ok then reg
      else Registration(Reattach(fails, reg.edge, id, e.mirror[id].backends, order), true)
  }

  /** The balancer of a record made ready for its backend; not ok when that failed. */
  function Prepare(fails: nat -> bool, e: Edge, rec: LbRecord, order: seq<Backend>): (r: Registration)
    requires RebuildOrder(e, rec, order)
    ensures r.ok ==> rec.lbIP in r.edge.mirror
  {
    if rec.lbIP !in e.mirror then Register(fails, e, rec.lbIP, rec.ports)
    else if e.mirror[rec.lbIP].ports != rec.ports then Rebuild(fails, e, rec.lbIP, rec.ports, order)
    else Registration(e, true)
  }

  /** When a record forces a rebuild, `order` lists the backends to re-attach. */
  ghost predicate Rebuilds(e: Edge, rec: LbRecord) { rec.lbIP in e.mirror && e.mirror[rec.lbIP].ports != rec.ports }

  ghost predicate RebuildOrder(e: Edge, rec: LbRecord, order: seq<Backend>) {
    Rebuilds(e, rec) ==> Enumerates(order, e.mirror[rec.lbIP].backends.Keys)
  }

  ghost function AddBackend(fails: nat -> bool, e: Edge, rec: LbRecord, order: seq<Backend>): Edge
    requires RebuildOrder(e, rec, order)
  {
    var p := Prepare(fails, e, rec, order);
    if !p.ok || rec.backend in p.edge.mirror[rec.lbIP].backends then p.edge
    else AttachOne(fails, p.edge, rec.lbIP, rec.backend, rec.vni)
  }

  /** Deletes a balancer left without backends. */
  function DropEmpty(fails: nat -> bool, e: Edge, id: string): Edge
    requires id in e.mirror
  {
    if e.mirror[id].backends != map[] then e
    else
      var a := DeleteLb(fails, e.dp, id);
      if a.ok then e.(dp := a.dp, mirror := e.mirror - {id}) else e.(dp := a.dp)
  }

  function DetachOne(fails: nat -> bool, e: Edge, id: string, bk: Backend): Registration
    requires id in e.mirror
  {
    var a := Detach(fails, e.dp, id, bk);
    if a.ok then Registration(Forgotten(e.(dp := a.dp), id, bk), true) else Registration(e.(dp := a.dp), false)
  }

  function DelBackend(fails: nat -> bool, e: Edge, rec: LbRecord): Edge {
    if rec.lbIP !in e.mirror then e
    else if rec.backend in e.mirror[rec.lbIP].backends then
      var d := DetachOne(fails, e, rec.lbIP, rec.backend);
      if d.ok then DropEmpty(fails, d.edge, rec.lbIP) else d.edge
    else DropEmpty(fails, e, rec.lbIP)
  }

  /** Only the record of balancer `id` differs. */
  predicate Elsewhere(e: Edge, r: Edge, id: string) { r.mirror - {id} == e.mirror - {id} }

  /** One balancer of a prune: every backend the snapshot did not carry is detached. */
  function PruneBackends(fails: nat -> bool, e: Edge, id: string, order: seq<Backend>): (r: Edge)
    requires id in e.mirror
    ensures r.seen == e.seen && r.records == e.records && Elsewhere(e, r, id) && id in r.mirror
  {
    if order == [] then e
    else
      var prev := PruneBackends(fails, e, id, order[..|order| - 1]);
      var bk := order[|order| - 1];
      if Entry(id, bk) in e.seen then prev else DetachOne(fails, prev, id, bk).edge
  }

  /** The order a prune met each balancer's backends in. */
  ghost predicate PruneOrder(e: Edge, order: seq<string>, inner: map<string, seq<Backend>>) {
    && Enumerates(order, e.mirror.Keys)
    && forall id :: id in e.mirror ==> id in inner && Enumerates(inner[id], e.mirror[id].backends.Keys)
  }

  function PruneOne(fails: nat -> bool, e: Edge, id: string, order: seq<Backend>): (r: Edge)
    requires id in e.mirror
    ensures r.seen == e.seen && r.records == e.records && Elsewhere(e, r, id)
  {
    DropEmpty(fails, PruneBackends(fails, e, id, order), id)
  }

  lemma ElsewhereAt(e: Edge, r: Edge, id: string)
    requires Elsewhere(e, r, id)
    ensures forall j :: j != id ==> (j in r.mirror <==> j in e.mirror) && (j in e.mirror ==> r.mirror[j] == e.mirror[j])
  {
    forall j | j != id ensures (j in r.mirror <==> j in e.mirror) && (j in e.mirror ==> r.mirror[j] == e.mirror[j]) {
      assert j in r.mirror - {id} <==> j in e.mirror - {id};
      assert j in e.mirror ==> (r.mirror - {id})[j] == (e.mirror - {id})[j];
    }
  }

  /** The balancers not in `order` are as they were. */
  ghost predicate Untouched(e: Edge, r: Edge, order: seq<string>) {
    forall j :: j !in order ==> (j in r.mirror <==> j in e.mirror) && (j in e.mirror ==> r.mirror[j] == e.mirror[j])
  }

  lemma UntouchedNone(e: Edge)
    ensures Untouched(e, e, [])
  {
  }

  lemma UntouchedAt(e: Edge, r: Edge, order: seq<string>, id: string)
    requires Untouched(e, r, order) && id !in order && id in e.mirror
    ensures id in r.mirror && r.mirror[id] == e.mirror[id]
  {
  }

  lemma UntouchedOneMore(e: Edge, prev: Edge, r: Edge, order: seq<string>, id: string)
    requires Untouched(e, prev, order) && Elsewhere(prev, r, id)
    ensures Untouched(e, r, order + [id])
  {
    ElsewhereAt(prev, r, id);
  }

  function Prune(fails: nat -> bool, e: Edge, order: seq<string>, inner: map<string, seq<Backend>>): (r: Edge)
    requires forall i, j :: 0 <= i < j < |order| ==> order[i] != order[j]
    requires forall id :: id in order ==> id in e.mirror && id in inner
    ensures r.seen == e.seen && r.records == e.records && Untouched(e, r, order)
  {
    hide Elsewhere, PruneOne, Untouched;
    if order == [] then assert Untouched(e, e, []) by { UntouchedNone(e); } e
    else
      var init, id := order[..|order| - 1], order[|order| - 1];
      assert order == init + [id] && id !in init;
      var prev := Prune(fails, e, init, inner);
      assert id in prev.mirror by { UntouchedAt(e, prev, init, id); }
      var r := PruneOne(fails, prev, id, inner[id]);
      UntouchedOneMore(e, prev, r, init, id);
      r
  }

  // ---------------------------------------------------------------- runs

  /** OtherRecord is a record of the global feed that is no LB_IP record: it only counts. */
  datatype Event =
    | LbAdd(rec: LbRecord, rebuild: seq<Backend>)
    | LbWithdraw(rec: LbRecord)
    | OtherRecord
    | EndOfSnapshot(want: nat, order: seq<string>, inner: map<string, seq<Backend>>)
    | NewSession
    | AgentRestart

  ghost predicate Allowed(e: Edge, ev: Event) {
    match ev
    case LbAdd(rec, order) => RebuildOrder(e, rec, order)
    case EndOfSnapshot(_, order, inner) => PruneOrder(e, order, inner)
    case _ => true
  }

  /** The record's half that is bookkeeping: counted, and its entry marked seen or not. */
  function Noted(e: Edge, rec: LbRecord, add: bool): Edge {
    e.(records := e.records + 1, seen := if add then e.seen + {EntryOf(rec)} else e.seen - {EntryOf(rec)})
  }

  /** A snapshot that does not hold as many records as its marker says prunes nothing. */
  ghost function After(fails: nat -> bool, e: Edge, ev: Event): Edge
    requires Allowed(e, ev)
  {
    match ev
    case LbAdd(rec, order) => AddBackend(fails, Noted(e, rec, true), rec, order)
    case LbWithdraw(rec) => DelBackend(fails, Noted(e, rec, false), rec)
    case OtherRecord => e.(records := e.records + 1)
    case EndOfSnapshot(want, order, inner) => if e.records != want then e else Prune(fails, e, order, inner)
    case NewSession => e.(seen := {}, records := 0)
    case AgentRestart => Edge(map[], {}, 0, e.dp)
  }

  /** A run from a fresh agent beside a dataplane in any state. */
  ghost predicate IsRun(fails: nat -> bool, run: seq<Edge>, events: seq<Event>) {
    && |run| == |events| + 1 && run[0].mirror == map[] && run[0].seen == {} && run[0].records == 0
    && forall i :: 0 <= i < |events| ==> Allowed(run[i], events[i]) && run[i + 1] == After(fails, run[i], events[i])
  }
}
