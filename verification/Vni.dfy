/** VNI allocation: a VPC pins a VNI or is given the lowest free one, by reconciles that run one at a
    time and read every VPC before they write. */
module Vni {
  import opened Order

  const VNI_ALLOC_START: int := 1000
  const VNI_ALLOC_END: int := 16777215

  datatype Lifecycle = Unset | Ready | Conflict | Exhausted

  /** A pin of 0 is no pin; a vni of 0 is none allocated. */
  datatype Vpc = Vpc(uid: string, created: int, pin: int, deleting: bool, vni: int, state: Lifecycle)

  type Cluster = map<string, Vpc>

  // ---------------------------------------------------------------- the lowest free VNI

  /** The least VNI from `from` up that is not used. */
  function LeastFree(used: set<int>, from: int): (r: Option<int>)
    requires from >= VNI_ALLOC_START
    ensures r.Some? ==> from <= r.value <= VNI_ALLOC_END && r.value !in used
    ensures r.Some? ==> forall v :: from <= v < r.value ==> v in used
    ensures r.None? ==> forall v :: from <= v <= VNI_ALLOC_END ==> v in used
    decreases VNI_ALLOC_END - from
  {
    if from > VNI_ALLOC_END then None
    else if from !in used then Some(from)
    else LeastFree(used, from + 1)
  }

  predicate IntLess(a: int, b: int) { a < b }

  /** Walks the sorted VNIs to the first gap. */
  method FirstGap(sorted: seq<int>, ghost used: set<int>) returns (r: Option<int>)
    requires forall i, j :: 0 <= i < j < |sorted| ==> sorted[i] < sorted[j]
    requires forall v :: v in sorted <==> v in used && VNI_ALLOC_START <= v <= VNI_ALLOC_END
    ensures r == LeastFree(used, VNI_ALLOC_START)
  {
    var next, i := VNI_ALLOC_START, 0;
    while i < |sorted| && sorted[i] <= next
      invariant 0 <= i <= |sorted| && VNI_ALLOC_START <= next <= VNI_ALLOC_END + 1
      invariant forall k :: 0 <= k < i ==> sorted[k] < next
      invariant LeastFree(used, VNI_ALLOC_START) == LeastFree(used, next)
    {
      assert sorted[i] in sorted;
      if sorted[i] == next { next := next + 1; }
      i := i + 1;
    }
    assert next in sorted ==> exists k :: 0 <= k < |sorted| && sorted[k] == next;
    r := if next <= VNI_ALLOC_END then Some(next) else None;
  }

  /** Sorts the allocated VNIs, then looks for the first gap. */
  method LowestFreeVni(used: set<int>) returns (r: Option<int>)
    ensures r == LeastFree(used, VNI_ALLOC_START)
  {
    hide LeastFree;
    var taken := InRange(used);
    SortAscending(IntLess, taken);
    r := FirstGap(Sort(IntLess, taken), used);
  }

  /** The used VNIs inside the allocation range, in some order. */
  method InRange(used: set<int>) returns (taken: seq<int>)
    ensures forall v :: v in taken <==> v in used && VNI_ALLOC_START <= v <= VNI_ALLOC_END
    ensures forall i, j :: 0 <= i < j < |taken| ==> taken[i] != taken[j]
  {
    var all := Listed(used);
    taken := [];
    for i := 0 to |all|
      invariant forall v :: v in taken <==> v in all[..i] && VNI_ALLOC_START <= v <= VNI_ALLOC_END
      invariant forall i, j :: 0 <= i < j < |taken| ==> taken[i] != taken[j]
    {
      assert all[..i + 1] == all[..i] + [all[i]] && all[i] !in all[..i];
      if VNI_ALLOC_START <= all[i] <= VNI_ALLOC_END { taken := taken + [all[i]]; }
    }
    assert all[..|all|] == all;
  }

  // ---------------------------------------------------------------- one reconcile

  /** Every VNI another VPC pins or has been given. */
  function UsedByOthers(c: Cluster, self: string): set<int> {
    (set o | o in c && o != self && c[o].pin != 0 :: c[o].pin)
      + set o | o in c && o != self && c[o].vni != 0 :: c[o].vni
  }

  predicate CommittedElsewhere(c: Cluster, self: string, v: int) {
    exists o :: o in c && o != self && c[o].vni == v && c[o].state == Ready
  }

  /** Older wins a contested pin, then the smaller UID. */
  predicate Outranks(a: Vpc, b: Vpc) {
    a.created < b.created || (a.created == b.created && Less(a.uid, b.uid))
  }

  predicate LosesPin(c: Cluster, self: string, vpc: Vpc, v: int) {
    exists o :: o in c && o != self && c[o].pin == v && Outranks(c[o], vpc)
  }

  datatype Status = Status(vni: int, state: Lifecycle)

  /** What a reconcile of `self`, read as `vpc`, decides to write given everything it listed. */
  function Plan(c: Cluster, self: string, vpc: Vpc): Status {
    if vpc.pin != 0 then
      if !(vpc.vni == vpc.pin && vpc.state == Ready)
        && (CommittedElsewhere(c, self, vpc.pin) || LosesPin(c, self, vpc, vpc.pin))
      then Status(vpc.vni, Conflict)
      else Status(vpc.pin, Ready)
    else match LeastFree(UsedByOthers(c, self), VNI_ALLOC_START)
      case None => Status(vpc.vni, Exhausted)
      case Some(v) => Status(v, Ready)
  }

  datatype Item = Item(id: string, vpc: Vpc)

  /** `items` is the listing of the cluster. */
  ghost predicate Lists(items: seq<Item>, c: Cluster) {
    && (forall i :: 0 <= i < |items| ==> items[i].id in c && c[items[i].id] == items[i].vpc)
    && (forall id :: id in c ==> exists i :: 0 <= i < |items| && items[i].id == id)
  }

  method IsCommittedElsewhere(items: seq<Item>, self: string, v: int, ghost c: Cluster) returns (b: bool)
    requires Lists(items, c)
    ensures b == CommittedElsewhere(c, self, v)
  {
    for i := 0 to |items|
      invariant forall k :: 0 <= k < i ==>
              !(items[k].id != self && items[k].vpc.vni == v && items[k].vpc.state == Ready)
    {
      if items[i].id == self { continue; }
      if items[i].vpc.vni == v && items[i].vpc.state == Ready { return true; }
    }
    b := false;
  }

  method ThePinIsLost(competitors: seq<Vpc>, vpc: Vpc) returns (b: bool)
    ensures b <==> exists k :: 0 <= k < |competitors| && Outranks(competitors[k], vpc)
  {
    for i := 0 to |competitors|
      invariant forall k :: 0 <= k < i ==> !Outranks(competitors[k], vpc)
    {
      if Outranks(competitors[i], vpc) { return true; }
    }
    b := false;
  }

  /** One walk over the listing: the VNIs others use, and those that pin what this one pins. */
  method Scan(items: seq<Item>, self: string, vpc: Vpc) returns (used: set<int>, rivals: seq<Vpc>)
    ensures forall v :: v in used <==> TakenAmong(items, self, v)
    ensures forall r :: r in rivals ==>
            exists k :: 0 <= k < |items| && items[k].id != self && items[k].vpc.pin == vpc.pin && items[k].vpc == r
    ensures vpc.pin != 0 ==>
            forall k :: 0 <= k < |items| && items[k].id != self && items[k].vpc.pin == vpc.pin ==>
              items[k].vpc in rivals
  {
    used, rivals := {}, [];
    for i := 0 to |items|
      invariant forall v :: v in used <==> TakenAmong(items[..i], self, v)
      invariant forall r :: r in rivals ==>
              exists k :: 0 <= k < i && items[k].id != self && items[k].vpc.pin == vpc.pin && items[k].vpc == r
      invariant vpc.pin != 0 ==>
              forall k :: 0 <= k < i && items[k].id != self && items[k].vpc.pin == vpc.pin ==> items[k].vpc in rivals
    {
      TakenOneMore(items, self, i);
      hide TakenAmong;
      if items[i].id == self { continue; }
      var o := items[i].vpc;
      if o.pin != 0 {
        used := used + {o.pin};
        if o.pin == vpc.pin { rivals := rivals + [o]; }
      }
      if o.vni != 0 { used := used + {o.vni}; }
    }
    assert items[..|items|] == items;
  }

  predicate Takes(it: Item, self: string, v: int) { it.id != self && v != 0 && (it.vpc.pin == v || it.vpc.vni == v) }

  ghost predicate TakenAmong(items: seq<Item>, self: string, v: int) {
    exists k :: 0 <= k < |items| && Takes(items[k], self, v)
  }

  lemma TakenOneMore(items: seq<Item>, self: string, i: nat)
    requires i < |items|
    ensures forall v :: TakenAmong(items[..i + 1], self, v) <==>
            TakenAmong(items[..i], self, v) || Takes(items[i], self, v)
  {
    hide Takes;
    var a, b := items[..i], items[..i + 1];
    assert b == a + [items[i]];
    forall v ensures TakenAmong(b, self, v) <==> TakenAmong(a, self, v) || Takes(items[i], self, v) {
      if k :| 0 <= k < |a| && Takes(a[k], self, v) { assert b[k] == a[k]; }
      if Takes(items[i], self, v) { assert b[i] == items[i]; }
    }
  }

  /** The allocation logic of Reconcile: one pass over the listing collects the used VNIs and the
      competing pins, then the pin is settled or the lowest free VNI taken. */
  method Decide(items: seq<Item>, self: string, vpc: Vpc, ghost c: Cluster) returns (s: Status)
    requires Lists(items, c)
    ensures s == Plan(c, self, vpc)
  {
    var used, rivals := Scan(items, self, vpc);
    if vpc.pin != 0 {
      var elsewhere := IsCommittedElsewhere(items, self, vpc.pin, c);
      var lost := ThePinIsLost(rivals, vpc);
      RivalsArePinners(items, self, vpc, c, rivals);
      if !(vpc.vni == vpc.pin && vpc.state == Ready) && (elsewhere || lost) { return Status(vpc.vni, Conflict); }
      return Status(vpc.pin, Ready);
    }
    UsedIsUsed(items, self, c, used);
    var free := LowestFreeVni(used);
    s := if free.None? then Status(vpc.vni, Exhausted) else Status(free.value, Ready);
  }

  lemma RivalsArePinners(items: seq<Item>, self: string, vpc: Vpc, c: Cluster, rivals: seq<Vpc>)
    requires Lists(items, c)
    requires forall r :: r in rivals ==>
             exists k :: 0 <= k < |items| && items[k].id != self && items[k].vpc.pin == vpc.pin && items[k].vpc == r
    requires forall k :: 0 <= k < |items| && items[k].id != self && items[k].vpc.pin == vpc.pin ==>
             items[k].vpc in rivals
    ensures (exists k :: 0 <= k < |rivals| && Outranks(rivals[k], vpc)) <==> LosesPin(c, self, vpc, vpc.pin)
  {
    if k :| 0 <= k < |rivals| && Outranks(rivals[k], vpc) { assert rivals[k] in rivals; }
    if o :| o in c && o != self && c[o].pin == vpc.pin && Outranks(c[o], vpc) {
      var i :| 0 <= i < |items| && items[i].id == o;
      assert items[i].vpc in rivals;
    }
  }

  lemma UsedIsUsed(items: seq<Item>, self: string, c: Cluster, used: set<int>)
    requires Lists(items, c)
    requires forall v :: v in used <==> TakenAmong(items, self, v)
    ensures used == UsedByOthers(c, self)
  {
    forall v ensures v in used <==> v in UsedByOthers(c, self) {
      if v in UsedByOthers(c, self) {
        var o :| o in c && o != self && v != 0 && (c[o].pin == v || c[o].vni == v);
        var i :| 0 <= i < |items| && items[i].id == o;
      }
    }
  }

  // ---------------------------------------------------------------- runs

  /** A reconcile between its reads and its write. */
  datatype Pending = Pending(id: string, seen: Vpc, status: Status)

  datatype World = World(vpcs: Cluster, pending: Option<Pending>)

  datatype Event =
    | Create(id: string, uid: string, created: int, pin: int)
    | EditPin(id: string, pin: int)
    | MarkDeleted(id: string)
    | Remove(id: string)
    | Start(id: string, seen: Vpc)
    | Commit
    | GiveUp

  predicate Allowed(w: World, e: Event) {
    match e
    case Create(id, _, _, _) => id !in w.vpcs
    case EditPin(id, _) => id in w.vpcs
    case MarkDeleted(id) => id in w.vpcs
    case Remove(id) => true
    case Start(_, _) => w.pending.None?
    case Commit => w.pending.Some?
    case GiveUp => true
  }

  /** Start reads the VPC, perhaps from a stale cache, and lists all of them; Commit's write is refused
      unless the VPC is still the one that was read. */
  function After(w: World, e: Event): World
    requires Allowed(w, e)
  {
    match e
    case Create(id, uid, created, pin) => w.(vpcs := w.vpcs[id := Vpc(uid, created, pin, false, 0, Unset)])
    case EditPin(id, pin) => w.(vpcs := w.vpcs[id := w.vpcs[id].(pin := pin)])
    case MarkDeleted(id) => w.(vpcs := w.vpcs[id := w.vpcs[id].(deleting := true)])
    case Remove(id) => w.(vpcs := w.vpcs - {id})
    case Start(id, seen) => if seen.deleting then w else w.(pending := Some(Pending(id, seen, Plan(w.vpcs, id, seen))))
    case Commit =>
      var p := w.pending.value;
      if p.id in w.vpcs && w.vpcs[p.id] == p.seen
      then World(w.vpcs[p.id := p.seen.(vni := p.status.vni, state := p.status.state)], None)
      else w.(pending := None)
    case GiveUp => w.(pending := None)
  }

  ghost predicate UniqueReady(c: Cluster) {
    forall a, b :: a in c && b in c && a != b && c[a].state == Ready && c[b].state == Ready ==> c[a].vni != c[b].vni
  }

  /** Nobody else is Ready on the VNI about to be written, or it is the one already held. */
  ghost predicate Clear(c: Cluster, p: Pending) {
    p.status.state == Ready ==>
      (p.seen.state == Ready && p.seen.vni == p.status.vni) || !CommittedElsewhere(c, p.id, p.status.vni)
  }

  ghost predicate Inv(w: World) {
    UniqueReady(w.vpcs) && (w.pending.Some? ==> Clear(w.vpcs, w.pending.value))
  }

  lemma StepKeepsInv(w: World, e: Event)
    requires Inv(w) && Allowed(w, e)
    ensures Inv(After(w, e))
  {
  }

  ghost predicate IsRun(run: seq<World>, events: seq<Event>) {
    && |run| == |events| + 1 && run[0] == World(map[], None)
    && forall i :: 0 <= i < |events| ==> Allowed(run[i], events[i]) && run[i + 1] == After(run[i], events[i])
  }

  /** In every run of creates, pin edits, deletes and serialized reconciles, even ones that read a stale
      cache or are overtaken by an edit, no two Ready VPCs share a VNI. */
  lemma {:induction false} ReadyVnisAreUnique(run: seq<World>, events: seq<Event>, n: nat)
    requires IsRun(run, events) && n <= |events|
    ensures Inv(run[n]) && UniqueReady(run[n].vpcs)
  {
    hide After;
    if n > 0 {
      ReadyVnisAreUnique(run, events, n - 1);
      StepKeepsInv(run[n - 1], events[n - 1]);
    }
  }

  // ---------------------------------------------------------------- a contested pin

  /** One whole reconcile with nothing in between. */
  function Reconciled(c: Cluster, id: string): Cluster {
    if id !in c || c[id].deleting then c
    else
      var s := Plan(c, id, c[id]);
      c[id := c[id].(vni := s.vni, state := s.state)]
  }

  lemma ReconciledIsStartCommit(w: World, id: string)
    requires w.pending.None? && id in w.vpcs && !w.vpcs[id].deleting
    ensures var s := After(w, Start(id, w.vpcs[id])); After(s, Commit) == World(Reconciled(w.vpcs, id), None)
  {
  }

  function ReconciledAll(c: Cluster, order: seq<string>): Cluster {
    if order == [] then c else Reconciled(ReconciledAll(c, order[..|order| - 1]), order[|order| - 1])
  }

  predicate Contends(c: Cluster, id: string, v: int) { id in c && c[id].pin == v }

  /** Contenders for v, none of them being deleted, on a VNI nobody holds. */
  ghost predicate Contested(c: Cluster, v: int) {
    && v != 0
    && (forall id :: Contends(c, id, v) ==> !c[id].deleting)
    && (forall id :: id in c && c[id].state == Ready ==> c[id].vni != v)
    && (forall a, b :: a in c && b in c && a != b ==> c[a].uid != c[b].uid)
  }

  ghost predicate Top(c: Cluster, id: string, v: int) {
    Contends(c, id, v) && forall o :: Contends(c, o, v) && o != id ==> Outranks(c[id], c[o])
  }

  /** Same VPCs, pins, ages and UIDs: only statuses differ. */
  ghost predicate SameSpecs(c: Cluster, c': Cluster) {
    c.Keys == c'.Keys && forall id :: id in c ==> c'[id].(vni := c[id].vni, state := c[id].state) == c[id]
  }

  /** The winner so far, among the contenders the reconciles have reached. */
  ghost predicate Settling(c: Cluster, c': Cluster, v: int, top: string, order: seq<string>) {
    && SameSpecs(c, c') && top in c'
    && (forall id :: id in c' && id != top && c'[id].state == Ready ==> c'[id].vni != v)
    && (top in order ==> c'[top].state == Ready && c'[top].vni == v)
    && (forall id :: Contends(c, id, v) && id != top && id in order ==> c'[id].state == Conflict)
  }

  lemma OutranksAsymmetric(a: Vpc, b: Vpc)
    requires Outranks(a, b)
    ensures !Outranks(b, a)
  {
    CompareFlips(a.uid, b.uid);
  }

  lemma SettlingStep(c: Cluster, c': Cluster, v: int, top: string, order: seq<string>, id: string)
    requires Contested(c, v) && Top(c, top, v) && Settling(c, c', v, top, order)
    ensures Settling(c, Reconciled(c', id), v, top, order + [id])
  {
    hide Plan, Outranks;
    if id in c' && !c'[id].deleting {
      SettlingPlan(c, c', v, top, order, id);
    }
  }

  /** What one reconcile decides while the pin is being settled. */
  lemma SettlingPlan(c: Cluster, c': Cluster, v: int, top: string, order: seq<string>, id: string)
    requires Contested(c, v) && Top(c, top, v) && Settling(c, c', v, top, order) && id in c'
    ensures var s := Plan(c', id, c'[id]);
            && (id == top ==> s == Status(v, Ready))
            && (id != top && c'[id].pin == v ==> s.state == Conflict)
            && (id != top && s.state == Ready ==> s.vni != v)
  {
    hide Outranks, LeastFree;
    if id == top {
      forall o | o in c' && o != top && c'[o].pin == v ensures !Outranks(c'[o], c'[top]) {
        OutranksAsymmetric(c[top], c[o]);
        SameRank(c[o], c'[o], c[top], c'[top]);
      }
    } else if c'[id].pin == v {
      SameRank(c[top], c'[top], c[id], c'[id]);
      assert LosesPin(c', id, c'[id], v);
    } else {
      assert c'[top].pin == v && v in UsedByOthers(c', id);
    }
  }

  lemma SameRank(a: Vpc, a': Vpc, b: Vpc, b': Vpc)
    requires a'.created == a.created && a'.uid == a.uid && b'.created == b.created && b'.uid == b.uid
    ensures Outranks(a, b) <==> Outranks(a', b')
  {
  }

  lemma {:induction false} SettlesOn(c: Cluster, v: int, top: string, order: seq<string>)
    requires Contested(c, v) && Top(c, top, v)
    ensures Settling(c, ReconciledAll(c, order), v, top, order)
  {
    hide Reconciled;
    if order != [] {
      var init, id := order[..|order| - 1], order[|order| - 1];
      SettlesOn(c, v, top, init);
      SettlingStep(c, ReconciledAll(c, init), v, top, init, id);
      assert order == init + [id];
    }
  }

  /** There is a winner whenever somebody contends. */
  lemma {:induction false} WinnerExists(c: Cluster, v: int, among: set<string>) returns (top: string)
    requires Contested(c, v) && among != {} && forall id :: id in among ==> Contends(c, id, v)
    ensures top in among && forall o :: o in among && o != top ==>
              c[top].created < c[o].created || (c[top].created == c[o].created && Less(c[top].uid, c[o].uid))
    decreases among
  {
    hide Less;
    var x :| x in among;
    if among == {x} { return x; }
    assert among - {x} == {} ==> among == {x};
    var t := WinnerExists(c, v, among - {x});
    RankTotal(c[x], c[t]);
    if Outranks(c[t], c[x]) {
      top := t;
    } else {
      top := x;
      forall o | o in among && o != x ensures Outranks(c[x], c[o]) {
        if o != t { RankTransitive(c[x], c[t], c[o]); }
      }
    }
  }

  lemma RankTotal(a: Vpc, b: Vpc)
    requires a.uid != b.uid
    ensures Outranks(a, b) || Outranks(b, a)
  {
    StringsStrictlyOrdered();
  }

  lemma RankTransitive(a: Vpc, b: Vpc, d: Vpc)
    requires Outranks(a, b) && Outranks(b, d)
    ensures Outranks(a, d)
  {
    StringsStrictlyOrdered();
  }

  /** However the reconciles are ordered and repeated, once they have reached every contender exactly one of them is
      Ready, on the contested VNI. It is the oldest and, among the oldest, the one whose UID comes first in bytes; the
      others are in Conflict. */
  lemma ContestedPinHasOneWinner(c: Cluster, v: int, order: seq<string>) returns (winner: string)
    requires Contested(c, v) && (exists id :: Contends(c, id, v)) && forall id :: Contends(c, id, v) ==> id in order
    ensures Contends(c, winner, v)
    ensures var c' := ReconciledAll(c, order);
            && winner in c' && c'[winner].state == Ready && c'[winner].vni == v
            && forall id :: Contends(c, id, v) && id != winner ==> id in c' && c'[id].state == Conflict
    ensures forall id :: Contends(c, id, v) && id != winner ==>
              && c[winner].created <= c[id].created
              && (c[winner].created == c[id].created ==> Less(c[winner].uid, c[id].uid))
  {
    var all := set id | id in c && Contends(c, id, v);
    var x :| Contends(c, x, v);
    assert x in all;
    winner := WinnerExists(c, v, all);
    assert Top(c, winner, v);
    SettlesOn(c, v, winner, order);
  }
}
