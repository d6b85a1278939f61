/** The NAT gateway's allocation table over whole runs: seeded from the persisted table, then filled
    with the lowest free blocks. */
module NatGateway {
  import opened Order
  import opened PortBlocks

  datatype Alloc = Alloc(used: set<nat>, held: map<string, Block>)

  datatype NatAllocation = NatAllocation(source: string, block: Block)

  /** Pins a persisted block by value; one that names no index, or a taken one, is ignored. */
  function Preassign(ips: seq<string>, size: int, a: Alloc, e: NatAllocation): Alloc {
    match IndexOf(ips, size, e.block)
    case None => a
    case Some(idx) =>
      if idx in a.used then a
      else
        BlockAtIndexOf(ips, size, e.block);
        Alloc(a.used + {idx}, a.held[e.source := BlockAt(ips, size, idx)])
  }

  /** The least index from `from` up that nobody uses. */
  function LeastUnused(used: set<nat>, from: nat, total: nat): (r: Option<nat>)
    ensures r.Some? ==> from <= r.value < total && r.value !in used && forall i :: from <= i < r.value ==> i in used
    ensures r.None? ==> forall i :: from <= i < total ==> i in used
    decreases total - from
  {
    if from >= total then None
    else if from !in used then Some(from)
    else LeastUnused(used, from + 1, total)
  }

  datatype Assigned = Assigned(alloc: Alloc, block: Option<Block>)

  function Assign(ips: seq<string>, size: int, a: Alloc, source: string): Assigned {
    if source in a.held then Assigned(a, Some(a.held[source]))
    else match LeastUnused(a.used, 0, Total(ips, size))
      case None => Assigned(a, None)
      case Some(idx) =>
        var b := BlockAt(ips, size, idx);
        Assigned(Alloc(a.used + {idx}, a.held[source := b]), Some(b))
  }

  function Seeded(ips: seq<string>, size: int, table: seq<NatAllocation>): Alloc {
    if table == [] then Alloc({}, map[])
    else Preassign(ips, size, Seeded(ips, size, table[..|table| - 1]), table[|table| - 1])
  }

  datatype Laid = Laid(alloc: Alloc, table: seq<NatAllocation>, unblocked: nat)

  function Lay(ips: seq<string>, size: int, a: Alloc, sources: seq<string>): Laid {
    if sources == [] then Laid(a, [], 0)
    else
      var l := Lay(ips, size, a, sources[..|sources| - 1]);
      var s := sources[|sources| - 1];
      var r := Assign(ips, size, l.alloc, s);
      match r.block
      case None => Laid(r.alloc, l.table, l.unblocked + 1)
      case Some(b) => Laid(r.alloc, l.table + [NatAllocation(s, b)], l.unblocked)
  }

  /** assignBlocks: every persisted assignment first, then the sources in order. */
  function AssignBlocks(ips: seq<string>, size: int, table: seq<NatAllocation>, sources: seq<string>): Laid {
    Lay(ips, size, Seeded(ips, size, table), sources)
  }

  // ---------------------------------------------------------------- what a table keeps

  ghost predicate ValidBlock(ips: seq<string>, size: int, b: Block) {
    exists idx :: 0 <= idx < Total(ips, size) && BlockAt(ips, size, idx) == b
  }

  /** Every entry is a block of the pool, and blocks and sources determine each other. */
  ghost predicate TableOk(ips: seq<string>, size: int, table: seq<NatAllocation>) {
    && (forall e :: e in table ==> ValidBlock(ips, size, e.block))
    && (forall d, e :: d in table && e in table ==> (d.source == e.source <==> d.block == e.block))
  }

  lemma ValidAt(ips: seq<string>, size: int, b: Block)
    requires Distinct(ips) && ValidBlock(ips, size, b)
    ensures var i := IndexOf(ips, size, b); i.Some? && i.value < Total(ips, size) && BlockAt(ips, size, i.value) == b
  {
    var idx :| 0 <= idx < Total(ips, size) && BlockAt(ips, size, idx) == b;
    IndexOfBlockAt(ips, size, idx);
  }

  lemma ValidSurvivesGrowth(ips: seq<string>, more: seq<string>, size: int, b: Block)
    requires ValidBlock(ips, size, b) && b.publicIP in more
    ensures ValidBlock(more, size, b)
  {
    var idx :| 0 <= idx < Total(ips, size) && BlockAt(ips, size, idx) == b;
    IndexSurvivesGrowth(ips, more, size, idx);
  }

  ghost predicate AllocOk(ips: seq<string>, size: int, a: Alloc) {
    && (forall i :: i in a.used ==> i < Total(ips, size))
    && (forall s :: s in a.held ==> ValidBlock(ips, size, a.held[s]) && IndexOf(ips, size, a.held[s]).Some?
                                        && IndexOf(ips, size, a.held[s]).value in a.used)
    && (forall s, t :: s in a.held && t in a.held && s != t ==> a.held[s] != a.held[t])
  }

  /** The allocator holds exactly the table: its sources, their blocks, the blocks' indices. */
  ghost predicate Holds(ips: seq<string>, size: int, a: Alloc, table: seq<NatAllocation>) {
    && (forall e :: e in table ==> e.source in a.held && a.held[e.source] == e.block)
    && (forall s :: s in a.held ==> exists e :: e in table && e.source == s)
    && (forall i :: i in a.used ==> exists e :: e in table && IndexOf(ips, size, e.block) == Some(i))
    && (forall e :: e in table ==> IndexOf(ips, size, e.block).Some? && IndexOf(ips, size, e.block).value in a.used)
  }

  lemma {:induction false} SeedHolds(ips: seq<string>, size: int, table: seq<NatAllocation>)
    requires Distinct(ips) && TableOk(ips, size, table)
    ensures Holds(ips, size, Seeded(ips, size, table), table)
  {
    hide IndexOf, BlockAt, ValidBlock;
    if table != [] {
      var init, e := table[..|table| - 1], table[|table| - 1];
      assert table == init + [e];
      assert forall d :: d in table <==> d in init || d == e;
      assert TableOk(ips, size, init);
      SeedHolds(ips, size, init);
      PreassignHolds(ips, size, Seeded(ips, size, init), init, e);
      HoldsSame(ips, size, Seeded(ips, size, table), init + [e], table);
    }
  }

  lemma HoldsSame(ips: seq<string>, size: int, a: Alloc, table: seq<NatAllocation>, table': seq<NatAllocation>)
    requires Holds(ips, size, a, table) && table == table'
    ensures Holds(ips, size, a, table')
  {
  }

  lemma PreassignHolds(ips: seq<string>, size: int, a: Alloc, table: seq<NatAllocation>, e: NatAllocation)
    requires Distinct(ips) && Holds(ips, size, a, table)
    requires ValidBlock(ips, size, e.block) && (forall d :: d in table ==> ValidBlock(ips, size, d.block))
    requires forall d :: d in table ==> (d.source == e.source <==> d.block == e.block)
    ensures Holds(ips, size, Preassign(ips, size, a, e), table + [e])
  {
    hide IndexOf, BlockAt, ValidBlock;
    ValidAt(ips, size, e.block);
    var idx := IndexOf(ips, size, e.block).value;
    assert forall d :: d in table + [e] <==> d in table || d == e;
    var a' := Preassign(ips, size, a, e);
    if idx in a.used {
      var d :| d in table && IndexOf(ips, size, d.block) == Some(idx);
      ValidAt(ips, size, d.block);
      assert d.block == e.block && a' == a;
    } else {
      forall d | d in table ensures d.source != e.source { assert IndexOf(ips, size, d.block).value in a.used; }
    }
  }

  lemma HeldIsOk(ips: seq<string>, size: int, a: Alloc, table: seq<NatAllocation>)
    requires Distinct(ips) && TableOk(ips, size, table) && Holds(ips, size, a, table)
    ensures AllocOk(ips, size, a)
  {
    hide IndexOf, BlockAt, ValidBlock;
    forall i | i in a.used ensures i < Total(ips, size) {
      var e :| e in table && IndexOf(ips, size, e.block) == Some(i);
      ValidAt(ips, size, e.block);
    }
  }

  // ---------------------------------------------------------------- one source

  lemma AssignOk(ips: seq<string>, size: int, a: Alloc, s: string)
    requires Distinct(ips) && AllocOk(ips, size, a)
    ensures var r := Assign(ips, size, a, s);
            && AllocOk(ips, size, r.alloc)
            && a.used <= r.alloc.used
            && (forall t :: t in a.held ==> t in r.alloc.held && r.alloc.held[t] == a.held[t])
            && (r.block.Some? <==> s in r.alloc.held) && (r.block.Some? ==> r.alloc.held[s] == r.block.value)
            && (r.block.None? ==> forall i :: 0 <= i < Total(ips, size) ==> i in r.alloc.used)
            && (forall i :: i in r.alloc.used && i !in a.used ==>
               r.block.Some? && IndexOf(ips, size, r.block.value) == Some(i))
  {
    hide IndexOf, BlockAt, ValidBlock;
    if s !in a.held {
      var free := LeastUnused(a.used, 0, Total(ips, size));
      if free.Some? {
        var b := BlockAt(ips, size, free.value);
        IndexOfBlockAt(ips, size, free.value);
        assert ValidBlock(ips, size, b) by { FoundIsValid(ips, size, free.value); }
        forall t | t in a.held ensures a.held[t] != b { assert IndexOf(ips, size, a.held[t]).value in a.used; }
      }
    }
  }

  lemma FoundIsValid(ips: seq<string>, size: int, idx: nat)
    requires idx < Total(ips, size)
    ensures ValidBlock(ips, size, BlockAt(ips, size, idx))
  {
  }

  lemma {:induction false} LayOk(ips: seq<string>, size: int, a: Alloc, sources: seq<string>)
    requires Distinct(ips) && AllocOk(ips, size, a)
    ensures var l := Lay(ips, size, a, sources);
            && AllocOk(ips, size, l.alloc) && a.used <= l.alloc.used
            && (forall t :: t in a.held ==> t in l.alloc.held && l.alloc.held[t] == a.held[t])
            && (forall e :: e in l.table ==>
               e.source in sources && e.source in l.alloc.held && l.alloc.held[e.source] == e.block)
            && (forall s :: s in sources && s in a.held ==> NatAllocation(s, a.held[s]) in l.table)
            && (forall i :: i in l.alloc.used && i !in a.used ==>
               exists e :: e in l.table && IndexOf(ips, size, e.block) == Some(i))
            && (l.unblocked > 0 ==> forall i :: 0 <= i < Total(ips, size) ==> i in l.alloc.used)
            && |l.table| + l.unblocked == |sources|
  {
    hide Assign, AllocOk, IndexOf, LeastUnused;
    if sources != [] {
      var init, s := sources[..|sources| - 1], sources[|sources| - 1];
      assert sources == init + [s];
      LayOk(ips, size, a, init);
      AssignOk(ips, size, Lay(ips, size, a, init).alloc, s);
    }
  }

  lemma LaidTableOk(ips: seq<string>, size: int, l: Laid)
    requires AllocOk(ips, size, l.alloc)
    requires forall e :: e in l.table ==> e.source in l.alloc.held && l.alloc.held[e.source] == e.block
    ensures TableOk(ips, size, l.table)
  {
  }

  // ---------------------------------------------------------------- any pass

  lemma PreassignOk(ips: seq<string>, size: int, a: Alloc, e: NatAllocation)
    requires Distinct(ips) && AllocOk(ips, size, a)
    ensures AllocOk(ips, size, Preassign(ips, size, a, e))
  {
    hide IndexOf, BlockAt, ValidBlock;
    BlockAtIndexOf(ips, size, e.block);
    var found := IndexOf(ips, size, e.block);
    if found.Some? && found.value !in a.used {
      IndexOfBlockAt(ips, size, found.value);
      FoundIsValid(ips, size, found.value);
    }
  }

  lemma {:induction false} SeededOk(ips: seq<string>, size: int, table: seq<NatAllocation>)
    requires Distinct(ips)
    ensures AllocOk(ips, size, Seeded(ips, size, table))
  {
    hide Preassign;
    if table != [] {
      SeededOk(ips, size, table[..|table| - 1]);
      PreassignOk(ips, size, Seeded(ips, size, table[..|table| - 1]), table[|table| - 1]);
    } else {
      hide IndexOf, ValidBlock;
    }
  }

  /** Whatever table was persisted, by whatever size and addresses: what a pass writes is sound for its
      own. */
  lemma AnyPassSound(ips: seq<string>, size: int, table: seq<NatAllocation>, sources: seq<string>)
    requires Distinct(ips)
    ensures TableOk(ips, size, AssignBlocks(ips, size, table, sources).table)
  {
    hide IndexOf, ValidBlock, Lay, Seeded;
    SeededOk(ips, size, table);
    LayOk(ips, size, Seeded(ips, size, table), sources);
    LaidTableOk(ips, size, AssignBlocks(ips, size, table, sources));
  }

  /** Distinct sources of a sound table never share a port, and every port is a usable one. */
  lemma SoundTable(ips: seq<string>, size: int, table: seq<NatAllocation>, d: NatAllocation, e: NatAllocation)
    requires Distinct(ips) && TableOk(ips, size, table) && d in table && e in table
    ensures d.source != e.source ==> !Overlap(d.block, e.block)
    ensures d.block.publicIP in ips && FIRST_USABLE_PORT <= d.block.portMin <= d.block.portMax <= LAST_USABLE_PORT
    ensures d.block.portMax - d.block.portMin + 1 == size
  {
    hide BlockAt, Overlap;
    var i :| 0 <= i < Total(ips, size) && BlockAt(ips, size, i) == d.block;
    var j :| 0 <= j < Total(ips, size) && BlockAt(ips, size, j) == e.block;
    BlockInRange(ips, size, i);
    if i != j { DisjointBlocks(ips, size, i, j); }
  }

  /** In every table any pass writes: blocks of distinct sources are disjoint, each source has one block,
      of exactly `size` usable ports on a listed address. */
  lemma BlocksNeverOverlap(ips: seq<string>, size: int, table: seq<NatAllocation>, sources: seq<string>,
      d: NatAllocation, e: NatAllocation)
    requires Distinct(ips)
    requires d in AssignBlocks(ips, size, table, sources).table && e in AssignBlocks(ips, size, table, sources).table
    ensures d.source == e.source ==> d.block == e.block
    ensures d.source != e.source ==> !Overlap(d.block, e.block)
    ensures d.block.publicIP in ips && FIRST_USABLE_PORT <= d.block.portMin <= d.block.portMax <= LAST_USABLE_PORT
    ensures d.block.portMax - d.block.portMin + 1 == size
  {
    hide AssignBlocks, Overlap, ValidBlock;
    AnyPassSound(ips, size, table, sources);
    SoundTable(ips, size, AssignBlocks(ips, size, table, sources).table, d, e);
  }

  // ---------------------------------------------------------------- a pass of the same size

  /** The entries whose address is still listed. */
  function Live(ips: seq<string>, table: seq<NatAllocation>): (r: seq<NatAllocation>)
    ensures forall e :: e in r <==> e in table && e.block.publicIP in ips
  {
    if table == [] then []
    else
      var init, e := table[..|table| - 1], table[|table| - 1];
      if e.block.publicIP in ips then Live(ips, init) + [e] else Live(ips, init)
  }

  lemma {:induction false} SeededLive(ips: seq<string>, size: int, table: seq<NatAllocation>)
    ensures Seeded(ips, size, table) == Seeded(ips, size, Live(ips, table))
  {
    if table != [] {
      var init, e := table[..|table| - 1], table[|table| - 1];
      SeededLive(ips, size, init);
      PositionFinds(ips, e.block.publicIP);
      var live := Live(ips, init);
      assert (live + [e])[..|live|] == live;
    }
  }

  /** A pass of unchanged size, whatever became of the addresses: a listed source keeps its exact block if
      and only if the block's address is still listed, no block is given to another source, the table stays
      sound, and a source is refused only when every index is taken. */
  lemma PassOk(before: seq<string>, ips: seq<string>, size: int, table: seq<NatAllocation>, sources: seq<string>)
    requires TableOk(before, size, table) && Distinct(ips)
    ensures var l := AssignBlocks(ips, size, table, sources);
            && TableOk(ips, size, l.table)
            && (forall e :: e in l.table ==> e.source in sources)
            && (forall e :: e in table && e.source in sources && e.block.publicIP in ips ==> e in l.table)
            && (forall d, e :: d in table && e in l.table && d.block == e.block ==> d.source == e.source)
            && (l.unblocked > 0 ==> forall i :: 0 <= i < Total(ips, size) ==> Occupied(ips, size, table, l.table, i))
            && |l.table| + l.unblocked == |sources|
  {
    hide IndexOf, ValidBlock, Lay, Seeded;
    var live := Live(ips, table);
    forall e | e in live ensures ValidBlock(ips, size, e.block) { ValidSurvivesGrowth(before, ips, size, e.block); }
    assert TableOk(ips, size, live);
    SeededLive(ips, size, table);
    SeedHolds(ips, size, live);
    var a := Seeded(ips, size, live);
    HeldIsOk(ips, size, a, live);
    LayOk(ips, size, a, sources);
    var l := AssignBlocks(ips, size, table, sources);
    LaidTableOk(ips, size, l);
    assert forall e :: e in table ==> NatAllocation(e.source, e.block) == e;
    forall d, e | d in table && e in l.table && d.block == e.block ensures d.source == e.source {
      ValidOnListed(ips, size, e.block);
      assert d in live;
    }
    hide AllocOk, TableOk;
    if l.unblocked > 0 {
      forall i | 0 <= i < Total(ips, size) ensures Occupied(ips, size, table, l.table, i) {
        assert i in l.alloc.used;
        TakenIsOccupied(ips, size, a, l, live, i);
        assert Occupied(ips, size, live, l.table, i);
      }
    }
  }

  lemma ValidOnListed(ips: seq<string>, size: int, b: Block)
    requires ValidBlock(ips, size, b)
    ensures b.publicIP in ips
  {
    var idx :| 0 <= idx < Total(ips, size) && BlockAt(ips, size, idx) == b;
    BlockInRange(ips, size, idx);
  }

  /** Some entry of the persisted or the new table has the block of index i. */
  ghost predicate Occupied(ips: seq<string>, size: int, table: seq<NatAllocation>, laid: seq<NatAllocation>, i: nat) {
    exists e :: (e in table || e in laid) && IndexOf(ips, size, e.block) == Some(i)
  }

  lemma TakenIsOccupied(ips: seq<string>, size: int, a: Alloc, l: Laid, table: seq<NatAllocation>, i: nat)
    requires Holds(ips, size, a, table) && i in l.alloc.used
    requires i !in a.used ==> exists e :: e in l.table && IndexOf(ips, size, e.block) == Some(i)
    ensures Occupied(ips, size, table, l.table, i)
  {
    hide IndexOf;
  }
}
