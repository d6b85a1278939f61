/** Runs of a gateway's passes, addresses and block size edited in between in any way: which blocks are kept. */
module NatRuns {
  import opened Order
  import opened PortBlocks
  import opened NatGateway
  import opened NatLayout

  // ---------------------------------------------------------------- one pass

  /** Every entry a pass writes is a block of its pool, and a source has one. */
  lemma WrittenIsSane(ips: seq<string>, size: int, table: seq<NatAllocation>, sources: seq<string>, e: NatAllocation)
    requires e in AssignBlocks(ips, size, table, sources).table
    ensures ValidBlock(ips, size, e.block) && OnlyEntry(AssignBlocks(ips, size, table, sources).table, e)
  {
    hide AssignBlocks, BlockAt, GivenTo;
    var laid := AssignBlocks(ips, size, table, sources).table;
    WritesExactly(ips, size, table, sources, e);
    var i: nat :| GivenTo(ips, size, table, sources, e.source, i) && i < Total(ips, size)
      && BlockAt(ips, size, i) == e.block;
    FoundIsValid(ips, size, i);
    forall d | d in laid && d.source == e.source ensures d == e {
      WritesExactly(ips, size, table, sources, d);
      var j: nat :| GivenTo(ips, size, table, sources, d.source, j) && j < Total(ips, size)
        && BlockAt(ips, size, j) == d.block;
      GivenOnce(ips, size, table, sources, e.source, d.source, i, j);
    }
  }

  /** The source, pinned by no entry, gets its old block back as its turn comes. */
  ghost predicate Returns(ips: seq<string>, size: int, table: seq<NatAllocation>, sources: seq<string>,
      e: NatAllocation) {
    var a := Seeded(ips, size, table);
    exists i: nat :: Turn(ips, size, a.used, FreshSeen(a.held.Keys, sources), e.source, i)
      && BlockAt(ips, size, i) == e.block
  }

  lemma SizeOfBlock(ips: seq<string>, size: int, b: Block)
    requires ValidBlock(ips, size, b)
    ensures b.publicIP in ips && b.portMax - b.portMin + 1 == size
  {
    hide BlockAt;
    var i :| 0 <= i < Total(ips, size) && BlockAt(ips, size, i) == b;
    BlockInRange(ips, size, i);
  }

  lemma IndexOfValid(before: seq<string>, ips: seq<string>, size: int, b: Block) returns (i: nat)
    requires ValidBlock(before, size, b) && b.publicIP in ips
    ensures IndexOf(ips, size, b) == Some(i) && i < Total(ips, size) && BlockAt(ips, size, i) == b
  {
    hide BlockAt, IndexOf;
    var idx :| 0 <= idx < Total(before, size) && BlockAt(before, size, idx) == b;
    IndexSurvivesGrowth(before, ips, size, idx);
    i := IndexOf(ips, size, b).value;
  }

  /** A persisted block of a listed source, written by a pass over any list, is kept by a pass over any list if and
      only if its address is still listed, the block size is unchanged, and either no entry before it has its address
      and first port or the source gets it back in its turn. */
  lemma KeptExactly(before: seq<string>, was: int, ips: seq<string>, size: int, table: seq<NatAllocation>,
      sources: seq<string>, e: NatAllocation)
    requires ValidBlock(before, was, e.block) && OnlyEntry(table, e) && e.source in sources
    ensures e in AssignBlocks(ips, size, table, sources).table <==>
            e.block.publicIP in ips && size == was && (Leads(table, e) || Returns(ips, size, table, sources, e))
  {
    hide AssignBlocks, BlockAt, IndexOf, Turn, FreshSeen, Seeded, Leads, ValidBlock;
    WritesExactly(ips, size, table, sources, e);
    SizeOfBlock(before, was, e.block);
    if e in AssignBlocks(ips, size, table, sources).table {
      WrittenIsSane(ips, size, table, sources, e);
      SizeOfBlock(ips, size, e.block);
      var i := IndexOfValid(before, ips, size, e.block);
      PinnedExactly(ips, size, table, e);
    }
    if e.block.publicIP in ips && size == was {
      var i := IndexOfValid(before, ips, size, e.block);
      PinnedExactly(ips, size, table, e);
      if Leads(table, e) {
        assert GivenTo(ips, size, table, sources, e.source, i);
      } else if Returns(ips, size, table, sources, e) {
        ReturnIsGiven(ips, size, table, sources, e);
      }
    }
  }

  lemma ReturnIsGiven(ips: seq<string>, size: int, table: seq<NatAllocation>, sources: seq<string>, e: NatAllocation)
    requires Returns(ips, size, table, sources, e) && e.source in sources && e.source !in Seeded(ips, size, table).held
    ensures exists i: nat ::
              && GivenTo(ips, size, table, sources, e.source, i)
              && i < Total(ips, size) && BlockAt(ips, size, i) == e.block
  {
    hide BlockAt, IndexOf, FreshSeen, Seeded, FreeBelow;
    var a := Seeded(ips, size, table);
    var i: nat :| Turn(ips, size, a.used, FreshSeen(a.held.Keys, sources), e.source, i)
      && BlockAt(ips, size, i) == e.block;
    assert GivenTo(ips, size, table, sources, e.source, i);
  }

  lemma FirstPlace(table: seq<NatAllocation>, e: NatAllocation) returns (n: nat)
    requires e in table
    ensures n < |table| && table[n] == e && forall m :: 0 <= m < n ==> table[m] != e
  {
    n := 0;
    while table[n] != e
      invariant n < |table| && e in table[n..] && forall m :: 0 <= m < n ==> table[m] != e
      decreases |table| - n
    {
      assert table[n..] == [table[n]] + table[n + 1..];
      n := n + 1;
    }
  }

  /** Where no address repeats, every entry leads. */
  lemma SoundLeads(ips: seq<string>, size: int, table: seq<NatAllocation>, e: NatAllocation)
    requires TableOk(ips, size, table) && e in table
    ensures Leads(table, e)
  {
    hide ValidBlock;
    var n := FirstPlace(table, e);
    forall m | 0 <= m < n ensures !SameStart(table[m].block, e.block) {
      assert table[m] in table;
      SizeOfBlock(ips, size, table[m].block);
      SizeOfBlock(ips, size, e.block);
    }
  }

  // ---------------------------------------------------------------- whole runs

  datatype Pass = Pass(ips: seq<string>, size: int, sources: seq<string>)

  /** Passes of one gateway, each laying out over the last written table. */
  ghost predicate IsRun(tables: seq<seq<NatAllocation>>, passes: seq<Pass>) {
    && |tables| == |passes| + 1
    && forall i :: 0 <= i < |passes| ==>
       tables[i + 1] == AssignBlocks(passes[i].ips, passes[i].size, tables[i], passes[i].sources).table
  }

  lemma TablesStaySound(tables: seq<seq<NatAllocation>>, passes: seq<Pass>, n: nat)
    requires IsRun(tables, passes) && n < |passes| && Distinct(passes[n].ips)
    ensures TableOk(passes[n].ips, passes[n].size, tables[n + 1])
  {
    hide AssignBlocks, TableOk;
    AnyPassSound(passes[n].ips, passes[n].size, tables[n], passes[n].sources);
  }

  /** The pass leaves e's address listed and the block size as pass i made it. */
  predicate Unmoved(passes: seq<Pass>, i: nat, e: NatAllocation, k: nat)
    requires 0 < i <= |passes| && k < |passes|
  {
    e.block.publicIP in passes[k].ips && passes[k].size == passes[i - 1].size
  }

  /** The table pass k meets pins e's block for e's source, or its turn brings it back. */
  ghost predicate Unrivalled(tables: seq<seq<NatAllocation>>, passes: seq<Pass>, e: NatAllocation, k: nat)
    requires k < |passes| < |tables|
  {
    Leads(tables[k], e) || Returns(passes[k].ips, passes[k].size, tables[k], passes[k].sources, e)
  }

  lemma KeptByPass(tables: seq<seq<NatAllocation>>, passes: seq<Pass>, e: NatAllocation, k: nat)
    requires IsRun(tables, passes) && 0 < k < |passes| && e in tables[k] && e.source in passes[k].sources
    ensures e in tables[k + 1] <==>
            e.block.publicIP in passes[k].ips && passes[k].size == passes[k - 1].size
              && Unrivalled(tables, passes, e, k)
    ensures Distinct(passes[k - 1].ips) ==> Unrivalled(tables, passes, e, k)
  {
    hide AssignBlocks, Leads, Returns, ValidBlock, TableOk;
    var p, q := passes[k - 1], passes[k];
    assert tables[k - 1 + 1] == AssignBlocks(p.ips, p.size, tables[k - 1], p.sources).table;
    WrittenIsSane(p.ips, p.size, tables[k - 1], p.sources, e);
    KeptExactly(p.ips, p.size, q.ips, q.size, tables[k], q.sources, e);
    if Distinct(p.ips) {
      TablesStaySound(tables, passes, k - 1);
      SoundLeads(p.ips, p.size, tables[k], e);
    }
  }

  /** A source listed in every pass from i to j keeps its exact block throughout, and no other, if and only if each of
      those passes still lists the block's address, has the same block size, and meets a table in which the block is the
      source's to keep. Where no list repeats an address the last is always so. */
  lemma {:induction false} ListedSourceKeepsBlock(tables: seq<seq<NatAllocation>>, passes: seq<Pass>, i: nat, j: nat,
      e: NatAllocation)
    requires IsRun(tables, passes) && 0 < i <= j <= |passes| && e in tables[i]
    requires forall k :: i <= k < j ==> e.source in passes[k].sources
    ensures (forall k :: i <= k <= j ==> e in tables[k]) <==>
            (forall k :: i <= k < j ==> Unmoved(passes, i, e, k) && Unrivalled(tables, passes, e, k))
    ensures (forall k :: i - 1 <= k < j - 1 ==> Distinct(passes[k].ips)) ==>
              ((forall k :: i <= k <= j ==> e in tables[k]) <==> (forall k :: i <= k < j ==> Unmoved(passes, i, e, k)))
    ensures forall d :: e in tables[j] && d in tables[j] && d.source == e.source ==> d == e
  {
    hide AssignBlocks, Unrivalled;
    if e in tables[j] {
      var p := passes[j - 1];
      assert tables[j - 1 + 1] == AssignBlocks(p.ips, p.size, tables[j - 1], p.sources).table;
      WrittenIsSane(p.ips, p.size, tables[j - 1], p.sources, e);
    }
    if i < j {
      ListedSourceKeepsBlock(tables, passes, i, j - 1, e);
      if forall k :: i <= k <= j - 1 ==> e in tables[k] {
        assert i < j - 1 ==> Unmoved(passes, i, e, j - 2);
        assert e in tables[j - 1];
        KeptByPass(tables, passes, e, j - 1);
        assert e in tables[j] <==> Unmoved(passes, i, e, j - 1) && Unrivalled(tables, passes, e, j - 1);
      }
    }
  }

  /** On distinct addresses a block is never given away in the pass that drops its source, unless that pass changes
      the size. */
  lemma DroppedBlockRests(tables: seq<seq<NatAllocation>>, passes: seq<Pass>, n: nat, d: NatAllocation,
      e: NatAllocation)
    requires IsRun(tables, passes) && 0 < n < |passes| && d in tables[n] && e in tables[n + 1]
    requires Distinct(passes[n - 1].ips) && Distinct(passes[n].ips)
    requires passes[n].size == passes[n - 1].size && d.source !in passes[n].sources
    ensures !Overlap(d.block, e.block)
  {
    hide AssignBlocks, BlockAt;
    var ips, size := passes[n].ips, passes[n].size;
    TablesStaySound(tables, passes, n - 1);
    TablesStaySound(tables, passes, n);
    PassOk(passes[n - 1].ips, ips, size, tables[n], passes[n].sources);
    assert d.source != e.source && d.block != e.block;
    ValidOnListed(ips, size, e.block);
    if d.block.publicIP == e.block.publicIP {
      ValidSurvivesGrowth(passes[n - 1].ips, ips, size, d.block);
      var i :| 0 <= i < Total(ips, size) && BlockAt(ips, size, i) == d.block;
      var j :| 0 <= j < Total(ips, size) && BlockAt(ips, size, j) == e.block;
      DisjointBlocks(ips, size, i, j);
    }
  }
}
