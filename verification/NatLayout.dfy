/** Exactly which block a pass gives each source, whatever table was persisted and however often the pool
    lists an address; and so exactly when two sources share a port. */
module NatLayout {
  import opened Order
  import opened PortBlocks
  import opened NatGateway

  // ---------------------------------------------------------------- what the persisted table pins

  /** Each pinned source holds the block of a used index of its own. */
  ghost predicate Pinned(ips: seq<string>, size: int, a: Alloc) {
    && (forall i :: i in a.used ==> i < Total(ips, size))
    && (forall s :: s in a.held ==>
          var i := IndexOf(ips, size, a.held[s]);
          i.Some? && i.value in a.used && i.value < Total(ips, size) && BlockAt(ips, size, i.value) == a.held[s])
    && (forall s, t :: s in a.held && t in a.held && s != t ==>
       IndexOf(ips, size, a.held[s]) != IndexOf(ips, size, a.held[t]))
  }

  predicate SameStart(a: Block, b: Block) { a.publicIP == b.publicIP && a.portMin == b.portMin }

  /** The index looks at a block's address and first port alone, and tells them apart. */
  lemma IndexByStart(ips: seq<string>, size: int, a: Block, b: Block)
    ensures SameStart(a, b) ==> IndexOf(ips, size, a) == IndexOf(ips, size, b)
    ensures IndexOf(ips, size, a).Some? && IndexOf(ips, size, a) == IndexOf(ips, size, b) ==> SameStart(a, b)
  {
    hide BlockAt;
    BlockAtIndexOf(ips, size, a);
    BlockAtIndexOf(ips, size, b);
  }

  lemma PreassignPinned(ips: seq<string>, size: int, a: Alloc, e: NatAllocation)
    requires Pinned(ips, size, a)
    ensures Pinned(ips, size, Preassign(ips, size, a, e))
  {
    hide IndexOf, BlockAt;
    BlockAtIndexOf(ips, size, e.block);
    var found := IndexOf(ips, size, e.block);
    if found.Some? && found.value !in a.used { IndexByStart(ips, size, BlockAt(ips, size, found.value), e.block); }
  }

  lemma {:induction false} SeededPinned(ips: seq<string>, size: int, table: seq<NatAllocation>)
    ensures Pinned(ips, size, Seeded(ips, size, table))
  {
    hide Preassign, Pinned;
    if table != [] {
      SeededPinned(ips, size, table[..|table| - 1]);
      PreassignPinned(ips, size, Seeded(ips, size, table[..|table| - 1]), table[|table| - 1]);
    } else {
      assert Pinned(ips, size, Alloc({}, map[])) by { NothingPinned(ips, size); }
    }
  }

  lemma NothingPinned(ips: seq<string>, size: int)
    ensures Pinned(ips, size, Alloc({}, map[]))
  {
  }

  /** The first entry of the table at its address and first port. */
  ghost predicate Leads(table: seq<NatAllocation>, e: NatAllocation) {
    exists n :: 0 <= n < |table| && table[n] == e && forall m :: 0 <= m < n ==> !SameStart(table[m].block, e.block)
  }

  /** No other entry is of this source. */
  ghost predicate OnlyEntry(table: seq<NatAllocation>, e: NatAllocation) {
    e in table && forall d :: d in table && d.source == e.source ==> d == e
  }

  lemma LeadsOneMore(init: seq<NatAllocation>, x: NatAllocation, e: NatAllocation)
    ensures Leads(init + [x], e) <==>
            Leads(init, e) || (x == e && forall d :: d in init ==> !SameStart(d.block, e.block))
  {
    var all := init + [x];
    if Leads(init, e) {
      var n :| 0 <= n < |init| && init[n] == e && forall m :: 0 <= m < n ==> !SameStart(init[m].block, e.block);
      assert all[n] == e && forall m :: 0 <= m < n ==> all[m] == init[m];
    }
    if x == e && forall d :: d in init ==> !SameStart(d.block, e.block) {
      assert all[|init|] == e && forall m :: 0 <= m < |init| ==> all[m] == init[m] && init[m] in init;
    }
    if Leads(all, e) {
      var n :| 0 <= n < |all| && all[n] == e && forall m :: 0 <= m < n ==> !SameStart(all[m].block, e.block);
      assert forall m :: 0 <= m < |init| ==> all[m] == init[m];
    }
  }

  /** What seeding has taken: every index an entry names, and nobody but entries' sources hold. */
  ghost predicate Traced(ips: seq<string>, size: int, table: seq<NatAllocation>, a: Alloc) {
    && (forall i :: i in a.used <==> exists d :: d in table && IndexOf(ips, size, d.block) == Some(i))
    && (forall s :: s in a.held ==> exists d :: d in table && d.source == s)
  }

  lemma {:induction false} SeededTraced(ips: seq<string>, size: int, table: seq<NatAllocation>)
    ensures Traced(ips, size, table, Seeded(ips, size, table))
  {
    hide IndexOf, BlockAt;
    if table != [] {
      var init, x := table[..|table| - 1], table[|table| - 1];
      assert table == init + [x];
      SeededTraced(ips, size, init);
      var a, a' := Seeded(ips, size, init), Seeded(ips, size, table);
      forall i ensures i in a'.used <==> exists d :: d in table && IndexOf(ips, size, d.block) == Some(i) {
        assert i in a.used ==> exists d :: d in init && d in table && IndexOf(ips, size, d.block) == Some(i);
        assert x in table;
      }
      forall s | s in a'.held ensures exists d :: d in table && d.source == s { assert x in table; }
    }
  }

  /** A source of one entry is pinned exactly when that entry leads, and then to the entry's index. */
  lemma {:induction false} PinnedExactly(ips: seq<string>, size: int, table: seq<NatAllocation>, e: NatAllocation)
    requires OnlyEntry(table, e) && IndexOf(ips, size, e.block).Some?
    ensures var a, i := Seeded(ips, size, table), IndexOf(ips, size, e.block).value;
            && (e.source in a.held <==> Leads(table, e))
            && (e.source in a.held ==> i < Total(ips, size) && a.held[e.source] == BlockAt(ips, size, i))
  {
    hide IndexOf, BlockAt, Leads;
    var init, x := table[..|table| - 1], table[|table| - 1];
    assert table == init + [x];
    LeadsOneMore(init, x, e);
    SeededTraced(ips, size, init);
    BlockAtIndexOf(ips, size, e.block);
    if e in init {
      PinnedExactly(ips, size, init, e);
      if x == e { assert SameStart(e.block, e.block); }
    } else {
      assert x == e;
      forall d | d in init
        ensures IndexOf(ips, size, d.block) == IndexOf(ips, size, e.block) <==> SameStart(d.block, e.block)
      {
        IndexByStart(ips, size, e.block, d.block);
      }
      assert !Leads(init, e) by { LeadsIsIn(init, e); }
    }
  }

  lemma LeadsIsIn(table: seq<NatAllocation>, e: NatAllocation)
    ensures Leads(table, e) ==> e in table
  {
  }

  // ---------------------------------------------------------------- what is left for the others

  /** How many indices below i nobody uses. */
  function FreeBelow(used: set<nat>, i: nat): nat {
    if i == 0 then 0 else FreeBelow(used, i - 1) + if i - 1 in used then 0 else 1
  }

  lemma {:induction false} FreeBelowGrows(used: set<nat>, i: nat, j: nat)
    requires i < j && i !in used
    ensures FreeBelow(used, i) < FreeBelow(used, j)
  {
    if i < j - 1 { FreeBelowGrows(used, i, j - 1); }
  }

  /** With every free index below r among the first m, r is at most the m-th. */
  lemma {:induction false} FreeBelowStops(used: set<nat>, r: nat, m: nat)
    requires forall i: nat :: i < r && i !in used ==> FreeBelow(used, i) < m
    ensures FreeBelow(used, r) <= m
  {
    FreeBelowStep(used, r);
    hide FreeBelow;
    if r > 0 { FreeBelowStops(used, r - 1, m); }
  }

  lemma FreeBelowStep(used: set<nat>, i: nat)
    ensures FreeBelow(used, i) == if i == 0 then 0 else FreeBelow(used, i - 1) + if i - 1 in used then 0 else 1
  {
  }

  /** The distinct listed sources the persisted table pins nothing for, in order of first appearance. */
  function FreshSeen(held: set<string>, sources: seq<string>): (r: seq<string>)
    ensures forall s :: s in r <==> s in sources && s !in held
    ensures forall i, j :: 0 <= i < j < |r| ==> r[i] != r[j]
  {
    if sources == [] then []
    else
      var r, s := FreshSeen(held, sources[..|sources| - 1]), sources[|sources| - 1];
      if s in r || s in held then r else r + [s]
  }

  /** i is the free index whose turn is that of source s. */
  predicate Turn(ips: seq<string>, size: int, used: set<nat>, fs: seq<string>, s: string, i: nat) {
    i < Total(ips, size) && i !in used && FreeBelow(used, i) < |fs| && fs[FreeBelow(used, i)] == s
  }

  /** What an allocator seeded as `a` has become once the fresh sources `fs` have had their turns. */
  ghost predicate Filled(ips: seq<string>, size: int, a: Alloc, fs: seq<string>, a': Alloc) {
    && (forall i: nat :: i in a'.used <==> i in a.used || (i < Total(ips, size) && FreeBelow(a.used, i) < |fs|))
    && (forall s :: s in a.held ==> s in a'.held && a'.held[s] == a.held[s])
    && (forall s :: s in a'.held && s !in a.held ==> exists i: nat :: Turn(ips, size, a.used, fs, s, i))
    && (forall s, i: nat :: Turn(ips, size, a.used, fs, s, i) ==> s in a'.held && a'.held[s] == BlockAt(ips, size, i))
  }

  lemma {:induction false} RankExists(used: set<nat>, r: nat, p: nat) returns (i: nat)
    requires p < FreeBelow(used, r)
    ensures i < r && i !in used && FreeBelow(used, i) == p
  {
    if p < FreeBelow(used, r - 1) { i := RankExists(used, r - 1, p); } else { i := r - 1; }
  }

  /** The least index not yet used is the next in line. */
  lemma NextInLine(ips: seq<string>, size: int, a: Alloc, fs: seq<string>, a': Alloc, r: nat)
    requires Filled(ips, size, a, fs, a') && r < Total(ips, size) && r !in a'.used
             && forall i :: 0 <= i < r ==> i in a'.used
    ensures r !in a.used && FreeBelow(a.used, r) == |fs|
    ensures forall i: nat :: i !in a.used && FreeBelow(a.used, i) == |fs| ==> i == r
  {
    hide BlockAt, Turn, FreeBelow;
    FreeBelowStops(a.used, r, |fs|);
    forall i: nat | i !in a.used && FreeBelow(a.used, i) == |fs| ensures i == r {
      if i < r { FreeBelowGrows(a.used, i, r); }
      if r < i { FreeBelowGrows(a.used, r, i); }
    }
  }

  lemma TurnHolds(ips: seq<string>, size: int, a: Alloc, fs: seq<string>, a': Alloc, p: nat, i: nat)
    requires Filled(ips, size, a, fs, a') && p < |fs| && i < Total(ips, size) && i !in a.used
             && FreeBelow(a.used, i) == p
    ensures fs[p] in a'.held
  {
    hide BlockAt, FreeBelow;
    assert Turn(ips, size, a.used, fs, fs[p], i);
  }

  /** A fresh source that got nothing at its turn meets a full pool. */
  lemma PassedOverIsFull(ips: seq<string>, size: int, a: Alloc, fs: seq<string>, a': Alloc, s: string)
    requires Filled(ips, size, a, fs, a') && s in fs && s !in a'.held
    ensures LeastUnused(a'.used, 0, Total(ips, size)).None?
  {
    hide BlockAt, FreeBelow;
    var free := LeastUnused(a'.used, 0, Total(ips, size));
    if free.Some? {
      NextInLine(ips, size, a, fs, a', free.value);
      var p :| 0 <= p < |fs| && fs[p] == s;
      var i := RankExists(a.used, free.value, p);
      TurnHolds(ips, size, a, fs, a', p, i);
      assert false;
    }
  }

  lemma TurnsOneMore(ips: seq<string>, size: int, used: set<nat>, fs: seq<string>, s: string, t: string, i: nat)
    ensures Turn(ips, size, used, fs + [s], t, i) <==>
            Turn(ips, size, used, fs, t, i)
              || (t == s && i < Total(ips, size) && i !in used && FreeBelow(used, i) == |fs|)
  {
  }

  lemma TakesNext(ips: seq<string>, size: int, a: Alloc, fs: seq<string>, a': Alloc, s: string, r: nat)
    requires Filled(ips, size, a, fs, a') && s !in a'.held && s !in fs
    requires LeastUnused(a'.used, 0, Total(ips, size)) == Some(r)
    ensures Filled(ips, size, a, fs + [s], Alloc(a'.used + {r}, a'.held[s := BlockAt(ips, size, r)]))
  {
    hide BlockAt, FreeBelow;
    NextInLine(ips, size, a, fs, a', r);
    hide LeastUnused;
    forall t, i: nat
      ensures Turn(ips, size, a.used, fs + [s], t, i) <==> Turn(ips, size, a.used, fs, t, i) || (t == s && i == r)
    {
      TurnsOneMore(ips, size, a.used, fs, s, t, i);
    }
    forall t, i: nat | Turn(ips, size, a.used, fs, t, i) ensures t != s { assert t in fs; }
    hide Turn;
    var b := Alloc(a'.used + {r}, a'.held[s := BlockAt(ips, size, r)]);
    forall t | t in b.held && t !in a.held ensures exists i: nat :: Turn(ips, size, a.used, fs + [s], t, i) {
      if t == s { assert Turn(ips, size, a.used, fs + [s], s, r); }
    }
  }

  lemma FindsNothing(ips: seq<string>, size: int, a: Alloc, fs: seq<string>, a': Alloc, s: string)
    requires Filled(ips, size, a, fs, a') && LeastUnused(a'.used, 0, Total(ips, size)).None?
    ensures Filled(ips, size, a, fs + [s], a')
  {
    hide BlockAt, FreeBelow;
    assert forall i :: 0 <= i < Total(ips, size) ==> i in a'.used;
    hide LeastUnused;
    forall t, i: nat ensures Turn(ips, size, a.used, fs + [s], t, i) <==> Turn(ips, size, a.used, fs, t, i) {
      TurnsOneMore(ips, size, a.used, fs, s, t, i);
    }
    hide Turn;
  }

  lemma AssignFills(ips: seq<string>, size: int, a: Alloc, fs: seq<string>, a': Alloc, s: string)
    requires Filled(ips, size, a, fs, a')
    ensures var r := Assign(ips, size, a', s);
            && Filled(ips, size, a, if s in fs || s in a.held then fs else fs + [s], r.alloc)
            && (r.block.Some? <==> s in r.alloc.held) && (r.block.Some? ==> r.block.value == r.alloc.held[s])
            && (forall t :: t in a'.held ==> t in r.alloc.held && r.alloc.held[t] == a'.held[t])
            && (forall t :: t in r.alloc.held ==> t in a'.held || t == s)
  {
    hide BlockAt, FreeBelow;
    var free := LeastUnused(a'.used, 0, Total(ips, size));
    if s in a'.held {
      assert s !in a.held ==> s in fs;
    } else if s in fs {
      PassedOverIsFull(ips, size, a, fs, a', s);
    } else if free.Some? {
      TakesNext(ips, size, a, fs, a', s, free.value);
      hide Filled, LeastUnused;
    } else {
      FindsNothing(ips, size, a, fs, a', s);
      hide Filled, LeastUnused;
    }
  }

  /** A pass fills the seeded allocator with the fresh sources, and writes what each listed source then holds. */
  lemma {:induction false} LayFills(ips: seq<string>, size: int, a: Alloc, sources: seq<string>)
    ensures var l := Lay(ips, size, a, sources);
            && Filled(ips, size, a, FreshSeen(a.held.Keys, sources), l.alloc)
            && (forall e :: e in l.table <==>
               e.source in sources && e.source in l.alloc.held && l.alloc.held[e.source] == e.block)
  {
    hide BlockAt, Assign, Filled;
    if sources == [] {
      StartsFilled(ips, size, a);
    } else {
      var init, s := sources[..|sources| - 1], sources[|sources| - 1];
      assert sources == init + [s];
      LayFills(ips, size, a, init);
      AssignFills(ips, size, a, FreshSeen(a.held.Keys, init), Lay(ips, size, a, init).alloc, s);
      HeldIsAsked(ips, size, a, init);
    }
  }

  lemma StartsFilled(ips: seq<string>, size: int, a: Alloc)
    ensures Filled(ips, size, a, [], a)
  {
  }

  /** Whoever comes to hold a block was asked for. */
  lemma {:induction false} HeldIsAsked(ips: seq<string>, size: int, a: Alloc, sources: seq<string>)
    ensures forall s :: s in Lay(ips, size, a, sources).alloc.held ==> s in a.held || s in sources
  {
    hide LeastUnused, BlockAt;
    if sources != [] { HeldIsAsked(ips, size, a, sources[..|sources| - 1]); }
  }

  // ---------------------------------------------------------------- what a pass writes

  /** The pass gives source s the block of index i: the one the persisted table pins, or the one whose turn it is. */
  ghost predicate GivenTo(ips: seq<string>, size: int, table: seq<NatAllocation>, sources: seq<string>, s: string,
      i: nat) {
    var a := Seeded(ips, size, table);
    s in sources
      && if s in a.held then IndexOf(ips, size, a.held[s]) == Some(i)
         else Turn(ips, size, a.used, FreshSeen(a.held.Keys, sources), s, i)
  }

  ghost predicate Given(ips: seq<string>, size: int, table: seq<NatAllocation>, sources: seq<string>, i: nat) {
    exists s :: GivenTo(ips, size, table, sources, s, i)
  }

  /** Exactly what a pass writes, for any addresses, size, persisted table and sources. */
  lemma WritesExactly(ips: seq<string>, size: int, table: seq<NatAllocation>, sources: seq<string>, e: NatAllocation)
    ensures e in AssignBlocks(ips, size, table, sources).table <==>
            exists i: nat :: GivenTo(ips, size, table, sources, e.source, i) && i < Total(ips, size)
              && BlockAt(ips, size, i) == e.block
  {
    hide BlockAt, IndexOf, Lay, Seeded, FreshSeen;
    var a := Seeded(ips, size, table);
    SeededPinned(ips, size, table);
    LayFills(ips, size, a, sources);
    var l, fs, s := AssignBlocks(ips, size, table, sources), FreshSeen(a.held.Keys, sources), e.source;
    if e in l.table {
      if s in a.held {
        assert GivenTo(ips, size, table, sources, s, IndexOf(ips, size, a.held[s]).value);
      } else {
        var i: nat :| Turn(ips, size, a.used, fs, s, i);
        assert GivenTo(ips, size, table, sources, s, i);
      }
    }
  }

  /** A source is given one index, and an index goes to one source. */
  lemma GivenOnce(ips: seq<string>, size: int, table: seq<NatAllocation>, sources: seq<string>, s: string, t: string,
      i: nat, j: nat)
    requires GivenTo(ips, size, table, sources, s, i) && GivenTo(ips, size, table, sources, t, j)
    ensures s == t <==> i == j
    ensures i < Total(ips, size)
  {
    hide BlockAt, IndexOf, Seeded, FreeBelow;
    var a := Seeded(ips, size, table);
    SeededPinned(ips, size, table);
    if s !in a.held && t !in a.held {
      if i < j { FreeBelowGrows(a.used, i, j); }
      if j < i { FreeBelowGrows(a.used, j, i); }
    }
  }

  ghost predicate Collide(table: seq<NatAllocation>) {
    exists d, e :: d in table && e in table && d.source != e.source && Overlap(d.block, e.block)
  }

  /** Two sources of any pass share a port if and only if both indices of some slot of an address listed twice are
      given out: whatever the addresses, the block size, the persisted table and the sources. */
  lemma CollideExactly(ips: seq<string>, size: int, table: seq<NatAllocation>, sources: seq<string>)
    ensures Collide(AssignBlocks(ips, size, table, sources).table) <==>
            exists i: nat, j: nat :: SameSlotTwice(ips, BlocksPerIP(size), i, j) &&
              Given(ips, size, table, sources, i) && Given(ips, size, table, sources, j)
  {
    hide AssignBlocks, BlockAt, Overlap, BlocksPerIP, GivenTo, SameSlotTwice;
    var laid := AssignBlocks(ips, size, table, sources).table;
    if Collide(laid) {
      var d, e :| d in laid && e in laid && d.source != e.source && Overlap(d.block, e.block);
      WritesExactly(ips, size, table, sources, d);
      WritesExactly(ips, size, table, sources, e);
      var i: nat :| GivenTo(ips, size, table, sources, d.source, i) && i < Total(ips, size)
        && BlockAt(ips, size, i) == d.block;
      var j: nat :| GivenTo(ips, size, table, sources, e.source, j) && j < Total(ips, size)
        && BlockAt(ips, size, j) == e.block;
      GivenOnce(ips, size, table, sources, d.source, e.source, i, j);
      OverlapExactly(ips, size, i, j);
      assert Given(ips, size, table, sources, i) && Given(ips, size, table, sources, j);
    }
    if i: nat, j: nat :|
      && SameSlotTwice(ips, BlocksPerIP(size), i, j)
      && Given(ips, size, table, sources, i) && Given(ips, size, table, sources, j)
    {
      BothGivenCollide(ips, size, table, sources, i, j);
    }
  }

  lemma BothGivenCollide(ips: seq<string>, size: int, table: seq<NatAllocation>, sources: seq<string>, i: nat, j: nat)
    requires SameSlotTwice(ips, BlocksPerIP(size), i, j) && Given(ips, size, table, sources, i)
             && Given(ips, size, table, sources, j)
    ensures Collide(AssignBlocks(ips, size, table, sources).table)
  {
    assert i != j;
    hide AssignBlocks, BlockAt, Overlap, BlocksPerIP, GivenTo, SameSlotTwice;
    var s :| GivenTo(ips, size, table, sources, s, i);
    var t :| GivenTo(ips, size, table, sources, t, j);
    GivenOnce(ips, size, table, sources, s, t, i, j);
    GivenOnce(ips, size, table, sources, t, s, j, i);
    var d, e := NatAllocation(s, BlockAt(ips, size, i)), NatAllocation(t, BlockAt(ips, size, j));
    WritesExactly(ips, size, table, sources, d);
    WritesExactly(ips, size, table, sources, e);
    OverlapExactly(ips, size, i, j);
  }

  // ---------------------------------------------------------------- the first pass

  /** r is the first position of the list that repeats an earlier address. */
  ghost predicate FirstRepeat(ips: seq<string>, r: nat) {
    r < |ips| && Distinct(ips[..r]) && exists q :: 0 <= q < r && ips[q] == ips[r]
  }

  lemma {:induction false} AllFree(i: nat)
    ensures FreeBelow({}, i) == i
  {
    if i > 0 { AllFree(i - 1); }
  }

  lemma FirstPassGives(ips: seq<string>, size: int, sources: seq<string>, i: nat)
    ensures Given(ips, size, [], sources, i) <==> i < Total(ips, size) && i < |FreshSeen({}, sources)|
  {
    AllFree(i);
    var fs := FreshSeen({}, sources);
    assert Seeded(ips, size, []).held.Keys == {};
    if i < Total(ips, size) && i < |fs| {
      assert fs[i] in fs;
      assert GivenTo(ips, size, [], sources, fs[i], i);
    }
  }

  /** A gateway without a table yet hands two sources a common port if and only if as many distinct sources as
      blocks reach outgrow the addresses before the first repeated one. */
  lemma FirstPassCollides(ips: seq<string>, size: int, sources: seq<string>, r: nat)
    requires FirstRepeat(ips, r)
    ensures Collide(AssignBlocks(ips, size, [], sources).table) <==>
            BlocksPerIP(size) * r < Total(ips, size) && BlocksPerIP(size) * r < |FreshSeen({}, sources)|
  {
    hide AssignBlocks, BlocksPerIP, FreshSeen, Collide, Given, SameSlotTwice;
    CollideExactly(ips, size, [], sources);
    var n, per := |FreshSeen({}, sources)|, BlocksPerIP(size);
    if per * r < Total(ips, size) && per * r < n {
      var q :| 0 <= q < r && ips[q] == ips[r];
      RowOf(ips, size, per * r);
      SlotZeroRows(q, r, per);
      assert SameSlotTwice(ips, per, per * q, per * r) by { SlotZeroTwice(ips, per, q, r); }
      FirstPassGives(ips, size, sources, per * q);
      FirstPassGives(ips, size, sources, per * r);
    }
    if i: nat, j: nat :|
      SameSlotTwice(ips, per, i, j) && Given(ips, size, [], sources, i) && Given(ips, size, [], sources, j)
    {
      FirstPassGives(ips, size, sources, i);
      FirstPassGives(ips, size, sources, j);
      LaterRow(ips, per, r, i, j);
    }
  }

  lemma SlotZeroTwice(ips: seq<string>, per: nat, q: nat, r: nat)
    requires per > 0 && q < r < |ips| && ips[q] == ips[r]
    ensures SameSlotTwice(ips, per, per * q, per * r)
  {
    SlotZeroRows(q, r, per);
  }

  lemma SlotZeroRows(q: nat, r: nat, per: nat)
    requires q < r && per > 0
    ensures per * q < per * r && (per * q) / per == q && (per * r) / per == r && (per * q) % per == 0
            && (per * r) % per == 0
  {
    Rebuilds(q, 0, per);
    Rebuilds(r, 0, per);
    RowBelow(q + 1, r, per);
    assert per * (q + 1) == per * q + per;
    assert q * per + 0 == per * q && r * per + 0 == per * r;
  }

  /** Two indices of one repeated slot: the later lies at or past the first repeating row. */
  lemma LaterRow(ips: seq<string>, per: nat, r: nat, i: nat, j: nat)
    requires FirstRepeat(ips, r) && SameSlotTwice(ips, per, i, j)
    ensures i >= per * r || j >= per * r
  {
    var a, b := i / per, j / per;
    assert forall q :: 0 <= q < r ==> ips[..r][q] == ips[q];
    assert a >= r || b >= r;
    RowAndSlotOf(i, per);
    RowAndSlotOf(j, per);
    if a >= r { RowBelow(r, a, per); } else { RowBelow(r, b, per); }
  }

  lemma RowAndSlotOf(i: nat, per: nat)
    requires per > 0
    ensures i >= (i / per) * per
  {
  }

  /** The smallest case: one address listed twice, one block each, and two sources get the very same. */
  lemma RepeatedAddressCollides(ip: string)
    ensures AssignBlocks([ip, ip], 64512, [], ["a", "b"]).table ==
            [NatAllocation("a", Block(ip, 1024, 65535)), NatAllocation("b", Block(ip, 1024, 65535))]
  {
    var ips, size, whole := [ip, ip], 64512, Block(ip, 1024, 65535);
    assert BlocksPerIP(size) == 1 && Total(ips, size) == 2;
    assert BlockAt(ips, size, 0) == whole && BlockAt(ips, size, 1) == whole;
    var a1 := Alloc({0}, map["a" := whole]);
    assert Assign(ips, size, Alloc({}, map[]), "a") == Assigned(a1, Some(whole));
    assert ["a"][..0] == [] && ["a", "b"][..1] == ["a"];
    assert Lay(ips, size, Alloc({}, map[]), ["a"]) == Laid(a1, [NatAllocation("a", whole)], 0);
    assert LeastUnused({0}, 1, 2) == Some(1);
    assert Assign(ips, size, a1, "b").block == Some(whole);
  }

  /** The tables of three passes over [ip, ip] with two blocks an address, of sources {a, c}, {a, b} and {a, b}: the
      second gives b the block a holds, though two sources do not outgrow the first row, and the third moves b with
      list and size unchanged. */
  lemma RepeatedAddressMovesBlock(ip: string)
    ensures var ips, size, low, high := [ip, ip], 32256, Block(ip, 1024, 33279), Block(ip, 33280, 65535);
            && AssignBlocks(ips, size, [], ["a", "c"]).table == [NatAllocation("a", low), NatAllocation("c", high)]
            && AssignBlocks(ips, size, [NatAllocation("a", low), NatAllocation("c", high)], ["a", "b"]).table ==
               [NatAllocation("a", low), NatAllocation("b", low)]
            && AssignBlocks(ips, size, [NatAllocation("a", low), NatAllocation("b", low)], ["a", "b"]).table ==
               [NatAllocation("a", low), NatAllocation("b", high)]
  {
    var ips, size, low, high := [ip, ip], 32256, Block(ip, 1024, 33279), Block(ip, 33280, 65535);
    FourBlocks(ip);
    hide BlockAt, IndexOf, BlocksPerIP, Total;
    var a, b, c := NatAllocation("a", low), NatAllocation("b", low), NatAllocation("c", high);
    assert [a][..0] == [] && [a, b][..1] == [a] && [a, c][..1] == [a];
    var pinned := Alloc({0}, map["a" := low]);
    assert Seeded(ips, size, [a]) == pinned;
    TwoSources(ips, size, Alloc({}, map[]), "a", "c", 0, 1);
    assert Seeded(ips, size, [a, c]) == Alloc({0, 1}, map["a" := low, "c" := high]);
    HeldAndNew(ips, size, Seeded(ips, size, [a, c]), "a", "b", 2);
    assert Seeded(ips, size, [a, b]) == pinned;
    HeldAndNew(ips, size, pinned, "a", "b", 1);
  }

  lemma FourBlocks(ip: string)
    ensures var ips, size, low, high := [ip, ip], 32256, Block(ip, 1024, 33279), Block(ip, 33280, 65535);
            && Total(ips, size) == 4 && BlockAt(ips, size, 0) == low && BlockAt(ips, size, 1) == high
               && BlockAt(ips, size, 2) == low
            && IndexOf(ips, size, low) == Some(0) && IndexOf(ips, size, high) == Some(1)
  {
    assert BlocksPerIP(32256) == 2;
  }

  lemma TwoSources(ips: seq<string>, size: int, a: Alloc, s: string, t: string, i: nat, j: nat)
    requires a == Alloc({}, map[]) && s != t && i == 0 && j == 1 && Total(ips, size) > 1
    ensures Lay(ips, size, a, [s, t]).table ==
            [NatAllocation(s, BlockAt(ips, size, i)), NatAllocation(t, BlockAt(ips, size, j))]
  {
    hide BlockAt, Total;
    assert [s, t][..1] == [s] && [s][..0] == [];
    var a1 := Alloc({0}, map[s := BlockAt(ips, size, 0)]);
    assert Assign(ips, size, a, s).alloc == a1;
    assert Lay(ips, size, a, [s]) == Laid(a1, [NatAllocation(s, BlockAt(ips, size, 0))], 0);
    assert LeastUnused(a1.used, 1, Total(ips, size)) == Some(1);
    assert Assign(ips, size, a1, t).block == Some(BlockAt(ips, size, 1));
    hide Assign;
  }

  /** A source that holds a block keeps it, and a new one gets the least free. */
  lemma HeldAndNew(ips: seq<string>, size: int, a: Alloc, s: string, t: string, i: nat)
    requires s in a.held && t !in a.held && i < Total(ips, size) && i !in a.used
             && forall j :: 0 <= j < i ==> j in a.used
    ensures Lay(ips, size, a, [s, t]).table == [NatAllocation(s, a.held[s]), NatAllocation(t, BlockAt(ips, size, i))]
  {
    hide BlockAt, Total;
    assert [s, t][..1] == [s] && [s][..0] == [];
    assert Lay(ips, size, a, [s]) == Laid(a, [NatAllocation(s, a.held[s])], 0);
    assert LeastUnused(a.used, 0, Total(ips, size)) == Some(i);
    assert Assign(ips, size, a, t).block == Some(BlockAt(ips, size, i));
    hide Assign;
  }
}
