/** The port-block allocator as an object, and the gateway's pass that drives it. */
module PortAllocator {
  import opened Order
  import opened PortBlocks
  import opened NatGateway
  import I = Ipam

  class Allocator {
    const ips: seq<string>
    const size: int
    const blocksPerIP: nat
    var used: set<nat>
    var held: map<string, Block>

    constructor (ips: seq<string>, size: int)
      ensures this.ips == ips && this.size == size && Valid() && State() == Alloc({}, map[])
    {
      this.ips := ips;
      this.size := size;
      this.blocksPerIP := if size > 0 then (LAST_USABLE_PORT - FIRST_USABLE_PORT + 1) / size else 0;
      used := {};
      held := map[];
    }

    ghost predicate Valid()
      reads this
    {
      blocksPerIP == BlocksPerIP(size) && forall i :: i in used ==> i < Total(ips, size)
    }

    ghost function State(): Alloc
      reads this
    {
      Alloc(used, held)
    }

    /** The flat index of a block: a search for its address, then the slot its first port starts. */
    method BlockToIndex(b: Block) returns (idx: Option<nat>)
      requires Valid()
      ensures idx == IndexOf(ips, size, b)
    {
      if blocksPerIP == 0 || size == 0 { return None; }
      var row := 0;
      while row < |ips| && ips[row] != b.publicIP
        invariant 0 <= row <= |ips|
        invariant Position(ips, b.publicIP) ==
                match Position(ips[row..], b.publicIP) case None => None case Some(i) => Some(i + row)
      {
        row := row + 1;
      }
      if row == |ips| { return None; }
      var off := b.portMin - FIRST_USABLE_PORT;
      if off < 0 || off % size != 0 { return None; }
      var blockInIP := off / size;
      if blockInIP >= blocksPerIP { return None; }
      idx := Some(row * blocksPerIP + blockInIP);
    }

    /** The block of a flat index. */
    method BlockOf(idx: nat) returns (b: Block)
      requires Valid() && idx < Total(ips, size)
      ensures b == BlockAt(ips, size, idx)
    {
      RowOf(ips, size, idx);
      var portMin := FIRST_USABLE_PORT + (idx % blocksPerIP) * size;
      b := Block(ips[idx / blocksPerIP], portMin, portMin + size - 1);
    }

    method Preassign(source: string, b: Block)
      requires Valid()
      modifies this
      ensures Valid() && State() == NatGateway.Preassign(ips, size, old(State()), NatAllocation(source, b))
    {
      hide IndexOf, BlockAt;
      var idx := BlockToIndex(b);
      if idx.None? || idx.value in used { return; }
      BlockAtIndexOf(ips, size, b);
      var pinned := BlockOf(idx.value);
      used := used + {idx.value};
      held := held[source := pinned];
    }

    /** The source's own block, else the lowest free one, else nothing. */
    method Assign(source: string) returns (r: Option<Block>)
      requires Valid() && Fits(ips, size)
      modifies this
      ensures Valid() && Assigned(State(), r) == NatGateway.Assign(ips, size, old(State()), source)
    {
      hide BlockAt;
      if source in held { return Some(held[source]); }
      var total := |ips| * blocksPerIP;
      if total == 0 { return None; }
      var idx := 0;
      while idx < total && idx in used
        invariant 0 <= idx <= total && State() == old(State())
        invariant LeastUnused(used, 0, total) == LeastUnused(used, idx, total)
      {
        idx := idx + 1;
      }
      if idx == total { return None; }
      used := used + {idx};
      var b := BlockOf(idx);
      held := held[source := b];
      r := Some(b);
    }
  }

  /** Lays the sources out over the addresses, every persisted assignment pinned first. */
  method AssignAll(persisted: seq<NatAllocation>, addrs: seq<string>, size: int, sources: seq<string>)
    returns (table: seq<NatAllocation>, unblocked: nat)
    requires Fits(addrs, size)
    ensures table == AssignBlocks(addrs, size, persisted, sources).table
    ensures unblocked == AssignBlocks(addrs, size, persisted, sources).unblocked
  {
    hide NatGateway.Preassign, NatGateway.Assign;
    var a := new Allocator(addrs, size);
    for i := 0 to |persisted|
      invariant a.Valid() && fresh(a) && a.State() == Seeded(addrs, size, persisted[..i])
    {
      assert persisted[..i + 1][..i] == persisted[..i];
      a.Preassign(persisted[i].source, persisted[i].block);
    }
    assert persisted[..|persisted|] == persisted;
    ghost var seeded := a.State();
    table, unblocked := [], 0;
    for i := 0 to |sources|
      invariant a.Valid() && fresh(a)
      invariant Laid(a.State(), table, unblocked) == Lay(addrs, size, seeded, sources[..i])
    {
      assert sources[..i + 1][..i] == sources[..i];
      var b := a.Assign(sources[i]);
      if b.None? {
        unblocked := unblocked + 1;
      } else {
        table := table + [NatAllocation(sources[i], b.value)];
      }
    }
    assert sources[..|sources|] == sources;
  }

  // ---------------------------------------------------------------- growing by one address

  function Shown(held: seq<I.Ip>, show: I.Ip -> string): seq<string> {
    seq(|held|, i requires 0 <= i < |held| => show(held[i]))
  }

  /** Printing an address and reading it back. */
  ghost predicate Reads(parse: string -> Option<I.Ip>, show: I.Ip -> string) {
    forall a: I.Ip :: parse(show(a)).Some? && parse(show(a)).value == a
  }

  /** Everything before `at` reads as an address not above `addr`; what stands there is above it, or no
      address. */
  ghost predicate InsertionPoint(addrs: seq<string>, addr: I.Ip, parse: string -> Option<I.Ip>, at: nat) {
    && at <= |addrs|
    && (forall k :: 0 <= k < at ==> parse(addrs[k]).Some? && !I.Below(addr, parse(addrs[k]).value))
    && (at < |addrs| ==> parse(addrs[at]).None? || I.Below(addr, parse(addrs[at]).value))
  }

  method InsertSorted(addrs: seq<string>, addr: I.Ip, parse: string -> Option<I.Ip>, show: I.Ip -> string)
    returns (r: seq<string>)
    ensures exists at: nat :: InsertionPoint(addrs, addr, parse, at) && r == addrs[..at] + [show(addr)] + addrs[at..]
  {
    var i := 0;
    while i < |addrs|
      invariant 0 <= i <= |addrs|
      invariant forall k :: 0 <= k < i ==> parse(addrs[k]).Some? && !I.Below(addr, parse(addrs[k]).value)
    {
      var a := parse(addrs[i]);
      if a.None? || I.Below(addr, a.value) { break; }
      i := i + 1;
    }
    assert InsertionPoint(addrs, addr, parse, i);
    r := addrs[..i] + [show(addr)] + addrs[i..];
  }

  lemma BelowIsStrict()
    ensures StrictOrder(I.Below)
    ensures forall a: I.Ip, b: I.Ip :: a != b ==> I.Below(a, b) || I.Below(b, a)
  {
  }

  lemma SplitAscending<T(!new)>(less: (T, T) -> bool, s: seq<T>, x: T, at: nat)
    requires StrictOrder(less) && Ascending(less, s) && at <= |s|
    requires forall k :: 0 <= k < at ==> less(s[k], x)
    requires at < |s| ==> less(x, s[at])
    ensures Ascending(less, s[..at] + [x] + s[at..])
    ensures forall y :: y in s[..at] + [x] + s[at..] <==> y in s || y == x
  {
  }

  /** The list after a grow is the one the next pass reads back: the ascending list of the old
      addresses and the new one, whichever way that list is computed. */
  lemma GrownListIsCanonical(held: seq<I.Ip>, addr: I.Ip, next: seq<I.Ip>, parse: string -> Option<I.Ip>,
      show: I.Ip -> string, at: nat)
    requires Ascending(I.Below, held) && addr !in held && Reads(parse, show)
    requires Ascending(I.Below, next) && forall a :: a in next <==> a in held || a == addr
    requires InsertionPoint(Shown(held, show), addr, parse, at)
    ensures Shown(held, show)[..at] + [show(addr)] + Shown(held, show)[at..] == Shown(next, show)
  {
    BelowIsStrict();
    hide I.Below;
    forall k | 0 <= k < |held| ensures parse(Shown(held, show)[k]) == Some(held[k]) && held[k] in held {}
    SplitAscending(I.Below, held, addr, at);
    AscendingUnique(I.Below, held[..at] + [addr] + held[at..], next);
  }

  /** One pass over a gateway that draws from a pool: when a source cannot be blocked and the pool
      yields another address, the layout is redone, from the same persisted table, over the grown list. */
  method SyncTable(persisted: seq<NatAllocation>, addrs: seq<string>, extra: Option<I.Ip>, size: int,
      sources: seq<string>,
                   parse: string -> Option<I.Ip>, show: I.Ip -> string)
    returns (table: seq<NatAllocation>, ready: bool, over: seq<string>)
    requires Fits(addrs, size) && Total(addrs, size) + BlocksPerIP(size) <= MAX_INT32
    ensures over == addrs || (extra.Some? && exists at: nat :: InsertionPoint(addrs, extra.value, parse, at)
                                                          && over == addrs[..at] + [show(extra.value)] + addrs[at..])
    ensures table == AssignBlocks(over, size, persisted, sources).table
    ensures ready <==> AssignBlocks(over, size, persisted, sources).unblocked == 0
    ensures over == addrs <==> AssignBlocks(addrs, size, persisted, sources).unblocked == 0 || extra.None?
  {
    hide AssignBlocks;
    var unblocked;
    over := addrs;
    table, unblocked := AssignAll(persisted, addrs, size, sources);
    if unblocked > 0 && extra.Some? {
      over := InsertSorted(addrs, extra.value, parse, show);
      assert |over| == |addrs| + 1;
      assert Fits(over, size) by { OneMore(|addrs|, BlocksPerIP(size)); }
      table, unblocked := AssignAll(persisted, over, size, sources);
    }
    ready := unblocked == 0;
  }

  lemma OneMore(n: nat, per: nat)
    ensures (n + 1) * per == n * per + per
  {
  }
}
