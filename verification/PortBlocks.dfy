/** Source-NAT port blocks: a flat block index names a public address, by position, and a range of its
    ports. */
module PortBlocks {
  import opened Order

  const FIRST_USABLE_PORT: int := 1024
  const LAST_USABLE_PORT: int := 65535
  const MAX_INT32: int := 0x7fff_ffff

  datatype Block = Block(publicIP: string, portMin: int, portMax: int)

  function BlocksPerIP(size: int): nat {
    if size > 0 then (LAST_USABLE_PORT - FIRST_USABLE_PORT + 1) / size else 0
  }

  function Total(ips: seq<string>, size: int): nat { |ips| * BlocksPerIP(size) }

  /** The pool's block count fits the source's 32-bit index. */
  predicate Fits(ips: seq<string>, size: int) { Total(ips, size) <= MAX_INT32 }

  predicate Distinct(ips: seq<string>) { forall i, j :: 0 <= i < j < |ips| ==> ips[i] != ips[j] }

  /** As many whole blocks as fit into the ports 1024 to 65535, and none of no size. */
  lemma BlocksPerIPExactly(size: int)
    ensures size <= 0 ==> BlocksPerIP(size) == 0
    ensures size > 0 ==> BlocksPerIP(size) * size <= 65535 - 1024 + 1 < (BlocksPerIP(size) + 1) * size
  {
    if size > 0 { assert 64512 == 64512 / size * size + 64512 % size; }
  }

  lemma RowOf(ips: seq<string>, size: int, idx: nat)
    requires idx < Total(ips, size)
    ensures BlocksPerIP(size) > 0 && 0 <= idx / BlocksPerIP(size) < |ips|
            && 0 <= idx % BlocksPerIP(size) < BlocksPerIP(size)
    ensures idx == (idx / BlocksPerIP(size)) * BlocksPerIP(size) + idx % BlocksPerIP(size)
    ensures size > 0
  {
    assert size <= 0 ==> BlocksPerIP(size) == 0;
    hide BlocksPerIP;
    RowAndSlot(|ips|, BlocksPerIP(size), idx);
  }

  lemma RowAndSlot(rows: nat, per: nat, idx: nat)
    requires idx < rows * per
    ensures per > 0 && 0 <= idx / per < rows && 0 <= idx % per < per && idx == (idx / per) * per + idx % per
  {
    if idx / per >= rows { RowBelow(rows, idx / per, per); }
  }

  lemma RowBelow(a: nat, b: nat, per: nat)
    requires a <= b
    ensures a * per <= b * per
  {
  }

  function BlockAt(ips: seq<string>, size: int, idx: nat): Block
    requires idx < Total(ips, size)
  {
    RowOf(ips, size, idx);
    var portMin := FIRST_USABLE_PORT + (idx % BlocksPerIP(size)) * size;
    Block(ips[idx / BlocksPerIP(size)], portMin, portMin + size - 1)
  }

  /** The position of the first occurrence. */
  function Position(ips: seq<string>, ip: string): Option<nat> {
    if ips == [] then None
    else if ips[0] == ip then Some(0)
    else match Position(ips[1..], ip)
      case None => None
      case Some(i) => Some(i + 1)
  }

  /** A block's index, by its address and first port; none once the address left the pool or the port
      does not start a block. */
  function IndexOf(ips: seq<string>, size: int, b: Block): Option<nat> {
    if BlocksPerIP(size) == 0 then None
    else match Position(ips, b.publicIP)
      case None => None
      case Some(row) =>
        var off := b.portMin - FIRST_USABLE_PORT;
        if off < 0 || off % size != 0 || off / size >= BlocksPerIP(size) then None
        else Some(row * BlocksPerIP(size) + off / size)
  }

  // ---------------------------------------------------------------- arithmetic

  lemma Rebuilds(row: nat, k: nat, per: nat)
    requires k < per
    ensures (row * per + k) / per == row && (row * per + k) % per == k
  {
    var n := row * per + k;
    assert n == (n / per) * per + n % per;
    if n / per > row { RowBelow(row + 1, n / per, per); }
    if n / per < row { RowBelow(n / per + 1, row, per); }
  }

  lemma RowFits(row: nat, rows: nat, k: nat, per: nat)
    requires row < rows && k < per
    ensures row * per + k < rows * per
  {
    RowBelow(row + 1, rows, per);
  }

  lemma SlotFits(k: nat, size: int)
    requires size > 0 && k < BlocksPerIP(size)
    ensures (k + 1) * size <= LAST_USABLE_PORT - FIRST_USABLE_PORT + 1
  {
    RowBelow(k + 1, BlocksPerIP(size), size);
  }

  lemma {:induction false} PositionFinds(ips: seq<string>, ip: string)
    ensures match Position(ips, ip)
      case None => ip !in ips
      case Some(i) => i < |ips| && ips[i] == ip
  {
    if ips != [] && ips[0] != ip {
      PositionFinds(ips[1..], ip);
      assert ips == [ips[0]] + ips[1..];
    }
  }

  // ---------------------------------------------------------------- blocks and indices

  /** Every block lies on its pool's addresses and within the usable ports, `size` ports long. */
  lemma BlockInRange(ips: seq<string>, size: int, idx: nat)
    requires idx < Total(ips, size)
    ensures var b := BlockAt(ips, size, idx);
            && b.publicIP in ips && FIRST_USABLE_PORT <= b.portMin <= b.portMax <= LAST_USABLE_PORT
            && b.portMax - b.portMin + 1 == size
  {
    RowOf(ips, size, idx);
    SlotFits(idx % BlocksPerIP(size), size);
    var k := idx % BlocksPerIP(size);
    assert k * size >= 0 && (k + 1) * size == k * size + size;
  }

  /** The index of a block is the block's own index, as long as no address repeats. */
  lemma IndexOfBlockAt(ips: seq<string>, size: int, idx: nat)
    requires idx < Total(ips, size) && Distinct(ips)
    ensures IndexOf(ips, size, BlockAt(ips, size, idx)) == Some(idx)
  {
    RowOf(ips, size, idx);
    var per := BlocksPerIP(size);
    var row, k := idx / per, idx % per;
    PositionFinds(ips, ips[row]);
    Rebuilds(k, 0, size);
    assert k * size + 0 == k * size;
  }

  /** An index found for a block names the block with that address and first port. */
  lemma BlockAtIndexOf(ips: seq<string>, size: int, b: Block)
    ensures match IndexOf(ips, size, b)
      case None => true
      case Some(idx) =>
        && idx < Total(ips, size)
        && BlockAt(ips, size, idx).publicIP == b.publicIP && BlockAt(ips, size, idx).portMin == b.portMin
  {
    var found := IndexOf(ips, size, b);
    if found.Some? {
      var per := BlocksPerIP(size);
      var row := Position(ips, b.publicIP).value;
      var off := b.portMin - FIRST_USABLE_PORT;
      PositionFinds(ips, b.publicIP);
      RowFits(row, |ips|, off / size, per);
      Rebuilds(row, off / size, per);
      assert off == (off / size) * size + off % size;
    }
  }

  /** A block keeps an index in any list that still holds its address. */
  lemma IndexSurvivesGrowth(ips: seq<string>, more: seq<string>, size: int, idx: nat)
    requires idx < Total(ips, size) && BlockAt(ips, size, idx).publicIP in more
    ensures var b := BlockAt(ips, size, idx);
            var found := IndexOf(more, size, b);
            && found.Some? && found.value < Total(more, size) && BlockAt(more, size, found.value) == b
  {
    RowOf(ips, size, idx);
    var per := BlocksPerIP(size);
    var k := idx % per;
    var b := BlockAt(ips, size, idx);
    PositionFinds(more, b.publicIP);
    Rebuilds(k, 0, size);
    assert k * size + 0 == k * size && k * size >= 0;
    BlockAtIndexOf(more, size, b);
  }

  predicate Overlap(a: Block, b: Block) {
    a.publicIP == b.publicIP && a.portMin <= b.portMax && b.portMin <= a.portMax
  }

  predicate SameSlotTwice(ips: seq<string>, per: nat, i: nat, j: nat) {
    per > 0 && i / per < |ips| && j / per < |ips| && i / per != j / per && ips[i / per] == ips[j / per]
      && i % per == j % per
  }

  /** Two indices share a port exactly when they name the same slot of an address listed twice. */
  lemma OverlapExactly(ips: seq<string>, size: int, i: nat, j: nat)
    requires i < Total(ips, size) && j < Total(ips, size) && i != j
    ensures Overlap(BlockAt(ips, size, i), BlockAt(ips, size, j)) <==> SameSlotTwice(ips, BlocksPerIP(size), i, j)
  {
    hide BlocksPerIP;
    RowOf(ips, size, i);
    RowOf(ips, size, j);
    var per := BlocksPerIP(size);
    var a, b := i % per, j % per;
    if a < b { Separate(a, b, size); }
    if b < a { Separate(b, a, size); }
  }

  lemma Separate(a: nat, b: nat, size: int)
    requires a < b && size > 0
    ensures a * size + size - 1 < b * size
  {
    RowBelow(a + 1, b, size);
    assert (a + 1) * size == a * size + size;
  }

  /** Distinct addresses: distinct indices never share a port. */
  lemma DisjointBlocks(ips: seq<string>, size: int, i: nat, j: nat)
    requires i < Total(ips, size) && j < Total(ips, size) && i != j && Distinct(ips)
    ensures !Overlap(BlockAt(ips, size, i), BlockAt(ips, size, j))
  {
    hide BlockAt, BlocksPerIP, Overlap;
    OverlapExactly(ips, size, i, j);
  }
}
