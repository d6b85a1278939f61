/** Addresses as numbers, prefixes over them, the addresses a prefix never hands out, and the lowest
    free one. */
module Ipam {
  import opened Order

  function Pow2(n: nat): (p: nat)
    ensures p > 0
  {
    if n == 0 then 1 else 2 * Pow2(n - 1)
  }

  datatype RawIp = V4(n: nat) | V6(n: nat) {
    predicate Valid() { n < Pow2(Width()) }
    function Width(): nat { if V4? then 32 else 128 }
  }

  lemma Pow2Positive()
    ensures V4(0).Valid() && V6(0).Valid()
  {
  }

  type Ip = a: RawIp | a.Valid() witness (Pow2Positive(); V4(0))

  /** An IPv4-mapped IPv6 address names the IPv4 address in its low 32 bits (section 2.5.5.2 of RFC 4291). */
  function Unmap(a: Ip): (u: Ip) {
    if a.V6? && a.n / Pow2(32) == 0xffff then LowWord(a.n); V4(a.n % Pow2(32)) else a
  }

  lemma LowWord(n: nat)
    ensures n % Pow2(32) < Pow2(32)
  {
  }

  /** netip.Addr.Compare: by family, then by value. */
  predicate Below(a: Ip, b: Ip) {
    if a.V4? != b.V4? then a.V4? else a.n < b.n
  }

  /** The greatest multiple of d that is at most n. */
  function Floor(n: nat, d: nat): nat
    requires d > 0
  {
    (n / d) * d
  }

  datatype RawNet = Net(addr: Ip, len: nat) {
    predicate Valid() { len <= addr.Width() }
    /** How many addresses the prefix spans. */
    function Span(): nat
      requires Valid()
    {
      Pow2(addr.Width() - len)
    }
    /** The masked network address, as a number: the host bits cleared. */
    function Base(): nat
      requires Valid()
    {
      Floor(addr.n, Span())
    }
    /** netip.Prefix.Contains. */
    predicate Contains(a: Ip)
      requires Valid()
    {
      a.V4? == addr.V4? && a.n / Span() == addr.n / Span()
    }
  }

  type Net = p: RawNet | p.Valid() witness (Pow2Positive(); Net(V4(0), 0))

  /** The address of p's family with this number. */
  function At(p: Net, n: nat): Ip
    requires n < Pow2(p.addr.Width())
  {
    if p.addr.V4? then V4(n) else V6(n)
  }

  /** InPrefix: a member of the prefix, of the prefix's own family. */
  predicate InPrefix(p: Net, a: Ip) {
    if p.addr.V4? != a.V4? then false else p.Contains(a)
  }

  // ---------------------------------------------------------------- powers of two

  lemma {:induction false} Pow2Sum(a: nat, b: nat)
    ensures Pow2(a + b) == Pow2(a) * Pow2(b)
  {
    if a > 0 { Pow2Sum(a - 1, b); }
  }

  lemma DivBounds(n: nat, d: nat, q: nat)
    requires d > 0
    ensures n / d == q <==> q * d <= n < (q + 1) * d
  {
    assert n == (n / d) * d + n % d;
    if n / d < q { MulMonotone(n / d + 1, q, d); }
    if n / d > q { MulMonotone(q + 1, n / d, d); }
  }

  lemma MulMonotone(a: nat, b: nat, d: nat)
    requires a <= b
    ensures a * d <= b * d
  {
  }

  /** A prefix is the interval [Base, Base + Span) of its family, and lies within the family. */
  lemma PrefixIsInterval(p: Net, a: Ip)
    ensures p.Contains(a) <==> a.V4? == p.addr.V4? && p.Base() <= a.n < p.Base() + p.Span()
  {
    hide Pow2, Floor;
    SameRow(p.addr.n, a.n, p.Span());
  }

  lemma SameRow(n: nat, a: nat, d: nat)
    requires d > 0
    ensures a / d == n / d <==> Floor(n, d) <= a < Floor(n, d) + d
  {
    DivBounds(a, d, n / d);
    OneMoreRow(n / d, d);
  }

  lemma OneMoreRow(q: nat, d: nat)
    ensures (q + 1) * d == q * d + d
  {
  }

  lemma PrefixFits(p: Net)
    ensures p.Base() + p.Span() <= Pow2(p.addr.Width())
  {
    hide Pow2;
    var w := p.addr.Width();
    Pow2Sum(p.len, w - p.len);
    RowsFit(p.addr.n, p.Span(), Pow2(p.len));
  }

  lemma RowsFit(n: nat, d: nat, rows: nat)
    requires d > 0 && n < rows * d
    ensures (n / d) * d + d <= rows * d
  {
    var q := n / d;
    DivBounds(n, d, q);
    if q >= rows { MulMonotone(rows, q, d); }
    MulMonotone(q + 1, rows, d);
    OneMoreRow(q, d);
  }

  /** The 2^32 addresses ::ffff:0:0 upwards stand for the IPv4 addresses in turn; every other stands for itself. */
  lemma UnmapExactly(a: Ip, m: nat)
    ensures m < Pow2(32) && a == V6(0xffff * Pow2(32) + m) ==> Unmap(a) == V4(m)
    ensures a.V4? || a.n < 0xffff * Pow2(32) || a.n >= 0x10000 * Pow2(32) ==> Unmap(a) == a
  {
    hide Pow2;
    DivBounds(a.n, Pow2(32), 0xffff);
    if a.V6? { assert a.n == a.n / Pow2(32) * Pow2(32) + a.n % Pow2(32); }
  }

  // ---------------------------------------------------------------- the broadcast address

  /** Bitwise or. */
  function BitOr(a: nat, b: nat): nat
    decreases a + b
  {
    if a == 0 && b == 0 then 0
    else 2 * BitOr(a / 2, b / 2) + if a % 2 == 1 || b % 2 == 1 then 1 else 0
  }

  lemma {:induction false} OrWithZero(a: nat)
    ensures BitOr(a, 0) == a && BitOr(0, a) == a
  {
    if a > 0 { OrWithZero(a / 2); }
  }

  /** Or-ing a number into the clear low bits of another adds it. */
  lemma {:induction false} OrIntoClearBits(x: nat, h: nat, y: nat)
    requires y < Pow2(h)
    ensures BitOr(x * Pow2(h), y) == x * Pow2(h) + y
    decreases h
  {
    if h == 0 {
      OrWithZero(x);
    } else {
      var p := Pow2(h - 1);
      assert Pow2(h) == 2 * p;
      OrIntoClearBits(x, h - 1, y / 2);
      hide Pow2;
      OrOneBit(x * p, y);
      Twice(x, p);
    }
  }

  lemma Twice(x: nat, p: nat)
    ensures x * (2 * p) == 2 * (x * p)
  {
  }

  lemma OrOneBit(a: nat, y: nat)
    requires BitOr(a, y / 2) == a + y / 2
    ensures BitOr(2 * a, y) == 2 * a + y
  {
    assert (2 * a) / 2 == a && (2 * a) % 2 == 0;
  }

  datatype Bytes = Bytes(b0: nat, b1: nat, b2: nat, b3: nat)

  /** netip.Addr.As4. */
  function As4(n: nat): Bytes {
    Bytes(n / Pow2(24) % 256, n / Pow2(16) % 256, n / Pow2(8) % 256, n % 256)
  }

  /** netip.AddrFrom4, as a number. */
  function From4(b: Bytes): nat {
    b.b0 * Pow2(24) + b.b1 * Pow2(16) + b.b2 * Pow2(8) + b.b3
  }

  /** uint32(b0)<<24 | uint32(b1)<<16 | uint32(b2)<<8 | uint32(b3). */
  function Word(b: Bytes): nat {
    BitOr(BitOr(BitOr(b.b0 * Pow2(24), b.b1 * Pow2(16)), b.b2 * Pow2(8)), b.b3)
  }

  lemma Powers()
    ensures Pow2(8) == 256 && Pow2(16) == 65536 && Pow2(24) == 16777216 && Pow2(32) == 4294967296
  {
    assert Pow2(4) == 16;
    Pow2Sum(4, 4);
    Pow2Sum(8, 8);
    Pow2Sum(16, 8);
    Pow2Sum(16, 16);
  }

  lemma SumOfBytes(n: nat)
    requires n < 4294967296
    ensures n == (n / 16777216 % 256) * 16777216 + (n / 65536 % 256) * 65536 + (n / 256 % 256) * 256 + n % 256
  {
    var a, b, c := n / 256, n / 65536, n / 16777216;
    assert b == a / 256 && c == b / 256;
    assert n == a * 256 + n % 256 && a == b * 256 + a % 256 && b == c * 256 + b % 256 && c < 256;
  }

  /** The shifts and ors put the four bytes next to one another. */
  lemma WordIsSum(b: Bytes)
    requires b.b0 < 256 && b.b1 < 256 && b.b2 < 256 && b.b3 < 256
    ensures Word(b) == From4(b)
  {
    Powers();
    hide Pow2, BitOr;
    OrIntoClearBits(b.b0, 24, b.b1 * 65536);
    OrIntoClearBits(b.b0 * 256 + b.b1, 16, b.b2 * 256);
    OrIntoClearBits((b.b0 * 256 + b.b1) * 256 + b.b2, 8, b.b3);
  }

  lemma FourBytes(n: nat)
    requires n < Pow2(32)
    ensures From4(As4(n)) == n && Word(As4(n)) == n
  {
    Powers();
    hide Pow2, BitOr, Word;
    SumOfBytes(n);
    WordIsSum(As4(n));
  }

  /** lastAddr: the highest address of an IPv4 prefix, by or-ing in the host bits. */
  function LastAddr(p: Net): nat
    requires p.addr.V4?
  {
    var v := Word(As4(p.Base()));
    var host := 32 - p.len;
    var v' :=
      if host >= 32 then Pow2(32) - 1
      else if host > 0 then BitOr(v, Pow2(host) - 1)
      else v;
    From4(As4(v'))
  }

  /** For every length 0..32 the bit arithmetic gives the true top of the prefix. */
  lemma LastAddrIsTop(p: Net)
    requires p.addr.V4?
    ensures LastAddr(p) == p.Base() + p.Span() - 1 && LastAddr(p) < Pow2(32)
  {
    hide As4, From4, Word, BitOr, Pow2;
    PrefixFits(p);
    FourBytes(p.Base());
    OrIntoClearBits(p.addr.n / p.Span(), 32 - p.len, p.Span() - 1);
    FourBytes(p.Base() + p.Span() - 1);
    if p.len == 32 { SingleAddress(p); }
    if p.len == 0 { WholeSpace(p); }
  }

  lemma SingleAddress(p: Net)
    requires p.addr.V4? && p.len == 32
    ensures p.Span() == 1
  {
  }

  lemma WholeSpace(p: Net)
    requires p.addr.V4? && p.len == 0
    ensures p.Base() == 0
  {
    hide Pow2;
    DivBounds(p.addr.n, p.Span(), 0);
  }

  /** Network and broadcast for IPv4, the subnet-router anycast address for IPv6 (section 2.6.1 of RFC 4291). */
  function ReservedFor(p: Net): seq<Ip> {
    PrefixFits(p);
    if p.addr.V4? then
      LastAddrIsTop(p);
      [At(p, p.Base()), At(p, LastAddr(p))]
    else [At(p, p.Base())]
  }

  /** What is reserved is the bottom of the prefix and, for IPv4, its top. */
  lemma ReservedAreEnds(p: Net, a: Ip)
    ensures a in ReservedFor(p) <==>
            InPrefix(p, a)
              && ((forall b: Ip :: InPrefix(p, b) ==> !Below(b, a))
                 || (p.addr.V4? && forall b: Ip :: InPrefix(p, b) ==> !Below(a, b)))
  {
    hide Pow2, LastAddr, Floor;
    PrefixFits(p);
    if p.addr.V4? { LastAddrIsTop(p); }
    forall b: Ip ensures InPrefix(p, b) <==> b.V4? == p.addr.V4? && p.Base() <= b.n < p.Base() + p.Span() {
      PrefixIsInterval(p, b);
    }
    var bottom, top := At(p, p.Base()), At(p, p.Base() + p.Span() - 1);
    assert InPrefix(p, bottom) && InPrefix(p, top);
    assert a in ReservedFor(p) <==> a == bottom || (p.addr.V4? && a == top);
  }

  // ---------------------------------------------------------------- the lowest free address

  /** The first number from n up to top whose address is not skipped. */
  ghost function FirstFree(p: Net, n: nat, top: nat, skip: set<Ip>): (r: Option<nat>)
    requires n <= top <= Pow2(p.addr.Width())
    ensures r.Some? ==> n <= r.value < top && At(p, r.value) !in skip
    ensures r.Some? ==> forall k :: n <= k < r.value ==> At(p, k) in skip
    ensures r.None? ==> forall k :: n <= k < top ==> At(p, k) in skip
    decreases top - n
  {
    if n == top then None
    else if At(p, n) !in skip then Some(n)
    else FirstFree(p, n + 1, top, skip)
  }

  ghost function LowestFreeIn(p: Net, skip: set<Ip>): Option<Ip> {
    PrefixFits(p);
    match FirstFree(p, p.Base(), p.Base() + p.Span(), skip)
    case None => None
    case Some(n) => Some(At(p, n))
  }

  /** The least member of the prefix outside `skip`; none exactly when every member is skipped. */
  lemma LowestFreeIsLeast(p: Net, skip: set<Ip>)
    ensures LowestFreeIn(p, skip).Some? ==>
              var a := LowestFreeIn(p, skip).value;
              InPrefix(p, a) && a !in skip && forall b: Ip :: InPrefix(p, b) && Below(b, a) ==> b in skip
    ensures LowestFreeIn(p, skip).None? <==> forall b: Ip :: InPrefix(p, b) ==> b in skip
  {
    PrefixFits(p);
    var r := LowestFreeIn(p, skip);
    forall b: Ip ensures InPrefix(p, b) <==> b.V4? == p.addr.V4? && p.Base() <= b.n < p.Base() + p.Span() {
      PrefixIsInterval(p, b);
    }
    forall b: Ip | InPrefix(p, b) ensures At(p, b.n) == b {}
    if r.Some? {
      assert InPrefix(p, r.value);
    }
  }

  /** LowestFree: the skip set, then a walk from the network address to the first gap. It looks at
      no more than one address beyond those it skips. */
  method LowestFree(p: Net, used: set<Ip>, reserved: seq<Ip>) returns (found: Option<Ip>, inspected: nat)
    ensures found == LowestFreeIn(p, used + set a | a in reserved)
    ensures inspected <= |used + set a | a in reserved| + 1
  {
    hide Pow2, LowestFreeIn;
    var skip := used;
    for i := 0 to |reserved|
      invariant skip == used + set a | a in reserved[..i]
    {
      skip := skip + {reserved[i]};
      assert reserved[..i + 1] == reserved[..i] + [reserved[i]];
    }
    assert reserved[..|reserved|] == reserved;
    found, inspected := WalkToGap(p, skip);
  }

  method WalkToGap(p: Net, skip: set<Ip>) returns (found: Option<Ip>, inspected: nat)
    ensures found == LowestFreeIn(p, skip) && inspected <= |skip| + 1
  {
    PrefixFits(p);
    hide Pow2, Floor;
    var n, top := p.Base(), p.Base() + p.Span();
    ghost var walked: set<Ip> := {};
    inspected := 0;
    while n < top
      invariant p.Base() <= n <= top
      invariant FirstFree(p, p.Base(), top, skip) == FirstFree(p, n, top, skip)
      invariant walked <= skip && |walked| == inspected && forall a :: a in walked ==> a.n < n
      decreases top - n
    {
      inspected := inspected + 1;
      if At(p, n) !in skip {
        Subset(walked, skip);
        return Some(At(p, n)), inspected;
      }
      walked := walked + {At(p, n)};
      n := n + 1;
    }
    Subset(walked, skip);
    found := None;
  }

  lemma {:induction false} Subset<T>(a: set<T>, b: set<T>)
    requires a <= b
    ensures |a| <= |b|
    decreases a
  {
    if a != {} {
      var x :| x in a;
      Subset(a - {x}, b - {x});
    }
  }
}
