/** The object name of an address allocation. Creating that name is the allocation, so names must
    determine, and be determined by, the pool and the address. */
module AllocationNames {
  import opened Order
  import opened Ipam

  function Digit(d: nat): char
    requires d < 16
  {
    "0123456789abcdef"[d]
  }

  function Decimal(n: nat): string {
    if n < 10 then [Digit(n)] else Decimal(n / 10) + [Digit(n % 10)]
  }

  /** Four hexadecimal digits, as in an expanded IPv6 group. */
  function Hex4(n: nat): string
    requires n < 65536
  {
    [Digit(n / 4096), Digit(n / 256 % 16), Digit(n / 16 % 16), Digit(n % 16)]
  }

  /** The k lowest digits of n in base p, highest first. */
  function Limbs(n: nat, p: nat, k: nat): (ls: seq<nat>)
    requires p > 0
    ensures |ls| == k && forall i :: 0 <= i < k ==> ls[i] < p
    decreases k
  {
    if k == 0 then [] else Limbs(n / p, p, k - 1) + [n % p]
  }

  /** The dash-separated groups: four decimal bytes, or eight expanded hexadecimal words. */
  function Groups(a: Ip): seq<string> {
    if a.V4? then
      var bytes := Limbs(a.n, 256, 4);
      seq(4, i requires 0 <= i < 4 => Decimal(bytes[i]))
    else
      var words := Limbs(a.n, 65536, 8);
      seq(8, i requires 0 <= i < 8 => Hex4(words[i]))
  }

  /** "." or ":" replaced by "-" between the groups. */
  function Dashed(gs: seq<string>): string
    requires gs != []
  {
    if |gs| == 1 then gs[0] else Dashed(gs[..|gs| - 1]) + "-" + gs[|gs| - 1]
  }

  function RawName(pool: string, addr: Ip): string {
    pool + "-" + Dashed(Groups(Unmap(addr)))
  }

  /** allocationName; `legal` is the DNS-1123 subdomain check. */
  function AllocationName(legal: string -> bool, pool: string, addr: Ip): Option<string> {
    if legal(RawName(pool, addr)) then Some(RawName(pool, addr)) else None
  }

  // ---------------------------------------------------------------- digits

  predicate NoDash(s: string) { forall i :: 0 <= i < |s| ==> s[i] != '-' }

  lemma DigitInjective(a: nat, b: nat)
    requires a < 16 && b < 16 && Digit(a) == Digit(b)
    ensures a == b
  {
  }

  lemma {:induction false} DecimalShape(n: nat)
    ensures |Decimal(n)| > 0 && NoDash(Decimal(n)) && (n >= 10 ==> |Decimal(n)| > 1) && (n < 1000 ==> |Decimal(n)| <= 3)
    ensures n < 100 ==> |Decimal(n)| <= 2
  {
    if n >= 10 { DecimalShape(n / 10); }
  }

  lemma {:induction false} DecimalInjective(n: nat, m: nat)
    requires Decimal(n) == Decimal(m)
    ensures n == m
  {
    DecimalShape(n);
    DecimalShape(m);
    var s := Decimal(n);
    if n < 10 {
      DigitInjective(n, m);
    } else {
      assert Decimal(n / 10) == s[..|s| - 1] && Decimal(m / 10) == s[..|s| - 1];
      assert Digit(n % 10) == s[|s| - 1] == Digit(m % 10);
      DigitInjective(n % 10, m % 10);
      DecimalInjective(n / 10, m / 10);
    }
  }

  lemma Hex4Shape(n: nat)
    requires n < 65536
    ensures |Hex4(n)| == 4 && NoDash(Hex4(n))
  {
  }

  lemma Hex4Injective(n: nat, m: nat)
    requires n < 65536 && m < 65536 && Hex4(n) == Hex4(m)
    ensures n == m
  {
    var a, b := Hex4(n), Hex4(m);
    assert a[0] == b[0] && a[1] == b[1] && a[2] == b[2] && a[3] == b[3];
    hide Hex4;
    DigitInjective(n / 4096, m / 4096);
    DigitInjective(n / 256 % 16, m / 256 % 16);
    DigitInjective(n / 16 % 16, m / 16 % 16);
    DigitInjective(n % 16, m % 16);
    FromNibbles(n);
    FromNibbles(m);
  }

  lemma FromNibbles(n: nat)
    ensures n == (n / 4096) * 4096 + (n / 256 % 16) * 256 + (n / 16 % 16) * 16 + n % 16
  {
    var a, b := n / 16, n / 256;
    assert b == a / 16 && n / 4096 == b / 16;
  }

  function Power(p: nat, k: nat): nat { if k == 0 then 1 else Power(p, k - 1) * p }

  lemma {:induction false} PowersOfWords(k: nat)
    ensures Pow2(16 * k) == Power(65536, k)
  {
    if k > 0 {
      PowersOfWords(k - 1);
      Pow2Sum(16 * (k - 1), 16);
      Powers();
    }
  }

  lemma FamilyBounds()
    ensures Pow2(32) == Power(256, 4) && Pow2(128) == Power(65536, 8)
  {
    Powers();
    PowersOfWords(8);
    assert Power(256, 2) == 65536;
  }

  lemma {:induction false} LimbsInjective(n: nat, m: nat, p: nat, k: nat)
    requires p > 0 && n < Power(p, k) && m < Power(p, k) && Limbs(n, p, k) == Limbs(m, p, k)
    ensures n == m
    decreases k
  {
    if k > 0 {
      var s := Limbs(n, p, k);
      assert Limbs(n / p, p, k - 1) == s[..k - 1] && Limbs(m / p, p, k - 1) == s[..k - 1];
      assert s[k - 1] == n % p == m % p;
      QuotientBelow(n, p, Power(p, k - 1));
      QuotientBelow(m, p, Power(p, k - 1));
      LimbsInjective(n / p, m / p, p, k - 1);
      Recombined(n, p);
      Recombined(m, p);
    }
  }

  lemma Recombined(n: nat, p: nat)
    requires p > 0
    ensures n == (n / p) * p + n % p
  {
  }

  lemma QuotientBelow(n: nat, p: nat, q: nat)
    requires p > 0 && n < q * p
    ensures n / p < q
  {
    DivBounds(n, p, n / p);
    if n / p >= q { MulMonotone(q, n / p, p); }
  }

  // ---------------------------------------------------------------- groups

  predicate Grouped(gs: seq<string>) { forall i :: 0 <= i < |gs| ==> NoDash(gs[i]) }

  lemma GroupsShape(a: Ip)
    ensures var gs := Groups(a); Grouped(gs) && |gs| == (if a.V4? then 4 else 8)
    ensures var gs := Groups(a); if a.V4? then |gs[3]| <= 3 else |gs[7]| == 4
  {
    hide Pow2, Limbs, Decimal, Hex4, NoDash;
    var gs := Groups(a);
    forall i | 0 <= i < |gs|
      ensures NoDash(gs[i]) && |gs[i]| <= 4 && (a.V4? ==> |gs[i]| <= 3) && (a.V6? ==> |gs[i]| == 4)
    {
      if a.V4? { DecimalShape(Limbs(a.n, 256, 4)[i]); } else { Hex4Shape(Limbs(a.n, 65536, 8)[i]); }
    }
  }

  lemma GroupsInjective(a: Ip, b: Ip)
    requires Groups(a) == Groups(b)
    ensures a == b
  {
    GroupsShape(a);
    GroupsShape(b);
    FamilyBounds();
    hide Pow2, Limbs, Decimal, Hex4, Power;
    var ga, gb := Groups(a), Groups(b);
    if a.V4? {
      var x, y := Limbs(a.n, 256, 4), Limbs(b.n, 256, 4);
      forall i | 0 <= i < 4 ensures x[i] == y[i] { assert ga[i] == gb[i]; DecimalInjective(x[i], y[i]); }
      assert x == y;
      LimbsInjective(a.n, b.n, 256, 4);
    } else {
      var x, y := Limbs(a.n, 65536, 8), Limbs(b.n, 65536, 8);
      forall i | 0 <= i < 8 ensures x[i] == y[i] { assert ga[i] == gb[i]; Hex4Injective(x[i], y[i]); }
      assert x == y;
      LimbsInjective(a.n, b.n, 65536, 8);
    }
  }

  // ---------------------------------------------------------------- splitting a name

  /** A string splits at its last dash in one way only. */
  lemma SplitAtLastDash(x: string, g: string, y: string, h: string)
    requires NoDash(g) && NoDash(h) && x + "-" + g == y + "-" + h
    ensures x == y && g == h
  {
    var s, t := x + "-" + g, y + "-" + h;
    assert s[|x|] == '-' && t[|y|] == '-';
    assert forall j :: |x| < j < |s| ==> s[j] == g[j - |x| - 1];
    assert forall j :: |y| < j < |t| ==> t[j] == h[j - |y| - 1];
    assert |x| == |y|;
    assert x == s[..|x|] && y == t[..|y|] && g == s[|x| + 1..] && h == t[|y| + 1..];
  }

  /** Pool and groups appended one by one. */
  function Joined(pool: string, gs: seq<string>): string {
    if gs == [] then pool else Joined(pool, gs[..|gs| - 1]) + "-" + gs[|gs| - 1]
  }

  lemma {:induction false} NameIsJoined(pool: string, gs: seq<string>)
    requires gs != []
    ensures pool + "-" + Dashed(gs) == Joined(pool, gs)
  {
    var init, g := gs[..|gs| - 1], gs[|gs| - 1];
    if |gs| == 1 {
      assert Joined(pool, init) == pool;
    } else {
      NameIsJoined(pool, init);
      assert pool + "-" + (Dashed(init) + "-" + g) == (pool + "-" + Dashed(init)) + "-" + g;
    }
  }

  lemma {:induction false} JoinedInjective(p: string, gs: seq<string>, q: string, hs: seq<string>)
    requires Grouped(gs) && Grouped(hs) && |gs| == |hs| && Joined(p, gs) == Joined(q, hs)
    ensures p == q && gs == hs
  {
    if gs != [] {
      var n := |gs| - 1;
      SplitAtLastDash(Joined(p, gs[..n]), gs[n], Joined(q, hs[..n]), hs[n]);
      JoinedInjective(p, gs[..n], q, hs[..n]);
      assert gs == gs[..n] + [gs[n]] && hs == hs[..n] + [hs[n]];
    }
  }

  /** One name per (pool, unmapped address), and one (pool, unmapped address) per name, across both
      families. */
  lemma NamesInjective(p: string, a: Ip, q: string, b: Ip)
    ensures RawName(p, a) == RawName(q, b) <==> p == q && Unmap(a) == Unmap(b)
  {
    hide Pow2, Groups, Unmap;
    var u, w := Unmap(a), Unmap(b);
    GroupsShape(u);
    GroupsShape(w);
    var gs, hs := Groups(u), Groups(w);
    NameIsJoined(p, gs);
    NameIsJoined(q, hs);
    if RawName(p, a) == RawName(q, b) {
      assert Joined(p, gs) == Joined(q, hs);
      if u.V4? == w.V4? {
        JoinedInjective(p, gs, q, hs);
        GroupsInjective(u, w);
      } else {
        SplitAtLastDash(Joined(p, gs[..|gs| - 1]), gs[|gs| - 1], Joined(q, hs[..|hs| - 1]), hs[|hs| - 1]);
        assert false;
      }
    }
  }
}
