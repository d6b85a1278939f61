/** IP addresses as bit strings and prefixes over them. Containment is agreement on the first `len`
    bits within one family, as in section 3.1 of RFC 4632. */
module Addresses {

  datatype RawPrefix = Prefix(v6: bool, bits: seq<bool>, len: nat) {
    predicate Valid() {
      |bits| == Width(v6) && len <= |bits|
    }

    /** netip.Prefix.Contains: same family and the same leading bits. */
    predicate Contains(v6': bool, addr: seq<bool>)
      requires Valid() && |addr| == Width(v6')
    {
      v6 == v6' && bits[..len] == addr[..len]
    }
  }

  function Width(v6: bool): nat { if v6 then 128 else 32 }

  function Zeros(n: nat): seq<bool> { seq(n, _ => false) }

  type Prefix = p: RawPrefix | p.Valid() witness Prefix(false, Zeros(32), 0)

  /** netip.Prefix.Masked: the host bits cleared. */
  function Masked(p: Prefix): (m: Prefix)
    ensures m.v6 == p.v6 && m.len == p.len && m.bits[..m.len] == p.bits[..p.len]
  {
    Prefix(p.v6, p.bits[..p.len] + Zeros(|p.bits| - p.len), p.len)
  }

  /** A prefix and its canonical form contain the same addresses, and two of the same network have one form. */
  lemma MaskedIsCanonical(p: Prefix, q: Prefix, v6: bool, addr: seq<bool>)
    requires |addr| == Width(v6)
    ensures Masked(p).Contains(v6, addr) <==> p.Contains(v6, addr)
    ensures Masked(p) == Masked(q) <==> p.v6 == q.v6 && p.len == q.len && p.bits[..p.len] == q.bits[..q.len]
    ensures forall i :: p.len <= i < |p.bits| ==> !Masked(p).bits[i]
  {
    assert Masked(p).bits[..p.len] == p.bits[..p.len] && Masked(q).bits[..q.len] == q.bits[..q.len];
  }

  datatype RawAddr = Addr(v6: bool, bits: seq<bool>) {
    predicate Valid() { |bits| == Width(v6) }
  }

  type Addr = a: RawAddr | a.Valid() witness Addr(false, Zeros(32))
}
