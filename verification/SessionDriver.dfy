/** The session driver as it runs: one delta sent message by message on a stream that may break. */
module SessionDriver {
  import opened Order
  import opened NodeSession
  import D = DesiredDiff

  class Driver {
    /** Whether the n-th Send of this session succeeds. */
    const sends: nat -> bool
    var wire: seq<ClientMsg>
    var applied: D.DesiredState

    constructor (sends: nat -> bool)
      ensures this.sends == sends && wire == [] && applied == Nothing
    {
      this.sends := sends;
      wire := [];
      applied := Nothing;
    }

    /** One loop of sendDelta: a message per element, up to the first failed Send. */
    method SendEach<T>(xs: seq<T>, f: T -> ClientMsg) returns (ok: bool, ghost n: nat)
      modifies this`wire
      ensures Sent(old(wire), Each(xs, f), wire, ok, n)
    {
      n := 0;
      for i := 0 to |xs|
        invariant n == i && wire == old(wire) + Each(xs, f)[..i]
      {
        if !sends(|wire|) { return false, n; }
        wire := wire + [f(xs[i])];
        n := n + 1;
        assert Each(xs, f)[..i + 1] == Each(xs, f)[..i] + [f(xs[i])];
      }
      ok := true;
    }

    method SendAnnounces(d: D.BusDelta) returns (ok: bool, ghost n: nat)
      modifies this`wire
      ensures Sent(old(wire), Announces(d), wire, ok, n)
    {
      hide Each, Sent;
      ghost var w := wire;
      ghost var a, b, c := Each(d.announceR, Announcing), Each(d.announceN, AnnouncingNat),
        Each(d.announceP, AnnouncingPublic);
      ok, n := SendEach(d.announceR, Announcing);
      Then(w, a, wire, ok, n, b + c);
      if !ok { return; }
      ghost var w1, k, j := wire, 0, 0;
      ok, k := SendEach(d.announceN, AnnouncingNat);
      Then(w1, b, wire, ok, k, c);
      if ok {
        ghost var w2 := wire;
        ok, j := SendEach(d.announceP, AnnouncingPublic);
        Chain(w1, b, w2, k, c, wire, ok, j);
      }
      Chain(w, a, w1, n, b + c, wire, ok, k + j);
      n := n + (k + j);
    }

    method SendWithdraws(d: D.BusDelta) returns (ok: bool, ghost n: nat)
      modifies this`wire
      ensures Sent(old(wire), Withdraws(d), wire, ok, n)
    {
      hide Each, Sent;
      ghost var w := wire;
      ghost var a, b, c := Each(d.withdrawR, Withdrawing), Each(d.withdrawN, WithdrawingNat),
        Each(d.withdrawP, WithdrawingPublic);
      ok, n := SendEach(d.withdrawR, Withdrawing);
      Then(w, a, wire, ok, n, b + c);
      if !ok { return; }
      ghost var w1, k, j := wire, 0, 0;
      ok, k := SendEach(d.withdrawN, WithdrawingNat);
      Then(w1, b, wire, ok, k, c);
      if ok {
        ghost var w2 := wire;
        ok, j := SendEach(d.withdrawP, WithdrawingPublic);
        Chain(w1, b, w2, k, c, wire, ok, j);
      }
      Chain(w, a, w1, n, b + c, wire, ok, k + j);
      n := n + (k + j);
    }

    /** sendDelta: subscribes and announces first, then withdraws and unsubscribes; a prefix of that when
        the stream breaks. */
    method SendDelta(d: D.BusDelta) returns (ok: bool, ghost n: nat)
      modifies this`wire
      ensures n <= |Messages(d)| && wire == old(wire) + Messages(d)[..n] && (ok <==> n == |Messages(d)|)
    {
      hide Each, Announces, Withdraws;
      ok, n := SendParts(d);
    }

    method SendParts(d: D.BusDelta) returns (ok: bool, ghost n: nat)
      modifies this`wire
      ensures Sent(old(wire), Messages(d), wire, ok, n)
    {
      hide Each, Announces, Withdraws, Sent;
      ghost var w := wire;
      ghost var a, b, c := Each(d.subscribe, Subscribing), Announces(d),
        Withdraws(d) + Each(d.unsubscribe, Unsubscribing);
      ok, n := SendEach(d.subscribe, Subscribing);
      Then(w, a, wire, ok, n, b + c);
      if !ok { return; }
      ghost var w1, k, j := wire, 0, 0;
      ok, k := SendAnnounces(d);
      Then(w1, b, wire, ok, k, c);
      if ok {
        ghost var w2 := wire;
        ok, j := SendRest(d);
        Chain(w1, b, w2, k, c, wire, ok, j);
      }
      Chain(w, a, w1, n, b + c, wire, ok, k + j);
      n := n + (k + j);
    }

    method SendRest(d: D.BusDelta) returns (ok: bool, ghost n: nat)
      modifies this`wire
      ensures Sent(old(wire), Withdraws(d) + Each(d.unsubscribe, Unsubscribing), wire, ok, n)
    {
      hide Each, Withdraws, Sent;
      ghost var w := wire;
      ghost var a, b := Withdraws(d), Each(d.unsubscribe, Unsubscribing);
      ok, n := SendWithdraws(d);
      Then(w, a, wire, ok, n, b);
      if !ok { return; }
      ghost var w1, k := wire, 0;
      ok, k := SendEach(d.unsubscribe, Unsubscribing);
      Chain(w, a, w1, n, b, wire, ok, k);
      n := n + k;
    }

    /** reconcileStep: a failed reconcile changes nothing, an empty delta sends nothing, and only a
        delta sent whole becomes the applied set. */
    method ReconcileStep(desired: Option<D.DesiredState>) returns (ok: bool, ghost d: D.BusDelta, ghost n: nat)
      modifies this`wire, this`applied
      ensures desired.None? ==> ok && wire == old(wire) && applied == old(applied)
      ensures desired.Some? ==>
                && D.DeltaOf(old(applied), desired.value, d) && n <= |Messages(d)|
                   && wire == old(wire) + Messages(d)[..n]
                && (ok ==> n == |Messages(d)|)
                && applied == if ok && !D.Silent(d) then desired.value else old(applied)
    {
      hide Each, D.DeltaOf, Messages;
      d, n := D.BusDelta([], [], [], [], [], [], [], []), 0;
      if desired.None? { return true, d, n; }
      var delta := D.DiffDesired(applied, desired.value);
      d := delta;
      if D.Silent(delta) {
        SilentSendsNothing(delta);
        return true, d, 0;
      }
      ok, n := SendDelta(delta);
      if ok { applied := desired.value; }
    }
  }

  /** The first n of the messages went out after w, all of them exactly when ok. */
  ghost predicate Sent(w: seq<ClientMsg>, ms: seq<ClientMsg>, w': seq<ClientMsg>, ok: bool, n: nat) {
    n <= |ms| && w' == w + ms[..n] && (ok <==> n == |ms|)
  }

  /** The stream broke within the first of two parts, or the first part went out whole. */
  lemma Then(w: seq<ClientMsg>, a: seq<ClientMsg>, w': seq<ClientMsg>, ok: bool, n: nat, b: seq<ClientMsg>)
    requires Sent(w, a, w', ok, n)
    ensures !ok ==> Sent(w, a + b, w', false, n)
  {
    assert (a + b)[..n] == a[..n];
  }

  /** The first part went out whole, and n messages of the second. */
  lemma Chain(w: seq<ClientMsg>, a: seq<ClientMsg>, w1: seq<ClientMsg>, m: nat, b: seq<ClientMsg>, w': seq<ClientMsg>,
      ok: bool, n: nat)
    requires Sent(w, a, w1, true, m) && Sent(w1, b, w', ok, n)
    ensures Sent(w, a + b, w', ok, m + n)
  {
    assert a[..m] == a && (a + b)[..m + n] == a + b[..n];
    assert w + a + b[..n] == w + (a + b[..n]);
  }

  lemma SilentSendsNothing(d: D.BusDelta)
    requires D.Silent(d)
    ensures Messages(d) == []
  {
  }
}
