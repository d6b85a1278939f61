/** Which address a claim asks for, and how a claim ends when nobody else acts meanwhile: in the words of the pool,
    not of the search. */
module ClaimChoice {
  import opened Order
  import opened Ipam
  import opened AllocationNames
  import opened Claims

  // ---------------------------------------------------------------- what a pool may hand out

  /** Listed by the pool, the lowest address of the prefix, or the highest of an IPv4 one. */
  ghost predicate Barred(p: Pool, prefix: Net, a: Ip) {
    || a in p.reservedIPs
    || (InPrefix(prefix, a) && forall b: Ip :: InPrefix(prefix, b) ==> !Below(b, a))
    || (InPrefix(prefix, a) && prefix.addr.V4? && forall b: Ip :: InPrefix(prefix, b) ==> !Below(a, b))
  }

  ghost predicate Assignable(p: Pool, prefix: Net, a: Ip) { InPrefix(prefix, a) && !Barred(p, prefix, a) }

  ghost predicate Free(p: Pool, prefix: Net, used: set<Ip>, a: Ip) { Assignable(p, prefix, a) && a !in used }

  lemma BarredIsReserved(p: Pool, prefix: Net, a: Ip)
    ensures Barred(p, prefix, a) <==> Reserved(p, prefix, a)
  {
    hide InPrefix, ReservedFor, Pow2;
    ReservedAreEnds(prefix, a);
  }

  /** The preferred address when it is free, otherwise the lowest free one. */
  ghost predicate Picked(q: Request, prefix: Net, used: set<Ip>, a: Ip) {
    && Free(q.pool, prefix, used, a)
    && (if q.preferred.Some? && Free(q.pool, prefix, used, q.preferred.value) then a == q.preferred.value
        else forall b: Ip :: Free(q.pool, prefix, used, b) ==> !Below(b, a))
  }

  /** The lowest address the consumer holds that it may keep. */
  ghost predicate Kept(q: Request, prefix: Net, mine: set<Ip>, a: Ip) {
    && a in mine && Assignable(q.pool, prefix, a)
    && forall b: Ip :: b in mine && Assignable(q.pool, prefix, b) ==> !Below(b, a)
  }

  /** A new address is due: none is pinned, and none is held that may be kept, or one more is asked for. */
  ghost predicate Looking(q: Request, prefix: Net, mine: set<Ip>) {
    q.pinned.None? && (q.grow || forall a :: a in mine ==> !Assignable(q.pool, prefix, a))
  }

  lemma PickedOnce(q: Request, prefix: Net, used: set<Ip>, a: Ip, b: Ip)
    requires Picked(q, prefix, used, a) && Picked(q, prefix, used, b)
    ensures a == b
  {
    hide Pow2, Barred;
  }

  lemma SearchPicks(q: Request, prefix: Net, used: set<Ip>)
    ensures var r := StickyOrLowest(q.pool, prefix, q.preferred, used);
            && (r.None? <==> forall a: Ip :: Assignable(q.pool, prefix, a) ==> a in used)
            && (r.Some? ==> Picked(q, prefix, used, r.value))
  {
    hide Pow2, InPrefix, ReservedFor, LowestFreeIn, Barred;
    var p := q.pool;
    var skip := used + (set a | a in ReservedFor(prefix)) + set a | a in p.reservedIPs;
    LowestFreeIsLeast(prefix, skip);
    forall a: Ip ensures Free(p, prefix, used, a) <==> InPrefix(prefix, a) && a !in skip {
      BarredIsReserved(p, prefix, a);
    }
    if q.preferred.Some? { BarredIsReserved(p, prefix, q.preferred.value); }
  }

  lemma HeldIsKept(q: Request, prefix: Net, mine: set<Ip>)
    ensures var r := Least(Keepable(q.pool, prefix, mine));
            && (r.None? <==> forall a :: a in mine ==> !Assignable(q.pool, prefix, a))
            && (r.Some? ==> Kept(q, prefix, mine, r.value))
  {
    hide Pow2, InPrefix, Reserved, Least, Barred;
    forall a: Ip ensures a in Keepable(q.pool, prefix, mine) <==> a in mine && Assignable(q.pool, prefix, a) {
      BarredIsReserved(q.pool, prefix, a);
    }
  }

  /** A pool whose two prefixes are of the families they are named for serves a pin from its own family, and without a
      pin IPv4 when it has any; there is no prefix exactly when the pool offers none that would do. */
  lemma PrefixServesFamily(p: Pool, pinned: Option<Ip>)
    requires (p.v4.Some? ==> p.v4.value.addr.V4?) && (p.v6.Some? ==> p.v6.value.addr.V6?)
    ensures var r := PoolPrefixFor(p, pinned);
            && (r.Some? ==> r == p.v4 || r == p.v6)
            && (r.Some? && pinned.Some? ==> r.value.addr.V4? == Unmap(pinned.value).V4?)
            && (r.Some? && pinned.None? && p.v4.Some? ==> r.value.addr.V4?)
            && (r.None? <==> forall net :: net in {p.v4, p.v6} && net.Some? ==>
                 pinned.Some? && net.value.addr.V4? != Unmap(pinned.value).V4?)
  {
    hide Unmap;
    assert p.v4 in {p.v4, p.v6} && p.v6 in {p.v4, p.v6};
  }

  // ---------------------------------------------------------------- one round's decision

  /** When a new address is due the round finds the pool full if and only if every address it may hand out is
      used; otherwise it asks for the picked one, whose name must be legal. */
  lemma NewAddressDecision(legal: string -> bool, q: Request, prefix: Net, used: set<Ip>, mine: set<Ip>, want: Ip)
    requires Looking(q, prefix, mine)
    ensures var d := Decide(legal, q, prefix, used, mine);
            && (d.Full? <==> forall a: Ip :: Assignable(q.pool, prefix, a) ==> a in used)
            && (Picked(q, prefix, used, want) ==>
                 d == if legal(RawName(q.pool.name, want)) then Try(want) else Refuse)
            && (!d.Full? ==> exists a: Ip :: Picked(q, prefix, used, a))
  {
    SearchPicks(q, prefix, used);
    HeldIsKept(q, prefix, mine);
    var r := StickyOrLowest(q.pool, prefix, q.preferred, used);
    if r.Some? && Picked(q, prefix, used, want) { PickedOnce(q, prefix, used, want, r.value); }
    hide StickyOrLowest, Least, Keepable, RawName, Barred, InPrefix;
    assert r.Some? ==> Free(q.pool, prefix, used, r.value);
    assert Picked(q, prefix, used, want) ==> Free(q.pool, prefix, used, want);
  }

  /** A consumer that already holds an address it may keep keeps the lowest. */
  lemma HeldDecision(legal: string -> bool, q: Request, prefix: Net, used: set<Ip>, mine: set<Ip>, a: Ip)
    requires q.pinned.None? && !q.grow && Kept(q, prefix, mine, a)
    ensures Decide(legal, q, prefix, used, mine) == Keep(a)
  {
    hide Pow2, StickyOrLowest, Least, Keepable, RawName, Barred, InPrefix;
    HeldIsKept(q, prefix, mine);
  }

  /** A pin is served exactly: its own address when it may be handed out and nobody else holds it. */
  lemma PinnedDecision(legal: string -> bool, q: Request, prefix: Net, used: set<Ip>, mine: set<Ip>)
    requires q.pinned.Some?
    ensures var d, p := Decide(legal, q, prefix, used, mine), Unmap(q.pinned.value);
            if !Assignable(q.pool, prefix, p) || (p in used && p !in mine) then d == Refuse
            else if p in mine && !q.grow then d == Keep(p)
            else d == if legal(RawName(q.pool.name, p)) then Try(p) else Refuse
  {
    hide Unmap, StickyOrLowest, Least, Keepable, RawName, Barred, InPrefix, Reserved;
    BarredIsReserved(q.pool, prefix, Unmap(q.pinned.value));
  }

  // ---------------------------------------------------------------- a call left alone

  ghost predicate Underway(w: World, id: nat) {
    id in w.calls && (w.calls[id].phase.Done? || w.calls[id].phase.round < CLAIM_RETRIES)
  }

  function NextStep(id: nat, p: Phase): Event {
    match p
    case Listing(_) => ListStep(id)
    case Creating(_, _) => CreateStep(id)
    case _ => CheckStep(id)
  }

  lemma StaysUnderway(legal: string -> bool, w: World, id: nat)
    requires Underway(w, id) && !w.calls[id].phase.Done?
    ensures Allowed(w, NextStep(id, w.calls[id].phase))
    ensures Underway(After(legal, w, NextStep(id, w.calls[id].phase)), id)
  {
    hide Decide, RawName, OwnedBy;
  }

  /** The call's own steps to its end, with no other event between them. */
  ghost function Alone(legal: string -> bool, w: World, id: nat): World
    requires Underway(w, id)
    decreases StepsLeft(w.calls[id].phase)
  {
    if w.calls[id].phase.Done? then w
    else
      var e := NextStep(id, w.calls[id].phase);
      StaysUnderway(legal, w, id);
      StepEnds(legal, w, e, id);
      Alone(legal, After(legal, w, e), id)
  }

  /** The call with its last word, everything else as it was but the store. */
  function Closed(w: World, id: nat, q: Request, prefix: Net, outcome: Outcome, store: Store): World {
    w.(store := store, calls := w.calls[id := Call(q, prefix, Done(outcome))])
  }

  ghost function Begun(w: World, id: nat, q: Request, prefix: Net, round: nat): World {
    w.(calls := w.calls[id := Call(q, prefix, Listing(round))])
  }

  /** What the round decides on the listing of this store. */
  ghost function Verdict(legal: string -> bool, s: Store, q: Request, prefix: Net): Decision {
    Decide(legal, q, prefix, Used(s, q.pool.name), Mine(s, q.pool.name, q.consumer))
  }

  ghost predicate Begins(w: World, id: nat, q: Request, prefix: Net) {
    id !in w.calls && PoolPrefixFor(q.pool, q.pinned) == Some(prefix)
  }

  /** A whole call, from its beginning to its last word, with nobody else acting. */
  ghost function Solo(legal: string -> bool, w: World, id: nat, q: Request, prefix: Net): World
    requires Begins(w, id, q, prefix)
  {
    Alone(legal, After(legal, w, Begin(id, q)), id)
  }

  lemma SoloBegins(legal: string -> bool, w: World, id: nat, q: Request, prefix: Net)
    requires Begins(w, id, q, prefix)
    ensures Solo(legal, w, id, q, prefix) == Alone(legal, Begun(w, id, q, prefix, 0), id)
  {
    hide Alone;
  }

  lemma EndsAtOnce(legal: string -> bool, w: World, id: nat, q: Request, prefix: Net, round: nat)
    requires round < CLAIM_RETRIES
    ensures var d, end := Verdict(legal, w.store, q, prefix), Alone(legal, Begun(w, id, q, prefix, round), id);
            && (d.Refuse? ==> end == Closed(w, id, q, prefix, NotAllocatable, w.store))
            && (d.Full? ==> end == Closed(w, id, q, prefix, Exhausted, w.store))
            && (d.Keep? ==> end == Closed(w, id, q, prefix, Got(d.want), w.store))
  {
    hide Decide, RawName, OwnedBy, Used, Mine;
    var w1, d := Begun(w, id, q, prefix, round), Verdict(legal, w.store, q, prefix);
    StaysUnderway(legal, w1, id);
    var w2 := After(legal, w1, ListStep(id));
    if d.Refuse? { assert w2 == Closed(w, id, q, prefix, NotAllocatable, w.store); }
    if d.Full? { assert w2 == Closed(w, id, q, prefix, Exhausted, w.store); }
    if d.Keep? { assert w2 == Closed(w, id, q, prefix, Got(d.want), w.store); }
  }

  /** The three steps of a round that asks for an address. */
  lemma OneRound(legal: string -> bool, w: World, id: nat, q: Request, prefix: Net, round: nat, want: Ip)
    requires round < CLAIM_RETRIES && Verdict(legal, w.store, q, prefix) == Try(want)
    ensures var end, n := Alone(legal, Begun(w, id, q, prefix, round), id), RawName(q.pool.name, want);
            && (n !in w.store ==>
                 end ==
                   Closed(w, id, q, prefix, Got(want), w.store[n := Allocation(q.pool.name, want, Some(q.consumer))]))
            && (n in w.store && OwnedBy(w.store[n], q.consumer) && !q.grow ==>
                 end == Closed(w, id, q, prefix, Got(want), w.store))
            && (n in w.store && (if OwnedBy(w.store[n], q.consumer) then q.grow else q.pinned.None?) ==>
                 if round + 1 < CLAIM_RETRIES then end == Alone(legal, Begun(w, id, q, prefix, round + 1), id)
                 else end == Closed(w, id, q, prefix, Exhausted, w.store))
  {
    hide Decide, RawName, OwnedBy, Used, Mine;
    var w1 := Begun(w, id, q, prefix, round);
    StaysUnderway(legal, w1, id);
    var w2 := After(legal, w1, ListStep(id));
    assert w2 == w.(calls := w.calls[id := Call(q, prefix, Creating(round, want))]);
    StaysUnderway(legal, w2, id);
    var w3 := After(legal, w2, CreateStep(id));
    RoundEnds(legal, w, id, q, prefix, round, want);
    assert Alone(legal, w1, id) == Alone(legal, w2, id) == Alone(legal, w3, id);
  }

  lemma RoundEnds(legal: string -> bool, w: World, id: nat, q: Request, prefix: Net, round: nat, want: Ip)
    requires round < CLAIM_RETRIES
    ensures var w3 := CreateStepped(w.(calls := w.calls[id := Call(q, prefix, Creating(round, want))]), id);
            var n := RawName(q.pool.name, want);
            && Underway(w3, id)
            && (n !in w.store ==>
                 Alone(legal, w3, id) ==
                 Closed(w, id, q, prefix, Got(want), w.store[n := Allocation(q.pool.name, want, Some(q.consumer))]))
            && (n in w.store && OwnedBy(w.store[n], q.consumer) && !q.grow ==>
                 Alone(legal, w3, id) == Closed(w, id, q, prefix, Got(want), w.store))
            && (n in w.store && (if OwnedBy(w.store[n], q.consumer) then q.grow else q.pinned.None?) ==>
                 Alone(legal, w3, id) ==
                 if round + 1 < CLAIM_RETRIES then Alone(legal, Begun(w, id, q, prefix, round + 1), id)
                 else Closed(w, id, q, prefix, Exhausted, w.store))
  {
    hide Decide, RawName, OwnedBy, Used, Mine;
    var w2 := w.(calls := w.calls[id := Call(q, prefix, Creating(round, want))]);
    var w3, n := CreateStepped(w2, id), RawName(q.pool.name, want);
    if n in w.store {
      assert w3 == w.(calls := w.calls[id := Call(q, prefix, Checking(round, want))]);
      StaysUnderway(legal, w3, id);
      var w4 := After(legal, w3, CheckStep(id));
      assert Alone(legal, w3, id) == Alone(legal, w4, id);
      if OwnedBy(w.store[n], q.consumer) && !q.grow {
        assert w4 == Closed(w, id, q, prefix, Got(want), w.store);
      } else if OwnedBy(w.store[n], q.consumer) || q.pinned.None? {
        assert w4 == w.(calls := w.calls[id := Call(q, prefix, Again(round))]);
      }
    } else {
      assert w3 == Closed(w, id, q, prefix, Got(want), w.store[n := Allocation(q.pool.name, want, Some(q.consumer))]);
    }
  }

  /** A name that stays taken loses every round. */
  lemma {:induction false} LosesEveryRound(legal: string -> bool, w: World, id: nat, q: Request, prefix: Net,
      round: nat, want: Ip)
    requires round < CLAIM_RETRIES && Verdict(legal, w.store, q, prefix) == Try(want)
    requires var n := RawName(q.pool.name, want);
             n in w.store && if OwnedBy(w.store[n], q.consumer) then q.grow else q.pinned.None?
    ensures Alone(legal, Begun(w, id, q, prefix, round), id) == Closed(w, id, q, prefix, Exhausted, w.store)
    decreases CLAIM_RETRIES - round
  {
    hide Alone, Verdict, RawName, OwnedBy;
    OneRound(legal, w, id, q, prefix, round, want);
    if round + 1 < CLAIM_RETRIES { LosesEveryRound(legal, w, id, q, prefix, round + 1, want); }
  }

  /** Where a name stands: exactly when the address it spells is used, and with its holder. */
  lemma NameStands(s: Store, q: Request, a: Ip)
    requires Named(s)
    ensures var n := RawName(q.pool.name, a);
            && (n in s <==> Unmap(a) in Used(s, q.pool.name))
            && (n in s ==> (OwnedBy(s[n], q.consumer) <==> Unmap(a) in Mine(s, q.pool.name, q.consumer)))
  {
    hide RawName, Unmap, OwnedBy;
    var n := RawName(q.pool.name, a);
    forall m | m in s && s[m].pool == q.pool.name && Unmap(s[m].addr) == Unmap(a) ensures m == n {
      NamesInjective(s[m].pool, s[m].addr, q.pool.name, a);
    }
    if n in s { NamesInjective(s[n].pool, s[n].addr, q.pool.name, a); }
  }

  /** A call that is due a new address and is left alone. A full pool ends it as exhausted. Otherwise it gets the
      picked address, newly allocated to the caller, if the name is legal and the address it spells unused; the two
      differ only for an IPv4-mapped address of an IPv6 pool, whose holder keeps it and anybody else is turned away. */
  lemma NewAddressAlone(legal: string -> bool, w: World, id: nat, q: Request, prefix: Net, want: Ip)
    requires Begins(w, id, q, prefix) && Named(w.store) && Looking(q, prefix, Mine(w.store, q.pool.name, q.consumer))
    ensures var used, mine := Used(w.store, q.pool.name), Mine(w.store, q.pool.name, q.consumer);
            var end, n := Solo(legal, w, id, q, prefix), RawName(q.pool.name, want);
            && ((forall a: Ip :: Assignable(q.pool, prefix, a) ==> a in used) ==>
                 end == Closed(w, id, q, prefix, Exhausted, w.store))
            && (Picked(q, prefix, used, want) ==>
                 end == if !legal(n) then Closed(w, id, q, prefix, NotAllocatable, w.store)
                   else if Unmap(want) !in used then
                     Closed(w, id, q, prefix, Got(want), w.store[n := Allocation(q.pool.name, want, Some(q.consumer))])
                   else if Unmap(want) in mine && !q.grow then Closed(w, id, q, prefix, Got(want), w.store)
                   else Closed(w, id, q, prefix, Exhausted, w.store))
  {
    hide Solo, Alone, Begins, RawName, OwnedBy, Unmap, Decide, Used, Mine, Assignable, Picked;
    var used, mine := Used(w.store, q.pool.name), Mine(w.store, q.pool.name, q.consumer);
    NewAddressDecision(legal, q, prefix, used, mine, want);
    SoloBegins(legal, w, id, q, prefix);
    EndsAtOnce(legal, w, id, q, prefix, 0);
    if Picked(q, prefix, used, want) && legal(RawName(q.pool.name, want)) {
      NameStands(w.store, q, want);
      OneRound(legal, w, id, q, prefix, 0, want);
      if Unmap(want) in used && (q.grow || Unmap(want) !in mine) { LosesEveryRound(legal, w, id, q, prefix, 0, want); }
    }
  }

  /** A call that holds an address it may keep, and is left alone, returns the lowest such and changes nothing. */
  lemma HeldAlone(legal: string -> bool, w: World, id: nat, q: Request, prefix: Net, a: Ip)
    requires Begins(w, id, q, prefix) && q.pinned.None? && !q.grow
             && Kept(q, prefix, Mine(w.store, q.pool.name, q.consumer), a)
    ensures Solo(legal, w, id, q, prefix) == Closed(w, id, q, prefix, Got(a), w.store)
  {
    hide Solo, Alone, Begins, Decide, Kept;
    HeldDecision(legal, q, prefix, Used(w.store, q.pool.name), Mine(w.store, q.pool.name, q.consumer), a);
    SoloBegins(legal, w, id, q, prefix);
    EndsAtOnce(legal, w, id, q, prefix, 0);
  }

  /** A pinned call left alone: refused outside the pool or over another's claim, its own address when it holds it,
      and otherwise the pin newly allocated. */
  lemma PinnedAlone(legal: string -> bool, w: World, id: nat, q: Request, prefix: Net)
    requires Begins(w, id, q, prefix) && Named(w.store) && q.pinned.Some?
    ensures var used, mine := Used(w.store, q.pool.name), Mine(w.store, q.pool.name, q.consumer);
            var p := Unmap(q.pinned.value);
            var end, n := Solo(legal, w, id, q, prefix), RawName(q.pool.name, p);
            end ==
            if !Assignable(q.pool, prefix, p) || (p in used && p !in mine) then
              Closed(w, id, q, prefix, NotAllocatable, w.store)
            else if p in mine && !q.grow then Closed(w, id, q, prefix, Got(p), w.store)
            else if !legal(n) then Closed(w, id, q, prefix, NotAllocatable, w.store)
            else if p in mine then Closed(w, id, q, prefix, Exhausted, w.store)
            else Closed(w, id, q, prefix, Got(p), w.store[n := Allocation(q.pool.name, p, Some(q.consumer))])
  {
    var used, mine := Used(w.store, q.pool.name), Mine(w.store, q.pool.name, q.consumer);
    var p := Unmap(q.pinned.value);
    UnmapTwice(q.pinned.value);
    assert mine <= used;
    hide Solo, Alone, Begins, RawName, OwnedBy, Unmap, Decide, Used, Mine, Assignable;
    PinnedDecision(legal, q, prefix, used, mine);
    SoloBegins(legal, w, id, q, prefix);
    EndsAtOnce(legal, w, id, q, prefix, 0);
    if Verdict(legal, w.store, q, prefix).Try? {
      NameStands(w.store, q, p);
      OneRound(legal, w, id, q, prefix, 0, p);
      if p in mine { LosesEveryRound(legal, w, id, q, prefix, 0, p); }
    }
  }

  // ---------------------------------------------------------------- the exception

  /** An IPv6 prefix over exactly the IPv4-mapped addresses. */
  lemma MappedPrefix() returns (prefix: Net, want: Ip, next: Ip)
    ensures want.V6? && next.V6? && Unmap(want) == V4(1) && Unmap(next) == V4(2)
    ensures forall a: Ip :: InPrefix(prefix, a) <==> a.V6? && want.n - 1 <= a.n < want.n - 1 + Pow2(32)
    ensures prefix.addr.V6? && next.n == want.n + 1 && want.n > 0
  {
    Powers();
    Pow2Sum(32, 96);
    var low := 0xffff * Pow2(32);
    Fits128(low);
    hide Pow2;
    want, next := V6(low + 1), V6(low + 2);
    prefix := Net(V6(low), 96);
    UnmapExactly(want, 1);
    UnmapExactly(next, 2);
    assert prefix.Base() == low by { DivBounds(low, Pow2(32), 0xffff); }
    forall a: Ip ensures InPrefix(prefix, a) <==> a.V6? && low <= a.n < low + Pow2(32) { PrefixIsInterval(prefix, a); }
  }

  lemma Fits128(low: nat)
    requires low == 0xffff * Pow2(32)
    ensures low + 2 < Pow2(128)
  {
    Powers();
    Pow2Sum(64, 64);
    Pow2Sum(32, 32);
    hide Pow2;
    assert Pow2(64) > low + 2;
    MulMonotone(1, Pow2(64), Pow2(64));
  }

  /** The failing run: a pool of mapped addresses, empty; one consumer claims the lowest, and the next, acting alone, is
      told that the pool is exhausted while another address is free. */
  lemma MappedPoolTurnsAway(legal: string -> bool, w: World, name: string, c: Consumer, d: Consumer)
    returns (q: Request, prefix: Net, want: Ip, next: Ip, w1: World)
    requires w.store == map[] && 0 !in w.calls && 1 !in w.calls && c.name != d.name && forall n :: legal(n)
    ensures Begins(w, 0, q, prefix) && q.consumer == c && q.pinned.None? && w1 == Solo(legal, w, 0, q, prefix)
    ensures 0 in w1.calls && w1.calls[0].phase == Done(Got(want))
    ensures Begins(w1, 1, q.(consumer := d), prefix)
    ensures var end := Solo(legal, w1, 1, q.(consumer := d), prefix);
            1 in end.calls && end.calls[1].phase == Done(Exhausted) && end.store == w1.store
    ensures Assignable(q.pool, prefix, next) && RawName(name, next) !in w1.store
  {
    hide Pow2, Unmap, RawName, Solo, InPrefix, Assignable, Picked, Used, Mine, PoolPrefixFor;
    prefix, want, next := MappedPrefix();
    q := Request(Pool(name, None, Some(prefix), []), c, None, None, false);
    var q' := q.(consumer := d);
    OnlyPrefix(q.pool, prefix);
    PicksSecond(q, {}, prefix, want, next);
    PicksSecond(q', {Unmap(want)}, prefix, want, next);
    w1 := FirstGets(legal, w, q, prefix, want);
    SecondIsTurnedAway(legal, w1, q', prefix, want, c);
    NamesInjective(name, want, name, next);
  }

  lemma OnlyPrefix(pool: Pool, prefix: Net)
    requires pool.v4.None? && pool.v6 == Some(prefix)
    ensures PoolPrefixFor(pool, None) == Some(prefix)
  {
  }

  lemma FirstGets(legal: string -> bool, w: World, q: Request, prefix: Net, want: Ip) returns (w1: World)
    requires w.store == map[] && Begins(w, 0, q, prefix) && q.pinned.None? && Picked(q, prefix, {}, want)
    requires legal(RawName(q.pool.name, want))
    ensures w1 == Solo(legal, w, 0, q, prefix) && w1.calls.Keys == w.calls.Keys + {0}
    ensures w1.calls[0].phase == Done(Got(want))
    ensures w1.store == map[RawName(q.pool.name, want) := Allocation(q.pool.name, want, Some(q.consumer))]
  {
    hide Pow2, Unmap, RawName, Solo, Assignable, Picked, Begins;
    assert Used(w.store, q.pool.name) == {} && Mine(w.store, q.pool.name, q.consumer) == {};
    NewAddressAlone(legal, w, 0, q, prefix, want);
    w1 := Solo(legal, w, 0, q, prefix);
  }

  lemma SecondIsTurnedAway(legal: string -> bool, w: World, q: Request, prefix: Net, want: Ip, holder: Consumer)
    requires Begins(w, 1, q, prefix) && q.pinned.None? && holder.name != q.consumer.name
    requires legal(RawName(q.pool.name, want))
    requires w.store == map[RawName(q.pool.name, want) := Allocation(q.pool.name, want, Some(holder))]
    requires Picked(q, prefix, {Unmap(want)}, want)
    ensures var end := Solo(legal, w, 1, q, prefix);
            1 in end.calls && end.calls[1].phase == Done(Exhausted) && end.store == w.store
  {
    hide Pow2, Unmap, RawName, Solo, Assignable, Picked, Begins;
    var n := RawName(q.pool.name, want);
    assert Unmap(w.store[n].addr) == Unmap(want) && !OwnedBy(w.store[n], q.consumer);
    assert Used(w.store, q.pool.name) == {Unmap(want)} && Mine(w.store, q.pool.name, q.consumer) == {};
    NewAddressAlone(legal, w, 1, q, prefix, want);
  }

  lemma PicksSecond(q: Request, used: set<Ip>, prefix: Net, want: Ip, next: Ip)
    requires want.V6? && prefix.addr.V6? && next == V6(want.n + 1) && want.n > 0
    requires q.pool.reservedIPs == [] && q.preferred.None? && want !in used
    requires forall a: Ip :: InPrefix(prefix, a) <==> a.V6? && want.n - 1 <= a.n < want.n - 1 + Pow2(32)
    ensures Picked(q, prefix, used, want) && Assignable(q.pool, prefix, next)
  {
    Powers();
    hide Pow2, InPrefix;
    var bottom := V6(want.n - 1);
    assert InPrefix(prefix, bottom) && Below(bottom, want) && Below(bottom, next);
    assert Barred(q.pool, prefix, bottom);
    forall b: Ip | Assignable(q.pool, prefix, b) ensures !Below(b, want) {
      assert b != bottom;
    }
  }
}
