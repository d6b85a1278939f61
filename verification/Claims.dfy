/** Address claims as a protocol: any number of callers list, decide, create and check, while
    allocations are released and garbage-collected under them. The store is one namespace's
    allocation objects by name; creating a name that exists is refused. */
module Claims {
  import opened Order
  import opened Ipam
  import opened AllocationNames

  datatype Consumer = Consumer(kind: string, name: string, uid: string)

  /** An allocation object: what it claims, and its controller reference. */
  datatype Allocation = Allocation(pool: string, addr: Ip, owner: Option<Consumer>)

  type Store = map<string, Allocation>

  /** By kind, name and UID; a consumer without a UID is matched by kind and name alone. */
  predicate OwnedBy(o: Allocation, c: Consumer) {
    o.owner.Some? && o.owner.value.kind == c.kind && o.owner.value.name == c.name
      && (c.uid == "" || o.owner.value.uid == c.uid)
  }

  datatype Pool = Pool(name: string, v4: Option<Net>, v6: Option<Net>, reservedIPs: seq<Ip>)

  /** The prefix of a pinned address's family, or the pool's own, IPv4 before IPv6. */
  function PoolPrefixFor(p: Pool, pinned: Option<Ip>): Option<Net> {
    if pinned.Some? then (if Unmap(pinned.value).V4? then p.v4 else p.v6)
    else if p.v4.Some? then p.v4
    else p.v6
  }

  datatype Request = Request(pool: Pool, consumer: Consumer, pinned: Option<Ip>, preferred: Option<Ip>, grow: bool)

  predicate Reserved(p: Pool, prefix: Net, a: Ip) { a in ReservedFor(prefix) || a in p.reservedIPs }

  // ---------------------------------------------------------------- deciding

  function Used(s: Store, pool: string): set<Ip> {
    set n | n in s && s[n].pool == pool :: Unmap(s[n].addr)
  }

  function Mine(s: Store, pool: string, c: Consumer): set<Ip> {
    set n | n in s && s[n].pool == pool && OwnedBy(s[n], c) :: Unmap(s[n].addr)
  }

  ghost function Least(s: set<Ip>): (r: Option<Ip>)
    ensures r.None? <==> s == {}
    ensures r.Some? ==> r.value in s && forall b :: b in s ==> !Below(b, r.value)
  {
    hide Pow2;
    if s == {} then None
    else
      var x :| x in s;
      assert forall b :: b in s ==> b == x || b in s - {x};
      var rest := Least(s - {x});
      if rest.None? || Below(x, rest.value) then Some(x) else rest
  }

  /** The addresses of `mine` still allocatable from the prefix. */
  ghost function Keepable(p: Pool, prefix: Net, mine: set<Ip>): set<Ip> {
    set a | a in mine && InPrefix(prefix, a) && !Reserved(p, prefix, a)
  }

  /** heldIn: the lowest address the consumer already holds there. */
  method HeldIn(p: Pool, prefix: Net, mine: set<Ip>) returns (best: Option<Ip>)
    ensures best == Least(Keepable(p, prefix, mine))
  {
    hide InPrefix, Reserved, Pow2, Least, Keepable;
    best := None;
    var todo := mine;
    assert mine - todo == {};
    KeepNone(p, prefix);
    while todo != {}
      invariant todo <= mine && IsLeast(Keepable(p, prefix, mine - todo), best)
      decreases |todo|
    {
      var a :| a in todo;
      ghost var before := mine - todo;
      todo := todo - {a};
      assert mine - todo == before + {a};
      KeepOneMore(p, prefix, before, a);
      if InPrefix(prefix, a) && !Reserved(p, prefix, a) {
        if best.None? || Below(a, best.value) { best := Some(a); }
      }
    }
    assert mine - todo == mine;
    LeastUnique(Keepable(p, prefix, mine), best);
  }

  ghost predicate IsLeast(s: set<Ip>, r: Option<Ip>) {
    && (r.None? ==> s == {})
    && (r.Some? ==> r.value in s && forall b :: b in s ==> !Below(b, r.value))
  }

  lemma LeastUnique(s: set<Ip>, r: Option<Ip>)
    requires IsLeast(s, r)
    ensures r == Least(s)
  {
    hide Pow2;
  }

  lemma KeepNone(p: Pool, prefix: Net)
    ensures Keepable(p, prefix, {}) == {}
  {
  }

  lemma KeepOneMore(p: Pool, prefix: Net, mine: set<Ip>, a: Ip)
    ensures Keepable(p, prefix, mine + {a}) ==
            if InPrefix(prefix, a) && !Reserved(p, prefix, a) then Keepable(p, prefix, mine) + {a}
              else Keepable(p, prefix, mine)
  {
    hide InPrefix, Reserved;
  }

  ghost function StickyOrLowest(p: Pool, prefix: Net, preferred: Option<Ip>, used: set<Ip>): Option<Ip> {
    if preferred.Some? && InPrefix(prefix, preferred.value) && preferred.value !in used
      && !Reserved(p, prefix, preferred.value)
    then preferred
    else LowestFreeIn(prefix, used + (set a | a in ReservedFor(prefix)) + set a | a in p.reservedIPs)
  }

  datatype Decision = Refuse | Full | Keep(want: Ip) | Try(want: Ip)

  /** What one round of the loop does with the listing it read. */
  ghost function Decide(legal: string -> bool, q: Request, prefix: Net, used: set<Ip>, mine: set<Ip>): Decision {
    var want :=
      if q.pinned.Some? then
        var p := Unmap(q.pinned.value);
        if !InPrefix(prefix, p) || Reserved(q.pool, prefix, p) || (p in used && p !in mine) then Refuse else Try(p)
      else
        var held := Least(Keepable(q.pool, prefix, mine));
        if held.Some? && !q.grow then Try(held.value)
        else match StickyOrLowest(q.pool, prefix, q.preferred, used)
          case Some(a) => Try(a)
          case None => Full;
    if !want.Try? then want
    else if want.want in mine && !q.grow then Keep(want.want)
    else if AllocationName(legal, q.pool.name, want.want).None? then Refuse
    else want
  }

  /** Whatever is kept or tried lies in the prefix and is not reserved there. */
  lemma DecisionAllocatable(legal: string -> bool, q: Request, prefix: Net, used: set<Ip>, mine: set<Ip>)
    ensures var d := Decide(legal, q, prefix, used, mine);
            && (d.Keep? || d.Try? ==> InPrefix(prefix, d.want) && !Reserved(q.pool, prefix, d.want))
            && (d.Keep? ==> d.want in mine && !q.grow)
            && (d.Try? ==> AllocationName(legal, q.pool.name, d.want).Some?)
  {
    hide InPrefix, LowestFreeIn, ReservedFor, AllocationName, Unmap;
    LowestFreeIsLeast(prefix, used + (set a | a in ReservedFor(prefix)) + set a | a in q.pool.reservedIPs);
  }

  // ---------------------------------------------------------------- what a release lists

  /** Listed for release: by the consumer's UID, or without one by the pool. */
  predicate Listed(o: Allocation, pool: string, c: Consumer) {
    if c.uid == "" then o.pool == pool else o.owner.Some? && o.owner.value.uid == c.uid
  }

  predicate Released(o: Allocation, pool: string, c: Consumer, keep: Ip) {
    Listed(o, pool, c) && OwnedBy(o, c) && !(o.pool == pool && Unmap(o.addr) == keep)
  }

  // ---------------------------------------------------------------- the protocol

  const CLAIM_RETRIES: nat := 5

  datatype Outcome = Got(addr: Ip) | Exhausted | NotAllocatable | Failed

  datatype Phase =
    | Listing(round: nat)
    | Creating(round: nat, want: Ip)
    | Checking(round: nat, want: Ip)
    | Done(outcome: Outcome)

  datatype Call = Call(q: Request, prefix: Net, phase: Phase)

  /** A release under way: what it listed and has not yet deleted. */
  datatype Release = Release(consumer: Consumer, names: set<string>)

  datatype World = World(store: Store, calls: map<nat, Call>, releases: map<nat, Release>)

  datatype Event =
    | Begin(id: nat, q: Request)
    | ListStep(id: nat)
    | CreateStep(id: nat)
    | CheckStep(id: nat)
    | ApiError(id: nat)
    | ListRelease(id: nat, pool: string, consumer: Consumer, keep: Ip)
    | DeleteListed(id: nat, name: string)
    | Removed(name: string)

  /** The next round, or exhaustion once the rounds are used up. */
  function Again(round: nat): Phase { if round + 1 < CLAIM_RETRIES then Listing(round + 1) else Done(Exhausted) }

  function At(w: World, id: nat, phase: Phase): World
    requires id in w.calls
  {
    w.(calls := w.calls[id := w.calls[id].(phase := phase)])
  }

  predicate Allowed(w: World, e: Event) {
    match e
    case Begin(id, q) => id !in w.calls && PoolPrefixFor(q.pool, q.pinned).Some?
    case ListStep(id) => id in w.calls && w.calls[id].phase.Listing?
    case CreateStep(id) => id in w.calls && w.calls[id].phase.Creating?
    case CheckStep(id) => id in w.calls && w.calls[id].phase.Checking?
    case ApiError(id) => id in w.calls && !w.calls[id].phase.Done?
    case ListRelease(id, _, _, _) => id !in w.releases
    case DeleteListed(id, name) => id in w.releases && name in w.releases[id].names
    case Removed(name) => true
  }

  /** One round's list, and what it decides. */
  ghost function ListStepped(legal: string -> bool, w: World, id: nat): World
    requires id in w.calls && w.calls[id].phase.Listing?
  {
    var c := w.calls[id];
    var pool := c.q.pool.name;
    match Decide(legal, c.q, c.prefix, Used(w.store, pool), Mine(w.store, pool, c.q.consumer))
    case Refuse => At(w, id, Done(NotAllocatable))
    case Full => At(w, id, Done(Exhausted))
    case Keep(want) => At(w, id, Done(Got(want)))
    case Try(want) => At(w, id, Creating(c.phase.round, want))
  }

  function CreateStepped(w: World, id: nat): World
    requires id in w.calls && w.calls[id].phase.Creating?
  {
    var c := w.calls[id];
    var name := RawName(c.q.pool.name, c.phase.want);
    if name in w.store then At(w, id, Checking(c.phase.round, c.phase.want))
    else At(w, id, Done(Got(c.phase.want))).(store :=
      w.store[name := Allocation(c.q.pool.name, c.phase.want, Some(c.q.consumer))])
  }

  /** A refused create looks again at who holds the name. */
  function CheckStepped(w: World, id: nat): World
    requires id in w.calls && w.calls[id].phase.Checking?
  {
    var c := w.calls[id];
    var name := RawName(c.q.pool.name, c.phase.want);
    if name !in w.store then At(w, id, Again(c.phase.round))
    else if OwnedBy(w.store[name], c.q.consumer) then
      (if c.q.grow then At(w, id, Again(c.phase.round)) else At(w, id, Done(Got(c.phase.want))))
    else if c.q.pinned.Some? then At(w, id, Done(NotAllocatable))
    else At(w, id, Again(c.phase.round))
  }

  ghost function After(legal: string -> bool, w: World, e: Event): World
    requires Allowed(w, e)
  {
    match e
    case Begin(id, q) => w.(calls := w.calls[id := Call(q, PoolPrefixFor(q.pool, q.pinned).value, Listing(0))])
    case ListStep(id) => ListStepped(legal, w, id)
    case CreateStep(id) => CreateStepped(w, id)
    case CheckStep(id) => CheckStepped(w, id)
    case ApiError(id) => At(w, id, Done(Failed))
    case ListRelease(id, pool, c, keep) =>
      w.(releases := w.releases[id := Release(c, set n | n in w.store && Released(w.store[n], pool, c, keep))])
    case DeleteListed(id, name) =>
      w.(store := w.store - {name}, releases :=
        w.releases[id := w.releases[id].(names := w.releases[id].names - {name})])
    case Removed(name) => w.(store := w.store - {name})
  }

  /** A run from an empty namespace. */
  ghost predicate IsRun(legal: string -> bool, run: seq<World>, events: seq<Event>) {
    && |run| == |events| + 1 && run[0] == World(map[], map[], map[])
    && forall i :: 0 <= i < |events| ==> Allowed(run[i], events[i]) && run[i + 1] == After(legal, run[i], events[i])
  }

  // ---------------------------------------------------------------- safety

  /** Every object stands under the name of what it claims. */
  ghost predicate Named(s: Store) {
    forall n :: n in s ==> n == RawName(s[n].pool, s[n].addr)
  }

  /** A call under way is after an address of its prefix that is not reserved, in one of its rounds. */
  ghost predicate Sensible(c: Call) {
    && (c.phase.Creating? || c.phase.Checking? ==>
       InPrefix(c.prefix, c.phase.want) && !Reserved(c.q.pool, c.prefix, c.phase.want))
    && (!c.phase.Done? ==> c.phase.round < CLAIM_RETRIES)
  }

  ghost predicate Safe(w: World) {
    Named(w.store) && forall id :: id in w.calls ==> Sensible(w.calls[id])
  }

  lemma ListSafe(legal: string -> bool, w: World, id: nat)
    requires Safe(w) && id in w.calls && w.calls[id].phase.Listing?
    ensures Safe(ListStepped(legal, w, id))
  {
    hide Decide, InPrefix, Reserved, RawName, OwnedBy;
    var c := w.calls[id];
    DecisionAllocatable(legal, c.q, c.prefix, Used(w.store, c.q.pool.name), Mine(w.store, c.q.pool.name, c.q.consumer));
  }

  lemma CreateSafe(w: World, id: nat)
    requires Safe(w) && id in w.calls && w.calls[id].phase.Creating?
    ensures Safe(CreateStepped(w, id))
  {
    hide InPrefix, Reserved, RawName, OwnedBy;
  }

  lemma CheckSafe(w: World, id: nat)
    requires Safe(w) && id in w.calls && w.calls[id].phase.Checking?
    ensures Safe(CheckStepped(w, id))
  {
    hide InPrefix, Reserved, RawName, OwnedBy;
  }

  lemma StepSafe(legal: string -> bool, w: World, e: Event)
    requires Safe(w) && Allowed(w, e)
    ensures Safe(After(legal, w, e))
  {
    hide InPrefix, Reserved, RawName, OwnedBy, Released, ListStepped, CreateStepped, CheckStepped;
    match e
    case ListStep(id) => ListSafe(legal, w, id);
    case CreateStep(id) => CreateSafe(w, id);
    case CheckStep(id) => CheckSafe(w, id);
    case _ =>
  }

  lemma {:induction false} AlwaysSafe(legal: string -> bool, run: seq<World>, events: seq<Event>, n: nat)
    requires IsRun(legal, run, events) && n <= |events|
    ensures Safe(run[n])
  {
    hide After, Safe;
    if n == 0 {
      assert Safe(run[0]) by { NothingIsSafe(); }
    } else {
      AlwaysSafe(legal, run, events, n - 1);
      StepSafe(legal, run[n - 1], events[n - 1]);
    }
  }

  /** Steps a call still has before it must have returned. */
  function StepsLeft(p: Phase): nat {
    match p
    case Listing(round) => if round < CLAIM_RETRIES then 3 * (CLAIM_RETRIES - round) else 0
    case Creating(round, _) => if round < CLAIM_RETRIES then 3 * (CLAIM_RETRIES - round) - 1 else 0
    case Checking(round, _) => if round < CLAIM_RETRIES then 3 * (CLAIM_RETRIES - round) - 2 else 0
    case Done(_) => 0
  }

  lemma StepEnds(legal: string -> bool, w: World, e: Event, id: nat)
    requires Allowed(w, e) && (e == ListStep(id) || e == CreateStep(id) || e == CheckStep(id))
             && w.calls[id].phase.round < CLAIM_RETRIES
    ensures id in After(legal, w, e).calls
    ensures StepsLeft(After(legal, w, e).calls[id].phase) < StepsLeft(w.calls[id].phase) <= 15
  {
    hide Decide, RawName, OwnedBy;
  }

  /** No spinning: each step of a call, whatever happens around it, leaves it fewer steps, fifteen in all. */
  lemma CallsEnd(legal: string -> bool, run: seq<World>, events: seq<Event>, n: nat, id: nat)
    requires IsRun(legal, run, events) && n < |events|
    requires events[n] == ListStep(id) || events[n] == CreateStep(id) || events[n] == CheckStep(id)
    ensures id in run[n].calls && id in run[n + 1].calls
    ensures StepsLeft(run[n + 1].calls[id].phase) < StepsLeft(run[n].calls[id].phase) <= 15
  {
    hide After, StepsLeft, InPrefix, Reserved, Named;
    AlwaysSafe(legal, run, events, n);
    assert Allowed(run[n], events[n]) && Sensible(run[n].calls[id]);
    StepEnds(legal, run[n], events[n], id);
  }

  lemma NothingIsSafe()
    ensures Safe(World(map[], map[], map[]))
  {
  }

  /** In every reachable state an address of a pool has at most one allocation, hence one owner. */
  lemma OneOwnerPerAddress(legal: string -> bool, run: seq<World>, events: seq<Event>, n: nat, a: string, b: string)
    requires IsRun(legal, run, events) && n <= |events| && a in run[n].store && b in run[n].store
    requires var s := run[n].store; s[a].pool == s[b].pool && Unmap(s[a].addr) == Unmap(s[b].addr)
    ensures a == b
  {
    hide RawName, Unmap;
    AlwaysSafe(legal, run, events, n);
    var s := run[n].store;
    NamesInjective(s[a].pool, s[a].addr, s[b].pool, s[b].addr);
  }

  /** A create is refused only over an allocation of the very same address. */
  lemma RefusedOnlyBySameAddress(legal: string -> bool, run: seq<World>, events: seq<Event>, n: nat)
    requires IsRun(legal, run, events) && n < |events| && events[n].CreateStep?
    requires run[n + 1].calls[events[n].id].phase.Checking?
    ensures var c := run[n].calls[events[n].id];
            var name := RawName(c.q.pool.name, c.phase.want);
            && name in run[n].store && run[n].store[name].pool == c.q.pool.name
            && Unmap(run[n].store[name].addr) == Unmap(c.phase.want)
  {
    hide RawName, Unmap;
    AlwaysSafe(legal, run, events, n);
    var c := run[n].calls[events[n].id];
    var o := run[n].store[RawName(c.q.pool.name, c.phase.want)];
    NamesInjective(o.pool, o.addr, c.q.pool.name, c.phase.want);
  }

  /** The consumer's own allocation of this address stands. */
  ghost predicate Holds(s: Store, q: Request, a: Ip) {
    exists n :: n in s && s[n].pool == q.pool.name && Unmap(s[n].addr) == Unmap(a) && OwnedBy(s[n], q.consumer)
  }

  ghost predicate TakenBySomeone(s: Store, pool: string, a: Ip) {
    exists n :: n in s && s[n].pool == pool && Unmap(s[n].addr) == Unmap(a)
  }

  ghost predicate Returns(w: World, w': World, id: nat, a: Ip) {
    id in w.calls && id in w'.calls && !w.calls[id].phase.Done? && w'.calls[id].phase == Done(Got(a))
  }

  /** The step that returns an address: it is in the prefix, not reserved, and the caller's allocation of
      it stands at that moment; a grow returns one that nobody held before the step. */
  lemma ReturnStep(legal: string -> bool, w: World, e: Event, id: nat, a: Ip)
    requires Safe(w) && Allowed(w, e) && Returns(w, After(legal, w, e), id, a)
    ensures var c := w.calls[id];
            && InPrefix(c.prefix, a) && !Reserved(c.q.pool, c.prefix, a) && Holds(After(legal, w, e).store, c.q, a)
            && (c.q.grow ==> !TakenBySomeone(w.store, c.q.pool.name, a))
  {
    hide Decide, InPrefix, Reserved, RawName, Unmap;
    var c := w.calls[id];
    var pool := c.q.pool.name;
    var w' := After(legal, w, e);
    match e
    case ListStep(_) =>
      DecisionAllocatable(legal, c.q, c.prefix, Used(w.store, pool), Mine(w.store, pool, c.q.consumer));
      MineIsHeld(w.store, c.q, a);
    case CreateStep(_) =>
      assert w'.store[RawName(pool, a)] == Allocation(pool, a, Some(c.q.consumer));
      assert OwnedBy(w'.store[RawName(pool, a)], c.q.consumer);
      FreshName(w.store, pool, a);
    case CheckStep(_) =>
      var o := w.store[RawName(pool, a)];
      NamesInjective(o.pool, o.addr, pool, a);
    case _ =>
  }

  lemma MineIsHeld(s: Store, q: Request, a: Ip)
    requires a in Mine(s, q.pool.name, q.consumer)
    ensures Holds(s, q, a)
  {
    var n :| n in s && s[n].pool == q.pool.name && OwnedBy(s[n], q.consumer) && Unmap(s[n].addr) == a;
    UnmapTwice(s[n].addr);
  }

  lemma UnmapTwice(a: Ip)
    ensures Unmap(Unmap(a)) == Unmap(a)
  {
  }

  lemma FreshName(s: Store, pool: string, a: Ip)
    requires Named(s) && RawName(pool, a) !in s
    ensures !TakenBySomeone(s, pool, a)
  {
    hide RawName, Unmap;
    forall n | n in s && s[n].pool == pool ensures Unmap(s[n].addr) != Unmap(a) {
      NamesInjective(s[n].pool, s[n].addr, pool, a);
    }
  }

  /** A call starts by listing, keeps its request, and ends once. */
  lemma StepKeepsCalls(legal: string -> bool, w: World, e: Event, id: nat)
    requires Allowed(w, e) && id in After(legal, w, e).calls
    ensures var c' := After(legal, w, e).calls[id];
            if id !in w.calls then c'.phase == Listing(0)
            else
              && c'.q == w.calls[id].q && c'.prefix == w.calls[id].prefix
              && (w.calls[id].phase.Done? ==> c' == w.calls[id])
  {
    hide Decide, RawName, OwnedBy;
  }

  /** Every address a call ever returned was the caller's at a moment of that call, in the prefix and
      unreserved; a grow's was nobody's just before. */
  lemma {:induction false} ReturnedAddressWasOwned(legal: string -> bool, run: seq<World>, events: seq<Event>, n: nat,
      id: nat, a: Ip)
    requires IsRun(legal, run, events) && n <= |events| && id in run[n].calls && run[n].calls[id].phase == Done(Got(a))
    ensures exists m :: 0 <= m < n && Returns(run[m], run[m + 1], id, a) && run[m].calls[id].q == run[n].calls[id].q
              && Holds(run[m + 1].store, run[n].calls[id].q, a)
              && (run[n].calls[id].q.grow ==> !TakenBySomeone(run[m].store, run[n].calls[id].q.pool.name, a))
    ensures InPrefix(run[n].calls[id].prefix, a) && !Reserved(run[n].calls[id].q.pool, run[n].calls[id].prefix, a)
  {
    hide InPrefix, Reserved, Holds, TakenBySomeone, After, Safe;
    var w, e := run[n - 1], events[n - 1];
    StepKeepsCalls(legal, w, e, id);
    if w.calls[id].phase.Done? {
      ReturnedAddressWasOwned(legal, run, events, n - 1, id, a);
    } else {
      AlwaysSafe(legal, run, events, n - 1);
      assert Returns(w, run[n - 1 + 1], id, a);
      ReturnStep(legal, w, e, id, a);
    }
  }

  // ---------------------------------------------------------------- releasing

  /** An allocation object never changes while it stands. */
  lemma StandsUnchanged(legal: string -> bool, run: seq<World>, events: seq<Event>, i: nat, j: nat, n: string)
    requires IsRun(legal, run, events) && i <= j <= |events| && forall k :: i <= k <= j ==> n in run[k].store
    ensures run[j].store[n] == run[i].store[n]
  {
    hide Decide, RawName, OwnedBy, Released;
    if i < j { StandsUnchanged(legal, run, events, i, j - 1, n); }
  }

  /** Between a release's list and its delete, at step m, the name is created anew for somebody who is not
      the releasing consumer, and stands from then on. */
  ghost predicate Recreated(run: seq<World>, c: Consumer, n: string, m: nat, j: nat)
    requires m < j < |run|
  {
    && n !in run[m].store && (forall k :: m < k <= j ==> n in run[k].store)
    && !OwnedBy(run[m + 1].store[n], c)
  }

  /** The last time before j that the name was missing. */
  lemma {:induction false} LastMissing(run: seq<World>, n: string, i: nat, j: nat) returns (m: nat)
    requires i < j < |run| && n in run[j].store && exists k :: i <= k < j && n !in run[k].store
    ensures i <= m < j && n !in run[m].store && forall k :: m < k <= j ==> n in run[k].store
  {
    if n !in run[j - 1].store { return j - 1; }
    m := LastMissing(run, n, i, j - 1);
  }

  /** The delete of a listed name hits somebody else's allocation if and only if the name was removed and
      created anew for somebody else since the list; otherwise only the consumer's own goes. */
  lemma DeleteHitsAnotherExactly(legal: string -> bool, run: seq<World>, events: seq<Event>, i: nat, j: nat, n: string)
    requires IsRun(legal, run, events) && i < j < |events|
    requires events[i].ListRelease? && events[j] == DeleteListed(events[i].id, n)
             && n in run[i + 1].releases[events[i].id].names
    ensures (n in run[j].store && !OwnedBy(run[j].store[n], events[i].consumer)) <==>
            exists m :: i < m < j && Recreated(run, events[i].consumer, n, m, j)
  {
    hide After, Allowed, OwnedBy, Released;
    var c := events[i].consumer;
    ReleaseIsOpen(legal, run, events, i);
    ListedAreOwn(legal, run, events, i, n);
    if n in run[j].store && !OwnedBy(run[j].store[n], c) {
      if forall k :: i + 1 <= k <= j ==> n in run[k].store { StandsUnchanged(legal, run, events, i + 1, j, n); }
      var m := LastMissing(run, n, i + 1, j);
      StandsUnchanged(legal, run, events, m + 1, j, n);
      assert Recreated(run, c, n, m, j);
    }
    if m :| i < m < j && Recreated(run, c, n, m, j) { StandsUnchanged(legal, run, events, m + 1, j, n); }
  }

  lemma ReleaseIsOpen(legal: string -> bool, run: seq<World>, events: seq<Event>, i: nat)
    requires IsRun(legal, run, events) && i < |events| && events[i].ListRelease?
    ensures events[i].id in run[i + 1].releases
  {
    hide Released, ListStepped, CreateStepped, CheckStepped;
    assert run[i + 1] == After(legal, run[i], events[i]);
  }

  lemma ListedAreOwn(legal: string -> bool, run: seq<World>, events: seq<Event>, i: nat, n: string)
    requires IsRun(legal, run, events) && i < |events| && events[i].ListRelease?
    requires events[i].id in run[i + 1].releases && n in run[i + 1].releases[events[i].id].names
    ensures n in run[i].store && OwnedBy(run[i].store[n], events[i].consumer) && run[i + 1].store == run[i].store
  {
    hide OwnedBy, ListStepped, CreateStepped, CheckStepped;
    assert run[i + 1] == After(legal, run[i], events[i]);
  }

  /** A release ends: each delete leaves it that name less, and nobody else adds to it or takes from it. */
  lemma ReleasesEnd(legal: string -> bool, w: World, e: Event, id: nat)
    requires Allowed(w, e) && id in w.releases
    ensures id in After(legal, w, e).releases
    ensures var names, names' := w.releases[id].names, After(legal, w, e).releases[id].names;
            if e.DeleteListed? && e.id == id
            then e.name in names && names' == names - {e.name} && |names'| == |names| - 1
            else names' == names
  {
    hide Decide, RawName, OwnedBy, Released;
  }

  /** A pinned claim of a free address goes through in three steps. */
  lemma PinnedClaim(legal: string -> bool, w: World, id: nat, q: Request, prefix: Net)
    returns (w1: World, w2: World, w3: World)
    requires id !in w.calls && w.store == map[] && q.pinned.Some? && PoolPrefixFor(q.pool, q.pinned) == Some(prefix)
    requires Unmap(q.pinned.value) == q.pinned.value && InPrefix(prefix, q.pinned.value)
             && !Reserved(q.pool, prefix, q.pinned.value)
    requires legal(RawName(q.pool.name, q.pinned.value))
    ensures Allowed(w, Begin(id, q)) && w1 == After(legal, w, Begin(id, q)) && Allowed(w1, ListStep(id))
            && w2 == After(legal, w1, ListStep(id))
    ensures Allowed(w2, CreateStep(id)) && w3 == After(legal, w2, CreateStep(id))
    ensures w1.store == map[] && w2.store == map[] && w1.releases == w2.releases == w3.releases == w.releases
    ensures w3.calls.Keys == w.calls.Keys + {id}
    ensures w3.store ==
            map[RawName(q.pool.name, q.pinned.value) := Allocation(q.pool.name, q.pinned.value, Some(q.consumer))]
  {
    hide InPrefix, Reserved, RawName, Unmap, OwnedBy, PoolPrefixFor;
    w1 := After(legal, w, Begin(id, q));
    assert Used(w1.store, q.pool.name) == {} && Mine(w1.store, q.pool.name, q.consumer) == {};
    w2 := After(legal, w1, ListStep(id));
    w3 := After(legal, w2, CreateStep(id));
  }

  /** A release overtaken by the collector and by another consumer's claim of the same address: its delete
      takes the other's allocation away. */
  lemma StaleReleaseHitsAnother(legal: string -> bool, q: Request, prefix: Net, other: Consumer, keep: Ip)
    returns (run: seq<World>, events: seq<Event>)
    requires q.pinned.Some? && PoolPrefixFor(q.pool, q.pinned) == Some(prefix) && keep != q.pinned.value
    requires Unmap(q.pinned.value) == q.pinned.value && InPrefix(prefix, q.pinned.value)
             && !Reserved(q.pool, prefix, q.pinned.value)
    requires legal(RawName(q.pool.name, q.pinned.value))
    requires q.consumer.uid != "" && other.uid != q.consumer.uid
    ensures IsRun(legal, run, events) && |events| == 9
    ensures var n := RawName(q.pool.name, q.pinned.value);
            && events[3] == ListRelease(0, q.pool.name, q.consumer, keep) && events[8] == DeleteListed(0, n)
            && n in run[8].store && run[8].store[n].owner == Some(other) && n !in run[9].store
  {
    hide InPrefix, Reserved, RawName, Unmap, After, Allowed, PoolPrefixFor, OwnedBy;
    var n := RawName(q.pool.name, q.pinned.value);
    var w0 := World(map[], map[], map[]);
    var w1, w2, w3 := PinnedClaim(legal, w0, 0, q, prefix);
    var list := ListRelease(0, q.pool.name, q.consumer, keep);
    var w4, w5 := ListedThenCollected(legal, w3, n, q.pool.name, q.pinned.value, q.consumer, keep);
    var w6, w7, w8 := PinnedClaim(legal, w5, 1, q.(consumer := other), prefix);
    var w9 := DeletedIsGone(legal, w8, n);
    var begin := Begin(1, q.(consumer := other));
    var head, tail := FiveSteps(legal, w0, w1, w2, w3, w4, w5, Begin(0, q), list, n);
    run, events := head + [w6, w7, w8, w9], tail + [begin, ListStep(1), CreateStep(1), DeleteListed(0, n)];
    FourMore(legal, head, tail, w6, w7, w8, w9, begin, n);
  }

  lemma FiveSteps(legal: string -> bool, w0: World, w1: World, w2: World, w3: World, w4: World, w5: World,
      begin: Event, list: Event, n: string)
    returns (run: seq<World>, events: seq<Event>)
    requires w0 == World(map[], map[], map[]) && Allowed(w0, begin) && w1 == After(legal, w0, begin)
    requires Allowed(w1, ListStep(0)) && w2 == After(legal, w1, ListStep(0)) && Allowed(w2, CreateStep(0))
             && w3 == After(legal, w2, CreateStep(0))
    requires Allowed(w3, list) && w4 == After(legal, w3, list) && Allowed(w4, Removed(n))
             && w5 == After(legal, w4, Removed(n))
    ensures IsRun(legal, run, events) && |events| == 5 && events[3] == list && run[5] == w5
  {
    hide Allowed, After;
    run, events := [w0, w1, w2, w3, w4, w5], [begin, ListStep(0), CreateStep(0), list, Removed(n)];
  }

  lemma FourMore(legal: string -> bool, head: seq<World>, tail: seq<Event>, w6: World, w7: World, w8: World, w9: World,
      begin: Event, n: string)
    requires IsRun(legal, head, tail) && |tail| == 5 && Allowed(head[5], begin) && w6 == After(legal, head[5], begin)
    requires Allowed(w6, ListStep(1)) && w7 == After(legal, w6, ListStep(1)) && Allowed(w7, CreateStep(1))
             && w8 == After(legal, w7, CreateStep(1))
    requires Allowed(w8, DeleteListed(0, n)) && w9 == After(legal, w8, DeleteListed(0, n))
    ensures IsRun(legal, head + [w6, w7, w8, w9], tail + [begin, ListStep(1), CreateStep(1), DeleteListed(0, n)])
  {
    hide Allowed, After;
  }

  lemma ListedThenCollected(legal: string -> bool, w: World, n: string, pool: string, a: Ip, c: Consumer, keep: Ip)
    returns (listed: World, collected: World)
    requires w.store == map[n := Allocation(pool, a, Some(c))] && w.releases == map[] && c.uid != ""
             && Unmap(a) == a != keep
    ensures Allowed(w, ListRelease(0, pool, c, keep)) && listed == After(legal, w, ListRelease(0, pool, c, keep))
    ensures Allowed(listed, Removed(n)) && collected == After(legal, listed, Removed(n))
    ensures collected.store == map[] && collected.calls == w.calls && 0 in collected.releases
            && n in collected.releases[0].names
  {
    hide Unmap;
    listed := After(legal, w, ListRelease(0, pool, c, keep));
    collected := After(legal, listed, Removed(n));
  }

  lemma DeletedIsGone(legal: string -> bool, w: World, n: string) returns (w': World)
    requires 0 in w.releases && n in w.releases[0].names
    ensures Allowed(w, DeleteListed(0, n)) && w' == After(legal, w, DeleteListed(0, n)) && n !in w'.store
  {
    w' := After(legal, w, DeleteListed(0, n));
  }

  function Surviving(s: Store, pool: string, c: Consumer, keep: Ip): Store {
    map n | n in s && !Released(s[n], pool, c, keep) :: s[n]
  }

  class Namespace {
    var objects: Store

    constructor ()
      ensures objects == map[]
    {
      objects := map[];
    }

    method ReleaseClaimsExcept(pool: string, c: Consumer, keep: Ip)
      modifies this
      ensures objects == Surviving(old(objects), pool, c, keep)
    {
      hide Released;
      var listed := objects;
      var todo := listed.Keys;
      while todo != {}
        invariant todo <= listed.Keys
        invariant forall n :: n in objects <==> n in listed && (n in todo || !Released(listed[n], pool, c, keep))
        invariant forall n :: n in objects ==> objects[n] == listed[n]
        decreases |todo|
      {
        var n :| n in todo;
        todo := todo - {n};
        if Released(listed[n], pool, c, keep) { objects := objects - {n}; }
      }
    }
  }

  /** After a release the consumer holds nothing in the pool but `keep`, nothing in any other pool when it
      has a UID, and everybody else's allocations stand. */
  lemma ReleaseIsExact(s: Store, pool: string, c: Consumer, keep: Ip, other: string)
    ensures Mine(Surviving(s, pool, c, keep), pool, c) == Mine(s, pool, c) * {keep}
    ensures c.uid != "" && other != pool ==> Mine(Surviving(s, pool, c, keep), other, c) == {}
    ensures forall n :: n in s && !OwnedBy(s[n], c) ==> n in Surviving(s, pool, c, keep)
  {
    hide Pow2, Unmap;
    var s' := Surviving(s, pool, c, keep);
    forall a ensures a in Mine(s', pool, c) <==> a in Mine(s, pool, c) && a == keep {
      if a in Mine(s, pool, c) && a == keep {
        var n :| n in s && s[n].pool == pool && OwnedBy(s[n], c) && Unmap(s[n].addr) == a;
        assert n in s' && s'[n] == s[n];
      }
    }
  }
}
