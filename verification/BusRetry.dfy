/** When the tick calls a key, and how refused calls thin out: the pauses between the attempts on a key that the
    dataplane keeps refusing. */
module BusRetry {
  import opened Order
  import opened RouteBus
  import opened BusState
  import opened BusResync

  lemma {:induction false} Pow2Grows(n: nat)
    ensures Pow2(n) >= n + 1
  {
    if n > 0 { Pow2Grows(n - 1); }
  }

  /** A pause of one tick after the first refusal, twice as long after each further one, sixty ticks at most. */
  lemma BackoffDoubles(n: nat)
    requires n > 0
    ensures Backoff(1) == 1
    ensures Backoff(n + 1) == if 2 * Backoff(n) <= 60 then 2 * Backoff(n) else 60
  {
    if n > 30 {
      Pow2Grows(30);
      assert Pow2(30) == 2 * Pow2(29) && Pow2(29) >= 30 by { Pow2Grows(29); }
    }
  }

  /** The dataplane refused this very route for the key, and the pause is not over. */
  predicate Resting(w: World, k: RouteKey, want: Option<DpRoute>) {
    k in w.retries && w.retries[k].want == want && w.ticks < w.retries[k].nextTick
  }

  /** In its turn a key is called if and only if the tick has not stopped, budget is left, the key is not as
      programmed, and it does not rest; a withdraw never rests. */
  lemma CalledExactly(c: Env, l: Loop, k: RouteKey)
    ensures var want, l' := Desired(c, l.world.inputs, k), DiffStep(c, l, k);
            var asProgrammed := if want.Some? then k in l.world.programmed && l.world.programmed[k] == want.value
              else k !in l.world.programmed;
            var due := !l.stopped && l.budget > 0 && !asProgrammed && !(want.Some? && Resting(l.world, k, want));
            && l'.world.calls == l.world.calls + (if due then 1 else 0)
            && l'.budget == l.budget - (if due then 1 else 0)
            && (l'.stopped <==> l.stopped || l.budget == 0 || (due && c.oracle(l.world.calls).Unreachable?))
  {
    hide Desired, NoteFailure, EntryOf;
  }

  function RetryAt(w: World, k: RouteKey): Option<Retry> { if k in w.retries then Some(w.retries[k]) else None }

  /** The turn leaves the key alone: the tick has stopped, the budget is spent, or the key rests. */
  ghost predicate PassedOver(c: Env, l: Loop, k: RouteKey) {
    var want := Desired(c, l.world.inputs, k);
    l.stopped || l.budget == 0 || (want.Some? && Resting(l.world, k, want))
  }

  /** What a turn leaves of the key's retry. A retry for another route than the one now wanted is forgotten; an accepted
      call ends it; an unreachable dataplane leaves it; a refusal counts one more for the same wish or starts at one. */
  lemma RetryAfterTurn(c: Env, l: Loop, k: RouteKey, j: RouteKey)
    ensures var w, w', want := l.world, DiffStep(c, l, k).world, Desired(c, l.world.inputs, k);
            var before := RetryAt(w, k);
            var kept := if before.Some? && want.Some? && before.value.want != want then None else before;
            && (j != k ==> RetryAt(w', j) == RetryAt(w, j))
            && (PassedOver(c, l, k) ==> w' == w)
            && (!PassedOver(c, l, k) && w'.calls == w.calls ==> RetryAt(w', k) == kept)
            && (!PassedOver(c, l, k) && w'.calls != w.calls ==>
                 match c.oracle(w.calls)
                 case Accepted => RetryAt(w', k) == None
                 case Unreachable(_) => RetryAt(w', k) == kept
                 case Refused(_) =>
                   var n := if kept.Some? && kept.value.want == want then kept.value.failures + 1 else 1;
                   RetryAt(w', k) == Some(Retry(want, n, w.ticks + Backoff(n))))
  {
    hide Desired, EntryOf, Backoff;
  }

  /** Before its turns a tick drops the retry of every key that nothing wants, feeds or has programmed; a key that is
      not as programmed keeps its own. */
  lemma RetriesOfReachedKeys(c: Env, w: World, k: RouteKey)
    ensures k !in RouteKeys(c, w) ==> RetryAt(Cleaned(c, w), k) == None
    ensures Drifted(c, w, k) || k in w.programmed ==> RetryAt(Cleaned(c, w), k) == RetryAt(w, k)
  {
    DriftReached(c, w, k);
    hide Drifted;
  }

  /** The ticks, counted from the first attempt, at which the next ones come. */
  function Attempt(n: nat): nat { if n == 0 then 0 else Attempt(n - 1) + Backoff(n) }

  lemma {:induction false} AttemptsAscend(m: nat, n: nat)
    requires m < n
    ensures Attempt(m) < Attempt(n)
  {
    Pow2Grows(if n - 1 < 30 then n - 1 else 30);
    if m < n - 1 { AttemptsAscend(m, n - 1); }
  }

  /** The key's turns in consecutive ticks: it wants one route all along, the calls it makes are refused, and between
      its turns nobody touches its record or its retry. */
  ghost predicate Turns(c: Env, turns: seq<Loop>, k: RouteKey, want: DpRoute) {
    && want.DpRoute?
    && (forall i :: 0 <= i < |turns| ==>
         && !turns[i].stopped && turns[i].budget > 0 && turns[i].world.ticks == turns[0].world.ticks + i
         && Desired(c, turns[i].world.inputs, k) == Some(want) && c.oracle(turns[i].world.calls).Refused?)
    && forall i :: 0 <= i < |turns| - 1 ==> SameKey(DiffStep(c, turns[i], k).world, turns[i + 1].world, k)
  }

  predicate SameKey(a: World, b: World, k: RouteKey) {
    && (k in a.retries <==> k in b.retries) && (k in a.retries ==> a.retries[k] == b.retries[k])
    && (k in a.programmed <==> k in b.programmed) && (k in a.programmed ==> a.programmed[k] == b.programmed[k])
  }

  /** At its first turn the key is not as programmed, and was not refused this route before. */
  predicate Starts(w: World, k: RouteKey, want: DpRoute) {
    && !(k in w.programmed && w.programmed[k] == want)
    && (k in w.retries ==> w.retries[k].want != Some(want))
  }

  /** After n refusals. */
  predicate Refused(w: World, k: RouteKey, want: DpRoute, start: nat, n: nat) {
    && k in w.programmed && w.programmed[k] == Unknown
    && k in w.retries && w.retries[k] == Retry(Some(want), n, start + Attempt(n))
  }

  lemma TurnRefused(c: Env, l: Loop, k: RouteKey, want: DpRoute, start: nat, n: nat)
    requires want.DpRoute? && !l.stopped && l.budget > 0 && Desired(c, l.world.inputs, k) == Some(want)
    requires c.oracle(l.world.calls).Refused?
    requires if n == 0 then Starts(l.world, k, want) && l.world.ticks == start
             else Refused(l.world, k, want, start, n) && l.world.ticks <= start + Attempt(n)
    ensures var w' := DiffStep(c, l, k).world;
            var called := if l.world.ticks < start + Attempt(n) then 0 else 1;
            w'.calls == l.world.calls + called && Refused(w', k, want, start, n + called)
  {
    hide Desired, EntryOf, Backoff;
  }

  /** How many refusals the key has behind it after turn i. */
  lemma {:induction false} RefusalsSoFar(c: Env, turns: seq<Loop>, k: RouteKey, want: DpRoute, i: nat) returns (n: nat)
    requires Turns(c, turns, k, want) && i < |turns| && Starts(turns[0].world, k, want)
    ensures n > 0 && Attempt(n - 1) <= i < Attempt(n)
    ensures Refused(DiffStep(c, turns[i], k).world, k, want, turns[0].world.ticks, n)
    ensures DiffStep(c, turns[i], k).world.calls == turns[i].world.calls + if i == Attempt(n - 1) then 1 else 0
  {
    hide DiffStep, Desired, Backoff;
    var start := turns[0].world.ticks;
    if i == 0 {
      n := 1;
      AttemptsAscend(0, 1);
      TurnRefused(c, turns[0], k, want, start, 0);
    } else {
      var m := RefusalsSoFar(c, turns, k, want, i - 1);
      assert SameKey(DiffStep(c, turns[i - 1], k).world, turns[i - 1 + 1].world, k);
      TurnRefused(c, turns[i], k, want, start, m);
      AttemptsAscend(m, m + 1);
      n := if i < Attempt(m) then m else m + 1;
    }
  }

  /** A key that keeps being refused the same route is tried again after 1, 2, 4, ... ticks, then every sixty: in
      tick i it is called if and only if i is one of those. */
  lemma RetriesThinOut(c: Env, turns: seq<Loop>, k: RouteKey, want: DpRoute, i: nat)
    requires Turns(c, turns, k, want) && i < |turns| && Starts(turns[0].world, k, want)
    ensures DiffStep(c, turns[i], k).world.calls == turns[i].world.calls + 1 <==> exists n: nat :: i == Attempt(n)
  {
    hide DiffStep, Desired, Backoff, Turns, Starts, Refused;
    var n := RefusalsSoFar(c, turns, k, want, i);
    forall m: nat | i == Attempt(m) ensures m == n - 1 {
      if m < n - 1 { AttemptsAscend(m, n - 1); }
      if m > n - 1 && m != n { AttemptsAscend(n, m); }
    }
  }

  /** A full re-send goes to every held local host key before any other, and within both by VNI, then prefix. */
  lemma ResendOrder(c: Env, w: World, order: seq<RouteKey>, i: nat, j: nat)
    requires OwesAll(c, w, order) && i < j < |order|
    ensures order[j] in w.inputs.localHosts ==> order[i] in w.inputs.localHosts
    ensures (order[i] in w.inputs.localHosts <==> order[j] in w.inputs.localHosts) ==>
              && order[i].vni <= order[j].vni
              && (order[i].vni == order[j].vni ==> Less(order[i].prefix, order[j].prefix))
  {
    hide RouteKeys;
    assert ((x, y) => ResendBefore(w.inputs.localHosts, x, y))(order[i], order[j]);
  }

  /** A tick queues a full re-send if and only if it reads the interfaces after a read that failed, or of another
      instance than the last one seen, or if the dataplane names no instance, nothing is queued and the sweep is due. */
  lemma FullResendExactly(c: Env, w: World, p: Probe, self: string, reply: ListReply, due: bool, o: TickOrders)
    ensures var after := Refreshed(c, Ticked(w), self, reply, o.left);
            var restarted := reply.ListOk? && (p.unreachable || (p.seen && reply.instance != p.instance));
            var unnamed := (if reply.ListOk? then reply.instance else p.instance) == "";
            Swept(c, w, p, self, reply, due, o).resend ==
            if restarted || (unnamed && due && after.resend == []) then o.resend else after.resend
  {
    hide Refreshed;
  }
}
