/** A session's outbound queue: snapshots are always queued whole, deltas are dropped past a cap. */
module Queues {
  import opened RouteBus
  import opened RibState

  const MAX_PENDING_DELTAS := 1024

  datatype Queue = Queue(pending: seq<ServerMsg>, deltas: nat, dropping: bool, dropped: nat, closed: bool)

  const Fresh := Queue([], 0, false, 0, false)

  function Sent(q: Queue, m: ServerMsg): Queue {
    if q.closed then q
    else if q.deltas >= MAX_PENDING_DELTAS then q.(dropping := true, dropped := q.dropped + 1)
    else q.(pending := q.pending + [m], deltas := q.deltas + 1)
  }

  function SnapshotSent(q: Queue, ms: seq<ServerMsg>): Queue {
    if q.closed then q else q.(pending := q.pending + ms)
  }

  /** What take leaves behind when something is queued. */
  function Taken(q: Queue): Queue {
    if q.pending == [] then q else q.(pending := [], deltas := 0, dropping := false)
  }

  function Closed(q: Queue): Queue { q.(closed := true) }

  class SessionQueue {
    var pending: seq<ServerMsg>
    var deltas: nat
    var dropping: bool
    var dropped: nat
    var closed: bool

    ghost function State(): Queue
      reads this
    {
      Queue(pending, deltas, dropping, dropped, closed)
    }

    constructor ()
      ensures State() == Fresh
    {
      pending, deltas, dropping, dropped, closed := [], 0, false, 0, false;
    }

    method Send(m: ServerMsg)
      modifies this
      ensures State() == Sent(old(State()), m)
    {
      if closed { return; }
      if deltas >= MAX_PENDING_DELTAS {
        if !dropping { dropping := true; }
        dropped := dropped + 1;
        return;
      }
      pending := pending + [m];
      deltas := deltas + 1;
    }

    method SendSnapshot(ms: seq<ServerMsg>)
      modifies this
      ensures State() == SnapshotSent(old(State()), ms)
    {
      if closed { return; }
      pending := pending + ms;
    }

    /** One pass of take: everything queued, or nothing and whether the queue has closed. */
    method TryTake() returns (batch: seq<ServerMsg>, done: bool)
      modifies this
      ensures batch == old(pending) && State() == Taken(old(State()))
      ensures done <==> old(pending) == [] && closed
    {
      batch := pending;
      if pending != [] {
        pending, deltas, dropping := [], 0, false;
        return batch, false;
      }
      return batch, closed;
    }

    method Close()
      modifies this
      ensures State() == Closed(old(State()))
    {
      closed := true;
    }
  }

  // ---------------------------------------------------------------- runs

  datatype Event = Offer(envelope: Envelope) | Drain | Shut

  /** The queue, what the drain has taken so far, and what was offered while it was open. */
  datatype History = History(queue: Queue, taken: seq<ServerMsg>, offered: seq<Envelope>)

  function Offered(q: Queue, e: Envelope): Queue {
    match e
    case Delta(m) => Sent(q, m)
    case Snapshot(ms) => SnapshotSent(q, ms)
  }

  function Happen(h: History, ev: Event): History {
    match ev
    case Offer(e) =>
      History(Offered(h.queue, e), h.taken, if h.queue.closed then h.offered else h.offered + [e])
    case Drain => History(Taken(h.queue), h.taken + h.queue.pending, h.offered)
    case Shut => h.(queue := Closed(h.queue))
  }

  function HistoryOf(events: seq<Event>): History {
    if events == [] then History(Fresh, [], [])
    else Happen(HistoryOf(events[..|events| - 1]), events[|events| - 1])
  }

  function Messages(e: Envelope): seq<ServerMsg> {
    match e
    case Delta(m) => [m]
    case Snapshot(ms) => ms
  }

  /** The messages of a log, in order. */
  function Flatten(log: seq<Envelope>): seq<ServerMsg> {
    if log == [] then [] else Flatten(log[..|log| - 1]) + Messages(log[|log| - 1])
  }

  /** `kept` is `offered` with some deltas left out, and every snapshot there. */
  ghost predicate OnlyDeltasMissing(offered: seq<Envelope>, kept: seq<Envelope>) {
    if offered == [] then kept == []
    else
      var init, last := offered[..|offered| - 1], offered[|offered| - 1];
      || (kept != [] && kept[|kept| - 1] == last && OnlyDeltasMissing(init, kept[..|kept| - 1]))
      || (last.Delta? && OnlyDeltasMissing(init, kept))
  }

  /** How many single deltas a log holds. */
  function DeltasIn(log: seq<Envelope>): nat {
    if log == [] then 0 else DeltasIn(log[..|log| - 1]) + if log[|log| - 1].Delta? then 1 else 0
  }

  lemma FlattenSnoc(log: seq<Envelope>, e: Envelope)
    ensures Flatten(log + [e]) == Flatten(log) + Messages(e)
            && DeltasIn(log + [e]) == DeltasIn(log) + if e.Delta? then 1 else 0
  {
    assert (log + [e])[..|log|] == log;
  }

  lemma {:induction false} FlattenConcat(a: seq<Envelope>, b: seq<Envelope>)
    ensures Flatten(a + b) == Flatten(a) + Flatten(b)
  {
    if b == [] {
      assert a + b == a;
    } else {
      var init, e := b[..|b| - 1], b[|b| - 1];
      assert a + b == (a + init) + [e] && b == init + [e];
      FlattenConcat(a, init);
      FlattenSnoc(a + init, e);
      FlattenSnoc(init, e);
      hide Flatten, Messages;
      assert Flatten(a + b) == Flatten(a) + (Flatten(init) + Messages(e));
    }
  }

  lemma {:induction false} NothingWaits(log: seq<Envelope>)
    requires Flatten(log) == []
    ensures DeltasIn(log) == 0
  {
    if log != [] { NothingWaits(log[..|log| - 1]); }
  }

  /** The history read as a list of kept envelopes: `gone` of them drained, the rest waiting. */
  ghost predicate Reads(h: History, kept: seq<Envelope>, gone: nat) {
    && gone <= |kept| && h.taken == Flatten(kept[..gone]) && h.queue.pending == Flatten(kept[gone..])
    && OnlyDeltasMissing(h.offered, kept)
    && |h.offered| == |kept| + h.queue.dropped
    && (h.queue.dropped == 0 ==> kept == h.offered)
    && h.queue.deltas == DeltasIn(kept[gone..]) <= MAX_PENDING_DELTAS
  }

  lemma OneMoreOffered(offered: seq<Envelope>, kept: seq<Envelope>, e: Envelope)
    requires OnlyDeltasMissing(offered, kept)
    ensures OnlyDeltasMissing(offered + [e], kept + [e]) && (e.Delta? ==> OnlyDeltasMissing(offered + [e], kept))
  {
    assert (offered + [e])[..|offered|] == offered && (kept + [e])[..|kept|] == kept;
  }

  lemma OfferReads(h: History, e: Envelope, kept: seq<Envelope>, gone: nat)
    requires Reads(h, kept, gone) && !h.queue.closed
    ensures var stays := e.Snapshot? || h.queue.deltas < MAX_PENDING_DELTAS;
            Reads(Happen(h, Offer(e)), if stays then kept + [e] else kept, gone)
  {
    hide OnlyDeltasMissing, Flatten, DeltasIn;
    OneMoreOffered(h.offered, kept, e);
    FlattenSnoc(kept[gone..], e);
    assert (kept + [e])[..gone] == kept[..gone] && (kept + [e])[gone..] == kept[gone..] + [e];
  }

  lemma DrainReads(h: History, kept: seq<Envelope>, gone: nat)
    requires Reads(h, kept, gone)
    ensures Reads(Happen(h, Drain), kept, |kept|)
  {
    hide OnlyDeltasMissing;
    FlattenConcat(kept[..gone], kept[gone..]);
    assert kept == kept[..gone] + kept[gone..] == kept[..|kept|] && kept[|kept|..] == [];
    if h.queue.pending == [] { NothingWaits(kept[gone..]); }
  }

  /** In every run the drain gets, in order, every snapshot whole and every delta but `dropped` many;
      with none dropped it gets exactly what was offered. Of what was kept, `gone` envelopes are drained and
      the rest waits; `deltas` counts the deltas that wait, and they never pass the cap. */
  lemma {:induction false} QueueKeepsSnapshots(events: seq<Event>) returns (kept: seq<Envelope>, gone: nat)
    ensures var h := HistoryOf(events);
            && gone <= |kept| && h.taken == Flatten(kept[..gone]) && h.queue.pending == Flatten(kept[gone..])
            && OnlyDeltasMissing(h.offered, kept)
            && |h.offered| == |kept| + h.queue.dropped
            && (h.queue.dropped == 0 ==> kept == h.offered)
            && h.queue.deltas == DeltasIn(kept[gone..]) <= MAX_PENDING_DELTAS
  {
    hide OnlyDeltasMissing, Flatten, DeltasIn;
    kept, gone := KeptBy(events);
  }

  lemma {:induction false} KeptBy(events: seq<Event>) returns (kept: seq<Envelope>, gone: nat)
    ensures Reads(HistoryOf(events), kept, gone)
  {
    if events == [] { return [], 0; }
    hide Reads;
    kept, gone := KeptBy(events[..|events| - 1]);
    var h, ev := HistoryOf(events[..|events| - 1]), events[|events| - 1];
    if ev.Offer? && !h.queue.closed {
      OfferReads(h, ev.envelope, kept, gone);
      if ev.envelope.Snapshot? || h.queue.deltas < MAX_PENDING_DELTAS { kept := kept + [ev.envelope]; }
    } else if ev.Drain? {
      DrainReads(h, kept, gone);
      gone := |kept|;
    } else {
      UnheardReads(h, ev, kept, gone);
    }
  }

  lemma UnheardReads(h: History, ev: Event, kept: seq<Envelope>, gone: nat)
    requires Reads(h, kept, gone) && (ev.Shut? || (ev.Offer? && h.queue.closed))
    ensures Reads(Happen(h, ev), kept, gone)
  {
    hide OnlyDeltasMissing, Flatten, DeltasIn;
  }

  /** An open queue drops a delta exactly when the cap of deltas waits in it. */
  lemma DropsOnlyWhenFull(events: seq<Event>, m: ServerMsg) returns (kept: seq<Envelope>, gone: nat)
    requires !HistoryOf(events).queue.closed
    ensures var q, q' := HistoryOf(events).queue, HistoryOf(events + [Offer(Delta(m))]).queue;
            && gone <= |kept| && q.pending == Flatten(kept[gone..])
            && (q'.dropped == q.dropped + 1 <==> DeltasIn(kept[gone..]) == MAX_PENDING_DELTAS)
            && (q'.dropped == q.dropped <==> q'.pending == q.pending + [m])
  {
    kept, gone := QueueKeepsSnapshots(events);
    assert (events + [Offer(Delta(m))])[..|events|] == events;
  }

  /** The queue is closed if and only if it was shut, and what a closed queue is offered it ignores. */
  lemma {:induction false} ClosedExactly(events: seq<Event>, e: Envelope)
    ensures HistoryOf(events).queue.closed <==> Shut in events
    ensures Shut in events ==> Offered(HistoryOf(events).queue, e) == HistoryOf(events).queue
  {
    if events != [] {
      var init, ev := events[..|events| - 1], events[|events| - 1];
      assert events == init + [ev];
      ClosedExactly(init, e);
    }
  }

  /** The event at i was a delta that the queue dropped. */
  predicate DropsAt(events: seq<Event>, i: nat)
    requires i < |events|
  {
    HistoryOf(events[..i + 1]).queue.dropped > HistoryOf(events[..i]).queue.dropped
  }

  lemma {:induction false} FullIsNotEmpty(events: seq<Event>)
    ensures var q := HistoryOf(events).queue; q.deltas <= |q.pending| && (q.dropping ==> q.deltas >= MAX_PENDING_DELTAS)
  {
    if events != [] { FullIsNotEmpty(events[..|events| - 1]); }
  }

  lemma DroppingStep(h: History, ev: Event)
    requires h.queue.deltas <= |h.queue.pending| && (h.queue.dropping ==> h.queue.deltas >= MAX_PENDING_DELTAS)
    ensures var q, q' := h.queue, Happen(h, ev).queue;
            && (q'.dropping <==> q'.dropped > q.dropped || (q.dropping && ev != Drain))
            && (q'.dropped > q.dropped ==> ev != Drain)
  {
  }

  lemma DropsInside(events: seq<Event>, n: nat, i: nat)
    requires i < n <= |events|
    ensures DropsAt(events[..n], i) <==> DropsAt(events, i)
  {
    hide HistoryOf;
    assert events[..n][..i + 1] == events[..i + 1] && events[..n][..i] == events[..i];
  }

  /** A delta was dropped and nothing drained since. */
  ghost predicate LeftWaiting(events: seq<Event>) {
    exists i :: 0 <= i < |events| && DropsAt(events, i) && forall j :: i < j < |events| ==> events[j] != Drain
  }

  lemma WaitingStep(events: seq<Event>)
    requires events != []
    ensures var n := |events| - 1;
            LeftWaiting(events) <==> DropsAt(events, n) || (LeftWaiting(events[..n]) && events[n] != Drain)
  {
    hide DropsAt;
    var n := |events| - 1;
    var init := events[..n];
    forall i | 0 <= i < n ensures DropsAt(init, i) <==> DropsAt(events, i) { DropsInside(events, n, i); }
    if LeftWaiting(events) && !DropsAt(events, n) {
      var i :| 0 <= i < |events| && DropsAt(events, i) && forall j :: i < j < |events| ==> events[j] != Drain;
      assert DropsAt(init, i);
    }
    if LeftWaiting(init) && events[n] != Drain {
      var i :| 0 <= i < |init| && DropsAt(init, i) && forall j :: i < j < |init| ==> init[j] != Drain;
      assert forall j :: i < j < n ==> init[j] == events[j];
      assert DropsAt(events, i) && forall j :: i < j < |events| ==> events[j] != Drain;
    }
  }

  /** The queue says it is dropping if and only if it dropped a delta and has not been drained since. */
  lemma {:induction false} DroppingExactly(events: seq<Event>)
    ensures HistoryOf(events).queue.dropping <==>
            exists i :: 0 <= i < |events| && DropsAt(events, i) && forall j :: i < j < |events| ==> events[j] != Drain
  {
    if events != [] {
      var n := |events| - 1;
      DroppingExactly(events[..n]);
      FullIsNotEmpty(events[..n]);
      DroppingStep(HistoryOf(events[..n]), events[n]);
      WaitingStep(events);
      assert events[..n + 1] == events;
      hide Happen;
    }
  }
}
