/** Reconnect convergence: a whole replay and its counted marker make the learned routes of a VNI the
    reflector's advertised table exactly when no ADD of the VNI slipped in before it, and a short replay
    forgets nothing. */
module BusReplay {
  import opened Order
  import opened Addresses
  import opened RouteBus
  import opened OwnedTable
  import opened RibState
  import opened RibViews
  import opened Queues
  import opened RibLogs
  import opened BusState

  /** What is learned for one VNI, with the bookkeeping of its replay. */
  ghost predicate SameFor(a: Learned, b: Learned, vni: nat) {
    && (forall k: RouteKey :: k.vni == vni ==> (k in a.own <==> k in b.own) && (k in a.own ==> a.own[k] == b.own[k]))
    && (vni == PUBLIC_VNI ==> a.public == b.public)
    && SeenOf(a, vni) == SeenOf(b, vni) && RxOf(a, vni) == RxOf(b, vni)
  }

  lemma QuietRoute(l: Learned, k: RouteKey, nhs: seq<string>, add: bool, ext: bool, vni: nat)
    requires k.vni != vni
    ensures SameFor(l, LearnRoute(l, k, nhs, add, ext), vni)
  {
  }

  lemma QuietPrune(l: Learned, other: nat, want: nat, vni: nat)
    requires other != vni
    ensures SameFor(l, Prune(l, other, want), vni)
  {
  }

  lemma QuietLearns(l: Learned, m: ServerMsg, vni: nat)
    requires Quiet(m, vni)
    ensures SameFor(l, Learn(l, m), vni)
  {
    hide LearnRoute, Prune, SameFor;
    match m
    case RouteUpdate(k, nhs, add, ext) => QuietRoute(l, k, nhs, add, ext, vni);
    case EndOfRib(other, want) => QuietPrune(l, other, want, vni);
    case _ => SameAlready(l, vni);
  }

  lemma SameAlready(l: Learned, vni: nat)
    ensures SameFor(l, l, vni)
  {
  }

  lemma {:induction false} QuietAll(l: Learned, ms: seq<ServerMsg>, vni: nat)
    requires forall m :: m in ms ==> Quiet(m, vni)
    ensures SameFor(l, LearnAll(l, ms), vni)
  {
    hide Learn;
    if ms != [] {
      assert ms[|ms| - 1] in ms && forall m :: m in ms[..|ms| - 1] ==> m in ms;
      QuietAll(l, ms[..|ms| - 1], vni);
      QuietLearns(LearnAll(l, ms[..|ms| - 1]), ms[|ms| - 1], vni);
    }
  }

  lemma {:induction false} LearnAllAppend(l: Learned, a: seq<ServerMsg>, b: seq<ServerMsg>)
    ensures LearnAll(l, a + b) == LearnAll(LearnAll(l, a), b)
  {
    hide Learn;
    if b == [] {
      assert a + b == a;
    } else {
      assert (a + b)[..|a + b| - 1] == a + b[..|b| - 1];
      LearnAllAppend(l, a, b[..|b| - 1]);
    }
  }

  // ---------------------------------------------------------------- one replay

  /** What the reflector advertises for k, as the agent stores it. */
  ghost function ToldRoute(t: Texts, r: Rib, k: RouteKey): Option<OwnRoute> {
    if AdvertisedAt(t, r, k) == [] then None
    else Some(OwnRoute(AdvertisedAt(t, r, k), EntryAt(r.routes, k).external))
  }

  function OwnAt(l: Learned, k: RouteKey): Option<OwnRoute> { if k in l.own then Some(l.own[k]) else None }

  function PublicAt(l: Learned, prefix: string): Option<string> {
    if prefix in l.public then Some(l.public[prefix]) else None
  }

  /** Midway through a replay: n records of `prefixes` stored, counted and marked seen, on top of l. */
  ghost predicate Replayed(t: Texts, r: Rib, vni: nat, prefixes: seq<string>, l: Learned, l': Learned, n: nat) {
    && RxOf(l', vni) == RxOf(l, vni) + n
    && (forall p :: p in SeenOf(l', vni) <==> p in SeenOf(l, vni) || Told(t, r, vni, prefixes, p))
    && (vni != PUBLIC_VNI ==> forall k: RouteKey :: k.vni == vni ==>
          OwnAt(l', k) == if Told(t, r, vni, prefixes, k.prefix) then ToldRoute(t, r, k) else OwnAt(l, k))
    && (vni == PUBLIC_VNI ==> forall p ::
          PublicAt(l', p) ==
            if Told(t, r, vni, prefixes, p) then Some(AdvertisedAt(t, r, RouteKey(vni, p))[0]) else PublicAt(l, p))
  }

  /** A replay over `prefixes` has a record for p. */
  ghost predicate Told(t: Texts, r: Rib, vni: nat, prefixes: seq<string>, p: string) {
    p in prefixes && AdvertisedAt(t, r, RouteKey(vni, p)) != []
  }

  lemma LearnAddEffect(l: Learned, k: RouteKey, nhs: seq<string>, ext: bool)
    ensures var l' := LearnRoute(l, k, nhs, true, ext);
            && RxOf(l', k.vni) == RxOf(l, k.vni) + 1 && SeenOf(l', k.vni) == SeenOf(l, k.vni) + {k.prefix}
            && (k.vni != PUBLIC_VNI ==>
               forall j :: OwnAt(l', j) == if j == k then Some(OwnRoute(nhs, ext)) else OwnAt(l, j))
            && (k.vni == PUBLIC_VNI && nhs != [] ==>
               forall p :: PublicAt(l', p) == if p == k.prefix then Some(nhs[0]) else PublicAt(l, p))
  {
  }

  lemma ReplayedOneMore(t: Texts, r: Rib, vni: nat, init: seq<string>, q: string, l: Learned, l': Learned, n: nat)
    requires Replayed(t, r, vni, init, l, l', n)
    ensures var nhs := AdvertisedAt(t, r, RouteKey(vni, q));
            if nhs == [] then Replayed(t, r, vni, init + [q], l, l', n)
            else Replayed(t, r, vni, init + [q], l,
                          LearnRoute(l', RouteKey(vni, q), nhs, true, EntryAt(r.routes, RouteKey(vni, q)).external),
                            n + 1)
  {
    hide AdvertisedAt, LearnRoute, RxOf, SeenOf, OwnAt, PublicAt;
    var k := RouteKey(vni, q);
    assert forall p :: p in init + [q] <==> p in init || p == q;
    LearnAddEffect(l', k, AdvertisedAt(t, r, k), EntryAt(r.routes, k).external);
    assert forall j: RouteKey :: j.vni == vni && j.prefix == q ==> j == k;
  }

  lemma {:induction false} RecordsLearned(t: Texts, r: Rib, vni: nat, prefixes: seq<string>, l: Learned)
    ensures var recs := Records(t, r, vni, prefixes);
            Replayed(t, r, vni, prefixes, l, LearnAll(l, recs), |recs|)
  {
    hide AdvertisedAt, LearnRoute;
    if prefixes != [] {
      hide Replayed;
      var init, q := prefixes[..|prefixes| - 1], prefixes[|prefixes| - 1];
      assert prefixes == init + [q];
      RecordsLearned(t, r, vni, init, l);
      var recs, all := Records(t, r, vni, init), Records(t, r, vni, prefixes);
      ReplayedOneMore(t, r, vni, init, q, l, LearnAll(l, recs), |recs|);
      assert AdvertisedAt(t, r, RouteKey(vni, q)) != [] ==> all[..|all| - 1] == recs;
    }
  }

  /** Number of route ADDs of vni in ms. */
  function AddsOf(ms: seq<ServerMsg>, vni: nat): nat {
    if ms == [] then 0
    else
      var m := ms[|ms| - 1];
      AddsOf(ms[..|ms| - 1], vni) + if m.RouteUpdate? && m.add && m.key.vni == vni then 1 else 0
  }

  lemma AddCounts(l: Learned, m: ServerMsg, vni: nat)
    ensures var l', add := Learn(l, m), m.RouteUpdate? && m.add && m.key.vni == vni;
            RxOf(l', vni) == RxOf(l, vni) + (if add then 1 else 0) && (!add ==> SeenOf(l', vni) == SeenOf(l, vni))
  {
    hide Stale;
  }

  /** Only ADDs move the bookkeeping of a replay. */
  lemma {:induction false} AddsCounted(l: Learned, ms: seq<ServerMsg>, vni: nat)
    ensures var l' := LearnAll(l, ms);
            && RxOf(l', vni) == RxOf(l, vni) + AddsOf(ms, vni)
            && (AddsOf(ms, vni) == 0 ==> SeenOf(l', vni) == SeenOf(l, vni))
  {
    hide Learn, RxOf, SeenOf;
    if ms != [] {
      AddsCounted(l, ms[..|ms| - 1], vni);
      AddCounts(LearnAll(l, ms[..|ms| - 1]), ms[|ms| - 1], vni);
    }
  }

  /** An agent that starts with nothing has counted, of each VNI, exactly the ADDs it took. */
  lemma FreshAgentCounts(ms: seq<ServerMsg>, vni: nat)
    ensures RxOf(LearnAll(Learned(map[], map[], map[], map[]), ms), vni) == AddsOf(ms, vni)
  {
    AddsCounted(Learned(map[], map[], map[], map[]), ms, vni);
  }

  /** What the agent holds for a key is exactly the nexthops `nhs`; of a public key it keeps the first. */
  ghost predicate Holds(l: Learned, k: RouteKey, nhs: seq<string>) {
    if k.vni == PUBLIC_VNI then PublicAt(l, k.prefix) == if nhs == [] then None else Some(nhs[0])
    else (k in l.own <==> nhs != []) && (k in l.own ==> l.own[k].nexthops == nhs)
  }

  /** Main theorem. From any stale table, a replay epoch opens, any messages arrive, then one whole replay of
      the VNI. Every advertised key ends as advertised; one that is not is forgotten exactly when no ADD of the
      VNI came between, and else stays as those messages left it. */
  lemma ReplayExactly(t: Texts, r: Rib, vni: nat, stale: Learned, pre: seq<ServerMsg>)
    ensures var l1 := LearnAll(ResetSnapshot(stale, vni), pre);
            var l := LearnAll(ResetSnapshot(stale, vni), pre + Replay(t, r, vni));
            var pruned := AddsOf(pre, vni) == 0;
            && (vni != PUBLIC_VNI ==> forall k: RouteKey :: k.vni == vni ==>
                  OwnAt(l, k) == if AdvertisedAt(t, r, k) != [] then ToldRoute(t, r, k)
                                 else if pruned then None else OwnAt(l1, k))
            && (vni == PUBLIC_VNI ==> forall p ::
                  PublicAt(l, p) ==
                    if AdvertisedAt(t, r, RouteKey(vni, p)) != [] then Some(AdvertisedAt(t, r, RouteKey(vni, p))[0])
                                    else if pruned then None else PublicAt(l1, p))
  {
    hide Advertised, Records, AddsOf;
    var l0 := ResetSnapshot(stale, vni);
    var l1 := LearnAll(l0, pre);
    AddsCounted(l0, pre, vni);
    LearnAllAppend(l0, pre, Replay(t, r, vni));
    var prefixes := PrefixesOf(r.routes, vni);
    var recs := Records(t, r, vni, prefixes);
    RecordsLearned(t, r, vni, prefixes, l1);
    LearnAllAppend(l1, recs, [EndOfRib(vni, |recs|)]);
    var l2 := LearnAll(l1, recs);
    assert LearnAll(l2, [EndOfRib(vni, |recs|)]) == Prune(l2, vni, |recs|) by {
      assert [EndOfRib(vni, |recs|)][..0] == [];
    }
    StoredOrSilent(t, r, vni, prefixes);
    hide LearnAll;
  }

  /** The learned table of the VNI is the advertised one. */
  ghost predicate Converged(t: Texts, r: Rib, vni: nat, l: Learned) {
    forall k: RouteKey :: k.vni == vni ==> Holds(l, k, AdvertisedAt(t, r, k))
  }

  predicate Has(l: Learned, k: RouteKey) { if k.vni == PUBLIC_VNI then k.prefix in l.public else k in l.own }

  /** A replay converges exactly when no ADD of the VNI came between the reset and it, or nothing held by then
      has left the table. */
  lemma ReplayConverges(t: Texts, r: Rib, vni: nat, stale: Learned, pre: seq<ServerMsg>)
    ensures var l1 := LearnAll(ResetSnapshot(stale, vni), pre);
            Converged(t, r, vni, LearnAll(ResetSnapshot(stale, vni), pre + Replay(t, r, vni))) <==>
            AddsOf(pre, vni) == 0 || forall k: RouteKey :: k.vni == vni && Has(l1, k) ==> AdvertisedAt(t, r, k) != []
  {
    hide LearnAll, AddsOf, AdvertisedAt, Replay;
    ReplayExactly(t, r, vni, stale, pre);
    var l1 := LearnAll(ResetSnapshot(stale, vni), pre);
    var l := LearnAll(ResetSnapshot(stale, vni), pre + Replay(t, r, vni));
    forall k: RouteKey | k.vni == vni
      ensures Holds(l, k, AdvertisedAt(t, r, k)) <==>
              AddsOf(pre, vni) == 0 || (Has(l1, k) ==> AdvertisedAt(t, r, k) != [])
    {
      assert k == RouteKey(vni, k.prefix);
      assert vni != PUBLIC_VNI ==> (k in l.own <==> OwnAt(l, k).Some?) && (k in l1.own <==> OwnAt(l1, k).Some?);
    }
  }

  /** A prefix with something advertised is a stored one. */
  lemma StoredOrSilent(t: Texts, r: Rib, vni: nat, prefixes: seq<string>)
    requires prefixes == PrefixesOf(r.routes, vni)
    ensures forall p :: AdvertisedAt(t, r, RouteKey(vni, p)) != [] ==> p in prefixes
  {
  }

  // ---------------------------------------------------------------- a short replay

  predicate OnlyAdds(ms: seq<ServerMsg>, vni: nat) {
    forall m :: m in ms ==> (m.RouteUpdate? && m.key.vni == vni ==> m.add) && !(m.EndOfRib? && m.vni == vni)
  }

  lemma {:induction false} AddsForgetNothing(l: Learned, ms: seq<ServerMsg>, vni: nat)
    requires OnlyAdds(ms, vni)
    ensures var l' := LearnAll(l, ms);
            && RxOf(l', vni) == RxOf(l, vni) + AddsOf(ms, vni)
            && (forall k: RouteKey :: k in l.own && k.vni == vni ==> k in l'.own)
            && (vni == PUBLIC_VNI ==> l.public.Keys <= l'.public.Keys)
  {
    if ms != [] {
      var init, m := ms[..|ms| - 1], ms[|ms| - 1];
      assert m in ms && forall x :: x in init ==> x in ms;
      AddsForgetNothing(l, init, vni);
      if Quiet(m, vni) { QuietLearns(LearnAll(l, init), m, vni); }
    }
  }

  /** A replay whose records do not number what its marker says prunes nothing. */
  lemma ShortReplayForgetsNothing(stale: Learned, vni: nat, ms: seq<ServerMsg>, count: nat)
    requires OnlyAdds(ms, vni) && AddsOf(ms, vni) != count
    ensures var l := LearnAll(ResetSnapshot(stale, vni), ms + [EndOfRib(vni, count)]);
            && (forall k: RouteKey :: k in stale.own && k.vni == vni ==> k in l.own)
            && (vni == PUBLIC_VNI ==> stale.public.Keys <= l.public.Keys)
  {
    hide AddsOf;
    var l0 := ResetSnapshot(stale, vni);
    AddsForgetNothing(l0, ms, vni);
    var all := ms + [EndOfRib(vni, count)];
    assert all[..|all| - 1] == ms;
  }

  // ---------------------------------------------------------------- the live feed

  lemma HoldsAfterReplay(t: Texts, r: Rib, stale: Learned, before: seq<Envelope>, pre: seq<ServerMsg>, k: RouteKey)
    requires AddsOf(pre, k.vni) == 0
    ensures Holds(LearnAll(ResetSnapshot(stale, k.vni), pre + Replay(t, r, k.vni)), k,
                  Lookup(ViewOf(before + [Snapshot(Replay(t, r, k.vni))], k.vni), k))
  {
    hide Replay, LearnAll, AdvertisedAt, Holds, AddsOf, ViewOf, AppliedAll;
    ReplayConverges(t, r, k.vni, stale, pre);
    ReplayView(t, r, k);
    ReplayMarked(t, r, k.vni);
    ViewSnoc(before, Snapshot(Replay(t, r, k.vni)), k.vni);
  }

  /** From a replay no ADD slipped in before, what the agent holds of a VNI is the subscriber's view of the log. */
  lemma {:induction false} AgentFollowsView(t: Texts, r: Rib, stale: Learned, before: seq<Envelope>,
      pre: seq<ServerMsg>,
                                            post: seq<Envelope>, k: RouteKey)
    requires AddsOf(pre, k.vni) == 0 && forall e :: e in post ==> LiveOf(e, k.vni)
    ensures Holds(LearnAll(ResetSnapshot(stale, k.vni), pre + Replay(t, r, k.vni) + Flatten(post)), k,
                  Lookup(ViewOf(before + [Snapshot(Replay(t, r, k.vni))] + post, k.vni), k))
  {
    hide Replay, LearnAll, Holds, LiveOf, AddsOf, ViewOf, Lookup, Messages, Received;
    var head, ms := before + [Snapshot(Replay(t, r, k.vni))], pre + Replay(t, r, k.vni);
    if post == [] {
      assert head + post == head && ms + Flatten(post) == ms;
      HoldsAfterReplay(t, r, stale, before, pre, k);
    } else {
      var init, e := post[..|post| - 1], post[|post| - 1];
      assert e in post && forall x :: x in init ==> x in post;
      AgentFollowsView(t, r, stale, before, pre, init, k);
      assert head + post == head + init + [e];
      ViewSnoc(head + init, e, k.vni);
      assert ms + Flatten(post) == ms + Flatten(init) + Messages(e);
      hide Flatten;
      var l0 := ResetSnapshot(stale, k.vni);
      LearnAllAppend(l0, ms + Flatten(init), Messages(e));
      EnvelopeLearns(LearnAll(l0, ms + Flatten(init)), ViewOf(head + init, k.vni), e, k);
    }
  }

  lemma SameHolds(a: Learned, b: Learned, k: RouteKey, nhs: seq<string>)
    requires SameFor(a, b, k.vni) && Holds(a, k, nhs)
    ensures Holds(b, k, nhs)
  {
  }

  lemma QuietEnvelopeLearns(l: Learned, v: View, e: Envelope, k: RouteKey)
    requires Holds(l, k, Lookup(v, k)) && QuietEnvelope(e, k.vni)
    ensures Holds(LearnAll(l, Messages(e)), k, Lookup(Received(v, e, k.vni), k))
  {
    hide Holds, SameFor, LearnAll, AppliedAll;
    QuietAll(l, Messages(e), k.vni);
    SameHolds(l, LearnAll(l, Messages(e)), k, Lookup(v, k));
    assert e.Delta? ==> e.msg in Messages(e);
    if e.Snapshot? && e.msgs != [] { assert e.msgs[|e.msgs| - 1] in Messages(e); }
  }

  lemma DeltaLearns(l: Learned, v: View, m: ServerMsg, k: RouteKey)
    requires Holds(l, k, Lookup(v, k)) && ShapedDelta(m)
    ensures Holds(Learn(l, m), k, Lookup(Applied(v, m, k.vni), k))
  {
    hide Prune;
  }

  lemma EnvelopeLearns(l: Learned, v: View, e: Envelope, k: RouteKey)
    requires Holds(l, k, Lookup(v, k)) && LiveOf(e, k.vni)
    ensures Holds(LearnAll(l, Messages(e)), k, Lookup(Received(v, e, k.vni), k))
  {
    if QuietEnvelope(e, k.vni) {
      QuietEnvelopeLearns(l, v, e, k);
    } else {
      assert LearnAll(l, [e.msg]) == Learn(l, e.msg) by { assert [e.msg][..0] == []; }
      hide LearnAll, Learn, Holds, Applied;
      DeltaLearns(l, v, e.msg, k);
    }
  }

  lemma {:induction false} QuietFlatten(log: seq<Envelope>, vni: nat)
    requires forall e :: e in log ==> QuietEnvelope(e, vni)
    ensures forall m :: m in Flatten(log) ==> Quiet(m, vni)
  {
    if log != [] {
      assert log[|log| - 1] in log && forall e :: e in log[..|log| - 1] ==> e in log;
      QuietFlatten(log[..|log| - 1], vni);
    }
  }

  lemma {:induction false} QuietAddsNothing(ms: seq<ServerMsg>, vni: nat)
    requires forall m :: m in ms ==> Quiet(m, vni)
    ensures AddsOf(ms, vni) == 0
  {
    if ms != [] {
      assert ms[|ms| - 1] in ms && forall m :: m in ms[..|ms| - 1] ==> m in ms;
      QuietAddsNothing(ms[..|ms| - 1], vni);
    }
  }

  // ---------------------------------------------------------------- end to end

  /** The messages of the log that come before the VNI's last replay. */
  function BeforeReplay(log: seq<Envelope>, vni: nat): seq<ServerMsg> { Flatten(log[..LastReplayAt(log, vni)]) }

  /** End to end, for every run: a node whose queue dropped nothing and which has drained it holds exactly the
      advertised nexthops of every key it has not itself originated since subscribing. It had taken n messages when
      it last asked for the VNI; no ADD of the VNI came between those and the replay it asked for. */
  lemma ResubscribedAgentHolds(t: Texts, run: seq<Rib>, ops: seq<Op>, sub: Subscription, k: RouteKey,
                               events: seq<Event>, stale: Learned, n: nat)
    requires IsRun(t, run, ops) && sub in run[|ops|].subscribers && k.vni == sub.vni
    requires sub in OriginatedBy(run, ops, |ops|) ==> k !in OriginatedBy(run, ops, |ops|)[sub]
    requires HistoryOf(events).offered == Log(run[|ops|].sent, run[|ops|].subscribers[sub])
    requires HistoryOf(events).queue.dropped == 0 && HistoryOf(events).queue.pending == []
    requires n <= |BeforeReplay(HistoryOf(events).offered, k.vni)|
    requires AddsOf(BeforeReplay(HistoryOf(events).offered, k.vni)[n..], k.vni) == 0
    ensures n <= |HistoryOf(events).taken|
    ensures Holds(LearnAll(ResetSnapshot(stale, k.vni), HistoryOf(events).taken[n..]), k,
            AdvertisedAt(t, run[|ops|], k))
  {
    assert |run| == |ops| + 1;
    hide IsRun, AdvertisedAt, HistoryOf, LearnAll, Replay, ViewOf, Holds, Flatten, AddsOf, LiveOf;
    var h := HistoryOf(events);
    var log, i := h.offered, LastReplayAt(h.offered, k.vni);
    TakenIsLog(events);
    var r := LogAroundReplay(t, run, ops, sub);
    SplitAtReplay(log, i, n);
    AgentFollowsView(t, r, stale, log[..i], BeforeReplay(log, k.vni)[n..], log[i + 1..], k);
    SubscriberViewIsTable(t, run, ops, sub, k);
  }

  lemma TakenIsLog(events: seq<Event>)
    requires HistoryOf(events).queue.dropped == 0 && HistoryOf(events).queue.pending == []
    ensures HistoryOf(events).taken == Flatten(HistoryOf(events).offered)
  {
    hide HistoryOf, Flatten, OnlyDeltasMissing, DeltasIn;
    var kept, gone := QueueKeepsSnapshots(events);
    FlattenConcat(kept[..gone], kept[gone..]);
    assert kept == kept[..gone] + kept[gone..];
  }

  lemma SplitAtReplay(log: seq<Envelope>, i: nat, n: nat)
    requires i < |log| && n <= |Flatten(log[..i])|
    ensures n <= |Flatten(log)|
            && Flatten(log)[n..] == Flatten(log[..i])[n..] + Messages(log[i]) + Flatten(log[i + 1..])
    ensures log == log[..i] + [log[i]] + log[i + 1..]
  {
    FlattenSnoc(log[..i], log[i]);
    FlattenConcat(log[..i] + [log[i]], log[i + 1..]);
    hide Flatten, Messages;
    assert log == log[..i] + [log[i]] + log[i + 1..];
    assert Flatten(log) == Flatten(log[..i]) + Messages(log[i]) + Flatten(log[i + 1..]);
  }

  /** A node that asked for the VNI once this session needs no such condition: nothing of the VNI can come
      before its replay. */
  lemma AgentHoldsTheTable(t: Texts, run: seq<Rib>, ops: seq<Op>, sub: Subscription, k: RouteKey,
                           events: seq<Event>, stale: Learned, n: nat)
    requires IsRun(t, run, ops) && sub in run[|ops|].subscribers && k.vni == sub.vni
    requires AskedFor(ops, sub.vni, run[|ops|].subscribers[sub]) <= 1
    requires sub in OriginatedBy(run, ops, |ops|) ==> k !in OriginatedBy(run, ops, |ops|)[sub]
    requires HistoryOf(events).offered == Log(run[|ops|].sent, run[|ops|].subscribers[sub])
    requires HistoryOf(events).queue.dropped == 0 && HistoryOf(events).queue.pending == []
    requires n <= |BeforeReplay(HistoryOf(events).offered, k.vni)|
    ensures n <= |HistoryOf(events).taken|
    ensures Holds(LearnAll(ResetSnapshot(stale, k.vni), HistoryOf(events).taken[n..]), k,
            AdvertisedAt(t, run[|ops|], k))
  {
    assert |run| == |ops| + 1;
    hide IsRun, AdvertisedAt, HistoryOf, LearnAll, Holds, Flatten, AddsOf, LiveOf, Quiet, QuietEnvelope;
    var log := HistoryOf(events).offered;
    var r := LogAroundReplay(t, run, ops, sub);
    QuietFlatten(log[..LastReplayAt(log, k.vni)], k.vni);
    QuietAddsNothing(BeforeReplay(log, k.vni)[n..], k.vni);
    ResubscribedAgentHolds(t, run, ops, sub, k, events, stale, n);
  }

  // ---------------------------------------------------------------- the condition is needed

  lemma EmptyReplay(t: Texts, r: Rib, vni: nat)
    requires r.routes == map[]
    ensures Replay(t, r, vni) == [EndOfRib(vni, 0)]
  {
    assert PrefixesOf(r.routes, vni) == [];
  }

  lemma LoneAnnounce(t: Texts, peer: string, nh: string)
    ensures Advertised(t, RouteEntry(map[peer := [nh]], false), {}) == [nh]
    ensures Advertised(t, NoEntry, {}) == []
  {
    SortedIsCanonical({nh}, [nh]);
    var origins := map[peer := [nh]];
    assert peer in origins && nh in origins[peer];
    assert NexthopSet(origins) == {nh};
    assert Visible(t, RouteEntry(map[peer := [nh]], false), {}) == {nh};
    assert Visible(t, NoEntry, {}) == {};
  }

  /** A node subscribes, a peer announces k, the node leaves the VNI, the peer withdraws k, the node comes back. */
  function ComesBack(s: Sink, peer: string, k: RouteKey, nh: string): seq<Op> {
    [OpSubscribe(k.vni, s), OpAnnounce(peer, k, [nh], false), OpUnsubscribe(k.vni, s.id), OpWithdraw(peer, k),
      OpSubscribe(k.vni, s)]
  }

  /** The table when the peer's announce has gone out. */
  ghost function Announced(s: Sink, peer: string, k: RouteKey, nh: string): Rib {
    NewRib().(routes := map[k := RouteEntry(map[peer := [nh]], false)], byOrigin := map[peer := {k}],
              subscribers := map[Subscription(k.vni, s.id) := s],
              sent := map[s := [Snapshot([EndOfRib(k.vni, 0)]), Delta(RouteUpdate(k, [nh], true, false))]])
  }

  lemma FirstStay(t: Texts, s: Sink, peer: string, k: RouteKey, nh: string)
    requires peer != s.id
    ensures Announce(t, Subscribe(t, NewRib(), k.vni, s), peer, k, [nh], false) == Announced(s, peer, k, nh)
  {
    EmptyReplay(t, NewRib(), k.vni);
    LoneAnnounce(t, peer, nh);
    hide Replay, Advertised;
    var sub, snap := Subscription(k.vni, s.id), Snapshot([EndOfRib(k.vni, 0)]);
    var r1 := Subscribe(t, NewRib(), k.vni, s);
    assert [] + [snap] == [snap];
    assert Deliver(map[], {s}, snap) == map[s := [snap]];
    assert NewRib().subscribers[sub := s] == map[sub := s];
    assert r1 == NewRib().(subscribers := map[sub := s], sent := map[s := [snap]]);
    assert Audience(r1.subscribers, k.vni, {peer}) == {s} by { assert sub in r1.subscribers; }
    var news := Delta(RouteUpdate(k, [nh], true, false));
    assert [snap] + [news] == [snap, news];
    assert Deliver(r1.sent, {s}, news) == map[s := [snap, news]];
    assert KeysOf(r1.byOrigin, peer) + {k} == {k};
    assert EntryAt(r1.routes, k).origins[peer := [nh]] == map[peer := [nh]];
    assert r1.routes[k := RouteEntry(map[peer := [nh]], false)] == map[k := RouteEntry(map[peer := [nh]], false)];
    assert r1.byOrigin[peer := {k}] == map[peer := {k}];
  }

  /** The table when the node has left and the route is withdrawn. */
  lemma NobodyHears(t: Texts, s: Sink, peer: string, k: RouteKey, nh: string)
    ensures var r := Withdraw(t, Unsubscribe(Announced(s, peer, k, nh), k.vni, s.id), peer, k);
            r.routes == map[] && r.fenced == {} && r.subscribers == map[] && r.sent == Announced(s, peer, k, nh).sent
  {
    LoneAnnounce(t, peer, nh);
    hide Advertised;
    var r3 := Unsubscribe(Announced(s, peer, k, nh), k.vni, s.id);
    assert r3.subscribers == map[];
    assert Audience(r3.subscribers, k.vni, {}) == {};
    DeliverNone(r3.sent, Delta(RouteUpdate(k, [], false, false)));
    assert r3.routes[k].origins - {peer} == map[];
    assert r3.routes - {k} == map[];
  }

  lemma SecondStay(t: Texts, r: Rib, s: Sink, k: RouteKey, log: seq<Envelope>)
    requires r.routes == map[] && r.fenced == {} && r.subscribers == map[] && r.sent == map[s := log]
    ensures var r' := Subscribe(t, r, k.vni, s);
            && r'.subscribers == map[Subscription(k.vni, s.id) := s] && AdvertisedAt(t, r', k) == []
            && Log(r'.sent, s) == log + [Snapshot([EndOfRib(k.vni, 0)])]
            && Replay(t, r, k.vni) == [EndOfRib(k.vni, 0)]
  {
    LoneAnnounce(t, s.id, "");
    EmptyReplay(t, r, k.vni);
    LogAfter(r.sent, {s}, Snapshot([EndOfRib(k.vni, 0)]), s);
    hide Replay, Advertised, Deliver;
    assert r.subscribers[Subscription(k.vni, s.id) := s] == map[Subscription(k.vni, s.id) := s];
  }

  /** The tables that course of events goes through. */
  ghost function ComesBackTables(t: Texts, s: Sink, peer: string, k: RouteKey, nh: string): seq<Rib> {
    var r1 := Subscribe(t, NewRib(), k.vni, s);
    var r2 := Announce(t, r1, peer, k, [nh], false);
    var r3 := Unsubscribe(r2, k.vni, s.id);
    var r4 := Withdraw(t, r3, peer, k);
    [NewRib(), r1, r2, r3, r4, Subscribe(t, r4, k.vni, s)]
  }

  lemma ComesBackRuns(t: Texts, s: Sink, peer: string, k: RouteKey, nh: string)
    ensures IsRun(t, ComesBackTables(t, s, peer, k, nh), ComesBack(s, peer, k, nh))
  {
    hide Subscribe, Announce, Unsubscribe, Withdraw, NewRib;
    var run, ops := ComesBackTables(t, s, peer, k, nh), ComesBack(s, peer, k, nh);
    assert Step(t, run[0], ops[0]) == run[1] && Step(t, run[1], ops[1]) == run[2] && Step(t, run[2], ops[2]) == run[3];
    assert Step(t, run[3], ops[3]) == run[4] && Step(t, run[4], ops[4]) == run[5];
    assert forall i :: 0 <= i < |ops| ==> Legal(run[i], ops[i]);
    hide Step, Legal;
    assert |run| == 6 && |ops| == 5;
  }

  lemma ComesBackEnd(t: Texts, s: Sink, peer: string, k: RouteKey, nh: string)
    requires peer != s.id
    ensures var run := ComesBackTables(t, s, peer, k, nh);
            && AdvertisedAt(t, run[5], k) == []
            && Log(run[5].sent, s) == [Snapshot([EndOfRib(k.vni, 0)]), Delta(RouteUpdate(k, [nh], true, false))]
               + [Snapshot([EndOfRib(k.vni, 0)])]
            && Replay(t, run[4], k.vni) == [EndOfRib(k.vni, 0)]
  {
    FirstStay(t, s, peer, k, nh);
    NobodyHears(t, s, peer, k, nh);
    var r2 := Announced(s, peer, k, nh);
    var log := Log(r2.sent, s);
    assert r2.sent == map[s := log] && |log| == 2;
    hide Replay, AdvertisedAt, Announce, Withdraw, Unsubscribe, Subscribe, Announced, Log, NewRib;
    SecondStay(t, ComesBackTables(t, s, peer, k, nh)[4], s, k, log);
  }

  /** It asks again before the announce of its first stay reaches it, and takes that and the new replay: the replay
      counts one ADD too many, nothing is pruned, and the node holds a route that nobody advertises. */
  lemma WithdrawnRouteStays(t: Texts, s: Sink, peer: string, k: RouteKey, nh: string, stale: Learned)
    returns (run: seq<Rib>, late: seq<ServerMsg>)
    requires peer != s.id && k.vni != PUBLIC_VNI
    ensures var ops := ComesBack(s, peer, k, nh);
            && IsRun(t, run, ops) && AdvertisedAt(t, run[|ops|], k) == []
            && var replay := Replay(t, run[4], k.vni);
            && Flatten(Log(run[|ops|].sent, s)) == replay + late + replay && AddsOf(late, k.vni) == 1
            && Holds(LearnAll(ResetSnapshot(stale, k.vni), late + replay), k, [nh])
  {
    hide Replay, AdvertisedAt, IsRun, ComesBackTables;
    run := ComesBackTables(t, s, peer, k, nh);
    ComesBackRuns(t, s, peer, k, nh);
    ComesBackEnd(t, s, peer, k, nh);
    var marker, add := EndOfRib(k.vni, 0), RouteUpdate(k, [nh], true, false);
    ThreeFlattened(marker, add);
    late := [add];
    var l0 := ResetSnapshot(stale, k.vni);
    assert [marker] + late + [marker] == [marker, add, marker];
    assert late[..0] == [] && (late + [marker])[..1] == late;
    assert LearnAll(l0, late) == Learn(l0, add);
  }

  lemma ThreeFlattened(marker: ServerMsg, add: ServerMsg)
    ensures Flatten([Snapshot([marker]), Delta(add)] + [Snapshot([marker])]) == [marker, add, marker]
  {
    FlattenSnoc([], Snapshot([marker]));
    FlattenSnoc([Snapshot([marker])], Delta(add));
    FlattenSnoc([Snapshot([marker]), Delta(add)], Snapshot([marker]));
    assert [] + [Snapshot([marker])] == [Snapshot([marker])];
    assert [Snapshot([marker])] + [Delta(add)] == [Snapshot([marker]), Delta(add)];
  }
}
