/** Incremental equals recompute, and `programmed` never misstates the dataplane. */
module BusSync {
  import opened Order
  import opened RouteBus
  import opened BusState

  // ---------------------------------------------------------------- the dataplane against the record

  function TableAt(w: World, k: RouteKey): Option<DpEntry> {
    if k in w.table then Some(w.table[k]) else None
  }

  function WantedEntry(c: Env, w: World, k: RouteKey): Option<DpEntry> {
    match Desired(c, w.inputs, k)
    case None => None
    case Some(d) => Some(EntryOf(d))
  }

  /** Every key of the dataplane holds what is wanted of it. */
  ghost predicate Matches(c: Env, w: World) {
    forall k :: TableAt(w, k) == WantedEntry(c, w, k)
  }

  /** What is recorded for k is what the dataplane holds, unless the key is marked unknown. */
  predicate TruthfulAt(w: World, k: RouteKey) {
    if k !in w.programmed then k !in w.table
    else w.programmed[k].Unknown? || TableAt(w, k) == Some(EntryOf(w.programmed[k]))
  }

  ghost predicate Truthful(w: World) { forall k :: TruthfulAt(w, k) }

  ghost predicate NothingDrifted(c: Env, w: World) { forall k :: !Drifted(c, w, k) }

  /** A truthful record and nothing drifted is a converged dataplane. */
  lemma NoDriftMatches(c: Env, w: World)
    requires Truthful(w) && NothingDrifted(c, w)
    ensures Matches(c, w)
  {
    hide Desired;
    forall k ensures TableAt(w, k) == WantedEntry(c, w, k) {
      assert TruthfulAt(w, k) && !Drifted(c, w, k);
    }
  }

  /** One call, however it turns out, leaves its own key truthful and every other as it was. */
  lemma CallEffect(c: Env, w: World, k: RouteKey, j: RouteKey)
    ensures var w' := Call(c, w, k, Desired(c, w.inputs, k));
            && TruthfulAt(w', k)
            && (j != k ==> (TruthfulAt(w', j) <==> TruthfulAt(w, j)) && (Drifted(c, w', j) <==> Drifted(c, w, j)))
            && (c.oracle(w.calls).Accepted? ==> !Drifted(c, w', k))
            && w'.inputs == w.inputs && w'.resend == w.resend && w'.ticks == w.ticks && w.calls <= w'.calls
  {
  }

  lemma SyncEffect(c: Env, w: World, k: RouteKey, force: bool, j: RouteKey)
    ensures var w' := SyncKey(c, w, k, force).world;
            && (TruthfulAt(w, k) || force ==> TruthfulAt(w', k))
            && (j != k ==> (TruthfulAt(w', j) <==> TruthfulAt(w, j)) && (Drifted(c, w', j) <==> Drifted(c, w, j)))
            && (c.oracle(w.calls).Accepted? ==> !Drifted(c, w', k))
            && w'.inputs == w.inputs && w'.resend == w.resend && w'.ticks == w.ticks && w.calls <= w'.calls
  {
  }

  // ---------------------------------------------------------------- sequences of syncs

  /** Every call from the n-th on is accepted. */
  ghost predicate AcceptedFrom(c: Env, n: nat) { forall m: nat :: n <= m ==> c.oracle(m).Accepted? }

  predicate MatchesAt(c: Env, w: World, k: RouteKey) { TableAt(w, k) == WantedEntry(c, w, k) }

  /** An accepted sync of a truthful key makes the dataplane hold what is wanted of it. */
  lemma SyncMatches(c: Env, w: World, k: RouteKey, force: bool, j: RouteKey)
    requires AcceptedFrom(c, w.calls) && (TruthfulAt(w, k) || force)
    ensures var w' := SyncKey(c, w, k, force).world;
            && MatchesAt(c, w', k)
            && (j != k ==> (MatchesAt(c, w', j) <==> MatchesAt(c, w, j)) && TableAt(w', j) == TableAt(w, j))
  {
  }

  lemma {:induction false} SyncEachMatches(c: Env, w: World, order: seq<RouteKey>, j: RouteKey)
    requires AcceptedFrom(c, w.calls) && Truthful(w)
    ensures var w' := SyncEach(c, w, order);
            && Truthful(w') && w'.inputs == w.inputs && w.calls <= w'.calls
            && (j in order ==> MatchesAt(c, w', j))
            && (j !in order ==> TableAt(w', j) == TableAt(w, j))
  {
    hide SyncKey, TruthfulAt, MatchesAt, TableAt;
    if order != [] {
      var init, k := order[..|order| - 1], order[|order| - 1];
      SyncEachMatches(c, w, init, j);
      var w1 := SyncEach(c, w, init);
      SyncTruthful(c, w1, k, false);
      assert TruthfulAt(w1, k);
      SyncMatches(c, w1, k, false, j);
      assert order == init + [k];
    }
  }

  lemma SyncTruthful(c: Env, w: World, k: RouteKey, force: bool)
    requires Truthful(w)
    ensures var w' := SyncKey(c, w, k, force).world; Truthful(w') && w'.inputs == w.inputs && w.calls <= w'.calls
  {
    hide SyncKey, TruthfulAt;
    assert TruthfulAt(w, k);
    SyncEffect(c, w, k, force, k);
    forall j ensures TruthfulAt(SyncKey(c, w, k, force).world, j) {
      SyncEffect(c, w, k, force, j);
      assert TruthfulAt(w, j);
    }
  }

  // ---------------------------------------------------------------- which keys an update can change

  /** The keys fed by a learned route on k: its own and the importing tables, or the egress tables. */
  ghost predicate FedBy(c: Env, i: Inputs, k: RouteKey, j: RouteKey) {
    if k.vni == PUBLIC_VNI then j.prefix == k.prefix && j.vni in i.egressVNIs
    else j == k || j in ImporterKeys(c, i, k.vni, k.prefix)
  }

  lemma {:induction false} PeerRouteLocal(c: Env, i: Inputs, l: Learned, changed: set<RouteKey>, j: RouteKey, n: nat)
    requires n <= |ImportsOf(i, j.vni)|
    requires forall x :: x !in changed ==>
             (x in i.learned.own <==> x in l.own) && (x in l.own ==> i.learned.own[x] == l.own[x])
    requires forall x :: x in changed ==> j !in ImporterKeys(c, i, x.vni, x.prefix)
    ensures PeerRoute(c, i, j, ImportsOf(i, j.vni)[n..]) == PeerRoute(c, i.(learned := l), j, ImportsOf(i, j.vni)[n..])
    decreases |ImportsOf(i, j.vni)| - n
  {
    var imports := ImportsOf(i, j.vni);
    if n < |imports| {
      PeerRouteLocal(c, i, l, changed, j, n + 1);
      assert imports[n..][1..] == imports[n + 1..];
      var im := imports[n];
      var peer := RouteKey(im.peerVNI, j.prefix);
      if peer in changed {
        assert j == RouteKey(j.vni, j.prefix);
        assert j !in ImporterKeys(c, i, peer.vni, peer.prefix);
        assert !PrefixInCIDRs(c, j.prefix, im.prefixes);
      }
    }
  }

  /** Only the keys a changed route feeds can want something else. */
  lemma DesiredLocal(c: Env, i: Inputs, l: Learned, changed: set<RouteKey>, j: RouteKey)
    requires forall x :: x !in changed ==>
             (x in i.learned.own <==> x in l.own) && (x in l.own ==> i.learned.own[x] == l.own[x])
    requires forall x :: x in changed ==> j !in ImporterKeys(c, i, x.vni, x.prefix)
    requires j !in changed
    requires (j.prefix in i.learned.public <==> j.prefix in l.public) || j.vni !in i.egressVNIs
    requires j.prefix in i.learned.public && j.prefix in l.public && j.vni in i.egressVNIs ==>
               i.learned.public[j.prefix] == l.public[j.prefix]
    ensures Desired(c, i, j) == Desired(c, i.(learned := l), j)
  {
    PeerRouteLocal(c, i, l, changed, j, 0);
    assert ImportsOf(i, j.vni)[0..] == ImportsOf(i, j.vni);
  }

  lemma LearnRouteLocal(c: Env, i: Inputs, k: RouteKey, nhs: seq<string>, add: bool, ext: bool, j: RouteKey)
    requires !FedBy(c, i, k, j)
    ensures Desired(c, i, j) == Desired(c, i.(learned := LearnRoute(i.learned, k, nhs, add, ext)), j)
  {
    DesiredLocal(c, i, LearnRoute(i.learned, k, nhs, add, ext), if k.vni == PUBLIC_VNI then {} else {k}, j);
  }

  lemma SyncLearnedMatches(c: Env, w: World, k: RouteKey, force: bool, importers: seq<RouteKey>, j: RouteKey)
    requires AcceptedFrom(c, w.calls) && Truthful(w) && ListsImporters(c, w.inputs, k, importers)
    ensures var w' := SyncLearned(c, w, k, force, importers);
            && Truthful(w') && w'.inputs == w.inputs && w.calls <= w'.calls
            && (FedBy(c, w.inputs, k, j) ==> MatchesAt(c, w', j))
            && (!FedBy(c, w.inputs, k, j) ==> TableAt(w', j) == TableAt(w, j))
  {
    hide SyncKey, SyncEach, MatchesAt, TableAt, TruthfulAt, ImporterKeys, EgressKeys;
    if k.vni == PUBLIC_VNI {
      SyncEachMatches(c, w, EgressKeys(w.inputs.egressVNIs, k.prefix), j);
    } else {
      assert TruthfulAt(w, k);
      SyncTruthful(c, w, k, force);
      SyncMatches(c, w, k, force, j);
      var w1 := SyncKey(c, w, k, force).world;
      SyncEachMatches(c, w1, importers, j);
      if j !in importers { SameWantSameMatch(c, w1, SyncEach(c, w1, importers), j); }
    }
  }

  lemma SameWantSameMatch(c: Env, w: World, w': World, j: RouteKey)
    requires w'.inputs == w.inputs && TableAt(w', j) == TableAt(w, j)
    ensures MatchesAt(c, w', j) <==> MatchesAt(c, w, j)
  {
  }

  // ---------------------------------------------------------------- main theorems

  /** If every key matched before a route update, then with the calls it makes accepted every key
      matches after, and no key the update does not feed was touched. */
  lemma ApplyConverges(c: Env, w: World, k: RouteKey, nhs: seq<string>, add: bool, ext: bool, importers: seq<RouteKey>)
    requires AcceptedFrom(c, w.calls) && Truthful(w) && Matches(c, w)
    requires ListsImporters(c, w.inputs, k, importers)
    ensures var w' := Apply(c, w, k, nhs, add, ext, importers);
            && Truthful(w') && Matches(c, w')
            && forall j :: !FedBy(c, w.inputs, k, j) ==> TableAt(w', j) == TableAt(w, j)
  {
    hide SyncLearned, LearnRoute, Desired, TruthfulAt, FedBy, ImporterKeys;
    var l := LearnRoute(w.inputs.learned, k, nhs, add, ext);
    var w1, w' := Relearned(w, l), Apply(c, w, k, nhs, add, ext, importers);
    RelearnedFrame(c, w, l, k, importers);
    SyncLearnedMatches(c, w1, k, true, importers, k);
    forall j
      ensures TableAt(w', j) == WantedEntry(c, w', j)
      ensures !FedBy(c, w.inputs, k, j) ==> TableAt(w', j) == TableAt(w, j)
    {
      SyncLearnedMatches(c, w1, k, true, importers, j);
      assert FedBy(c, w1.inputs, k, j) <==> FedBy(c, w.inputs, k, j) by { SameFeed(c, w.inputs, l, k, j); }
      if !FedBy(c, w.inputs, k, j) {
        LearnRouteLocal(c, w.inputs, k, nhs, add, ext, j);
        assert TableAt(w, j) == WantedEntry(c, w, j);
      }
    }
  }

  lemma RelearnedFrame(c: Env, w: World, l: Learned, k: RouteKey, importers: seq<RouteKey>)
    ensures Truthful(w) ==> Truthful(Relearned(w, l))
    ensures ListsImporters(c, w.inputs, k, importers) ==> ListsImporters(c, Relearned(w, l).inputs, k, importers)
    ensures forall j :: TableAt(Relearned(w, l), j) == TableAt(w, j)
  {
    if Truthful(w) {
      forall j ensures TruthfulAt(Relearned(w, l), j) { assert TruthfulAt(w, j); }
    }
    assert ImporterKeys(c, Relearned(w, l).inputs, k.vni, k.prefix) == ImporterKeys(c, w.inputs, k.vni, k.prefix);
  }

  lemma SameFeed(c: Env, i: Inputs, l: Learned, k: RouteKey, j: RouteKey)
    ensures FedBy(c, i.(learned := l), k, j) <==> FedBy(c, i, k, j)
  {
  }

  /** Each pruned prefix in turn: what it fed matches afterwards, and nothing else was touched. */
  lemma {:induction false} SyncStaleMatches(c: Env, w: World, vni: nat, stale: seq<string>,
      importers: seq<seq<RouteKey>>, j: RouteKey)
    requires AcceptedFrom(c, w.calls) && Truthful(w) && |stale| == |importers|
    requires forall n :: 0 <= n < |stale| ==> ListsImporters(c, w.inputs, RouteKey(vni, stale[n]), importers[n])
    ensures var w' := SyncStale(c, w, vni, stale, importers);
            && Truthful(w') && w'.inputs == w.inputs && w.calls <= w'.calls
            && ((exists p :: p in stale && FedBy(c, w.inputs, RouteKey(vni, p), j)) ==> MatchesAt(c, w', j))
            && ((forall p :: p in stale ==> !FedBy(c, w.inputs, RouteKey(vni, p), j)) ==>
               TableAt(w', j) == TableAt(w, j))
  {
    hide SyncLearned, FedBy, MatchesAt, TableAt, TruthfulAt, ListsImporters;
    if stale != [] {
      var n := |stale| - 1;
      SyncStaleMatches(c, w, vni, stale[..n], importers[..n], j);
      var w1 := SyncStale(c, w, vni, stale[..n], importers[..n]);
      var k := RouteKey(vni, stale[n]);
      SyncLearnedMatches(c, w1, k, false, importers[n], j);
      assert stale == stale[..n] + [stale[n]];
      if !FedBy(c, w.inputs, k, j) {
        SameWantSameMatch(c, w1, SyncStale(c, w, vni, stale, importers), j);
      }
    }
  }

  /** The end of a replay: forgetting what left the table keeps every key matching. */
  lemma PruneConverges(c: Env, w: World, vni: nat, want: nat, stale: seq<string>, importers: seq<seq<RouteKey>>)
    requires AcceptedFrom(c, w.calls) && Truthful(w) && Matches(c, w) && |stale| == |importers|
    requires forall p :: p in stale <==> p in Stale(w.inputs.learned, vni)
    requires forall n :: 0 <= n < |stale| ==> ListsImporters(c, w.inputs, RouteKey(vni, stale[n]), importers[n])
    ensures var w' := PruneVNI(c, w, vni, want, stale, importers); Truthful(w') && Matches(c, w')
  {
    hide SyncStale, Prune, Desired, TruthfulAt, FedBy, ListsImporters;
    if RxOf(w.inputs.learned, vni) == want {
      var l := Prune(w.inputs.learned, vni, want);
      var w1, w' := Relearned(w, l), PruneVNI(c, w, vni, want, stale, importers);
      forall n | 0 <= n < |stale| ensures ListsImporters(c, w1.inputs, RouteKey(vni, stale[n]), importers[n]) {
        RelearnedFrame(c, w, l, RouteKey(vni, stale[n]), importers[n]);
      }
      RelearnedFrame(c, w, l, RouteKey(vni, ""), []);
      SyncStaleMatches(c, w1, vni, stale, importers, RouteKey(vni, ""));
      forall j ensures TableAt(w', j) == WantedEntry(c, w', j) {
        SyncStaleMatches(c, w1, vni, stale, importers, j);
        if forall p :: p in stale ==> !FedBy(c, w1.inputs, RouteKey(vni, p), j) {
          forall p | p in stale ensures !FedBy(c, w.inputs, RouteKey(vni, p), j) {
            SameFeed(c, w.inputs, l, RouteKey(vni, p), j);
          }
          PruneLocal(c, w.inputs, vni, want, j);
          assert TableAt(w, j) == WantedEntry(c, w, j);
        }
      }
    }
  }

  lemma PruneLocal(c: Env, i: Inputs, vni: nat, want: nat, j: RouteKey)
    requires forall p :: p in Stale(i.learned, vni) ==> !FedBy(c, i, RouteKey(vni, p), j)
    ensures Desired(c, i, j) == Desired(c, i.(learned := Prune(i.learned, vni, want)), j)
  {
    hide ImporterKeys, Desired;
    var changed :=
      if vni == PUBLIC_VNI then {} else set k | k in i.learned.own && k.vni == vni && k.prefix in Stale(i.learned, vni);
    forall x | x in changed ensures j !in ImporterKeys(c, i, x.vni, x.prefix) && j != x {
      assert x == RouteKey(vni, x.prefix);
      assert !FedBy(c, i, RouteKey(vni, x.prefix), j);
    }
    if vni == PUBLIC_VNI && j.prefix in Stale(i.learned, vni) {
      assert !FedBy(c, i, RouteKey(vni, j.prefix), j);
    }
    DesiredLocal(c, i, Prune(i.learned, vni, want), changed, j);
  }
}
