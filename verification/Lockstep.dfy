/** A node's session driver against the reflector: after every tick what the reflector stores from the
    node is exactly what the node last wanted. */
module Lockstep {
  import opened Order
  import opened Addresses
  import opened RouteBus
  import opened OwnedTable
  import opened RibState
  import opened RibViews
  import opened RibOwnership
  import D = DesiredDiff

  // ---------------------------------------------------------------- puts, then removes

  /** The store after putting each record in turn. */
  function PutAll<S(==), V, W>(m: map<S, W>, vs: seq<V>, sk: V -> S, sv: V -> W): map<S, W> {
    if vs == [] then m
    else PutAll(m, vs[..|vs| - 1], sk, sv)[sk(vs[|vs| - 1]) := sv(vs[|vs| - 1])]
  }

  lemma {:induction false} PutAllLast<S(!new), V, W>(m: map<S, W>, vs: seq<V>, sk: V -> S, sv: V -> W, i: nat)
    requires D.LastOf(vs, sk, i)
    ensures sk(vs[i]) in PutAll(m, vs, sk, sv) && PutAll(m, vs, sk, sv)[sk(vs[i])] == sv(vs[i])
  {
    var n := |vs| - 1;
    if i < n {
      assert forall j :: 0 <= j < n ==> vs[..n][j] == vs[j];
      PutAllLast(m, vs[..n], sk, sv, i);
    }
  }

  lemma {:induction false} PutAllMiss<S(!new), V, W>(m: map<S, W>, vs: seq<V>, sk: V -> S, sv: V -> W, s: S)
    requires forall i :: 0 <= i < |vs| ==> sk(vs[i]) != s
    ensures (s in PutAll(m, vs, sk, sv) <==> s in m) && (s in m ==> PutAll(m, vs, sk, sv)[s] == m[s])
  {
    if vs != [] { PutAllMiss(m, vs[..|vs| - 1], sk, sv, s); }
  }

  /** What the store holds at s: the last record put there, else what it held. */
  lemma PutAllAt<S(!new), V, W>(m: map<S, W>, vs: seq<V>, sk: V -> S, sv: V -> W, s: S)
    ensures forall i :: D.LastOf(vs, sk, i) && sk(vs[i]) == s ==>
            s in PutAll(m, vs, sk, sv) && PutAll(m, vs, sk, sv)[s] == sv(vs[i])
    ensures (forall i :: 0 <= i < |vs| ==> sk(vs[i]) != s) ==>
              (s in PutAll(m, vs, sk, sv) <==> s in m) && (s in m ==> PutAll(m, vs, sk, sv)[s] == m[s])
  {
    hide PutAll;
    forall i | D.LastOf(vs, sk, i) && sk(vs[i]) == s
      ensures s in PutAll(m, vs, sk, sv) && PutAll(m, vs, sk, sv)[s] == sv(vs[i])
    {
      PutAllLast(m, vs, sk, sv, i);
    }
    if forall i :: 0 <= i < |vs| ==> sk(vs[i]) != s { PutAllMiss(m, vs, sk, sv, s); }
  }

  /** The last record the diff announces for its store key. */
  ghost predicate LastSent<K, S, V>(prev: map<K, V>, next: seq<V>, dk: V -> K, sk: V -> S, i: int) {
    && 0 <= i < |next| && !D.Known(prev, dk, next[i])
    && forall j :: i < j < |next| && sk(next[j]) == sk(next[i]) ==> D.Known(prev, dk, next[j])
  }

  /** Every record of the store key is already applied, so none of them is announced. */
  ghost predicate NoneSent<K, S(!new), V>(prev: map<K, V>, next: seq<V>, dk: V -> K, sk: V -> S, s: S) {
    forall i :: 0 <= i < |next| && sk(next[i]) == s ==> D.Known(prev, dk, next[i])
  }

  lemma {:induction false} LastSentExists<K, S, V>(prev: map<K, V>, next: seq<V>, dk: V -> K, sk: V -> S, i: nat)
    returns (last: nat)
    requires i < |next| && !D.Known(prev, dk, next[i])
    ensures LastSent(prev, next, dk, sk, last) && sk(next[last]) == sk(next[i])
    decreases |next| - i
  {
    if j :| i < j < |next| && sk(next[j]) == sk(next[i]) && !D.Known(prev, dk, next[j]) {
      last := LastSentExists(prev, next, dk, sk, j);
    } else {
      last := i;
    }
  }

  lemma {:induction false} PutSentLast<K, S(!new), V(!new), W>(m: map<S, W>, prev: map<K, V>, next: seq<V>, dk: V -> K,
      sk: V -> S, sv: V -> W, i: nat)
    requires LastSent(prev, next, dk, sk, i)
    ensures var r := PutAll(m, D.Changed(prev, next, dk), sk, sv); sk(next[i]) in r && r[sk(next[i])] == sv(next[i])
  {
    var n := |next| - 1;
    var ch := D.Changed(prev, next[..n], dk);
    assert forall j :: 0 <= j < n ==> next[..n][j] == next[j];
    if i < n { PutSentLast(m, prev, next[..n], dk, sk, sv, i); }
    if !D.Known(prev, dk, next[n]) { assert (ch + [next[n]])[..|ch|] == ch; }
  }

  lemma {:induction false} PutNoneSent<K, S(!new), V(!new), W>(m: map<S, W>, prev: map<K, V>, next: seq<V>, dk: V -> K,
      sk: V -> S, sv: V -> W, s: S)
    requires NoneSent(prev, next, dk, sk, s)
    ensures var r := PutAll(m, D.Changed(prev, next, dk), sk, sv); (s in r <==> s in m) && (s in m ==> r[s] == m[s])
  {
    if next != [] {
      var n := |next| - 1;
      var ch := D.Changed(prev, next[..n], dk);
      PutNoneSent(m, prev, next[..n], dk, sk, sv, s);
      if !D.Known(prev, dk, next[n]) { assert (ch + [next[n]])[..|ch|] == ch; }
    }
  }

  /** What the announces of a diff leave at s. */
  lemma PutChangedAt<K, S(!new), V(!new), W>(m: map<S, W>, prev: map<K, V>, next: seq<V>, dk: V -> K, sk: V -> S,
      sv: V -> W, s: S)
    ensures var r := PutAll(m, D.Changed(prev, next, dk), sk, sv);
            && (forall i :: LastSent(prev, next, dk, sk, i) && sk(next[i]) == s ==> s in r && r[s] == sv(next[i]))
            && (NoneSent(prev, next, dk, sk, s) ==> (s in r <==> s in m) && (s in m ==> r[s] == m[s]))
  {
    hide PutAll, D.Changed;
    var r := PutAll(m, D.Changed(prev, next, dk), sk, sv);
    forall i | LastSent(prev, next, dk, sk, i) && sk(next[i]) == s ensures s in r && r[s] == sv(next[i]) {
      PutSentLast(m, prev, next, dk, sk, sv, i);
    }
    if NoneSent(prev, next, dk, sk, s) { PutNoneSent(m, prev, next, dk, sk, sv, s); }
  }

  /** The diff key tells at least as much as the store key. */
  ghost predicate Finer<K, S, V(!new)>(dk: V -> K, sk: V -> S, vs: seq<V>) {
    forall x, y :: x in vs && y in vs && dk(x) == dk(y) ==> sk(x) == sk(y)
  }

  /** The store keys of the applied records whose diff key is wanted no more. */
  ghost predicate Withdrawn<K, S(!new), V>(gone: set<S>, applied: seq<V>, next: seq<V>, dk: V -> K, sk: V -> S) {
    forall s :: s in gone <==> exists i :: Leaves(applied, next, dk, i) && sk(applied[i]) == s
  }

  ghost predicate Leaves<K, V>(applied: seq<V>, next: seq<V>, dk: V -> K, i: int) {
    0 <= i < |applied| && forall j :: 0 <= j < |next| ==> dk(next[j]) != dk(applied[i])
  }

  // ---------------------------------------------------------------- when a diff is right

  /** No record that leaves has the store key of one that is wanted. */
  ghost predicate NoneCollides<K, S, V>(applied: seq<V>, next: seq<V>, dk: V -> K, sk: V -> S) {
    forall i, j :: Leaves(applied, next, dk, i) && 0 <= j < |next| ==> sk(applied[i]) != sk(next[j])
  }

  /** The last record of each store key has the value the store ends on: that of the last one announced,
      or of the last one applied when none is. */
  ghost predicate EndsRight<K, S(!new), V, W>(applied: seq<V>, next: seq<V>, dk: V -> K, sk: V -> S, sv: V -> W) {
    var prev := D.Keyed(applied, dk);
    forall j :: D.LastOf(next, sk, j) ==>
      && (forall i :: LastSent(prev, next, dk, sk, i) && sk(next[i]) == sk(next[j]) ==> sv(next[i]) == sv(next[j]))
      && (NoneSent(prev, next, dk, sk, sk(next[j])) ==>
            forall m :: D.LastOf(applied, sk, m) && sk(applied[m]) == sk(next[j]) ==> sv(applied[m]) == sv(next[j]))
  }

  ghost predicate Settles<K, S(!new), V, W>(applied: seq<V>, next: seq<V>, dk: V -> K, sk: V -> S, sv: V -> W) {
    NoneCollides(applied, next, dk, sk) && EndsRight(applied, next, dk, sk, sv)
  }

  ghost function AfterDiff<K, S, V, W>(applied: seq<V>, next: seq<V>, dk: V -> K, sk: V -> S, sv: V -> W,
      gone: set<S>): map<S, W> {
    PutAll(PutAll(map[], applied, sk, sv), D.Changed(D.Keyed(applied, dk), next, dk), sk, sv) - gone
  }

  /** A wanted store key, whatever duplicates the lists hold. */
  lemma WantedAt<K(!new), S(!new), V(!new), W>(applied: seq<V>, next: seq<V>, dk: V -> K, sk: V -> S, sv: V -> W,
      gone: set<S>, j: nat)
    requires Finer(dk, sk, applied + next) && Withdrawn(gone, applied, next, dk, sk) && D.LastOf(next, sk, j)
    ensures var s, m, prev := sk(next[j]), AfterDiff(applied, next, dk, sk, sv, gone), D.Keyed(applied, dk);
            && s in PutAll(map[], next, sk, sv) && PutAll(map[], next, sk, sv)[s] == sv(next[j])
            && (s in m <==> s !in gone)
            && (forall i :: s in m && LastSent(prev, next, dk, sk, i) && sk(next[i]) == s ==> m[s] == sv(next[i]))
            && (forall i :: s in m && NoneSent(prev, next, dk, sk, s) ==>
                  D.LastOf(applied, sk, i) && sk(applied[i]) == s ==> m[s] == sv(applied[i]))
  {
    hide PutAll, D.Keyed, D.Changed;
    var s, prev := sk(next[j]), D.Keyed(applied, dk);
    PutAllAt(map[], next, sk, sv, s);
    PutAllAt(map[], applied, sk, sv, s);
    PutChangedAt(PutAll(map[], applied, sk, sv), prev, next, dk, sk, sv, s);
    if NoneSent(prev, next, dk, sk, s) {
      assert D.Known(prev, dk, next[j]);
      var a := D.KeyedComesFrom(applied, dk, dk(next[j]));
      var i := D.LastExists(applied, sk, a);
    } else {
      var i :| 0 <= i < |next| && sk(next[i]) == s && !D.Known(prev, dk, next[i]);
      var last := LastSentExists(prev, next, dk, sk, i);
    }
  }

  /** A store key that is wanted no more is gone. */
  lemma UnwantedAt<K(!new), S(!new), V(!new), W>(applied: seq<V>, next: seq<V>, dk: V -> K, sk: V -> S, sv: V -> W,
      gone: set<S>, s: S)
    requires Finer(dk, sk, applied + next) && Withdrawn(gone, applied, next, dk, sk)
    requires forall j :: 0 <= j < |next| ==> sk(next[j]) != s
    ensures s !in AfterDiff(applied, next, dk, sk, sv, gone) && s !in PutAll(map[], next, sk, sv)
  {
    hide PutAll, D.Keyed, D.Changed;
    PutAllAt(map[], next, sk, sv, s);
    PutAllAt(map[], applied, sk, sv, s);
    PutChangedAt(PutAll(map[], applied, sk, sv), D.Keyed(applied, dk), next, dk, sk, sv, s);
    if i :| 0 <= i < |applied| && sk(applied[i]) == s {
      forall j | 0 <= j < |next| ensures dk(next[j]) != dk(applied[i]) {
        assert applied[i] in applied + next && next[j] in applied + next;
      }
      assert Leaves(applied, next, dk, i);
    }
  }

  /** A diff brings the store from the applied to the wanted records exactly when it settles, whatever
      duplicates the two lists hold. */
  lemma DiffExact<K(!new), S(!new), V(!new), W>(applied: seq<V>, next: seq<V>, dk: V -> K, sk: V -> S, sv: V -> W,
      gone: set<S>)
    requires Finer(dk, sk, applied + next) && Withdrawn(gone, applied, next, dk, sk)
    ensures AfterDiff(applied, next, dk, sk, sv, gone) == PutAll(map[], next, sk, sv) <==>
            Settles(applied, next, dk, sk, sv)
  {
    hide AfterDiff, PutAll, D.Keyed, D.Changed;
    var m, w := AfterDiff(applied, next, dk, sk, sv, gone), PutAll(map[], next, sk, sv);
    forall j | D.LastOf(next, sk, j) ensures sk(next[j]) in w && w[sk(next[j])] == sv(next[j]) {
      WantedAt(applied, next, dk, sk, sv, gone, j);
    }
    if Settles(applied, next, dk, sk, sv) {
      forall s ensures (s in m <==> s in w) && (s in w ==> m[s] == w[s]) {
        SettledAt(applied, next, dk, sk, sv, gone, s);
      }
      assert m == w;
    }
    if m == w {
      forall i, j | Leaves(applied, next, dk, i) && 0 <= j < |next| ensures sk(applied[i]) != sk(next[j]) {
        var l := D.LastExists(next, sk, j);
        WantedAt(applied, next, dk, sk, sv, gone, l);
      }
      forall j | D.LastOf(next, sk, j)
        ensures forall i :: LastSent(D.Keyed(applied, dk), next, dk, sk, i) && sk(next[i]) == sk(next[j]) ==>
                sv(next[i]) == sv(next[j])
        ensures NoneSent(D.Keyed(applied, dk), next, dk, sk, sk(next[j])) ==>
                  forall i :: D.LastOf(applied, sk, i) && sk(applied[i]) == sk(next[j]) ==>
                    sv(applied[i]) == sv(next[j])
      {
        WantedAt(applied, next, dk, sk, sv, gone, j);
      }
    }
  }

  lemma SettledAt<K(!new), S(!new), V(!new), W>(applied: seq<V>, next: seq<V>, dk: V -> K, sk: V -> S, sv: V -> W,
      gone: set<S>, s: S)
    requires Finer(dk, sk, applied + next) && Withdrawn(gone, applied, next, dk, sk)
             && Settles(applied, next, dk, sk, sv)
    ensures var m, w := AfterDiff(applied, next, dk, sk, sv, gone), PutAll(map[], next, sk, sv);
            (s in m <==> s in w) && (s in w ==> m[s] == w[s])
  {
    hide AfterDiff, PutAll, D.Keyed, D.Changed;
    var prev := D.Keyed(applied, dk);
    if n :| 0 <= n < |next| && sk(next[n]) == s {
      var j := D.LastExists(next, sk, n);
      WantedAt(applied, next, dk, sk, sv, gone, j);
      assert s !in gone;
      if NoneSent(prev, next, dk, sk, s) {
        assert D.Known(prev, dk, next[j]);
        var a := D.KeyedComesFrom(applied, dk, dk(next[j]));
        var i := D.LastExists(applied, sk, a);
      } else {
        var i :| 0 <= i < |next| && sk(next[i]) == s && !D.Known(prev, dk, next[i]);
        var last := LastSentExists(prev, next, dk, sk, i);
      }
    } else {
      UnwantedAt(applied, next, dk, sk, sv, gone, s);
    }
  }

  /** Lists whose records agree wherever they share a store key settle exactly when no leaving record
      has the store key of a wanted one. */
  lemma AgreeingSettles<K(!new), S(!new), V(!new), W>(applied: seq<V>, next: seq<V>, dk: V -> K, sk: V -> S, sv: V -> W)
    requires D.Agrees(applied, sk) && D.Agrees(next, sk) && Finer(dk, sk, applied + next)
    ensures Settles(applied, next, dk, sk, sv) <==> NoneCollides(applied, next, dk, sk)
  {
    hide D.Keyed;
    var prev := D.Keyed(applied, dk);
    forall j, m | D.LastOf(next, sk, j) && NoneSent(prev, next, dk, sk, sk(next[j])) && D.LastOf(applied, sk, m)
      && sk(applied[m]) == sk(next[j])
      ensures applied[m] == next[j]
    {
      assert D.Known(prev, dk, next[j]);
      var a := D.KeyedComesFrom(applied, dk, dk(next[j]));
    }
  }

  /** A list sent again unchanged settles exactly when records that share a key agree. */
  lemma UnchangedSettles<K(!new), V(!new)>(vs: seq<V>, key: V -> K, same: V -> V)
    requires forall v :: same(v) == v
    ensures Settles(vs, vs, key, key, same) <==> D.Agrees(vs, key)
  {
    hide D.Keyed;
    if D.Agrees(vs, key) {
      AgreeingSettles(vs, vs, key, key, same);
    } else {
      var last, j := DisagreeingLast(vs, key);
      assert same(vs[last]) != same(vs[j]);
    }
  }

  /** Where records of one key disagree, the diff of the list against itself announces last one that is
      not the last of its key. */
  lemma DisagreeingLast<K(!new), V(!new)>(vs: seq<V>, key: V -> K) returns (sent: nat, last: nat)
    requires !D.Agrees(vs, key)
    ensures LastSent(D.Keyed(vs, key), vs, key, key, sent) && D.LastOf(vs, key, last) && key(vs[sent]) == key(vs[last])
            && vs[sent] != vs[last]
  {
    hide D.Keyed;
    var i, j :| 0 <= i < |vs| && 0 <= j < |vs| && key(vs[i]) == key(vs[j]) && vs[i] != vs[j];
    last := D.LastExists(vs, key, i);
    D.KeyedMembership(vs, key, key(vs[last]));
    var other := if vs[i] != vs[last] then i else j;
    sent := LastSentExists(D.Keyed(vs, key), vs, key, key, other);
  }

  // ---------------------------------------------------------------- what the reflector stores from a node

  datatype Contribution = Contribution(
    routes: map<RouteKey, seq<string>>, nats: map<NatKey, NatBlock>, pubs: map<PublicKey, PublicRecord>)

  ghost function RoutesFrom(r: Rib, id: string): map<RouteKey, seq<string>> {
    map k | k in r.routes && id in r.routes[k].origins :: r.routes[k].origins[id]
  }

  ghost function OwnedFrom<K, V>(t: Owned<K, V>, id: string): map<K, V> {
    map k | k in t.recs && k in t.origin && t.origin[k] == id :: t.recs[k]
  }

  ghost function From(r: Rib, id: string): Contribution {
    Contribution(RoutesFrom(r, id), OwnedFrom(r.nats, id), OwnedFrom(r.publics, id))
  }

  /** The operations a session's own messages become; none of them walks a map. */
  predicate Plain(op: Op) {
    match op
    case OpSubscribe(_, _) => true
    case OpUnsubscribe(_, _) => true
    case OpAnnounce(_, _, _, _) => true
    case OpWithdraw(_, _) => true
    case OpAnnounceNat(_, _) => true
    case OpWithdrawNat(_, _, _) => true
    case OpAnnouncePublic(_, _) => true
    case OpWithdrawPublic(_, _, _) => true
    case _ => false
  }

  /** What one of the node's own operations does to its contribution. */
  function Absorb(c: Contribution, op: Op): Contribution {
    match op
    case OpAnnounce(_, k, nhs, _) => c.(routes := c.routes[k := nhs])
    case OpWithdraw(_, k) => c.(routes := c.routes - {k})
    case OpAnnounceNat(_, b) => c.(nats := c.nats[NatKeyOf(b) := b])
    case OpWithdrawNat(_, k, permit) =>
      if k in c.nats && permit(c.nats[k].ownerUnderlay) then c.(nats := c.nats - {k}) else c
    case OpAnnouncePublic(_, p) => c.(pubs := c.pubs[PublicKeyOf(p) := p])
    case OpWithdrawPublic(_, k, permit) =>
      if k in c.pubs && permit(c.pubs[k].ownerUnderlay) then c.(pubs := c.pubs - {k}) else c
    case _ => c
  }

  predicate ByNode(op: Op, id: string) {
    match op
    case OpAnnounce(o, _, _, _) => o == id
    case OpWithdraw(o, _) => o == id
    case OpAnnounceNat(o, _) => o == id
    case OpWithdrawNat(o, _, _) => o == id
    case OpAnnouncePublic(o, _) => o == id
    case OpWithdrawPublic(o, _, _) => o == id
    case _ => true
  }

  lemma OwnAnnounce(t: Texts, r: Rib, id: string, k: RouteKey, nhs: seq<string>, ext: bool)
    ensures From(Announce(t, r, id, k, nhs, ext), id) == Absorb(From(r, id), OpAnnounce(id, k, nhs, ext))
  {
    hide Advertised, FanoutChange;
    var e := EntryAt(r.routes, k);
    var e' := RouteEntry(e.origins[id := nhs], ext);
    var r1 := r.(routes := r.routes[k := e'], byOrigin := r.byOrigin[id := KeysOf(r.byOrigin, id) + {k}]);
    FanoutChangeFrame(r1, k, Advertised(t, e, r.fenced), Advertised(t, e', r.fenced), {id}, ext);
    assert RoutesFrom(r1, id) == RoutesFrom(r, id)[k := nhs];
  }

  /** One origin leaving a route: its own entry goes, every other keeps its value. */
  lemma OriginLeaves(t: Texts, r: Rib, k: RouteKey, o: string, id: string)
    ensures var r' := WithdrawRouteOrigin(t, r, k, o);
            RoutesFrom(r', id) == if id == o then RoutesFrom(r, id) - {k} else RoutesFrom(r, id)
  {
    hide Advertised, FanoutChange, RoutesFrom;
    if k in r.routes && o in r.routes[k].origins {
      var e := r.routes[k];
      var e' := e.(origins := e.origins - {o});
      var r1 := r.(routes := if e'.origins == map[] then r.routes - {k} else r.routes[k := e']);
      FanoutChangeFrame(r1, k, Advertised(t, e, r.fenced), Advertised(t, e', r.fenced), {}, e.external);
      EntryShrinks(r, r1, k, o, id);
      SameRoutesSameFrom(r1, WithdrawRouteOrigin(t, r, k, o), id);
    } else {
      assert RoutesFrom(r, o) == RoutesFrom(r, o) - {k} by { NotHeld(r, k, o); }
    }
  }

  lemma NotHeld(r: Rib, k: RouteKey, o: string)
    requires k !in r.routes || o !in r.routes[k].origins
    ensures RoutesFrom(r, o) == RoutesFrom(r, o) - {k}
  {
  }

  lemma EntryShrinks(r: Rib, r1: Rib, k: RouteKey, o: string, id: string)
    requires k in r.routes && o in r.routes[k].origins
    requires var e := r.routes[k];
             var e' := e.(origins := e.origins - {o});
             r1.routes == if e'.origins == map[] then r.routes - {k} else r.routes[k := e']
    ensures RoutesFrom(r1, id) == if id == o then RoutesFrom(r, id) - {k} else RoutesFrom(r, id)
  {
    var e := r.routes[k];
    var left := e.origins - {o};
    assert left == map[] ==> forall p :: p in e.origins ==> p == o by {
      forall p | p in e.origins && p != o ensures p in left {}
    }
  }

  lemma {:induction false} OriginLeavesAll(t: Texts, r: Rib, o: string, order: seq<RouteKey>, id: string)
    requires id != o
    ensures RoutesFrom(WithdrawAll(t, r, o, order), id) == RoutesFrom(r, id)
  {
    hide WithdrawRouteOrigin, RoutesFrom;
    if order != [] {
      OriginLeavesAll(t, r, o, order[..|order| - 1], id);
      OriginLeaves(t, WithdrawAll(t, r, o, order[..|order| - 1]), order[|order| - 1], o, id);
    }
  }

  lemma OwnWithdraw(t: Texts, r: Rib, id: string, k: RouteKey)
    ensures From(Withdraw(t, r, id, k), id) == Absorb(From(r, id), OpWithdraw(id, k))
  {
    hide WithdrawRouteOrigin;
    var r1 := r.(byOrigin := Unindexed(r.byOrigin, id, k));
    OriginLeaves(t, r1, k, id, id);
    WithdrawFrame(t, r1, k, id);
    assert RoutesFrom(r1, id) == RoutesFrom(r, id);
  }

  lemma OwnedPut<K, V>(t: Owned<K, V>, o: string, k: K, v: V, id: string)
    ensures OwnedFrom(Put(t, o, k, v), id) == if o == id then OwnedFrom(t, id)[k := v] else OwnedFrom(t, id) - {k}
    ensures k !in OwnedFrom(t, id) ==> OwnedFrom(t, id) - {k} == OwnedFrom(t, id)
  {
  }

  lemma OwnedRemove<K, V>(t: Owned<K, V>, o: string, k: K, id: string)
    requires k in t.recs && k in t.origin && t.origin[k] == o
    ensures OwnedFrom(Remove(t, o, k), id) == if o == id then OwnedFrom(t, id) - {k} else OwnedFrom(t, id)
  {
  }

  lemma NewNats(r: Rib, nats: Nats, m: ServerMsg, id: string)
    ensures From(GlobalFanout(r.(nats := nats), m), id) == From(r, id).(nats := OwnedFrom(nats, id))
  {
  }

  lemma NewPublics(r: Rib, pubs: Publics, m: ServerMsg, id: string)
    ensures From(GlobalFanout(r.(publics := pubs), m), id) == From(r, id).(pubs := OwnedFrom(pubs, id))
  {
  }

  lemma OwnNat(t: Texts, r: Rib, id: string, op: Op)
    requires TablesOwned(r) && ByNode(op, id) && (op.OpAnnounceNat? || op.OpWithdrawNat?)
    ensures From(Step(t, r, op), id) == Absorb(From(r, id), op)
  {
    hide GlobalFanout, Put, Remove, RoutesIndexed, RoutesFrom;
    match op
    case OpAnnounceNat(o, b) =>
      OwnedPut(r.nats, o, NatKeyOf(b), b, id);
      NewNats(r, Put(r.nats, o, NatKeyOf(b), b), NatUpdate(b, true), id);
    case OpWithdrawNat(o, k, permit) =>
      if NatVerdict(r, o, k, permit) == WithdrawApplied {
        OwnedRemove(r.nats, o, k, id);
        NewNats(r, Remove(r.nats, o, k), NatUpdate(r.nats.recs[k], false), id);
      }
  }

  lemma OwnPublic(t: Texts, r: Rib, id: string, op: Op)
    requires TablesOwned(r) && ByNode(op, id) && (op.OpAnnouncePublic? || op.OpWithdrawPublic?)
    ensures From(Step(t, r, op), id) == Absorb(From(r, id), op)
  {
    hide GlobalFanout, Put, Remove, RoutesIndexed, RoutesFrom;
    match op
    case OpAnnouncePublic(o, p) =>
      OwnedPut(r.publics, o, PublicKeyOf(p), p, id);
      NewPublics(r, Put(r.publics, o, PublicKeyOf(p), p), PublicUpdate(p, true), id);
    case OpWithdrawPublic(o, k, permit) =>
      if PublicVerdict(r, o, k, permit) == WithdrawApplied {
        OwnedRemove(r.publics, o, k, id);
        NewPublics(r, Remove(r.publics, o, k), PublicUpdate(r.publics.recs[k], false), id);
      }
  }

  /** The node's own operations change its contribution as `Absorb` says. */
  lemma OwnStep(t: Texts, r: Rib, id: string, op: Op)
    requires TablesOwned(r) && Plain(op) && ByNode(op, id)
    ensures From(Step(t, r, op), id) == Absorb(From(r, id), op)
  {
    hide TablesOwned, Withdraw, Announce, WithdrawNat, WithdrawPublic, GlobalFanout, Replay, Deliver, RoutesFrom,
         OwnedFrom;
    match op
    case OpSubscribe(vni, s) => SameRoutesSameFrom(r, Step(t, r, op), id);
    case OpUnsubscribe(vni, o) => SameRoutesSameFrom(r, Step(t, r, op), id);
    case OpAnnounce(o, k, nhs, ext) => OwnAnnounce(t, r, id, k, nhs, ext);
    case OpWithdraw(o, k) => OwnWithdraw(t, r, id, k);
    case OpAnnounceNat(_, _) => OwnNat(t, r, id, op);
    case OpWithdrawNat(_, _, _) => OwnNat(t, r, id, op);
    case OpAnnouncePublic(_, _) => OwnPublic(t, r, id, op);
    case OpWithdrawPublic(_, _, _) => OwnPublic(t, r, id, op);
  }

  // ---------------------------------------------------------------- everyone else

  /** Not this node's doing, and no takeover of a block or record it holds. */
  ghost predicate Foreign(r: Rib, id: string, op: Op) {
    match op
    case OpAnnounce(o, _, _, _) => o != id
    case OpWithdraw(o, _) => o != id
    case OpAnnounceNat(o, b) => o != id && NatKeyOf(b) !in OwnedFrom(r.nats, id)
    case OpWithdrawNat(o, _, _) => o != id
    case OpAnnouncePublic(o, p) => o != id && PublicKeyOf(p) !in OwnedFrom(r.publics, id)
    case OpWithdrawPublic(o, _, _) => o != id
    case OpClaim(o, _) => o != id
    case OpRelease(o, _, _) => o != id
    case _ => true
  }

  lemma OthersDropped<K(!new), V>(t: Owned<K, V>, o: string, order: seq<K>, id: string)
    requires Consistent(t) && Enumerates(order, KeysOf(t.byOrigin, o)) && id != o
    ensures OwnedFrom(DropAll(t, o, order), id) == OwnedFrom(t, id)
    ensures OwnedFrom(DropAll(t, o, order), o) == map[]
  {
    DropAllConsistent(t, o, order);
    hide DropAll;
  }

  lemma TeardownSpares(t: Texts, r: Rib, o: string, ord: Orders, id: string)
    requires TablesOwned(r) && WalksAll(r, o, ord) && id != o
    ensures From(DropOrigin(t, r, o, ord), id) == From(r, id)
  {
    hide WithdrawAll, DropNat, DropPublic, DropAll, RoutesFrom, OwnedFrom, ReplaysTables;
    var r0 := r.(byOrigin := r.byOrigin - {o});
    OriginLeavesAll(t, r0, o, ord.routes, id);
    WithdrawAllFrame(t, r0, o, ord.routes);
    var r1 := WithdrawAll(t, r0, o, ord.routes);
    var r2 := r1.(subscribers := WithoutSubscriber(r1.subscribers, o));
    DropNatTable(r2, o, ord.nats);
    var r3 := DropNat(r2, o, ord.nats);
    DropPublicTable(r3, o, ord.pubs);
    OthersDropped(r.nats, o, ord.nats, id);
    OthersDropped(r.publics, o, ord.pubs, id);
    SameRoutesSameFrom(r, r0, id);
    SameRoutesSameFrom(r1, DropPublic(r3, o, ord.pubs), id);
  }

  lemma SameRoutesSameFrom(r: Rib, r': Rib, id: string)
    requires r'.routes == r.routes
    ensures RoutesFrom(r', id) == RoutesFrom(r, id)
  {
  }

  /** A teardown leaves nothing of the node it tears down. */
  lemma TeardownClears(t: Texts, r: Rib, id: string, ord: Orders)
    requires TablesOwned(r) && WalksAll(r, id, ord)
    ensures From(DropOrigin(t, r, id, ord), id) == Contribution(map[], map[], map[])
  {
    hide DropOrigin, DropAll, ReplaysTables;
    DropOriginClears(t, r, id, ord);
    var r' := DropOrigin(t, r, id, ord);
    OthersDropped(r.nats, id, ord.nats, id + "x");
    OthersDropped(r.publics, id, ord.pubs, id + "x");
    forall k ensures k !in RoutesFrom(r', id) { assert !Contributes(r'.routes, id, k); }
    assert RoutesFrom(r', id) == map[];
  }

  lemma ForeignAnnounce(t: Texts, r: Rib, id: string, o: string, k: RouteKey, nhs: seq<string>, ext: bool)
    requires o != id
    ensures From(Announce(t, r, o, k, nhs, ext), id) == From(r, id)
  {
    hide Advertised, FanoutChange;
    var e := EntryAt(r.routes, k);
    var e' := RouteEntry(e.origins[o := nhs], ext);
    var r1 := r.(routes := r.routes[k := e'], byOrigin := r.byOrigin[o := KeysOf(r.byOrigin, o) + {k}]);
    FanoutChangeFrame(r1, k, Advertised(t, e, r.fenced), Advertised(t, e', r.fenced), {o}, ext);
    assert RoutesFrom(r1, id) == RoutesFrom(r, id);
  }

  lemma ForeignWithdraw(t: Texts, r: Rib, id: string, o: string, k: RouteKey)
    requires o != id
    ensures From(Withdraw(t, r, o, k), id) == From(r, id)
  {
    hide WithdrawRouteOrigin;
    var r1 := r.(byOrigin := Unindexed(r.byOrigin, o, k));
    OriginLeaves(t, r1, k, o, id);
    WithdrawFrame(t, r1, k, o);
    SameRoutesSameFrom(r, r1, id);
  }

  lemma ForeignNat(t: Texts, r: Rib, id: string, op: Op)
    requires TablesOwned(r) && Legal(r, op) && Foreign(r, id, op) && (op.OpAnnounceNat? || op.OpWithdrawNat?)
    ensures From(Step(t, r, op), id) == From(r, id)
  {
    hide GlobalFanout, Put, Remove, TablesOwned, RoutesFrom, OwnedFrom;
    match op
    case OpAnnounceNat(o, b) =>
      OwnedPut(r.nats, o, NatKeyOf(b), b, id);
      NewNats(r, Put(r.nats, o, NatKeyOf(b), b), NatUpdate(b, true), id);
    case OpWithdrawNat(o, k, permit) =>
      if NatVerdict(r, o, k, permit) == WithdrawApplied {
        OwnedRemove(r.nats, o, k, id);
        NewNats(r, Remove(r.nats, o, k), NatUpdate(r.nats.recs[k], false), id);
      }
  }

  lemma ForeignPublic(t: Texts, r: Rib, id: string, op: Op)
    requires TablesOwned(r) && Legal(r, op) && Foreign(r, id, op) && (op.OpAnnouncePublic? || op.OpWithdrawPublic?)
    ensures From(Step(t, r, op), id) == From(r, id)
  {
    hide GlobalFanout, Put, Remove, TablesOwned, RoutesFrom, OwnedFrom;
    match op
    case OpAnnouncePublic(o, p) =>
      OwnedPut(r.publics, o, PublicKeyOf(p), p, id);
      NewPublics(r, Put(r.publics, o, PublicKeyOf(p), p), PublicUpdate(p, true), id);
    case OpWithdrawPublic(o, k, permit) =>
      if PublicVerdict(r, o, k, permit) == WithdrawApplied {
        OwnedRemove(r.publics, o, k, id);
        NewPublics(r, Remove(r.publics, o, k), PublicUpdate(r.publics.recs[k], false), id);
      }
  }

  /** Whatever others do short of a takeover, the node's contribution stands. */
  lemma ForeignStep(t: Texts, r: Rib, id: string, op: Op)
    requires TablesOwned(r) && Legal(r, op) && Foreign(r, id, op)
    ensures From(Step(t, r, op), id) == From(r, id)
  {
    hide Advertised, Refilter, DropOrigin, Withdraw, Announce, Replay, GlobalReplay, Deliver, TablesOwned, RoutesFrom,
         OwnedFrom;
    match op
    case OpAnnounce(o, k, nhs, ext) => ForeignAnnounce(t, r, id, o, k, nhs, ext);
    case OpWithdraw(o, k) => ForeignWithdraw(t, r, id, o, k);
    case OpSetFence(text, order) =>
      var n := FenceNet(t, text);
      if n.Some? { RefilterFrame(t, r, r.fenced + {n.value}, order); }
      SameRoutesSameFrom(r, Step(t, r, op), id);
    case OpClearFence(text, order) =>
      var n := FenceNet(t, text);
      if n.Some? { RefilterFrame(t, r, r.fenced - {n.value}, order); }
      SameRoutesSameFrom(r, Step(t, r, op), id);
    case OpClaim(o, ord) =>
      var r' := r.(nextToken := r.nextToken + 1, origins := r.origins[o := r.nextToken + 1]);
      var r'' := r'.(sinks := r'.sinks - {o});
      TablesOwnedFrame(r, r'');
      TeardownSpares(t, r'', o, ord, id);
      SameRoutesSameFrom(r, r', id);
      SameRoutesSameFrom(r, r'', id);
    case OpRelease(o, token, ord) =>
      var r' := r.(origins := r.origins - {o}, sinks := r.sinks - {o});
      TablesOwnedFrame(r, r');
      TeardownSpares(t, r', o, ord, id);
      SameRoutesSameFrom(r, r', id);
    case OpAnnounceNat(_, _) => ForeignNat(t, r, id, op);
    case OpWithdrawNat(_, _, _) => ForeignNat(t, r, id, op);
    case OpAnnouncePublic(_, _) => ForeignPublic(t, r, id, op);
    case OpWithdrawPublic(_, _, _) => ForeignPublic(t, r, id, op);
    case _ => SameRoutesSameFrom(r, Step(t, r, op), id);
  }
}
