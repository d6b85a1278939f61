/** A table of records each announced by one origin, with the reverse index a teardown walks. The
    reflector keeps two: NAT blocks by (address, first port), public records by their four-part key. */
module OwnedTable {

  datatype Owned<K(==), V> = Owned(recs: map<K, V>, origin: map<K, string>, byOrigin: map<string, set<K>>)

  ghost function Empty<K, V>(): Owned<K, V> { Owned(map[], map[], map[]) }

  function KeysOf<K>(byOrigin: map<string, set<K>>, o: string): set<K> {
    if o in byOrigin then byOrigin[o] else {}
  }

  /** The reverse index and the owner map name the same holdings, and every record has an owner. */
  ghost predicate Consistent<K(!new), V>(t: Owned<K, V>) {
    && t.recs.Keys == t.origin.Keys
    && forall o: string, k: K :: k in KeysOf(t.byOrigin, o) <==> k in t.origin && t.origin[k] == o
  }

  /** Announce: a record another origin held moves to this one. */
  function Put<K(==), V>(t: Owned<K, V>, o: string, k: K, v: V): Owned<K, V> {
    var moved :=
      if k in t.origin && t.origin[k] != o
      then t.byOrigin[t.origin[k] := KeysOf(t.byOrigin, t.origin[k]) - {k}]
      else t.byOrigin;
    Owned(t.recs[k := v], t.origin[k := o], moved[o := KeysOf(moved, o) + {k}])
  }

  /** Withdraw, once the caller has been checked. */
  function Remove<K(==), V>(t: Owned<K, V>, o: string, k: K): Owned<K, V> {
    Owned(t.recs - {k}, t.origin - {k}, t.byOrigin[o := KeysOf(t.byOrigin, o) - {k}])
  }

  /** The stale-index guard of a teardown: does this origin still hold k? */
  predicate StillHolds<K(==), V>(t: Owned<K, V>, o: string, k: K) {
    k in t.origin && t.origin[k] == o && k in t.recs
  }

  /** One key of a teardown, the origin's index entry already gone. */
  function Drop<K(==), V>(t: Owned<K, V>, o: string, k: K): Owned<K, V> {
    if StillHolds(t, o, k) then Owned(t.recs - {k}, t.origin - {k}, t.byOrigin) else t
  }

  /** A teardown walking the origin's keys in some order. */
  function DropAll<K(==), V>(t: Owned<K, V>, o: string, order: seq<K>): Owned<K, V> {
    if order == [] then Owned(t.recs, t.origin, t.byOrigin - {o})
    else Drop(DropAll(t, o, order[..|order| - 1]), o, order[|order| - 1])
  }

  lemma PutConsistent<K(!new), V>(t: Owned<K, V>, o: string, k: K, v: V)
    requires Consistent(t)
    ensures var t' := Put(t, o, k, v);
            && Consistent(t') && k in t'.recs && t'.recs[k] == v && t'.origin[k] == o
            && forall j :: j != k ==>
                 && (j in t'.recs <==> j in t.recs)
                 && (j in t.recs ==> t'.recs[j] == t.recs[j] && t'.origin[j] == t.origin[j])
  {
    var t' := Put(t, o, k, v);
    forall p: string, j: K ensures j in KeysOf(t'.byOrigin, p) <==> j in t'.origin && t'.origin[j] == p {
      assert j in KeysOf(t.byOrigin, p) <==> j in t.origin && t.origin[j] == p;
    }
  }

  lemma RemoveConsistent<K(!new), V>(t: Owned<K, V>, o: string, k: K)
    requires Consistent(t) && k in t.origin && t.origin[k] == o
    ensures var t' := Remove(t, o, k);
            && Consistent(t') && k !in t'.recs
            && forall j :: j != k ==>
                 && (j in t'.recs <==> j in t.recs)
                 && (j in t.recs ==> t'.recs[j] == t.recs[j] && t'.origin[j] == t.origin[j])
  {
    var t' := Remove(t, o, k);
    forall p: string, j: K ensures j in KeysOf(t'.byOrigin, p) <==> j in t'.origin && t'.origin[j] == p {
      assert j in KeysOf(t.byOrigin, p) <==> j in t.origin && t.origin[j] == p;
    }
  }

  /** Midway through a teardown: o's index entry is gone, and of its records those walked are too. */
  lemma {:induction false} DropAllEffect<K(!new), V>(t: Owned<K, V>, o: string, order: seq<K>)
    requires Consistent(t)
    requires forall k :: k in order ==> k in KeysOf(t.byOrigin, o)
    requires forall i, j :: 0 <= i < j < |order| ==> order[i] != order[j]
    ensures var t' := DropAll(t, o, order);
            && t'.byOrigin == t.byOrigin - {o}
            && t'.recs == t.recs - (set k | k in order)
            && t'.origin == t.origin - (set k | k in order)
  {
    if order != [] {
      var init, k := order[..|order| - 1], order[|order| - 1];
      DropAllEffect(t, o, init);
      assert order == init + [k] && k !in init && k in order;
      assert (set x | x in order) == (set x | x in init) + {k};
      assert k in t.origin && t.origin[k] == o;
    } else {
      assert (set k | k in order) == {};
    }
  }

  /** A whole teardown leaves a consistent table in which the origin holds nothing. */
  lemma DropAllConsistent<K(!new), V>(t: Owned<K, V>, o: string, order: seq<K>)
    requires Consistent(t)
    requires forall k :: k in order <==> k in KeysOf(t.byOrigin, o)
    requires forall i, j :: 0 <= i < j < |order| ==> order[i] != order[j]
    ensures Consistent(DropAll(t, o, order))
    ensures forall k :: k in DropAll(t, o, order).recs <==> k in t.recs && t.origin[k] != o
    ensures forall k :: k in DropAll(t, o, order).recs ==>
              DropAll(t, o, order).recs[k] == t.recs[k] && DropAll(t, o, order).origin[k] == t.origin[k]
  {
    DropAllEffect(t, o, order);
    hide DropAll;
    var t' := DropAll(t, o, order);
    assert forall k :: k in t.recs ==> (k in order <==> t.origin[k] == o);
    forall p: string, j: K ensures j in KeysOf(t'.byOrigin, p) <==> j in t'.origin && t'.origin[j] == p {
      assert j in KeysOf(t.byOrigin, p) <==> j in t.origin && t.origin[j] == p;
    }
  }

  /** The stale-index guard never fires: every key a teardown reaches is still the origin's. */
  lemma GuardNeverFires<K(!new), V>(t: Owned<K, V>, o: string, order: seq<K>, n: nat)
    requires Consistent(t)
    requires forall k :: k in order ==> k in KeysOf(t.byOrigin, o)
    requires forall i, j :: 0 <= i < j < |order| ==> order[i] != order[j]
    requires n < |order|
    ensures StillHolds(DropAll(t, o, order[..n]), o, order[n])
  {
    DropAllEffect(t, o, order[..n]);
    assert order[n] in order && order[n] !in order[..n];
  }
}
