/** What a node wants on the bus, and the messages that move the applied set to the desired one. */
module DesiredDiff {
  import opened Order
  import opened RouteBus

  datatype Route = Route(vni: nat, prefix: string, nexthop: string, external: bool, deliveryVNI: nat)

  datatype DesiredState = DesiredState(subs: seq<nat>, routes: seq<Route>, nats: seq<NatBlock>, pubs: seq<PublicRecord>)

  datatype NatRef = NatRef(natIP: string, portMin: nat, portMax: nat)

  function RouteRefOf(r: Route): RouteKey { RouteKey(r.vni, r.prefix) }

  /** The agent's key of a block carries the last port; the reflector's does not. */
  function NatRefOf(b: NatBlock): NatRef { NatRef(b.natIP, b.portMin, b.portMax) }

  function KindDigit(k: PublicKind): string {
    match k
    case EdgeUnderlay => "1"
    case NatIp => "2"
    case LbIp => "3"
    case FloatingIp => "4"
  }

  /** pubKey: the four key fields printed into one string. */
  function PubKey(p: PublicRecord): string {
    KindDigit(p.kind) + "|" + p.prefix + "|" + p.ownerUnderlay + "|" + p.overlayIP
  }

  datatype BusDelta = BusDelta(
    subscribe: seq<nat>, unsubscribe: seq<nat>,
    announceR: seq<Route>, withdrawR: seq<RouteKey>,
    announceN: seq<NatBlock>, withdrawN: seq<NatRef>,
    announceP: seq<PublicRecord>, withdrawP: seq<PublicRecord>)

  predicate Silent(d: BusDelta) {
    && d.subscribe == [] && d.unsubscribe == [] && d.announceR == [] && d.withdrawR == []
    && d.announceN == [] && d.withdrawN == [] && d.announceP == [] && d.withdrawP == []
  }

  // ---------------------------------------------------------------- one kind of record

  /** The records by key, a later one with the same key replacing an earlier. */
  function Keyed<K(==), V>(vs: seq<V>, key: V -> K): map<K, V> {
    if vs == [] then map[] else Keyed(vs[..|vs| - 1], key)[key(vs[|vs| - 1]) := vs[|vs| - 1]]
  }

  /** The record is the one applied under its key. */
  predicate Known<K(==), V(==)>(prev: map<K, V>, key: V -> K, v: V) { key(v) in prev && prev[key(v)] == v }

  /** The records of `next` that are new or changed. */
  function Changed<K(==), V(==)>(prev: map<K, V>, next: seq<V>, key: V -> K): seq<V> {
    if next == [] then []
    else
      var init, v := next[..|next| - 1], next[|next| - 1];
      if Known(prev, key, v) then Changed(prev, init, key) else Changed(prev, init, key) + [v]
  }

  /** Records that share a key are the same record, as for two backends of one address on one node. */
  ghost predicate Agrees<K, V>(vs: seq<V>, key: V -> K) {
    forall i, j :: 0 <= i < |vs| && 0 <= j < |vs| && key(vs[i]) == key(vs[j]) ==> vs[i] == vs[j]
  }

  /** The last record of its key. */
  ghost predicate LastOf<K, V>(vs: seq<V>, key: V -> K, i: int) {
    0 <= i < |vs| && forall j :: i < j < |vs| ==> key(vs[j]) != key(vs[i])
  }

  method IndexBy<K(==), V>(vs: seq<V>, key: V -> K) returns (m: map<K, V>)
    ensures m == Keyed(vs, key)
  {
    m := map[];
    for i := 0 to |vs|
      invariant m == Keyed(vs[..i], key)
    {
      assert vs[..i + 1][..i] == vs[..i];
      m := m[key(vs[i]) := vs[i]];
    }
    assert vs[..|vs|] == vs;
  }

  /** The two passes over one kind of record: announces in list order, withdrawn keys in any. */
  method DiffRecords<K(==, !new), V(==)>(applied: seq<V>, next: seq<V>, key: V -> K)
    returns (announce: seq<V>, withdraw: seq<K>)
    ensures announce == Changed(Keyed(applied, key), next, key)
    ensures Enumerates(withdraw, Keyed(applied, key).Keys - Keyed(next, key).Keys)
  {
    var prev := IndexBy(applied, key);
    var now: map<K, V> := map[];
    announce := [];
    for i := 0 to |next|
      invariant now == Keyed(next[..i], key) && announce == Changed(prev, next[..i], key)
    {
      assert next[..i + 1][..i] == next[..i];
      var v := next[i];
      now := now[key(v) := v];
      if !Known(prev, key, v) {
        announce := announce + [v];
      }
    }
    assert next[..|next|] == next;
    withdraw := [];
    var todo := prev.Keys;
    while todo != {}
      invariant todo <= prev.Keys && Enumerates(withdraw, (prev.Keys - todo) - now.Keys)
      decreases |todo|
    {
      var k :| k in todo;
      assert k !in withdraw;
      if k !in now { withdraw := withdraw + [k]; }
      todo := todo - {k};
    }
  }

  // ---------------------------------------------------------------- the whole diff

  ghost predicate DeltaOf(applied: DesiredState, next: DesiredState, d: BusDelta) {
    && Enumerates(d.subscribe, (set v | v in next.subs) - set v | v in applied.subs)
    && Enumerates(d.unsubscribe, (set v | v in applied.subs) - set v | v in next.subs)
    && d.announceR == Changed(Keyed(applied.routes, RouteRefOf), next.routes, RouteRefOf)
    && Enumerates(d.withdrawR, Keyed(applied.routes, RouteRefOf).Keys - Keyed(next.routes, RouteRefOf).Keys)
    && d.announceN == Changed(Keyed(applied.nats, NatRefOf), next.nats, NatRefOf)
    && Enumerates(d.withdrawN, Keyed(applied.nats, NatRefOf).Keys - Keyed(next.nats, NatRefOf).Keys)
    && d.announceP == Changed(Keyed(applied.pubs, PubKey), next.pubs, PubKey)
    && WithdrawsRecords(d.withdrawP, Keyed(applied.pubs, PubKey), Keyed(next.pubs, PubKey).Keys)
  }

  /** The withdrawn public records: the applied ones whose key is wanted no more. */
  ghost predicate WithdrawsRecords(ps: seq<PublicRecord>, prev: map<string, PublicRecord>, keep: set<string>) {
    forall p :: p in ps <==> exists k :: k in prev && k !in keep && prev[k] == p
  }

  method DiffDesired(applied: DesiredState, next: DesiredState) returns (d: BusDelta)
    ensures DeltaOf(applied, next, d)
  {
    hide Keyed, Changed;
    var prevSubs := set v | v in applied.subs;
    var nextSubs := set v | v in next.subs;
    var sub := Listed(nextSubs - prevSubs);
    var unsub := Listed(prevSubs - nextSubs);
    var ar, wr := DiffRecords(applied.routes, next.routes, RouteRefOf);
    var an, wn := DiffRecords(applied.nats, next.nats, NatRefOf);
    var ap, wk := DiffRecords(applied.pubs, next.pubs, PubKey);
    var prev := IndexBy(applied.pubs, PubKey);
    assert forall k :: k in wk ==> k in prev;
    var wp: seq<PublicRecord> := [];
    for i := 0 to |wk|
      invariant forall j :: 0 <= j < |wk| ==> wk[j] in wk && wk[j] in prev
      invariant forall p :: p in wp <==> exists j :: 0 <= j < i && prev[wk[j]] == p
    {
      wp := wp + [prev[wk[i]]];
    }
    ghost var keep := Keyed(next.pubs, PubKey).Keys;
    forall p ensures p in wp <==> exists k :: k in prev && k !in keep && prev[k] == p {
      if k :| k in prev && k !in keep && prev[k] == p { assert k in wk; }
    }
    d := BusDelta(sub, unsub, ar, wr, an, wn, ap, wp);
  }

  // ---------------------------------------------------------------- the keyed view

  /** The keyed view holds every key once, with its last record. */
  lemma {:induction false} KeyedMembership<K(!new), V>(vs: seq<V>, key: V -> K, k: K)
    ensures k in Keyed(vs, key) <==> exists i :: 0 <= i < |vs| && key(vs[i]) == k
    ensures forall i :: LastOf(vs, key, i) && key(vs[i]) == k ==> k in Keyed(vs, key) && Keyed(vs, key)[k] == vs[i]
  {
    if vs != [] {
      var init := vs[..|vs| - 1];
      KeyedMembership(init, key, k);
      forall i | LastOf(vs, key, i) && i < |init| ensures LastOf(init, key, i) {
        assert forall j :: 0 <= j < |init| ==> vs[j] == init[j];
      }
    }
  }

  lemma {:induction false} LastExists<K, V>(vs: seq<V>, key: V -> K, i: nat) returns (last: nat)
    requires i < |vs|
    ensures i <= last && LastOf(vs, key, last) && key(vs[last]) == key(vs[i])
    decreases |vs| - i
  {
    if j :| i < j < |vs| && key(vs[j]) == key(vs[i]) {
      last := LastExists(vs, key, j);
    } else {
      last := i;
    }
  }

  /** The keyed record of a key is one of its records. */
  lemma KeyedComesFrom<K(!new), V>(vs: seq<V>, key: V -> K, k: K) returns (i: nat)
    requires k in Keyed(vs, key)
    ensures LastOf(vs, key, i) && key(vs[i]) == k && Keyed(vs, key)[k] == vs[i]
  {
    KeyedMembership(vs, key, k);
    var j :| 0 <= j < |vs| && key(vs[j]) == k;
    i := LastExists(vs, key, j);
  }

  lemma {:induction false} ChangedMembership<K, V(!new)>(prev: map<K, V>, next: seq<V>, key: V -> K, v: V)
    ensures v in Changed(prev, next, key) <==> v in next && !Known(prev, key, v)
  {
    if next != [] {
      ChangedMembership(prev, next[..|next| - 1], key, v);
      assert next == next[..|next| - 1] + [next[|next| - 1]];
    }
  }

  /** An unchanged desired set sends nothing, exactly when records that share a key agree; otherwise every
      record that differs from the last of its key is announced again, tick after tick. */
  lemma UnchangedSendsNothing(s: DesiredState, d: BusDelta)
    requires DeltaOf(s, s, d)
    ensures Silent(d) <==> Agrees(s.routes, RouteRefOf) && Agrees(s.nats, NatRefOf) && Agrees(s.pubs, PubKey)
    ensures forall v :: v in d.announceR <==> v in s.routes && !Known(Keyed(s.routes, RouteRefOf), RouteRefOf, v)
  {
    hide Keyed, Changed, PubKey;
    Inhabited(d.subscribe);
    Inhabited(d.unsubscribe);
    Inhabited(d.withdrawR);
    Inhabited(d.withdrawN);
    Inhabited(d.withdrawP);
    NothingChanged(s.routes, RouteRefOf);
    NothingChanged(s.nats, NatRefOf);
    NothingChanged(s.pubs, PubKey);
    forall v ensures v in d.announceR <==> v in s.routes && !Known(Keyed(s.routes, RouteRefOf), RouteRefOf, v) {
      ChangedMembership(Keyed(s.routes, RouteRefOf), s.routes, RouteRefOf, v);
    }
  }

  lemma NothingChanged<K(!new), V(!new)>(vs: seq<V>, key: V -> K)
    ensures Changed(Keyed(vs, key), vs, key) == [] <==> Agrees(vs, key)
  {
    hide Keyed, Changed;
    var prev := Keyed(vs, key);
    var c := Changed(prev, vs, key);
    Inhabited(c);
    forall v ensures v in c <==> v in vs && !Known(prev, key, v) { ChangedMembership(prev, vs, key, v); }
    forall i | 0 <= i < |vs| ensures key(vs[i]) in prev && vs[i] in vs { KeyedMembership(vs, key, key(vs[i])); }
    if Agrees(vs, key) {
      forall i | 0 <= i < |vs| ensures Known(prev, key, vs[i]) { var j := KeyedComesFrom(vs, key, key(vs[i])); }
    } else {
      var i, j :| 0 <= i < |vs| && 0 <= j < |vs| && key(vs[i]) == key(vs[j]) && vs[i] != vs[j];
      assert vs[i] in c || vs[j] in c;
    }
  }

  // ---------------------------------------------------------------- the key of a public record

  predicate NoBar(s: string) { forall i :: 0 <= i < |s| ==> s[i] != '|' }

  /** A string splits at its first bar in one way only. */
  lemma SplitAtBar(a: string, x: string, b: string, y: string)
    requires NoBar(a) && NoBar(b) && a + "|" + x == b + "|" + y
    ensures a == b && x == y
  {
    var s, t := a + "|" + x, b + "|" + y;
    assert s[|a|] == '|' && t[|b|] == '|';
    assert t[|a|] == '|' && s[|b|] == '|';
    assert forall i :: 0 <= i < |a| ==> s[i] == a[i];
    assert forall i :: 0 <= i < |b| ==> t[i] == b[i];
    assert a == s[..|a|] && b == t[..|b|];
    assert x == s[|a| + 1..] && y == t[|b| + 1..];
  }

  /** The printed key names the record's four key fields, as long as they hold no bar themselves. */
  lemma PubKeyNames(p: PublicRecord, q: PublicRecord)
    requires NoBar(p.prefix) && NoBar(p.ownerUnderlay) && NoBar(q.prefix) && NoBar(q.ownerUnderlay)
    ensures PubKey(p) == PubKey(q) <==> PublicKeyOf(p) == PublicKeyOf(q)
  {
    if PubKey(p) == PubKey(q) {
      var p2, q2 := p.ownerUnderlay + "|" + p.overlayIP, q.ownerUnderlay + "|" + q.overlayIP;
      var p1, q1 := p.prefix + "|" + p2, q.prefix + "|" + q2;
      assert PubKey(p) == KindDigit(p.kind) + "|" + p1;
      assert PubKey(q) == KindDigit(q.kind) + "|" + q1;
      SplitAtBar(KindDigit(p.kind), p1, KindDigit(q.kind), q1);
      SplitAtBar(p.prefix, p2, q.prefix, q2);
      SplitAtBar(p.ownerUnderlay, p.overlayIP, q.ownerUnderlay, q.overlayIP);
    }
  }
}
