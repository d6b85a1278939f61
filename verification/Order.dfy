/** Strings in Go's byte order, and sequences kept in a strict order.

    UTF-8 byte order and code-point order agree, so comparing characters is comparing bytes. */
module Order {

  datatype Option<+T> = None | Some(value: T)

  datatype Result<+T, +E> = Ok(value: T) | Err(error: E)

  /** cmp.Compare on strings: negative, zero or positive. */
  function Compare(a: string, b: string): int {
    if a == "" && b == "" then 0
    else if a == "" then -1
    else if b == "" then 1
    else if a[0] < b[0] then -1
    else if b[0] < a[0] then 1
    else Compare(a[1..], b[1..])
  }

  predicate Less(a: string, b: string) {
    Compare(a, b) < 0
  }

  lemma {:induction false} CompareZero(a: string, b: string)
    ensures Compare(a, b) == 0 <==> a == b
  {
    if a != "" && b != "" && a[0] == b[0] {
      CompareZero(a[1..], b[1..]);
      assert a == [a[0]] + a[1..] && b == [b[0]] + b[1..];
    }
  }

  lemma {:induction false} CompareFlips(a: string, b: string)
    ensures Compare(a, b) == -Compare(b, a)
  {
    if a != "" && b != "" && a[0] == b[0] {
      CompareFlips(a[1..], b[1..]);
    }
  }

  lemma {:induction false} CompareTransitive(a: string, b: string, c: string)
    requires Compare(a, b) < 0 && Compare(b, c) < 0
    ensures Compare(a, c) < 0
  {
    if a != "" && b != "" && c != "" && a[0] == b[0] && b[0] == c[0] {
      CompareTransitive(a[1..], b[1..], c[1..]);
    }
  }

  /** The strings agree up to i, where a ends or has the smaller byte. */
  predicate DecidedAt(a: string, b: string, i: nat) {
    i <= |a| && i < |b| && a[..i] == b[..i] && (i == |a| || a[i] < b[i])
  }

  lemma DecidedInRest(a: string, b: string, i: nat)
    requires a != "" && b != "" && a[0] == b[0]
    ensures DecidedAt(a, b, i + 1) <==> DecidedAt(a[1..], b[1..], i)
    ensures !DecidedAt(a, b, 0)
  {
    if i < |a| && i < |b| - 1 {
      assert a[..i + 1] == [a[0]] + a[1..][..i] && b[..i + 1] == [b[0]] + b[1..][..i];
      assert a[1..][..i] == a[..i + 1][1..] && b[1..][..i] == b[..i + 1][1..];
    }
  }

  lemma DecidedAtOnce(a: string, b: string, i: nat)
    requires a == "" || b == "" || a[0] != b[0]
    ensures DecidedAt(a, b, i) <==> i == 0 && b != "" && (a == "" || a[0] < b[0])
  {
    if 0 < i <= |a| && i < |b| { assert a[..i][0] != b[..i][0]; }
  }

  /** Bytes decide at the first place the strings differ, and a proper prefix comes first. */
  lemma {:induction false} LessExactly(a: string, b: string)
    ensures Less(a, b) <==> exists i: nat :: DecidedAt(a, b, i)
  {
    if a != "" && b != "" && a[0] == b[0] {
      LessExactly(a[1..], b[1..]);
      forall i: nat ensures DecidedAt(a, b, i + 1) <==> DecidedAt(a[1..], b[1..], i) { DecidedInRest(a, b, i); }
      DecidedInRest(a, b, 0);
      hide DecidedAt;
      if i: nat :| DecidedAt(a, b, i) { assert DecidedAt(a[1..], b[1..], i - 1); }
      if i: nat :| DecidedAt(a[1..], b[1..], i) { assert DecidedAt(a, b, i + 1); }
    } else {
      forall i: nat ensures DecidedAt(a, b, i) <==> i == 0 && b != "" && (a == "" || a[0] < b[0]) {
        DecidedAtOnce(a, b, i);
      }
      hide DecidedAt;
      assert Less(a, b) <==> DecidedAt(a, b, 0);
    }
  }

  /** Irreflexive and transitive: all that uniqueness of a sorted arrangement needs. */
  ghost predicate StrictOrder<T(!new)>(less: (T, T) -> bool) {
    && (forall x: T :: !less(x, x))
    && (forall x: T, y: T, z: T :: less(x, y) && less(y, z) ==> less(x, z))
  }

  lemma StringsStrictlyOrdered()
    ensures StrictOrder(Less)
    ensures forall a: string, b: string :: a != b ==> Less(a, b) || Less(b, a)
  {
    forall a: string ensures !Less(a, a) { CompareZero(a, a); }
    forall a: string, b: string, c: string | Less(a, b) && Less(b, c) ensures Less(a, c) {
      CompareTransitive(a, b, c);
    }
    forall a: string, b: string | a != b ensures Less(a, b) || Less(b, a) {
      CompareZero(a, b);
      CompareFlips(a, b);
    }
  }

  ghost predicate Ascending<T>(less: (T, T) -> bool, s: seq<T>) {
    forall i, j :: 0 <= i < j < |s| ==> less(s[i], s[j])
  }

  /** No two elements of `s` are tied under `less`. */
  ghost predicate Separated<T>(less: (T, T) -> bool, s: set<T>) {
    forall x, y :: x in s && y in s && x != y ==> less(x, y) || less(y, x)
  }

  /** `s` lists each element of `elems` exactly once, in any order. */
  ghost predicate Enumerates<T(!new)>(s: seq<T>, elems: set<T>) {
    && (forall x :: x in s <==> x in elems)
    && (forall i, j :: 0 <= i < j < |s| ==> s[i] != s[j])
  }

  /** A set's elements in some order. */
  ghost function Listing<T(!new)>(s: set<T>): (q: seq<T>)
    ensures Enumerates(q, s)
    decreases |s|
  {
    if s == {} then [] else
      var x :| x in s;
      Listing(s - {x}) + [x]
  }

  /** The elements of a set in some order. */
  method Listed<T(==, !new)>(s: set<T>) returns (q: seq<T>)
    ensures Enumerates(q, s)
  {
    q := [];
    var todo := s;
    while todo != {}
      invariant todo <= s && Enumerates(q, s - todo)
      decreases |todo|
    {
      var x :| x in todo;
      q := q + [x];
      todo := todo - {x};
    }
  }

  lemma Inhabited<T>(s: seq<T>)
    ensures s != [] ==> exists x :: x in s
  {
    if s != [] { assert s[0] in s; }
  }

  /** A set has at most one ascending arrangement. */
  lemma {:induction false} AscendingUnique<T(!new)>(less: (T, T) -> bool, a: seq<T>, b: seq<T>)
    requires StrictOrder(less)
    requires Ascending(less, a) && Ascending(less, b)
    requires forall x :: x in a <==> x in b
    ensures a == b
  {
    if a == [] {
      Inhabited(b);
    } else {
      assert forall y :: y in a ==> y == a[0] || less(a[0], y);
      assert a[0] in b;
      assert forall y :: y in b ==> y == b[0] || less(b[0], y);
      assert b[0] in a;
      forall x ensures x in a[1..] <==> x in b[1..] {
        TailMembership(less, a, x);
        TailMembership(less, b, x);
      }
      AscendingUnique(less, a[1..], b[1..]);
      assert a == [a[0]] + a[1..] && b == [b[0]] + b[1..];
    }
  }

  lemma TailMembership<T(!new)>(less: (T, T) -> bool, a: seq<T>, x: T)
    requires StrictOrder(less) && Ascending(less, a) && a != []
    ensures x in a[1..] <==> x in a && x != a[0]
  {
  }

  /** Insertion into an ascending list: the position is the first element not below `x`. */
  function Insert<T(!new)>(less: (T, T) -> bool, x: T, s: seq<T>): (r: seq<T>)
    ensures forall y :: y in r <==> y == x || y in s
    ensures |r| == |s| + 1
  {
    if s == [] then [x]
    else if less(x, s[0]) then [x] + s
    else [s[0]] + Insert(less, x, s[1..])
  }

  lemma {:induction false} InsertAscending<T(!new)>(less: (T, T) -> bool, x: T, s: seq<T>)
    requires StrictOrder(less) && Ascending(less, s)
    requires forall y :: y in s ==> less(x, y) || less(y, x)
    ensures Ascending(less, Insert(less, x, s))
  {
    if s != [] && !less(x, s[0]) {
      assert s[0] in s;
      InsertAscending(less, x, s[1..]);
      var t := Insert(less, x, s[1..]);
      forall j | 0 <= j < |t| ensures less(s[0], t[j]) {
        assert t[j] in t;
        if t[j] != x {
          var k :| 0 <= k < |s[1..]| && s[1..][k] == t[j];
          assert less(s[0], s[k + 1]);
        }
      }
    } else if s != [] {
      forall j | 0 <= j < |s| ensures less(x, s[j]) {
        if j > 0 { assert less(s[0], s[j]); }
      }
    }
  }

  /** slices.SortFunc, as insertion sort. */
  function Sort<T(!new)>(less: (T, T) -> bool, s: seq<T>): (r: seq<T>)
    ensures forall y :: y in r <==> y in s
    ensures |r| == |s|
  {
    if s == [] then [] else Insert(less, s[0], Sort(less, s[1..]))
  }

  lemma {:induction false} SortAscending<T(!new)>(less: (T, T) -> bool, s: seq<T>)
    requires StrictOrder(less)
    requires forall i, j :: 0 <= i < j < |s| ==> less(s[i], s[j]) || less(s[j], s[i])
    ensures Ascending(less, Sort(less, s))
  {
    if s != [] {
      SortAscending(less, s[1..]);
      forall y | y in Sort(less, s[1..]) ensures less(s[0], y) || less(y, s[0]) {
        assert y in s[1..];
        var k :| 0 <= k < |s[1..]| && s[1..][k] == y;
        assert s[k + 1] == y;
      }
      InsertAscending(less, s[0], Sort(less, s[1..]));
    }
  }

  /** The ascending arrangement of a set of strings. */
  ghost function Sorted(s: set<string>): (r: seq<string>)
    ensures Ascending(Less, r)
    ensures forall x :: x in r <==> x in s
  {
    StringsStrictlyOrdered();
    if s == {} then []
    else
      var x :| x in s;
      var rest := Sorted(s - {x});
      InsertAscending(Less, x, rest);
      Insert(Less, x, rest)
  }

  /** Whatever route produced it, an ascending listing of `s` is `Sorted(s)`. */
  lemma SortedIsCanonical(s: set<string>, r: seq<string>)
    requires Ascending(Less, r)
    requires forall x :: x in r <==> x in s
    ensures r == Sorted(s)
  {
    StringsStrictlyOrdered();
    AscendingUnique(Less, r, Sorted(s));
  }
}
