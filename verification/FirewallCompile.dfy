/** The online shadowing set and the compiler that fills it.

    Selecting policies by label is the caller's predicate `selects`: a policy without a selector, or
    with one that does not parse or match, is simply not selected. */
module FirewallCompile {
  import opened Order
  import opened Addresses
  import opened Firewall

  const FIREWALL_RULE_BUDGET := 256

  predicate RankLess(a: Entry, b: Entry) { CompareRank(a.rank, b.rank) < 0 }

  lemma RankLessIsStrict()
    ensures StrictOrder(RankLess)
  {
    forall x: Entry ensures !RankLess(x, x) { RankOrder(x.rank, x.rank); }
    forall x: Entry, y: Entry, z: Entry | RankLess(x, y) && RankLess(y, z) ensures RankLess(x, z) {
      RankTransitive(x.rank, y.rank, z.rank);
    }
  }

  /** x shadows e: it ranks ahead and matches everything e does. */
  predicate Shadows(x: Entry, e: Entry) { RankLess(x, e) && Covers(x, e) }

  lemma ShadowsTransitive(x: Entry, y: Entry, z: Entry)
    requires Shadows(x, y) && Shadows(y, z)
    ensures Shadows(x, z)
  {
    RankLessIsStrict();
    CoversTransitive(x, y, z);
  }

  /** The rules no rule of the same set shadows. */
  ghost function Unshadowed(all: set<Entry>): set<Entry> {
    set e | e in all && !exists x :: x in all && Shadows(x, e)
  }

  ghost function Elems<T>(s: seq<T>): set<T> { set x | x in s }

  ghost predicate Distinct<T>(s: seq<T>) { forall i, j :: 0 <= i < j < |s| ==> s[i] != s[j] }

  // ---------------------------------------------------------------- the set

  /** The entries `e` does not shadow, in order. */
  function Unevicted(s: seq<Entry>, e: Entry): (r: seq<Entry>)
    ensures forall x :: x in r <==> x in s && !Shadows(e, x)
    ensures Distinct(s) ==> Distinct(r)
  {
    if s == [] then []
    else
      var rest := Unevicted(s[..|s| - 1], e);
      if Shadows(e, s[|s| - 1]) then rest else rest + [s[|s| - 1]]
  }

  function Inserted(s: seq<Entry>, e: Entry): (r: seq<Entry>)
    ensures Distinct(s) && e !in s ==> Distinct(r)
    ensures r != []
  {
    if exists x :: x in s && Shadows(x, e) then s else Unevicted(s, e) + [e]
  }

  /** Inserting a sequence of rules, first to last, into an empty set. */
  function InsertedAll(es: seq<Entry>): seq<Entry> {
    if es == [] then [] else Inserted(InsertedAll(es[..|es| - 1]), es[|es| - 1])
  }

  class FwSet {
    var entries: seq<Entry>

    constructor ()
      ensures entries == []
    {
      entries := [];
    }

    method Insert(e: Entry)
      modifies this
      ensures entries == Inserted(old(entries), e)
    {
      for i := 0 to |entries|
        invariant entries == old(entries)
        invariant forall j :: 0 <= j < i ==> !Shadows(entries[j], e)
      {
        if Shadows(entries[i], e) {
          assert entries[i] in entries;
          return;
        }
      }
      var kept := [];
      for i := 0 to |entries|
        invariant entries == old(entries)
        invariant kept == Unevicted(entries[..i], e)
      {
        assert entries[..i + 1][..i] == entries[..i];
        if !Shadows(e, entries[i]) {
          kept := kept + [entries[i]];
        }
      }
      assert entries[..|entries|] == entries;
      entries := kept + [e];
    }

    /** The surviving rules in first-match-wins order. */
    method Rules() returns (out: seq<CompiledRule>)
      ensures out == RulesOf(Sort(RankLess, entries))
    {
      var sorted := Sort(RankLess, entries);
      out := [];
      for i := 0 to |sorted|
        invariant |out| == i && forall j :: 0 <= j < i ==> out[j] == sorted[j].rule
      {
        out := out + [sorted[i].rule];
      }
    }

    /** How many entries one family holds. */
    method Count(v6: bool) returns (n: nat)
      ensures n == CountOf(entries, v6)
    {
      n := 0;
      for i := 0 to |entries|
        invariant n == CountOf(entries[..i], v6)
      {
        assert entries[..i + 1][..i] == entries[..i];
        if entries[i].V6() == v6 { n := n + 1; }
      }
      assert entries[..|entries|] == entries;
    }
  }

  function CountOf(s: seq<Entry>, v6: bool): nat {
    if s == [] then 0
    else CountOf(s[..|s| - 1], v6) + if s[|s| - 1].V6() == v6 then 1 else 0
  }

  lemma {:induction false} CountIsCardinality(s: seq<Entry>, v6: bool)
    requires Distinct(s)
    ensures CountOf(s, v6) == |OfFamily(Elems(s), v6)|
  {
    if s != [] {
      var init, e := s[..|s| - 1], s[|s| - 1];
      CountIsCardinality(init, v6);
      assert s == init + [e] && e !in init;
      OneMoreOfFamily(init, e, v6);
    }
  }

  lemma OneMoreOfFamily(s: seq<Entry>, e: Entry, v6: bool)
    requires e !in s
    ensures |OfFamily(Elems(s + [e]), v6)| == |OfFamily(Elems(s), v6)| + if e.V6() == v6 then 1 else 0
  {
    assert OfFamily(Elems(s + [e]), v6) == OfFamily(Elems(s), v6) + if e.V6() == v6 then {e} else {};
  }

  ghost function OfFamily(s: set<Entry>, v6: bool): set<Entry> { set e | e in s && e.V6() == v6 }

  function RulesOf(es: seq<Entry>): (r: seq<CompiledRule>)
    ensures |r| == |es| && forall i :: 0 <= i < |es| ==> r[i] == es[i].rule
  {
    if es == [] then [] else RulesOf(es[..|es| - 1]) + [es[|es| - 1].rule]
  }

  /** `out` is the rules of `s` by ascending rank. */
  ghost predicate IsListing(s: set<Entry>, out: seq<CompiledRule>) {
    exists es :: IsArrangement(s, es) && out == RulesOf(es)
  }

  ghost predicate IsArrangement(s: set<Entry>, es: seq<Entry>) {
    Ascending(RankLess, es) && forall e :: e in es <==> e in s
  }

  lemma SortedIsListing(es: seq<Entry>)
    requires RanksApart(es)
    ensures IsListing(Elems(es), RulesOf(Sort(RankLess, es)))
  {
    hide CompareRank;
    RankLessIsStrict();
    forall i, j | 0 <= i < j < |es| ensures RankLess(es[i], es[j]) || RankLess(es[j], es[i]) {
      RankOrder(es[i].rank, es[j].rank);
    }
    SortAscending(RankLess, es);
    assert IsArrangement(Elems(es), Sort(RankLess, es));
  }

  /** No two positions hold the same rank. */
  ghost predicate RanksApart(es: seq<Entry>) {
    forall i, j :: 0 <= i < j < |es| ==> es[i].rank != es[j].rank
  }

  lemma ApartSeparated(es: seq<Entry>)
    requires RanksApart(es)
    ensures Separated(RankLess, Elems(es)) && Distinct(es)
  {
    hide CompareRank;
    forall x, y | x in Elems(es) && y in Elems(es) && x != y ensures RankLess(x, y) || RankLess(y, x) {
      var i :| 0 <= i < |es| && es[i] == x;
      var j :| 0 <= j < |es| && es[j] == y;
      RankOrder(x.rank, y.rank);
    }
  }

  lemma ListingUnique(s: set<Entry>, a: seq<CompiledRule>, b: seq<CompiledRule>)
    requires IsListing(s, a) && IsListing(s, b)
    ensures a == b
  {
    RankLessIsStrict();
    var ea :| IsArrangement(s, ea) && a == RulesOf(ea);
    var eb :| IsArrangement(s, eb) && b == RulesOf(eb);
    AscendingUnique(RankLess, ea, eb);
  }

  // ---------------------------------------------------------------- order independence of the set

  /** If anything shadows e, so does something that survives: follow shadowers down the ranks. */
  lemma {:induction false} SurvivingShadower(all: set<Entry>, x: Entry, e: Entry) returns (y: Entry)
    requires x in all && Shadows(x, e)
    ensures y in Unshadowed(all) && Shadows(y, e)
    decreases |set z | z in all && RankLess(z, x)|
  {
    if x in Unshadowed(all) {
      y := x;
    } else {
      var w :| w in all && Shadows(w, x);
      ShadowsTransitive(w, x, e);
      RankLessIsStrict();
      var below, lower := set z | z in all && RankLess(z, x), set z | z in all && RankLess(z, w);
      assert lower <= below && w in below && w !in lower;
      StrictSubsetSmaller(lower, below);
      y := SurvivingShadower(all, w, e);
    }
  }

  lemma StrictSubsetSmaller<T>(a: set<T>, b: set<T>)
    requires a < b
    ensures |a| < |b|
  {
    assert b == a + (b - a);
  }

  /** One insertion keeps the set equal to the unshadowed rules seen so far. */
  lemma InsertKeepsUnshadowed(s: seq<Entry>, all: set<Entry>, e: Entry)
    requires Elems(s) == Unshadowed(all)
    ensures Elems(Inserted(s, e)) == Unshadowed(all + {e})
  {
    RankLessIsStrict();
    if x :| x in s && Shadows(x, e) {
      assert x in Elems(s);
      forall z | z in Unshadowed(all) ensures !Shadows(e, z) {
        if Shadows(e, z) { ShadowsTransitive(x, e, z); }
      }
      assert e !in Unshadowed(all + {e});
    } else {
      if x :| x in all && Shadows(x, e) {
        var y := SurvivingShadower(all, x, e);
      }
      assert Elems(Inserted(s, e)) == (set z | z in Unshadowed(all) && !Shadows(e, z)) + {e};
    }
  }

  /** Whatever the order of arrival, what is left is exactly the unshadowed rules. */
  lemma {:induction false} InsertionOrderIrrelevant(es: seq<Entry>)
    ensures Elems(InsertedAll(es)) == Unshadowed(Elems(es))
    ensures Distinct(es) ==> Distinct(InsertedAll(es))
    ensures es != [] ==> InsertedAll(es) != []
  {
    if es != [] {
      var init, e := es[..|es| - 1], es[|es| - 1];
      InsertionOrderIrrelevant(init);
      assert es == init + [e];
      assert Elems(es) == Elems(init) + {e};
      InsertKeepsUnshadowed(InsertedAll(init), Elems(init), e);
      if Distinct(es) {
        assert e !in init;
        assert forall x :: x in InsertedAll(init) ==> x in Elems(InsertedAll(init));
      }
    }
  }

  // ---------------------------------------------------------------- meaning of the set

  /** m is the highest-ranked rule of `all` that matches k. */
  ghost predicate Decides(all: set<Entry>, k: Packet, m: Entry) {
    && m in all && CompiledMatches(m.rule, k)
    && forall x :: x in all && CompiledMatches(x.rule, k) && x != m ==> RankLess(m, x)
  }

  lemma {:induction false} FirstMatchFinds(es: seq<Entry>, k: Packet, i: nat)
    requires i < |es| && CompiledMatches(es[i].rule, k)
    requires forall j :: 0 <= j < i ==> !CompiledMatches(es[j].rule, k)
    ensures FirstMatch(RulesOf(es), k) == Some(es[i].rule.action)
  {
    if i > 0 {
      RulesOfTail(es);
      FirstMatchFinds(es[1..], k, i - 1);
    }
  }

  lemma {:induction false} FirstMatchMisses(es: seq<Entry>, k: Packet)
    requires forall j :: 0 <= j < |es| ==> !CompiledMatches(es[j].rule, k)
    ensures FirstMatch(RulesOf(es), k) == None
  {
    if es != [] {
      RulesOfTail(es);
      FirstMatchMisses(es[1..], k);
    }
  }

  lemma RulesOfTail(es: seq<Entry>)
    requires es != []
    ensures RulesOf(es)[1..] == RulesOf(es[1..])
  {
  }

  /** The least-ranked matching rule exists whenever any rule matches. */
  lemma {:induction false} SomeRuleDecides(all: set<Entry>, k: Packet, x: Entry) returns (m: Entry)
    requires Separated(RankLess, all)
    requires x in all && CompiledMatches(x.rule, k)
    ensures Decides(all, k, m)
    decreases |set z | z in all && RankLess(z, x)|
  {
    RankLessIsStrict();
    if w :| w in all && CompiledMatches(w.rule, k) && RankLess(w, x) {
      var below, lower := set z | z in all && RankLess(z, x), set z | z in all && RankLess(z, w);
      assert lower <= below && w in below && w !in lower;
      StrictSubsetSmaller(lower, below);
      m := SomeRuleDecides(all, k, w);
    } else {
      m := x;
    }
  }

  /** First match over the survivors is first match over everything. */
  lemma SurvivorsDecide(all: set<Entry>, out: seq<CompiledRule>, k: Packet, m: Entry)
    requires forall e :: e in all ==> WellFormed(e)
    requires IsListing(Unshadowed(all), out)
    requires Decides(all, k, m)
    ensures FirstMatch(out, k) == Some(m.rule.action)
  {
    RankLessIsStrict();
    forall x | x in all ensures !Shadows(x, m) {
      if Covers(x, m) { CoversMatches(x, m, k); }
    }
    assert m in Unshadowed(all);
    var es: seq<Entry> :| IsArrangement(Unshadowed(all), es) && out == RulesOf(es);
    var i :| 0 <= i < |es| && es[i] == m;
    forall j | 0 <= j < i ensures !CompiledMatches(es[j].rule, k) {
      assert RankLess(es[j], es[i]);
      assert es[j] in es;
    }
    FirstMatchFinds(es, k, i);
  }

  lemma SurvivorsMiss(all: set<Entry>, out: seq<CompiledRule>, k: Packet)
    requires IsListing(Unshadowed(all), out)
    requires forall e :: e in all ==> !CompiledMatches(e.rule, k)
    ensures FirstMatch(out, k) == None
  {
    var es: seq<Entry> :| IsArrangement(Unshadowed(all), es) && out == RulesOf(es);
    forall j | 0 <= j < |es| ensures !CompiledMatches(es[j].rule, k) {
      assert es[j] in es;
    }
    FirstMatchMisses(es, k);
  }

  // ---------------------------------------------------------------- policies

  datatype Direction = Ingress | Egress

  /** A policy rule together with its place in the total order. */
  datatype Ranked = Ranked(rule: PolicyRule, rank: Rank)

  function PriorityOr(p: Option<int>): int {
    if p.Some? then p.value else FIREWALL_PRIORITY_DEFAULT
  }

  function DirectionRules(p: Policy, dir: Direction): seq<PolicyRule> {
    if dir.Ingress? then p.ingress else p.egress
  }

  function RankedAt(p: Policy, dir: Direction, i: nat): Ranked
    requires i < |DirectionRules(p, dir)|
  {
    var r := DirectionRules(p, dir)[i];
    Ranked(r, Rank(PriorityOr(p.priority), PriorityOr(r.priority), p.namespace, p.name, i))
  }

  function RankedOf(p: Policy, dir: Direction, n: nat): (s: seq<Ranked>)
    requires n <= |DirectionRules(p, dir)|
    ensures |s| == n && forall i :: 0 <= i < n ==> s[i] == RankedAt(p, dir, i)
  {
    if n == 0 then [] else RankedOf(p, dir, n - 1) + [RankedAt(p, dir, n - 1)]
  }

  /** Every selected rule of one direction, in list order. */
  function AllRanked(ps: seq<Policy>, selects: Policy -> bool, dir: Direction): seq<Ranked> {
    if ps == [] then []
    else
      var p := ps[|ps| - 1];
      AllRanked(ps[..|ps| - 1], selects, dir) +
      if selects(p) then RankedOf(p, dir, |DirectionRules(p, dir)|) else []
  }

  /** Object names are unique within a namespace. */
  ghost predicate UniqueNames(ps: seq<Policy>) {
    forall i, j :: 0 <= i < j < |ps| ==> (ps[i].namespace, ps[i].name) != (ps[j].namespace, ps[j].name)
  }

  /** Which rules are collected depends only on which policies are listed. */
  lemma {:induction false} AllRankedMembership(ps: seq<Policy>, selects: Policy -> bool, dir: Direction, r: Ranked)
    ensures r in AllRanked(ps, selects, dir) <==>
            exists p, i: nat :: p in ps && selects(p) && i < |DirectionRules(p, dir)| && r == RankedAt(p, dir, i)
  {
    if ps != [] {
      var init, p := ps[..|ps| - 1], ps[|ps| - 1];
      assert ps == init + [p];
      AllRankedMembership(init, selects, dir, r);
      var own := RankedOf(p, dir, |DirectionRules(p, dir)|);
      if r in own {
        var i :| 0 <= i < |own| && own[i] == r;
        assert r == RankedAt(p, dir, i);
      }
      if i: nat :| selects(p) && i < |DirectionRules(p, dir)| && r == RankedAt(p, dir, i) {
        assert own[i] == r;
      }
    }
  }

  lemma {:induction false} RanksDistinct(ps: seq<Policy>, selects: Policy -> bool, dir: Direction)
    requires UniqueNames(ps)
    ensures forall i, j :: 0 <= i < j < |AllRanked(ps, selects, dir)| ==>
              AllRanked(ps, selects, dir)[i].rank != AllRanked(ps, selects, dir)[j].rank
  {
    if ps != [] {
      var init, p := ps[..|ps| - 1], ps[|ps| - 1];
      RanksDistinct(init, selects, dir);
      var early := AllRanked(init, selects, dir);
      forall i | 0 <= i < |early| ensures (early[i].rank.namespace, early[i].rank.name) != (p.namespace, p.name) {
        AllRankedMembership(init, selects, dir, early[i]);
        var q, n: nat :| q in init && selects(q) && n < |DirectionRules(q, dir)| && early[i] == RankedAt(q, dir, n);
        var m :| 0 <= m < |init| && init[m] == q;
        assert ps[m] == q;
      }
    }
  }

  function Lowered(r: Ranked): Result<Entry, Refusal> { NewEntry(r.rule, r.rank) }

  ghost predicate AllLower(rs: seq<Ranked>) { forall i :: 0 <= i < |rs| ==> Lowered(rs[i]).Ok? }

  /** The entries of rules that all lower. */
  function LoweredAll(rs: seq<Ranked>): (es: seq<Entry>)
    requires AllLower(rs)
    ensures |es| == |rs| && forall i :: 0 <= i < |rs| ==> es[i] == Lowered(rs[i]).value
  {
    if rs == [] then [] else LoweredAll(rs[..|rs| - 1]) + [Lowered(rs[|rs| - 1]).value]
  }

  function ImplicitRule(v6: bool): PolicyRule {
    PolicyRule(Network(Prefix(v6, Zeros(Width(v6)), 0)), "", 0, None, None, None, "Allow", None)
  }

  /** The default-allow of one family, ranked below every real rule. */
  function ImplicitEntry(v6: bool): Entry {
    NewEntry(ImplicitRule(v6), Rank(FIREWALL_PRIORITY_MAX + 1, 0, "", "", if v6 then 1 else 0)).value
  }

  predicate DefaultsOpen(default: Option<string>, count: nat) {
    (default.None? && count == 0) || default == Some("Allow")
  }

  function ImplicitEntries(default: Option<string>, count: nat): seq<Entry> {
    if DefaultsOpen(default, count) then [ImplicitEntry(false), ImplicitEntry(true)] else []
  }

  /** All entries of one direction, the implicit ones included. */
  function AllEntries(rs: seq<Ranked>, default: Option<string>): seq<Entry>
    requires AllLower(rs)
  {
    LoweredAll(rs) + ImplicitEntries(default, |rs|)
  }

  datatype CompiledFirewall = CompiledFirewall(ingress: seq<CompiledRule>, egress: seq<CompiledRule>)

  datatype CompileError =
    | InvalidRule(namespace: string, name: string, dir: Direction, index: int)
    | RuleBudgetExceeded(v6: bool, count: nat)

  /** The outcome a compile must have. It names sets of rules, never the order they arrived in. */
  ghost predicate Compiles(ps: seq<Policy>, selects: Policy -> bool, default: Option<string>,
                           out: Result<CompiledFirewall, CompileError>)
  {
    var rin, reg := AllRanked(ps, selects, Ingress), AllRanked(ps, selects, Egress);
    if AllLower(rin) && AllLower(reg) then
      Fits(Unshadowed(Elems(AllEntries(rin, default))), Unshadowed(Elems(AllEntries(reg, default))), out)
    else out.Err? && NamesBadRule(ps, selects, out.error)
  }

  /** The listings of both directions, unless one family is over budget. */
  ghost predicate Fits(si: set<Entry>, se: set<Entry>, out: Result<CompiledFirewall, CompileError>) {
    var n4, n6 := FamilySize(si, se, false), FamilySize(si, se, true);
    if n4 > FIREWALL_RULE_BUDGET then out == Err(RuleBudgetExceeded(false, n4))
    else if n6 > FIREWALL_RULE_BUDGET then out == Err(RuleBudgetExceeded(true, n6))
    else out.Ok? && IsListing(si, out.value.ingress) && IsListing(se, out.value.egress)
  }

  ghost function FamilySize(si: set<Entry>, se: set<Entry>, v6: bool): nat {
    |OfFamily(si, v6)| + |OfFamily(se, v6)|
  }

  // ---------------------------------------------------------------- the compiler, step by step

  /** The first n rules of one policy and direction inserted into s; Err names the first refused. */
  function AddRules(s: seq<Entry>, p: Policy, dir: Direction, n: nat): Result<seq<Entry>, nat>
    requires n <= |DirectionRules(p, dir)|
  {
    if n == 0 then Ok(s)
    else
      var prev := AddRules(s, p, dir, n - 1);
      if prev.Err? then prev
      else
        var e := Lowered(RankedAt(p, dir, n - 1));
        if e.Err? then Err(n - 1) else Ok(Inserted(prev.value, e.value))
  }

  datatype Collected = Collected(ingress: seq<Entry>, egress: seq<Entry>)

  function AddPolicy(c: Collected, p: Policy): Result<Collected, CompileError> {
    var i := AddRules(c.ingress, p, Ingress, |p.ingress|);
    if i.Err? then Err(InvalidRule(p.namespace, p.name, Ingress, i.error))
    else
      var e := AddRules(c.egress, p, Egress, |p.egress|);
      if e.Err? then Err(InvalidRule(p.namespace, p.name, Egress, e.error))
      else Ok(Collected(i.value, e.value))
  }

  function Collect(ps: seq<Policy>, selects: Policy -> bool): Result<Collected, CompileError> {
    if ps == [] then Ok(Collected([], []))
    else
      var prev := Collect(ps[..|ps| - 1], selects);
      var p := ps[|ps| - 1];
      if prev.Err? || !selects(p) then prev else AddPolicy(prev.value, p)
  }

  function AddDefault(s: seq<Entry>, default: Option<string>): seq<Entry> {
    if DefaultsOpen(default, |s|) then Inserted(Inserted(s, ImplicitEntry(false)), ImplicitEntry(true)) else s
  }

  function Finish(c: Collected): Result<CompiledFirewall, CompileError> {
    var n4 := CountOf(c.ingress, false) + CountOf(c.egress, false);
    var n6 := CountOf(c.ingress, true) + CountOf(c.egress, true);
    if n4 > FIREWALL_RULE_BUDGET then Err(RuleBudgetExceeded(false, n4))
    else if n6 > FIREWALL_RULE_BUDGET then Err(RuleBudgetExceeded(true, n6))
    else Ok(CompiledFirewall(RulesOf(Sort(RankLess, c.ingress)), RulesOf(Sort(RankLess, c.egress))))
  }

  function Outcome(ps: seq<Policy>, selects: Policy -> bool, default: Option<string>)
    : Result<CompiledFirewall, CompileError>
  {
    var c := Collect(ps, selects);
    if c.Err? then Err(c.error)
    else Finish(Collected(AddDefault(c.value.ingress, default), AddDefault(c.value.egress, default)))
  }

  method InsertRules(s: FwSet, p: Policy, dir: Direction) returns (bad: Option<nat>)
    modifies s
    ensures var r := AddRules(old(s.entries), p, dir, |DirectionRules(p, dir)|);
            if r.Err? then bad == Some(r.error) else bad == None && s.entries == r.value
  {
    hide NewEntry, Inserted;
    var rules := DirectionRules(p, dir);
    for i := 0 to |rules|
      invariant AddRules(old(s.entries), p, dir, i) == Ok(s.entries)
    {
      var e := Lowered(RankedAt(p, dir, i));
      if e.Err? {
        RefusalSticks(old(s.entries), p, dir, i + 1, |rules|);
        return Some(i);
      }
      s.Insert(e.value);
    }
    return None;
  }

  lemma {:induction false} RefusalSticks(s: seq<Entry>, p: Policy, dir: Direction, n: nat, m: nat)
    requires n <= m <= |DirectionRules(p, dir)| && AddRules(s, p, dir, n).Err?
    ensures AddRules(s, p, dir, m) == AddRules(s, p, dir, n)
  {
    hide Lowered, Inserted, RankedAt;
    if n < m { RefusalSticks(s, p, dir, n, m - 1); }
  }

  lemma {:induction false} CollectErrSticks(ps: seq<Policy>, selects: Policy -> bool, n: nat)
    requires n <= |ps| && Collect(ps[..n], selects).Err?
    ensures Collect(ps, selects) == Collect(ps[..n], selects)
  {
    if n < |ps| {
      assert ps[..|ps| - 1][..n] == ps[..n];
      CollectErrSticks(ps[..|ps| - 1], selects, n);
    } else {
      assert ps[..n] == ps;
    }
  }

  method InsertDefault(s: FwSet, default: Option<string>)
    modifies s
    ensures s.entries == AddDefault(old(s.entries), default)
  {
    if DefaultsOpen(default, |s.entries|) {
      s.Insert(ImplicitEntry(false));
      s.Insert(ImplicitEntry(true));
    }
  }

  method CompileFirewall(ps: seq<Policy>, selects: Policy -> bool, default: Option<string>)
    returns (out: Result<CompiledFirewall, CompileError>)
    ensures out == Outcome(ps, selects, default)
  {
    hide NewEntry, Inserted, AddRules, ImplicitEntry, CountOf, RulesOf, RankLess;
    var ingress := new FwSet();
    var egress := new FwSet();
    for i := 0 to |ps|
      invariant ingress != egress && fresh(ingress) && fresh(egress)
      invariant Collect(ps[..i], selects) == Ok(Collected(ingress.entries, egress.entries))
    {
      var p := ps[i];
      assert ps[..i + 1][..i] == ps[..i];
      if selects(p) {
        ghost var c := Collected(ingress.entries, egress.entries);
        assert Collect(ps[..i + 1], selects) == AddPolicy(c, p);
        var bad := InsertRules(ingress, p, Ingress);
        if bad.Some? {
          CollectErrSticks(ps, selects, i + 1);
          return Err(InvalidRule(p.namespace, p.name, Ingress, bad.value));
        }
        bad := InsertRules(egress, p, Egress);
        if bad.Some? {
          CollectErrSticks(ps, selects, i + 1);
          return Err(InvalidRule(p.namespace, p.name, Egress, bad.value));
        }
      }
    }
    assert ps[..|ps|] == ps;
    InsertDefault(ingress, default);
    InsertDefault(egress, default);
    out := Emit(ingress, egress);
  }

  /** The rule budget of each family, then both listings. */
  method Emit(ingress: FwSet, egress: FwSet) returns (out: Result<CompiledFirewall, CompileError>)
    ensures out == Finish(Collected(ingress.entries, egress.entries))
  {
    hide CountOf, RulesOf, RankLess;
    var i4 := ingress.Count(false);
    var e4 := egress.Count(false);
    if i4 + e4 > FIREWALL_RULE_BUDGET { return Err(RuleBudgetExceeded(false, i4 + e4)); }
    var i6 := ingress.Count(true);
    var e6 := egress.Count(true);
    if i6 + e6 > FIREWALL_RULE_BUDGET { return Err(RuleBudgetExceeded(true, i6 + e6)); }
    var ri := ingress.Rules();
    var re := egress.Rules();
    return Ok(CompiledFirewall(ri, re));
  }

  // ---------------------------------------------------------------- the steps meet the outcome

  /** s is what inserting the entries of `seen` left behind. */
  ghost predicate Holds(s: seq<Entry>, seen: seq<Ranked>) {
    AllLower(seen) && s == InsertedAll(LoweredAll(seen))
  }

  lemma HoldsOneMore(s: seq<Entry>, seen: seq<Ranked>, r: Ranked)
    requires Holds(s, seen) && Lowered(r).Ok?
    ensures Holds(Inserted(s, Lowered(r).value), seen + [r])
  {
  }

  lemma {:induction false} AddRulesHolds(s: seq<Entry>, seen: seq<Ranked>, p: Policy, dir: Direction, n: nat)
    requires Holds(s, seen) && n <= |DirectionRules(p, dir)|
    ensures var r := AddRules(s, p, dir, n);
            if r.Ok? then Holds(r.value, seen + RankedOf(p, dir, n))
            else r.error < n && Lowered(RankedAt(p, dir, r.error)).Err?
  {
    hide Inserted, InsertedAll, NewEntry, Holds;
    if n == 0 {
      assert seen + RankedOf(p, dir, 0) == seen;
    } else {
      AddRulesHolds(s, seen, p, dir, n - 1);
      var r := RankedAt(p, dir, n - 1);
      assert seen + RankedOf(p, dir, n) == seen + RankedOf(p, dir, n - 1) + [r];
      if AddRules(s, p, dir, n).Ok? {
        HoldsOneMore(AddRules(s, p, dir, n - 1).value, seen + RankedOf(p, dir, n - 1), r);
      }
    }
  }

  /** `error` names a selected rule the compiler cannot interpret. */
  ghost predicate NamesBadRule(ps: seq<Policy>, selects: Policy -> bool, error: CompileError) {
    && error.InvalidRule?
    && exists r ::
         && r in AllRanked(ps, selects, error.dir) && Lowered(r).Err?
         && error == InvalidRule(r.rank.namespace, r.rank.name, error.dir, r.rank.index)
  }

  lemma BadRuleNamed(ps: seq<Policy>, selects: Policy -> bool, p: Policy, dir: Direction, i: nat)
    requires p in ps && selects(p) && i < |DirectionRules(p, dir)| && Lowered(RankedAt(p, dir, i)).Err?
    ensures NamesBadRule(ps, selects, InvalidRule(p.namespace, p.name, dir, i))
  {
    AllRankedMembership(ps, selects, dir, RankedAt(p, dir, i));
  }

  lemma BadRuleStaysNamed(ps: seq<Policy>, selects: Policy -> bool, error: CompileError)
    requires ps != [] && NamesBadRule(ps[..|ps| - 1], selects, error)
    ensures NamesBadRule(ps, selects, error)
  {
  }

  lemma {:induction false} CollectHolds(ps: seq<Policy>, selects: Policy -> bool)
    ensures var c := Collect(ps, selects);
            if c.Err? then NamesBadRule(ps, selects, c.error)
            else && Holds(c.value.ingress, AllRanked(ps, selects, Ingress))
                 && Holds(c.value.egress, AllRanked(ps, selects, Egress))
  {
    hide NamesBadRule, NewEntry, Inserted;
    if ps != [] {
      var init, p := ps[..|ps| - 1], ps[|ps| - 1];
      CollectHolds(init, selects);
      var prev := Collect(init, selects);
      if prev.Err? {
        BadRuleStaysNamed(ps, selects, prev.error);
      } else if selects(p) {
        PolicyHolds(prev.value, ps, selects);
      } else {
        assert forall dir :: AllRanked(ps, selects, dir) == AllRanked(init, selects, dir);
      }
    }
  }

  lemma PolicyHolds(c: Collected, ps: seq<Policy>, selects: Policy -> bool)
    requires ps != [] && selects(ps[|ps| - 1])
    requires Holds(c.ingress, AllRanked(ps[..|ps| - 1], selects, Ingress))
    requires Holds(c.egress, AllRanked(ps[..|ps| - 1], selects, Egress))
    ensures var a := AddPolicy(c, ps[|ps| - 1]);
            if a.Err? then NamesBadRule(ps, selects, a.error)
            else && Holds(a.value.ingress, AllRanked(ps, selects, Ingress))
                 && Holds(a.value.egress, AllRanked(ps, selects, Egress))
  {
    hide NamesBadRule, NewEntry, Inserted, Holds, AddRules;
    var init, p := ps[..|ps| - 1], ps[|ps| - 1];
    AddRulesHolds(c.ingress, AllRanked(init, selects, Ingress), p, Ingress, |p.ingress|);
    AddRulesHolds(c.egress, AllRanked(init, selects, Egress), p, Egress, |p.egress|);
    var i, e := AddRules(c.ingress, p, Ingress, |p.ingress|), AddRules(c.egress, p, Egress, |p.egress|);
    if i.Err? {
      BadRuleNamed(ps, selects, p, Ingress, i.error);
    } else if e.Err? {
      BadRuleNamed(ps, selects, p, Egress, e.error);
    }
  }

  /** Inserting the implicit entries last is inserting all entries in order. */
  lemma AddDefaultInserts(s: seq<Entry>, rs: seq<Ranked>, default: Option<string>)
    requires Holds(s, rs)
    ensures AddDefault(s, default) == InsertedAll(AllEntries(rs, default))
  {
    hide Inserted, NewEntry, ImplicitEntry;
    var base := LoweredAll(rs);
    InsertionOrderIrrelevant(base);
    if DefaultsOpen(default, |rs|) {
      var four := base + [ImplicitEntry(false)];
      assert four[..|base|] == base;
      var all := AllEntries(rs, default);
      assert all == four + [ImplicitEntry(true)];
      assert all[..|four|] == four;
    } else {
      assert AllEntries(rs, default) == base;
    }
  }

  /** Admitted priorities keep every real rule above the implicit ones, so no ranks tie. */
  lemma EntriesApart(ps: seq<Policy>, selects: Policy -> bool, dir: Direction, default: Option<string>)
    requires UniqueNames(ps)
    requires forall p :: p in ps ==> ValidatePriority(p.priority) == []
    requires AllLower(AllRanked(ps, selects, dir))
    ensures RanksApart(AllEntries(AllRanked(ps, selects, dir), default))
  {
    var rs := AllRanked(ps, selects, dir);
    RanksDistinct(ps, selects, dir);
    forall i | 0 <= i < |rs|
      ensures Lowered(rs[i]).value.rank == rs[i].rank && rs[i].rank.policy <= FIREWALL_PRIORITY_MAX
    {
      LoweredRank(ps, selects, dir, rs[i]);
    }
    ImplicitApart();
    hide AllRanked, Lowered, ImplicitEntry, ValidatePriority, UniqueNames;
    var es, n := AllEntries(rs, default), |rs|;
    assert |es| == n || (|es| == n + 2 && es[n] == ImplicitEntry(false) && es[n + 1] == ImplicitEntry(true));
    forall i | 0 <= i < n ensures es[i].rank == rs[i].rank && es[i].rank.policy <= FIREWALL_PRIORITY_MAX {
      assert es[i] == LoweredAll(rs)[i];
    }
  }

  lemma LoweredRank(ps: seq<Policy>, selects: Policy -> bool, dir: Direction, r: Ranked)
    requires forall p :: p in ps ==> ValidatePriority(p.priority) == []
    requires r in AllRanked(ps, selects, dir) && Lowered(r).Ok?
    ensures Lowered(r).value.rank == r.rank && r.rank.policy <= FIREWALL_PRIORITY_MAX
  {
    hide Masked, AllRanked;
    AllRankedMembership(ps, selects, dir, r);
  }

  lemma ImplicitApart()
    ensures forall v6: bool :: ImplicitEntry(v6).rank.policy > FIREWALL_PRIORITY_MAX
    ensures ImplicitEntry(false).rank != ImplicitEntry(true).rank
  {
    hide Masked, Zeros;
  }

  /** One direction of the finished set, listed and counted. */
  lemma DirectionListed(ps: seq<Policy>, selects: Policy -> bool, dir: Direction, default: Option<string>)
    requires UniqueNames(ps)
    requires forall p :: p in ps ==> ValidatePriority(p.priority) == []
    requires AllLower(AllRanked(ps, selects, dir))
    ensures var es := AllEntries(AllRanked(ps, selects, dir), default);
            && IsListing(Unshadowed(Elems(es)), RulesOf(Sort(RankLess, InsertedAll(es))))
            && forall v6 :: CountOf(InsertedAll(es), v6) == |OfFamily(Unshadowed(Elems(es)), v6)|
  {
    hide NewEntry, Inserted, InsertedAll, ImplicitEntry, RankLess, Covers, AllRanked, AllEntries;
    var es := AllEntries(AllRanked(ps, selects, dir), default);
    EntriesApart(ps, selects, dir, default);
    ApartSeparated(es);
    InsertionOrderIrrelevant(es);
    SubsetApart(es, InsertedAll(es));
    SortedIsListing(InsertedAll(es));
    forall v6 ensures CountOf(InsertedAll(es), v6) == |OfFamily(Unshadowed(Elems(es)), v6)| {
      CountIsCardinality(InsertedAll(es), v6);
    }
  }

  lemma SubsetApart(es: seq<Entry>, sub: seq<Entry>)
    requires RanksApart(es) && Distinct(sub) && Elems(sub) <= Elems(es)
    ensures RanksApart(sub)
  {
    forall i, j | 0 <= i < j < |sub| ensures sub[i].rank != sub[j].rank {
      assert sub[i] in Elems(sub) && sub[j] in Elems(sub);
      var a :| 0 <= a < |es| && es[a] == sub[i];
      var b :| 0 <= b < |es| && es[b] == sub[j];
    }
  }

  /** What the compiler computes is the outcome the policies call for. */
  lemma OutcomeCompiles(ps: seq<Policy>, selects: Policy -> bool, default: Option<string>)
    requires UniqueNames(ps)
    requires forall p :: p in ps ==> ValidatePriority(p.priority) == []
    ensures Compiles(ps, selects, default, Outcome(ps, selects, default))
  {
    hide NewEntry, Inserted, InsertedAll, RankLess, Covers, AllRanked, Collect, AddDefault, RulesOf, CountOf;
    CollectHolds(ps, selects);
    var c := Collect(ps, selects);
    var rin, reg := AllRanked(ps, selects, Ingress), AllRanked(ps, selects, Egress);
    if c.Err? {
      BadRuleStopsLowering(ps, selects, c.error);
      assert c.error.dir == Ingress || c.error.dir == Egress;
    } else {
      AddDefaultInserts(c.value.ingress, rin, default);
      AddDefaultInserts(c.value.egress, reg, default);
      DirectionListed(ps, selects, Ingress, default);
      DirectionListed(ps, selects, Egress, default);
    }
  }

  lemma BadRuleStopsLowering(ps: seq<Policy>, selects: Policy -> bool, error: CompileError)
    requires NamesBadRule(ps, selects, error)
    ensures !AllLower(AllRanked(ps, selects, error.dir))
  {
  }

  // ---------------------------------------------------------------- main theorems

  /** A rule as its author wrote it: the policy, and the place in its list for the direction. */
  datatype Place = Place(policy: Policy, index: nat)

  function ListOf(x: Place, dir: Direction): seq<PolicyRule> {
    match dir
    case Ingress => x.policy.ingress
    case Egress => x.policy.egress
  }

  predicate InForce(ps: seq<Policy>, selects: Policy -> bool, dir: Direction, x: Place) {
    x.policy in ps && selects(x.policy) && x.index < |ListOf(x, dir)|
  }

  predicate Matches(dir: Direction, x: Place, k: Packet) {
    x.index < |ListOf(x, dir)| && RuleMatches(ListOf(x, dir)[x.index], k)
  }

  /** A priority left out is the midpoint, 32768. */
  predicate Sooner(a: Option<int>, b: Option<int>) {
    match (a, b)
    case (Some(x), Some(y)) => x < y
    case (Some(x), None) => x < 32768
    case (None, Some(y)) => 32768 < y
    case (None, None) => false
  }

  /** x wins over y: the smaller policy priority, then the smaller rule priority, then the policy's namespace, its
      name, and the place in the list. */
  predicate Wins(dir: Direction, x: Place, y: Place)
    requires x.index < |ListOf(x, dir)| && y.index < |ListOf(y, dir)|
  {
    var p, q := x.policy, y.policy;
    var a, b := ListOf(x, dir)[x.index].priority, ListOf(y, dir)[y.index].priority;
    if Sooner(p.priority, q.priority) || Sooner(q.priority, p.priority) then Sooner(p.priority, q.priority)
    else if Sooner(a, b) || Sooner(b, a) then Sooner(a, b)
    else if p.namespace != q.namespace then Less(p.namespace, q.namespace)
    else if p.name != q.name then Less(p.name, q.name)
    else x.index < y.index
  }

  /** The verdict a policy author expects: of the rules in force that match, the one that wins over every other
      decides; with none, the VPC default does, and an unset default leaves a direction open only when no rule at all
      is in force there. */
  ghost predicate Allows(ps: seq<Policy>, selects: Policy -> bool, dir: Direction, default: Option<string>, k: Packet) {
    if exists x :: InForce(ps, selects, dir, x) && Matches(dir, x, k) then
      exists x :: InForce(ps, selects, dir, x) && Decisive(ps, selects, dir, k, x)
        && ListOf(x, dir)[x.index].action == "Allow"
    else if default.None? then !exists x :: InForce(ps, selects, dir, x)
    else default == Some("Allow")
  }

  ghost predicate Decisive(ps: seq<Policy>, selects: Policy -> bool, dir: Direction, k: Packet, x: Place) {
    && Matches(dir, x, k)
    && forall y :: InForce(ps, selects, dir, y) && Matches(dir, y, k) && y != x ==> Wins(dir, x, y)
  }

  lemma WinsIsRanked(dir: Direction, x: Place, y: Place)
    requires x.index < |ListOf(x, dir)| && y.index < |ListOf(y, dir)|
    ensures Wins(dir, x, y) <==>
            CompareRank(RankedAt(x.policy, dir, x.index).rank, RankedAt(y.policy, dir, y.index).rank) < 0
  {
    hide CompareRank, Less;
    StringsStrictlyOrdered();
    RankExactly(RankedAt(x.policy, dir, x.index).rank, RankedAt(y.policy, dir, y.index).rank);
  }

  lemma RankedPlace(ps: seq<Policy>, selects: Policy -> bool, dir: Direction, r: Ranked)
    ensures r in AllRanked(ps, selects, dir) <==>
            exists x :: InForce(ps, selects, dir, x) && r == RankedAt(x.policy, dir, x.index)
  {
    hide AllRanked, RankedAt;
    AllRankedMembership(ps, selects, dir, r);
    if p, i: nat :| p in ps && selects(p) && i < |DirectionRules(p, dir)| && r == RankedAt(p, dir, i) {
      assert InForce(ps, selects, dir, Place(p, i));
    }
  }

  lemma OnePlace(ps: seq<Policy>, selects: Policy -> bool, dir: Direction, x: Place, y: Place)
    requires UniqueNames(ps) && InForce(ps, selects, dir, x) && InForce(ps, selects, dir, y)
    requires RankedAt(x.policy, dir, x.index) == RankedAt(y.policy, dir, y.index)
    ensures x == y
  {
    var i :| 0 <= i < |ps| && ps[i] == x.policy;
    var j :| 0 <= j < |ps| && ps[j] == y.policy;
  }

  lemma DecisiveIsGoverning(ps: seq<Policy>, selects: Policy -> bool, dir: Direction, k: Packet, x: Place)
    requires UniqueNames(ps) && InForce(ps, selects, dir, x)
    ensures Decisive(ps, selects, dir, k, x) <==>
            Governs(AllRanked(ps, selects, dir), k, RankedAt(x.policy, dir, x.index))
  {
    hide AllRanked, CompareRank, RuleMatches, Wins, UniqueNames;
    var rs, r := AllRanked(ps, selects, dir), RankedAt(x.policy, dir, x.index);
    RankedPlace(ps, selects, dir, r);
    if Decisive(ps, selects, dir, k, x) {
      forall z | z in rs && RuleMatches(z.rule, k) && z != r ensures CompareRank(r.rank, z.rank) < 0 {
        RankedPlace(ps, selects, dir, z);
        var y :| InForce(ps, selects, dir, y) && z == RankedAt(y.policy, dir, y.index);
        WinsIsRanked(dir, x, y);
      }
    }
    if Governs(rs, k, r) {
      forall y | InForce(ps, selects, dir, y) && Matches(dir, y, k) && y != x ensures Wins(dir, x, y) {
        var z := RankedAt(y.policy, dir, y.index);
        RankedPlace(ps, selects, dir, z);
        if z == r { OnePlace(ps, selects, dir, x, y); }
        WinsIsRanked(dir, x, y);
      }
    }
  }

  lemma AllowsIsPermits(ps: seq<Policy>, selects: Policy -> bool, dir: Direction, default: Option<string>, k: Packet)
    requires UniqueNames(ps)
    ensures Allows(ps, selects, dir, default, k) <==> Permits(AllRanked(ps, selects, dir), default, k)
  {
    hide AllRanked, RuleMatches, Governs, Decisive, UniqueNames;
    var rs := AllRanked(ps, selects, dir);
    Inhabited(rs);
    forall r ensures r in rs <==> exists x :: InForce(ps, selects, dir, x) && r == RankedAt(x.policy, dir, x.index) {
      RankedPlace(ps, selects, dir, r);
    }
    forall x | InForce(ps, selects, dir, x)
      ensures RankedAt(x.policy, dir, x.index) in rs
      ensures Decisive(ps, selects, dir, k, x) <==> Governs(rs, k, RankedAt(x.policy, dir, x.index))
    {
      DecisiveIsGoverning(ps, selects, dir, k, x);
    }
    forall r | Governs(rs, k, r) ensures r in rs { GoverningIsIn(rs, k, r); }
  }

  lemma GoverningIsIn(rs: seq<Ranked>, k: Packet, r: Ranked)
    requires Governs(rs, k, r)
    ensures r in rs
  {
  }

  /** The same of the ranked rules: the one ranked before every other that matches decides. */
  ghost predicate Permits(rs: seq<Ranked>, default: Option<string>, k: Packet) {
    if exists r :: r in rs && RuleMatches(r.rule, k) then
      exists r :: Governs(rs, k, r) && r.rule.action == "Allow"
    else if default.None? then rs == []
    else default == Some("Allow")
  }

  ghost predicate Governs(rs: seq<Ranked>, k: Packet, r: Ranked) {
    && r in rs && RuleMatches(r.rule, k)
    && forall x :: x in rs && RuleMatches(x.rule, k) && x != r ==> CompareRank(r.rank, x.rank) < 0
  }

  /** For every admitted policy set, default and packet, first match over the compiled list of a
      direction gives the verdict its author expects. */
  lemma CompilePreservesMeaning(ps: seq<Policy>, selects: Policy -> bool, default: Option<string>,
                                fw: CompiledFirewall, dir: Direction, k: Packet)
    requires UniqueNames(ps) && forall p :: p in ps ==> Admitted(p)
    requires Outcome(ps, selects, default) == Ok(fw)
    ensures (FirstMatch(if dir.Ingress? then fw.ingress else fw.egress, k) == Some("Allow"))
            <==> Allows(ps, selects, dir, default, k)
  {
    hide NewEntry, RankLess, Covers, Outcome, FirstMatch, ValidateRule, Permits, AllRanked, CompiledMatches,
         RuleMatches, AllEntries, Allows;
    AllowsIsPermits(ps, selects, dir, default, k);
    OutcomeCompiles(ps, selects, default);
    AdmittedLower(ps, selects, Ingress);
    AdmittedLower(ps, selects, Egress);
    RanksDistinct(ps, selects, dir);
    EntriesApart(ps, selects, dir, default);
    DirectionPreservesMeaning(AllRanked(ps, selects, dir), default, if dir.Ingress? then fw.ingress else fw.egress, k);
  }

  lemma AdmittedLower(ps: seq<Policy>, selects: Policy -> bool, dir: Direction)
    requires forall p :: p in ps ==> Admitted(p)
    ensures var rs := AllRanked(ps, selects, dir);
            && AllLower(rs)
            && forall i :: 0 <= i < |rs| ==>
                 ValidateRule(rs[i].rule) == [] && rs[i].rank.policy <= FIREWALL_PRIORITY_MAX
  {
    hide NewEntry, ValidateRule, CompiledMatches, RuleMatches;
    var rs := AllRanked(ps, selects, dir);
    forall i | 0 <= i < |rs|
      ensures Lowered(rs[i]).Ok? && ValidateRule(rs[i].rule) == [] && rs[i].rank.policy <= FIREWALL_PRIORITY_MAX
    {
      AllRankedMembership(ps, selects, dir, rs[i]);
      var p, n: nat :| p in ps && selects(p) && n < |DirectionRules(p, dir)| && rs[i] == RankedAt(p, dir, n);
      assert DirectionRules(p, dir)[n] in DirectionRules(p, dir);
      NewEntryMeansTheRule(rs[i].rule, rs[i].rank);
    }
  }

  /** Entry i is rule i, lowered: same rank, same action, same packets. */
  ghost predicate Mirrors(rs: seq<Ranked>, es: seq<Entry>, k: Packet) {
    && |rs| <= |es|
    && forall i :: 0 <= i < |rs| ==>
         && WellFormed(es[i]) && es[i].rank == rs[i].rank && es[i].rule.action == rs[i].rule.action
         && (CompiledMatches(es[i].rule, k) <==> RuleMatches(rs[i].rule, k))
  }

  lemma EntriesMirror(rs: seq<Ranked>, default: Option<string>, k: Packet)
    requires AllLower(rs) && forall i :: 0 <= i < |rs| ==> ValidateRule(rs[i].rule) == []
    ensures var es := AllEntries(rs, default);
            && Mirrors(rs, es, k)
            && (forall i :: 0 <= i < |es| ==> WellFormed(es[i]))
            && (forall i :: |rs| <= i < |es| ==>
                  es[i].rule.action == "Allow" && es[i].rank.policy > FIREWALL_PRIORITY_MAX)
            && (DefaultsOpen(default, |rs|) ==>
                  exists i :: |rs| <= i < |es| && CompiledMatches(es[i].rule, k))
            && (!DefaultsOpen(default, |rs|) ==> |es| == |rs|)
  {
    hide NewEntry, ValidateRule, CompiledMatches, RuleMatches, WellFormed;
    var es := AllEntries(rs, default);
    forall i | 0 <= i < |rs|
      ensures WellFormed(es[i]) && es[i].rank == rs[i].rank && es[i].rule.action == rs[i].rule.action
      ensures CompiledMatches(es[i].rule, k) <==> RuleMatches(rs[i].rule, k)
    {
      NewEntryMeansTheRule(rs[i].rule, rs[i].rank);
    }
    ImplicitMatchesAll(k);
    if DefaultsOpen(default, |rs|) {
      assert es[|rs|] == ImplicitEntry(false) && es[|rs| + 1] == ImplicitEntry(true);
      assert CompiledMatches(es[if k.v6 then |rs| + 1 else |rs|].rule, k);
    }
  }

  /** The default-allow of IPv4 comes before that of IPv6, and both after every rule an admitted policy can have. */
  lemma ImplicitComeLast(r: Rank)
    requires r.policy <= FIREWALL_PRIORITY_MAX
    ensures CompareRank(r, ImplicitEntry(false).rank) < 0
    ensures CompareRank(ImplicitEntry(false).rank, ImplicitEntry(true).rank) < 0
  {
    hide Masked;
    RankExactly(r, ImplicitEntry(false).rank);
    RankExactly(ImplicitEntry(false).rank, ImplicitEntry(true).rank);
  }

  lemma ImplicitMatchesAll(k: Packet)
    ensures forall v6: bool ::
              && WellFormed(ImplicitEntry(v6)) && ImplicitEntry(v6).rule.action == "Allow"
              && ImplicitEntry(v6).rank.policy > FIREWALL_PRIORITY_MAX
    ensures CompiledMatches(ImplicitEntry(k.v6).rule, k)
  {
    forall v6: bool ensures WellFormed(ImplicitEntry(v6)) {
      assert Masked(ImplicitRule(v6).cidr.prefix) == ImplicitRule(v6).cidr.prefix;
    }
  }

  lemma RulePreservesMeaning(rs: seq<Ranked>, es: seq<Entry>, out: seq<CompiledRule>, k: Packet, i0: nat)
    requires Mirrors(rs, es, k) && (forall i :: 0 <= i < |es| ==> WellFormed(es[i])) && Separated(RankLess, Elems(es))
    requires forall i :: 0 <= i < |rs| ==> rs[i].rank.policy <= FIREWALL_PRIORITY_MAX
    requires forall i :: |rs| <= i < |es| ==> es[i].rank.policy > FIREWALL_PRIORITY_MAX
    requires forall i, j :: 0 <= i < j < |rs| ==> rs[i].rank != rs[j].rank
    requires IsListing(Unshadowed(Elems(es)), out) && i0 < |rs| && RuleMatches(rs[i0].rule, k)
    ensures (FirstMatch(out, k) == Some("Allow")) <==> exists r :: Governs(rs, k, r) && r.rule.action == "Allow"
  {
    hide CompiledMatches, RuleMatches, WellFormed, RankLess, Covers, FirstMatch, IsListing, Unshadowed, Separated;
    assert es[i0] in Elems(es);
    var m := SomeRuleDecides(Elems(es), k, es[i0]);
    SurvivorsDecide(Elems(es), out, k, m);
    var j :| 0 <= j < |es| && es[j] == m;
    DeciderGoverns(rs, es, k, j, i0);
  }

  lemma DirectionPreservesMeaning(rs: seq<Ranked>, default: Option<string>, out: seq<CompiledRule>, k: Packet)
    requires AllLower(rs)
    requires forall i :: 0 <= i < |rs| ==> ValidateRule(rs[i].rule) == [] && rs[i].rank.policy <= FIREWALL_PRIORITY_MAX
    requires forall i, j :: 0 <= i < j < |rs| ==> rs[i].rank != rs[j].rank
    requires RanksApart(AllEntries(rs, default))
    requires IsListing(Unshadowed(Elems(AllEntries(rs, default))), out)
    ensures (FirstMatch(out, k) == Some("Allow")) <==> Permits(rs, default, k)
  {
    hide NewEntry, ValidateRule, CompiledMatches, RuleMatches, WellFormed, RankLess, Covers, AllEntries, FirstMatch,
         IsListing, Unshadowed;
    var es := AllEntries(rs, default);
    EntriesMirror(rs, default, k);
    ApartSeparated(es);
    if i0 :| 0 <= i0 < |rs| && RuleMatches(rs[i0].rule, k) {
      assert rs[i0] in rs;
      RulePreservesMeaning(rs, es, out, k, i0);
    } else {
      assert !exists r :: r in rs && RuleMatches(r.rule, k);
      DefaultPreservesMeaning(rs, es, default, out, k);
    }
  }

  /** With no real rule matching, an implicit entry decides exactly when the direction is open. */
  lemma DefaultPreservesMeaning(rs: seq<Ranked>, es: seq<Entry>, default: Option<string>, out: seq<CompiledRule>,
      k: Packet)
    requires Mirrors(rs, es, k) && forall i :: 0 <= i < |rs| ==> !RuleMatches(rs[i].rule, k)
    requires forall i :: 0 <= i < |es| ==> WellFormed(es[i])
    requires forall i :: |rs| <= i < |es| ==> es[i].rule.action == "Allow"
    requires DefaultsOpen(default, |rs|) ==> exists i :: |rs| <= i < |es| && CompiledMatches(es[i].rule, k)
    requires !DefaultsOpen(default, |rs|) ==> |es| == |rs|
    requires Separated(RankLess, Elems(es)) && IsListing(Unshadowed(Elems(es)), out)
    ensures (FirstMatch(out, k) == Some("Allow")) <==> DefaultsOpen(default, |rs|)
  {
    hide CompiledMatches, RuleMatches, WellFormed, RankLess, Covers, FirstMatch, IsListing;
    if DefaultsOpen(default, |rs|) {
      var i :| |rs| <= i < |es| && CompiledMatches(es[i].rule, k);
      assert es[i] in Elems(es);
      var m := SomeRuleDecides(Elems(es), k, es[i]);
      SurvivorsDecide(Elems(es), out, k, m);
      var j :| 0 <= j < |es| && es[j] == m;
    } else {
      SurvivorsMiss(Elems(es), out, k);
    }
  }

  /** When a real rule matches, the deciding entry is the one governing rule. */
  lemma DeciderGoverns(rs: seq<Ranked>, es: seq<Entry>, k: Packet, j: nat, i0: nat)
    requires Mirrors(rs, es, k)
    requires forall i :: 0 <= i < |rs| ==> rs[i].rank.policy <= FIREWALL_PRIORITY_MAX
    requires forall i :: |rs| <= i < |es| ==> es[i].rank.policy > FIREWALL_PRIORITY_MAX
    requires forall i, j :: 0 <= i < j < |rs| ==> rs[i].rank != rs[j].rank
    requires j < |es| && Decides(Elems(es), k, es[j])
    requires i0 < |rs| && RuleMatches(rs[i0].rule, k)
    ensures j < |rs| && Governs(rs, k, rs[j])
    ensures forall r :: Governs(rs, k, r) ==> r == rs[j]
  {
    hide CompiledMatches, RuleMatches, WellFormed, Compare;
    assert es[i0] in Elems(es);
    assert es[j] == es[i0] || RankLess(es[j], es[i0]);
    forall x | x in rs && RuleMatches(x.rule, k) && x != rs[j] ensures CompareRank(rs[j].rank, x.rank) < 0 {
      var i :| 0 <= i < |rs| && rs[i] == x;
      assert es[i] in Elems(es) && es[i].rank != es[j].rank;
    }
    forall r | Governs(rs, k, r) ensures r == rs[j] {
      if r != rs[j] { RankOrder(r.rank, rs[j].rank); }
    }
  }

  /** Two listings of the same policies compile to the same outcome: the same rules in the same
      order, or the same budget excess, or an uninterpretable rule either way. */
  lemma CompileIgnoresPolicyOrder(ps: seq<Policy>, qs: seq<Policy>, selects: Policy -> bool, default: Option<string>)
    requires UniqueNames(ps) && UniqueNames(qs) && Elems(ps) == Elems(qs)
    requires forall p :: p in ps ==> ValidatePriority(p.priority) == []
    ensures var a, b := Outcome(ps, selects, default), Outcome(qs, selects, default);
            a == b || (a.Err? && b.Err? && a.error.InvalidRule? && b.error.InvalidRule?)
  {
    hide NewEntry, RankLess, Covers, Outcome, ValidatePriority, AllRanked, IsListing;
    assert forall p :: p in qs ==> p in Elems(qs);
    assert forall p :: p in ps ==> p in Elems(ps);
    OutcomeCompiles(ps, selects, default);
    OutcomeCompiles(qs, selects, default);
    SameRanked(ps, qs, selects, Ingress, default);
    SameRanked(ps, qs, selects, Egress, default);
    var a, b := Outcome(ps, selects, default), Outcome(qs, selects, default);
    if a.Ok? && b.Ok? {
      var si := Unshadowed(Elems(AllEntries(AllRanked(ps, selects, Ingress), default)));
      var se := Unshadowed(Elems(AllEntries(AllRanked(ps, selects, Egress), default)));
      ListingUnique(si, a.value.ingress, b.value.ingress);
      ListingUnique(se, a.value.egress, b.value.egress);
    }
  }

  lemma SameRanked(ps: seq<Policy>, qs: seq<Policy>, selects: Policy -> bool, dir: Direction, default: Option<string>)
    requires UniqueNames(ps) && UniqueNames(qs) && Elems(ps) == Elems(qs)
    ensures var a, b := AllRanked(ps, selects, dir), AllRanked(qs, selects, dir);
            && (AllLower(a) <==> AllLower(b))
            && (AllLower(a) ==> Elems(AllEntries(a, default)) == Elems(AllEntries(b, default)))
  {
    hide NewEntry, AllRanked;
    var a, b := AllRanked(ps, selects, dir), AllRanked(qs, selects, dir);
    AllLowerMembers(a);
    AllLowerMembers(b);
    assert forall p :: p in ps <==> p in qs by {
      assert forall p :: p in ps <==> p in Elems(ps);
      assert forall p :: p in qs <==> p in Elems(qs);
    }
    forall r ensures r in a <==> r in b {
      AllRankedMembership(ps, selects, dir, r);
      AllRankedMembership(qs, selects, dir, r);
    }
    Inhabited(a);
    Inhabited(b);
    if AllLower(a) && AllLower(b) { SameEntries(a, b, default); }
  }

  lemma AllLowerMembers(a: seq<Ranked>)
    ensures AllLower(a) <==> forall r :: r in a ==> Lowered(r).Ok?
  {
    hide NewEntry;
    if forall r :: r in a ==> Lowered(r).Ok? { assert forall i :: 0 <= i < |a| ==> a[i] in a; }
  }

  lemma SameEntries(a: seq<Ranked>, b: seq<Ranked>, default: Option<string>)
    requires AllLower(a) && AllLower(b)
    requires forall r :: r in a <==> r in b
    requires a == [] <==> b == []
    ensures Elems(AllEntries(a, default)) == Elems(AllEntries(b, default))
  {
    hide NewEntry, ImplicitEntry;
    LoweredMembers(a, b);
    LoweredMembers(b, a);
    assert ImplicitEntries(default, |a|) == ImplicitEntries(default, |b|);
  }

  lemma LoweredMembers(a: seq<Ranked>, b: seq<Ranked>)
    requires AllLower(a) && AllLower(b)
    requires forall r :: r in a ==> r in b
    ensures forall e :: e in LoweredAll(a) ==> e in LoweredAll(b)
  {
    hide NewEntry;
    forall i | 0 <= i < |a| ensures LoweredAll(a)[i] in LoweredAll(b) {
      assert a[i] in a;
      var j :| 0 <= j < |b| && b[j] == a[i];
      assert LoweredAll(b)[j] == LoweredAll(a)[i];
    }
  }
}
