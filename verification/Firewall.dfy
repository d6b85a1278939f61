/** Firewall rules, their admission, and what a rule matches.

    A CIDR is carried as the result of parsing it: either no CIDR at all, or a prefix. */
module Firewall {
  import opened Order
  import opened Addresses

  const FIREWALL_PRIORITY_MAX := 65535
  const FIREWALL_PRIORITY_DEFAULT := 32768

  datatype Cidr = NotCidr(text: string) | Network(prefix: Prefix)

  datatype PolicyRule = PolicyRule(
    cidr: Cidr, proto: string, port: int, endPort: Option<int>,
    icmpType: Option<int>, icmpCode: Option<int>, action: string, priority: Option<int>)

  datatype Policy = Policy(
    namespace: string, name: string, priority: Option<int>,
    ingress: seq<PolicyRule>, egress: seq<PolicyRule>)

  /** CompiledFwRule: the rule as the datapath is given it. endPort 0 means a single port. */
  datatype CompiledRule = CompiledRule(
    cidr: Prefix, proto: string, port: int, endPort: int,
    icmpType: Option<int>, icmpCode: Option<int>, action: string)

  // ---------------------------------------------------------------- admission

  datatype FieldError =
    | CidrRequired | CidrInvalid | HostBitsSet | ActionInvalid | ProtoInvalid
    | PortInvalid | PortNeedsProto | EndPortInvalid | EndPortNeedsPort | EndPortBelowPort
    | IcmpTypeInvalid | IcmpTypeNeedsIcmp | IcmpCodeInvalid | IcmpCodeNeedsType | PriorityInvalid

  function ValidatePriority(p: Option<int>): seq<FieldError> {
    if p.Some? && (p.value < 0 || p.value > FIREWALL_PRIORITY_MAX) then [PriorityInvalid] else []
  }

  function ValidateCidr(c: Cidr): seq<FieldError> {
    match c
    case NotCidr(text) => if text == "" then [CidrRequired] else [CidrInvalid]
    case Network(p) => if Masked(p) != p then [HostBitsSet] else []
  }

  function ValidatePorts(r: PolicyRule, protoOK: bool): seq<FieldError> {
    (if r.port < 0 || r.port > 65535 then [PortInvalid]
     else if r.port != 0 && protoOK && r.proto != "TCP" && r.proto != "UDP" then [PortNeedsProto]
     else []) +
    (if r.endPort.None? then []
     else if r.endPort.value < 1 || r.endPort.value > 65535 then [EndPortInvalid]
     else if r.port == 0 then [EndPortNeedsPort]
     else if r.endPort.value < r.port then [EndPortBelowPort]
     else [])
  }

  function ValidateIcmp(r: PolicyRule, protoOK: bool): seq<FieldError> {
    (if r.icmpType.None? then []
     else if r.icmpType.value < 0 || r.icmpType.value > 255 then [IcmpTypeInvalid]
     else if protoOK && r.proto != "ICMP" then [IcmpTypeNeedsIcmp]
     else []) +
    (if r.icmpCode.None? then []
     else if r.icmpCode.value < 0 || r.icmpCode.value > 255 then [IcmpCodeInvalid]
     else if r.icmpType.None? then [IcmpCodeNeedsType]
     else [])
  }

  predicate KnownProto(proto: string) { proto in {"", "TCP", "UDP", "ICMP"} }

  /** validateFirewallRule: every complaint admission has about one rule. */
  function ValidateRule(r: PolicyRule): seq<FieldError> {
    var protoOK := KnownProto(r.proto);
    ValidateCidr(r.cidr)
    + (if r.action in {"Allow", "Deny"} then [] else [ActionInvalid])
    + (if protoOK then [] else [ProtoInvalid])
    + ValidatePorts(r, protoOK) + ValidateIcmp(r, protoOK) + ValidatePriority(r.priority)
  }

  predicate Admitted(p: Policy) {
    && ValidatePriority(p.priority) == []
    && (forall r :: r in p.ingress ==> ValidateRule(r) == [])
    && (forall r :: r in p.egress ==> ValidateRule(r) == [])
  }

  // ---------------------------------------------------------------- what a rule matches

  /** A packet as one direction's rules see it: the peer address, protocol number, destination
      port and ICMP type and code. */
  datatype RawPacket = Packet(v6: bool, peer: seq<bool>, proto: nat, port: nat, icmpType: nat, icmpCode: nat) {
    predicate Valid() { |peer| == Width(v6) && port <= 65535 }
  }
  type Packet = p: RawPacket | p.Valid() witness Packet(false, Zeros(32), 0, 0, 0, 0)

  /** protoNum: "ICMP" names the ICMP of the rule's own family, "" any protocol. */
  predicate ProtoMatches(proto: string, v6: bool, number: nat) {
    match proto
    case "" => true
    case "TCP" => number == 6
    case "UDP" => number == 17
    case "ICMP" => number == if v6 then 58 else 1
    case _ => false
  }

  /** What a policy author wrote: an unset selector matches everything, a port range is inclusive. */
  predicate RuleMatches(r: PolicyRule, k: Packet) {
    && r.cidr.Network?
    && r.cidr.prefix.Contains(k.v6, k.peer)
    && ProtoMatches(r.proto, k.v6, k.proto)
    && (r.port != 0 ==> r.port <= k.port <= if r.endPort.Some? then r.endPort.value else r.port)
    && (r.icmpType.Some? ==> k.icmpType == r.icmpType.value)
    && (r.icmpCode.Some? ==> k.icmpCode == r.icmpCode.value)
  }

  /** What the datapath does with a compiled rule. */
  predicate CompiledMatches(c: CompiledRule, k: Packet) {
    && c.cidr.Contains(k.v6, k.peer)
    && ProtoMatches(c.proto, k.v6, k.proto)
    && (c.port != 0 ==> c.port <= k.port <= if c.endPort > c.port then c.endPort else c.port)
    && (c.icmpType.Some? ==> k.icmpType == c.icmpType.value)
    && (c.icmpCode.Some? ==> k.icmpCode == c.icmpCode.value)
  }

  /** The action of the first rule that matches. */
  function FirstMatch(rules: seq<CompiledRule>, k: Packet): Option<string> {
    if rules == [] then None
    else if CompiledMatches(rules[0], k) then Some(rules[0].action)
    else FirstMatch(rules[1..], k)
  }

  // ---------------------------------------------------------------- ranks

  datatype Rank = Rank(policy: int, rule: int, namespace: string, name: string, index: int)

  function CompareInt(a: int, b: int): int { if a < b then -1 else if a > b then 1 else 0 }

  /** cmp.Or: the first non-zero comparison. */
  function Or(a: int, b: int): int { if a != 0 then a else b }

  function CompareRank(a: Rank, b: Rank): int {
    Or(CompareInt(a.policy, b.policy),
    Or(CompareInt(a.rule, b.rule),
    Or(Compare(a.namespace, b.namespace),
    Or(Compare(a.name, b.name),
       CompareInt(a.index, b.index)))))
  }

  /** The lower number, and of texts the one that comes first, wins at every level in turn. */
  lemma RankExactly(a: Rank, b: Rank)
    ensures CompareRank(a, b) < 0 <==>
            || a.policy < b.policy
            || (a.policy == b.policy && a.rule < b.rule)
            || (a.policy == b.policy && a.rule == b.rule && Less(a.namespace, b.namespace))
            || (a.policy == b.policy && a.rule == b.rule && a.namespace == b.namespace && Less(a.name, b.name))
            || (a.policy == b.policy && a.rule == b.rule && a.namespace == b.namespace && a.name == b.name
              && a.index < b.index)
  {
    hide Compare;
    CompareZero(a.namespace, b.namespace);
    CompareZero(a.name, b.name);
  }

  /** The order is total over distinct ranks. */
  lemma RankOrder(a: Rank, b: Rank)
    ensures CompareRank(a, b) == 0 <==> a == b
    ensures CompareRank(a, b) < 0 <==> CompareRank(b, a) > 0
    ensures a != b ==> CompareRank(a, b) < 0 || CompareRank(b, a) < 0
  {
    CompareZero(a.namespace, b.namespace);
    CompareZero(a.name, b.name);
    CompareFlips(a.namespace, b.namespace);
    CompareFlips(a.name, b.name);
  }

  lemma RankTransitive(a: Rank, b: Rank, c: Rank)
    requires CompareRank(a, b) < 0 && CompareRank(b, c) < 0
    ensures CompareRank(a, c) < 0
  {
    RankOrder(a, b);
    RankOrder(b, c);
    CompareZero(a.namespace, b.namespace);
    CompareZero(b.namespace, c.namespace);
    CompareZero(a.name, b.name);
    CompareZero(b.name, c.name);
    if Compare(a.namespace, b.namespace) < 0 && Compare(b.namespace, c.namespace) < 0 {
      CompareTransitive(a.namespace, b.namespace, c.namespace);
    }
    if Compare(a.name, b.name) < 0 && Compare(b.name, c.name) < 0 {
      CompareTransitive(a.name, b.name, c.name);
    }
  }

  // ---------------------------------------------------------------- entries

  datatype Entry = Entry(rule: CompiledRule, prefix: Prefix, portLo: int, portHi: int, rank: Rank) {
    predicate V6() { prefix.v6 }
  }

  datatype Refusal = CidrUnparsed | ActionUnknown | ProtoUnknown

  /** newFwEntry: lowers one policy rule, or refuses what it cannot interpret. */
  function NewEntry(r: PolicyRule, rank: Rank): Result<Entry, Refusal> {
    if r.cidr.NotCidr? then Err(CidrUnparsed)
    else if r.action !in {"Allow", "Deny"} then Err(ActionUnknown)
    else if !KnownProto(r.proto) then Err(ProtoUnknown)
    else
      var wide := r.port != 0 && r.endPort.Some? && r.endPort.value > r.port;
      var c := CompiledRule(
        r.cidr.prefix, r.proto, r.port, if wide then r.endPort.value else 0,
        r.icmpType, if r.icmpType.Some? then r.icmpCode else None, r.action);
      Ok(Entry(
        c, Masked(r.cidr.prefix),
        if r.port != 0 then r.port else 0,
        if wide then r.endPort.value else if r.port != 0 then r.port else 65535,
        rank))
  }

  /** What an entry lowered from an admitted rule looks like. */
  predicate WellFormed(e: Entry) {
    && KnownProto(e.rule.proto)
    && e.prefix == Masked(e.rule.cidr)
    && (e.rule.port == 0 ==> e.portLo == 0 && e.portHi == 65535)
    && (e.rule.port != 0 ==>
          && 1 <= e.rule.port <= 65535
          && e.portLo == e.rule.port
          && e.portHi == (if e.rule.endPort > e.rule.port then e.rule.endPort else e.rule.port)
          && e.portHi <= 65535
          && e.rule.proto in {"TCP", "UDP"})
    && (e.rule.icmpType.Some? ==> e.rule.proto == "ICMP" && 0 <= e.rule.icmpType.value <= 255)
    && (e.rule.icmpCode.Some? ==> e.rule.icmpType.Some? && 0 <= e.rule.icmpCode.value <= 255)
  }

  /** The datapath is given an end port for a true range only, and an ICMP code only with its type. */
  lemma RangesOnly(r: PolicyRule, rank: Rank)
    requires NewEntry(r, rank).Ok?
    ensures var c := NewEntry(r, rank).value.rule;
            && (c.endPort != 0 ==> 0 != r.port == c.port < c.endPort && r.endPort == Some(c.endPort))
            && (c.endPort == 0 && r.port > 0 && r.endPort.Some? ==> r.endPort.value <= r.port)
            && (c.icmpCode.Some? ==> c.icmpType.Some? && c.icmpCode == r.icmpCode && c.icmpType == r.icmpType)
  {
    hide Masked, KnownProto;
  }

  /** Lowering an admitted rule always succeeds and keeps what it matches. */
  lemma NewEntryMeansTheRule(r: PolicyRule, rank: Rank)
    requires ValidateRule(r) == []
    ensures NewEntry(r, rank).Ok?
    ensures var e := NewEntry(r, rank).value;
            && WellFormed(e) && e.rank == rank && e.rule.action == r.action
            && forall k: Packet :: CompiledMatches(e.rule, k) <==> RuleMatches(r, k)
  {
  }

  predicate OptCovers(a: Option<int>, e: Option<int>) {
    a.None? || (e.Some? && a.value == e.value)
  }

  /** covers: a's match is claimed to be a superset of e's. */
  predicate Covers(a: Entry, e: Entry) {
    if a.V6() != e.V6() || a.prefix.len > e.prefix.len || !a.prefix.Contains(e.prefix.v6, e.prefix.bits) then false
    else if a.rule.proto == "" then true
    else if a.rule.proto != e.rule.proto then false
    else if a.rule.proto == "ICMP" then
      OptCovers(a.rule.icmpType, e.rule.icmpType) && OptCovers(a.rule.icmpCode, e.rule.icmpCode)
    else a.portLo <= e.portLo && e.portHi <= a.portHi
  }

  lemma CoversTransitive(a: Entry, b: Entry, c: Entry)
    requires Covers(a, b) && Covers(b, c)
    ensures Covers(a, c)
  {
  }

  /** Sound half: a covering rule matches every packet the covered one does. */
  lemma CoversMatches(a: Entry, e: Entry, k: Packet)
    requires WellFormed(a) && WellFormed(e) && Covers(a, e)
    requires CompiledMatches(e.rule, k)
    ensures CompiledMatches(a.rule, k)
  {
  }

  /** A packet only `e` matches, when `a` does not cover it. */
  function Escape(a: Entry, e: Entry): (k: Packet)
    requires WellFormed(a) && WellFormed(e)
  {
    var v6 := e.prefix.v6;
    var peer :=
      if a.prefix.v6 == v6 && a.prefix.len > e.prefix.len
      then e.prefix.bits[e.prefix.len := !a.prefix.bits[e.prefix.len]]
      else e.prefix.bits;
    var proto :=
      match e.rule.proto
      case "TCP" => 6
      case "UDP" => 17
      case "ICMP" => if v6 then 58 else 1
      case _ => if a.rule.proto == "TCP" then 17 else 6;
    var port := if e.portLo < a.portLo then e.portLo else e.portHi;
    Packet(v6, peer, proto, port, Other(a.rule.icmpType, e.rule.icmpType), Other(a.rule.icmpCode, e.rule.icmpCode))
  }

  /** The selected value, or one the other selector does not name. */
  function Other(a: Option<int>, e: Option<int>): nat
    requires e.Some? ==> e.value >= 0
  {
    if e.Some? then e.value else if a == Some(0) then 1 else 0
  }

  /** Complete half: a rule that is not covered matches some packet the other does not. */
  lemma CoversComplete(a: Entry, e: Entry)
    requires WellFormed(a) && WellFormed(e) && !Covers(a, e)
    ensures CompiledMatches(e.rule, Escape(a, e)) && !CompiledMatches(a.rule, Escape(a, e))
  {
  }

  /** `covers` is exactly "every packet e matches is also matched by a". */
  lemma CoversExact(a: Entry, e: Entry)
    requires WellFormed(a) && WellFormed(e)
    ensures Covers(a, e) <==> forall k: Packet :: CompiledMatches(e.rule, k) ==> CompiledMatches(a.rule, k)
  {
    if Covers(a, e) {
      forall k: Packet | CompiledMatches(e.rule, k) ensures CompiledMatches(a.rule, k) {
        CoversMatches(a, e, k);
      }
    } else {
      CoversComplete(a, e);
    }
  }
}
