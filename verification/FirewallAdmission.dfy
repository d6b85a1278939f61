/** Admission of firewall rules: exactly which complaints a rule draws, and which rules draw none. */
module FirewallAdmission {
  import opened Order
  import opened Addresses
  import opened Firewall

  predicate Between(lo: int, n: Option<int>, hi: int) { n.Some? && lo <= n.value <= hi }

  /** What is wrong with the rule when admission makes this complaint. */
  ghost predicate Wrong(r: PolicyRule, e: FieldError) {
    match e
    case CidrRequired => r.cidr == NotCidr("")
    case CidrInvalid => r.cidr.NotCidr? && r.cidr.text != ""
    case HostBitsSet => r.cidr.Network?
      && exists i :: r.cidr.prefix.len <= i < |r.cidr.prefix.bits| && r.cidr.prefix.bits[i]
    case ActionInvalid => r.action != "Allow" && r.action != "Deny"
    case ProtoInvalid => r.proto != "" && r.proto != "TCP" && r.proto != "UDP" && r.proto != "ICMP"
    case PortInvalid => r.port < 0 || r.port > 65535
    case PortNeedsProto => 1 <= r.port <= 65535 && (r.proto == "" || r.proto == "ICMP")
    case EndPortInvalid => r.endPort.Some? && !Between(1, r.endPort, 65535)
    case EndPortNeedsPort => Between(1, r.endPort, 65535) && r.port == 0
    case EndPortBelowPort => Between(1, r.endPort, 65535) && r.port != 0 && r.endPort.value < r.port
    case IcmpTypeInvalid => r.icmpType.Some? && !Between(0, r.icmpType, 255)
    case IcmpTypeNeedsIcmp => Between(0, r.icmpType, 255) && (r.proto == "" || r.proto == "TCP" || r.proto == "UDP")
    case IcmpCodeInvalid => r.icmpCode.Some? && !Between(0, r.icmpCode, 255)
    case IcmpCodeNeedsType => Between(0, r.icmpCode, 255) && r.icmpType.None?
    case PriorityInvalid => r.priority.Some? && !Between(0, r.priority, 65535)
  }

  lemma CidrComplaints(r: PolicyRule, e: FieldError)
    ensures e in ValidateCidr(r.cidr) <==>
            (e.CidrRequired? || e.CidrInvalid? || e.HostBitsSet?) && Wrong(r, e)
  {
    if r.cidr.Network? {
      var p := r.cidr.prefix;
      MaskedIsCanonical(p, p, p.v6, p.bits);
    }
  }

  lemma PortComplaints(r: PolicyRule, e: FieldError)
    ensures e in ValidatePorts(r, KnownProto(r.proto)) <==>
            && (e.PortInvalid? || e.PortNeedsProto? || e.EndPortInvalid? || e.EndPortNeedsPort? || e.EndPortBelowPort?)
            && Wrong(r, e)
  {
  }

  lemma IcmpComplaints(r: PolicyRule, e: FieldError)
    ensures e in ValidateIcmp(r, KnownProto(r.proto)) <==>
            && (e.IcmpTypeInvalid? || e.IcmpTypeNeedsIcmp? || e.IcmpCodeInvalid? || e.IcmpCodeNeedsType?)
            && Wrong(r, e)
  {
  }

  lemma OtherComplaints(r: PolicyRule, e: FieldError)
    ensures e in (if r.action in {"Allow", "Deny"} then [] else [ActionInvalid])
                 + (if KnownProto(r.proto) then [] else [ProtoInvalid]) + ValidatePriority(r.priority) <==>
            (e.ActionInvalid? || e.ProtoInvalid? || e.PriorityInvalid?) && Wrong(r, e)
  {
  }

  /** Admission makes a complaint if and only if the rule has that fault. */
  lemma ComplaintsExactly(r: PolicyRule, e: FieldError)
    ensures e in ValidateRule(r) <==> Wrong(r, e)
  {
    CidrComplaints(r, e);
    PortComplaints(r, e);
    IcmpComplaints(r, e);
    OtherComplaints(r, e);
    hide ValidateCidr, ValidatePorts, ValidateIcmp, ValidatePriority, KnownProto, Wrong;
  }

  /** The rules admission lets through, in the author's terms. */
  ghost predicate Proper(r: PolicyRule) {
    && r.cidr.Network? && (forall i :: r.cidr.prefix.len <= i < |r.cidr.prefix.bits| ==> !r.cidr.prefix.bits[i])
    && r.action in {"Allow", "Deny"} && r.proto in {"", "TCP", "UDP", "ICMP"}
    && 0 <= r.port <= 65535 && (r.port > 0 ==> r.proto in {"TCP", "UDP"})
    && (r.endPort.Some? ==> 0 < r.port <= r.endPort.value <= 65535)
    && (r.icmpType.Some? ==> 0 <= r.icmpType.value <= 255 && r.proto == "ICMP")
    && (r.icmpCode.Some? ==> 0 <= r.icmpCode.value <= 255 && r.icmpType.Some?)
    && (r.priority.Some? ==> 0 <= r.priority.value <= 65535)
  }

  lemma AdmittedExactly(r: PolicyRule)
    ensures ValidateRule(r) == [] <==> Proper(r)
  {
    forall e ensures e in ValidateRule(r) <==> Wrong(r, e) { ComplaintsExactly(r, e); }
    hide ValidateRule;
    if ValidateRule(r) == [] {
      assert forall e :: !Wrong(r, e);
      ProperIfNothingWrong(r);
    } else {
      var e := ValidateRule(r)[0];
      assert Wrong(r, e);
    }
  }

  lemma ProperIfNothingWrong(r: PolicyRule)
    requires forall e :: !Wrong(r, e)
    ensures Proper(r)
  {
    assert !Wrong(r, CidrRequired) && !Wrong(r, CidrInvalid) && !Wrong(r, HostBitsSet) && !Wrong(r, ActionInvalid);
    assert !Wrong(r, ProtoInvalid) && !Wrong(r, PortInvalid) && !Wrong(r, PortNeedsProto) && !Wrong(r, EndPortInvalid);
    assert !Wrong(r, EndPortNeedsPort) && !Wrong(r, EndPortBelowPort) && !Wrong(r, PriorityInvalid);
    assert !Wrong(r, IcmpTypeInvalid) && !Wrong(r, IcmpTypeNeedsIcmp) && !Wrong(r, IcmpCodeInvalid)
      && !Wrong(r, IcmpCodeNeedsType);
  }

  /** A policy is admitted if and only if its priority and all its rules are proper. */
  lemma PolicyAdmittedExactly(p: Policy)
    ensures Admitted(p) <==>
            && (p.priority.Some? ==> 0 <= p.priority.value <= 65535)
            && (forall r :: r in p.ingress ==> Proper(r)) && forall r :: r in p.egress ==> Proper(r)
  {
    forall r ensures ValidateRule(r) == [] <==> Proper(r) { AdmittedExactly(r); }
    hide ValidateRule, Proper;
  }
}
