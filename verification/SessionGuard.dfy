/** The certificate check on a session's messages: exactly which are refused, and that nothing the certificate does not
    speak for is ever stored under the node. */
module SessionGuard {
  import opened Order
  import opened RouteBus
  import opened RibState
  import opened RibOwnership
  import opened Lockstep
  import opened NodeSession

  /** The message names an address the certificate does not speak for. */
  ghost predicate Overreaches(g: Guard, m: ClientMsg) {
    match m
    case MsgAnnounce(r, extra) => !g.permits(r.nexthop) || exists nh :: nh in extra && !g.permits(nh)
    case MsgAnnounceNat(b) => !g.permits(b.ownerUnderlay)
    case MsgAnnouncePublic(p) =>
      !g.permits(p.ownerUnderlay) || (p.kind.EdgeUnderlay? && !g.permits(g.host(p.prefix)))
    case _ => false
  }

  /** A message is refused, and then changes nothing, if and only if it overreaches; else it acts for its own node. */
  lemma RefusedExactly(t: Texts, r: Rib, g: Guard, sink: Sink, m: ClientMsg)
    ensures OpFor(g, sink, m).None? <==> Overreaches(g, m)
    ensures Overreaches(g, m) ==> Handle(t, r, g, sink, m) == r
    ensures OpFor(g, sink, m).Some? ==> ByNode(OpFor(g, sink, m).value, sink.id)
  {
    hide Step;
    if m.MsgAnnounce? {
      var nhs := [m.route.nexthop] + m.extra;
      assert nhs[0] == m.route.nexthop && forall i :: 0 < i < |nhs| ==> nhs[i] == m.extra[i - 1];
      assert forall i :: 0 <= i < |m.extra| ==> m.extra[i] == nhs[i + 1];
    }
  }

  /** Every nexthop, owner and edge address among a node's contributions is one the certificate speaks for. */
  ghost predicate Vouched(g: Guard, c: Contribution) {
    && (forall k, nh :: k in c.routes && nh in c.routes[k] ==> g.permits(nh))
    && (forall k :: k in c.nats ==> g.permits(c.nats[k].ownerUnderlay))
    && forall k :: k in c.pubs ==>
         && g.permits(c.pubs[k].ownerUnderlay)
         && (c.pubs[k].kind.EdgeUnderlay? ==> g.permits(g.host(c.pubs[k].prefix)))
  }

  lemma AbsorbVouched(c: Contribution, g: Guard, sink: Sink, m: ClientMsg)
    requires Vouched(g, c)
    ensures Vouched(g, AbsorbMsg(c, g, sink, m))
  {
  }

  ghost function HandleAll(t: Texts, r: Rib, g: Guard, sink: Sink, ms: seq<ClientMsg>): Rib {
    if ms == [] then r else Handle(t, HandleAll(t, r, g, sink, ms[..|ms| - 1]), g, sink, ms[|ms| - 1])
  }

  /** Whatever a session sends, in whatever order: of what the reflector stores under its node everything is vouched
      for, if it was before. */
  lemma {:induction false} OnlyVouchedIsStored(t: Texts, r: Rib, g: Guard, sink: Sink, ms: seq<ClientMsg>)
    requires TablesOwned(r) && Vouched(g, From(r, sink.id))
    ensures TablesOwned(HandleAll(t, r, g, sink, ms)) && Vouched(g, From(HandleAll(t, r, g, sink, ms), sink.id))
  {
    hide TablesOwned, Vouched, From, Handle, AbsorbMsg;
    if ms != [] {
      var prev := HandleAll(t, r, g, sink, ms[..|ms| - 1]);
      OnlyVouchedIsStored(t, r, g, sink, ms[..|ms| - 1]);
      HandleAbsorbs(t, prev, g, sink, ms[|ms| - 1]);
      AbsorbVouched(From(prev, sink.id), g, sink, ms[|ms| - 1]);
    }
  }

  lemma NothingIsVouched(g: Guard)
    ensures Vouched(g, NoContribution)
  {
  }

  /** A session that takes over its node's id, or finds nothing stored under it, starts from nothing: whatever it
      sends, all it ever stores is vouched for. */
  lemma ClaimedSessionIsVouched(t: Texts, run: seq<Rib>, ops: seq<Op>, o: Orders, g: Guard, sink: Sink,
      ms: seq<ClientMsg>)
    requires IsRun(t, run, ops) && WalksAll(run[|ops|], sink.id, o)
    requires sink.id in run[|ops|].origins || From(run[|ops|], sink.id) == NoContribution
    ensures Vouched(g, From(HandleAll(t, ClaimOrigin(t, run[|ops|], sink.id, o), g, sink, ms), sink.id))
  {
    hide DropOrigin, HandleAll, TablesOwned, RoutesFrom, OwnedFrom;
    var r, id := run[|ops|], sink.id;
    IndexesExact(t, run, ops, |ops|);
    StepOwned(t, r, OpClaim(id, o));
    var r1 := r.(nextToken := r.nextToken + 1, origins := r.origins[id := r.nextToken + 1]);
    var r2 := r1.(sinks := r1.sinks - {id});
    TablesOwnedFrame(r, r2);
    TeardownClears(t, r2, id, o);
    SameRoutesSameFrom(r, r1, id);
    assert From(ClaimOrigin(t, r, id, o), id) == NoContribution;
    hide IsRun, ClaimOrigin, Vouched, From;
    NothingIsVouched(g);
    OnlyVouchedIsStored(t, ClaimOrigin(t, r, id, o), g, sink, ms);
  }
}
