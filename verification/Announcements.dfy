/** From a node's desired state to its peers: the reflector inside a node's run runs by the reflector's own rules, so
    what
    the node's last tick wanted is what subscribers elsewhere observe. */
module Announcements {
  import opened Order
  import opened RouteBus
  import opened OwnedTable
  import opened RibState
  import opened RibViews
  import opened RibOwnership
  import opened Lockstep
  import opened NodeSession
  import D = DesiredDiff

  /** The reflector's operations that an event of the run is. */
  function Caused(g: Guard, n: Node, e: Event): seq<Op> {
    match e
    case Handled =>
      if n.wire == [] then []
      else (match OpFor(g, n.sink, n.wire[0]) case None => [] case Some(op) => [op])
    case Ended(ord) => [OpRelease(n.sink.id, n.sink.session, ord)]
    case Connected(ord) => [OpClaim(n.sink.id, ord)]
    case Others(op) => [op]
    case _ => []
  }

  ghost function OpsOf(g: Guard, run: seq<Node>, events: seq<Event>, n: nat): seq<Op>
    requires n <= |events| < |run|
  {
    if n == 0 then [] else OpsOf(g, run, events, n - 1) + Caused(g, run[n - 1], events[n - 1])
  }

  /** What an event makes of the reflector is the one operation it causes, a legal one, or nothing. */
  lemma EventIsOp(t: Texts, g: Guard, n: Node, e: Event)
    requires NodeSession.Allowed(g, n, e)
    ensures var ops, rib' := Caused(g, n, e), After(t, g, n, e).rib;
            if ops == [] then rib' == n.rib else |ops| == 1 && Legal(n.rib, ops[0]) && rib' == Step(t, n.rib, ops[0])
  {
    hide Announce, Withdraw, Subscribe, Unsubscribe, AnnounceNat, AnnouncePublic, WithdrawNat, WithdrawPublic,
         ClaimOrigin,
         ReleaseOrigin, SetFence, ClearFence, RegisterSink, D.DeltaOf, WellFormed, NodeSession.Settled, Messages,
           D.Silent;
  }

  lemma RunHasLength(t: Texts, ribs: seq<Rib>, ops: seq<Op>)
    requires IsRun(t, ribs, ops)
    ensures |ribs| == |ops| + 1
  {
  }

  lemma StepIsOp(t: Texts, g: Guard, id: string, run: seq<Node>, events: seq<Event>, j: nat)
    requires IsNodeRun(t, g, id, run, events) && j < |events|
    ensures var ops, rib, rib' := Caused(g, run[j], events[j]), run[j].rib, run[j + 1].rib;
            if ops == [] then rib' == rib else |ops| == 1 && Legal(rib, ops[0]) && rib' == Step(t, rib, ops[0])
  {
    hide After, NodeSession.Allowed, Caused, Legal, Step;
    assert NodeSession.Allowed(g, run[j], events[j]) && run[j + 1] == After(t, g, run[j], events[j]);
    EventIsOp(t, g, run[j], events[j]);
  }

  lemma StartsNew(t: Texts, g: Guard, id: string, run: seq<Node>, events: seq<Event>)
    requires IsNodeRun(t, g, id, run, events)
    ensures run[0].rib == NewRib() && IsRun(t, [NewRib()], [])
  {
  }

  /** The reflector of a node's run is in a run of its own. */
  lemma {:induction false} ReflectorRuns(t: Texts, g: Guard, id: string, run: seq<Node>, events: seq<Event>, n: nat)
    returns (ribs: seq<Rib>)
    requires IsNodeRun(t, g, id, run, events) && n <= |events|
    ensures IsRun(t, ribs, OpsOf(g, run, events, n)) && ribs[|ribs| - 1] == run[n].rib
  {
    assert |run| == |events| + 1;
    hide IsNodeRun, Caused, Legal, Step, IsRun;
    if n == 0 {
      ribs := [NewRib()];
      StartsNew(t, g, id, run, events);
    } else {
      ribs := ReflectorRuns(t, g, id, run, events, n - 1);
      StepIsOp(t, g, id, run, events, n - 1);
      var ops, more := OpsOf(g, run, events, n - 1), Caused(g, run[n - 1], events[n - 1]);
      ribs := Continued(t, ribs, ops, more, run[n - 1].rib, run[n].rib);
    }
  }

  lemma Continued(t: Texts, ribs: seq<Rib>, ops: seq<Op>, more: seq<Op>, rib: Rib, rib': Rib) returns (longer: seq<Rib>)
    requires IsRun(t, ribs, ops) && ribs[|ribs| - 1] == rib
    requires if more == [] then rib' == rib
             else |more| == 1 && Legal(rib, more[0]) && rib' == Step(t, rib, more[0])
    ensures IsRun(t, longer, ops + more) && longer[|longer| - 1] == rib'
  {
    RunHasLength(t, ribs, ops);
    hide Legal, Step, IsRun;
    if more == [] {
      assert ops + more == ops;
      longer := ribs;
    } else {
      OneMoreOp(t, ribs, ops, more[0]);
      assert more == [more[0]];
      longer := ribs + [rib'];
    }
  }

  lemma OneMoreOp(t: Texts, ribs: seq<Rib>, ops: seq<Op>, op: Op)
    requires IsRun(t, ribs, ops) && Legal(ribs[|ops|], op)
    ensures IsRun(t, ribs + [Step(t, ribs[|ops|], op)], ops + [op])
  {
    hide Legal, Step;
  }

  /** A nexthop that some origin announces for a key is advertised if and only if no fence hides it. */
  lemma AnnouncedIsAdvertised(t: Texts, r: Rib, k: RouteKey, o: string, nh: string)
    requires k in r.routes && o in r.routes[k].origins && nh in r.routes[k].origins[o]
    ensures nh in AdvertisedAt(t, r, k) <==> !Fenced(t, nh, r.fenced)
  {
    hide Fenced;
    var s := Visible(t, r.routes[k], r.fenced);
    assert nh in NexthopSet(r.routes[k].origins);
    assert nh in Sorted(s) <==> nh in s;
  }

  /** From one node's last tick to another's subscription, through every run of both: once the session stands and its
      wire is handled, a subscriber elsewhere observes for each wanted route the node's nexthop, unless a fence hides
      it. */
  lemma DesiredIsObserved(t: Texts, g: Guard, id: string, run: seq<Node>, events: seq<Event>, m: nat, n: nat,
      k: RouteKey, nh: string, sub: Subscription) returns (ribs: seq<Rib>, ops: seq<Op>)
    requires IsNodeRun(t, g, id, run, events) && m < n <= |events| && events[m].Tick?
    requires forall j :: m < j < n ==> !events[j].Tick? && !events[j].Connected?
    requires run[n].up && run[n].applied.Some? && run[n].wire == []
    requires k in Wanted(events[m].next).routes && nh in Wanted(events[m].next).routes[k]
    requires sub in run[n].rib.subscribers && sub.vni == k.vni
    ensures IsRun(t, ribs, ops) && ribs[|ops|] == run[n].rib
    ensures nh in AdvertisedAt(t, run[n].rib, k) <==> !Fenced(t, nh, run[n].rib.fenced)
    ensures (sub in OriginatedBy(ribs, ops, |ops|) ==> k !in OriginatedBy(ribs, ops, |ops|)[sub]) ==>
              Observed(run[n].rib, sub, k) == AdvertisedAt(t, run[n].rib, k)
  {
    LastTickIsAnnounced(t, g, id, run, events, m, n);
    ribs := ReflectorRuns(t, g, id, run, events, n);
    ops := OpsOf(g, run, events, n);
    RunHasLength(t, ribs, ops);
    hide IsNodeRun, OpsOf, Wanted, OriginatedBy, Observed, AdvertisedAt, IsRun, Fenced;
    var r := run[n].rib;
    assert From(r, id).routes == RoutesFrom(r, id);
    assert k in r.routes && id in r.routes[k].origins && nh in r.routes[k].origins[id];
    AnnouncedIsAdvertised(t, r, k, id, nh);
    if sub in OriginatedBy(ribs, ops, |ops|) ==> k !in OriginatedBy(ribs, ops, |ops|)[sub] {
      SubscriberViewIsTable(t, ribs, ops, sub, k);
    }
  }
}
