/** What the dataplane should hold for a key, said of the inputs themselves: which learned route decides it, by which
    nexthop, toward which VNI. */
module BusWanted {
  import opened Order
  import opened RouteBus
  import opened BusState
  import opened BusSync
  import opened BusResync

  /** nh is the nexthop to program for k: the first of the route, or for a local guest's key the first that is not
      this node. A local guest's key gets none when that one has no text. */
  predicate Picks(i: Inputs, k: RouteKey, nexthops: seq<string>, nh: string) {
    if k !in i.localHosts then nexthops != [] && nh == nexthops[0]
    else
      && nh != ""
      && exists n :: 0 <= n < |nexthops| && nexthops[n] == nh && nh !in i.ownUnderlays
                     && forall m :: 0 <= m < n ==> nexthops[m] in i.ownUnderlays
  }

  ghost predicate Usable(i: Inputs, k: RouteKey, nexthops: seq<string>) { exists nh :: Picks(i, k, nexthops, nh) }

  /** The n-th import of k's table covers its prefix and has a usable route learned on the peer's. */
  ghost predicate Serves(c: Env, i: Inputs, k: RouteKey, n: nat) {
    && k.vni in i.peerImports && n < |i.peerImports[k.vni]|
    && var im := i.peerImports[k.vni][n];
    && (exists m :: 0 <= m < |im.prefixes| && c.within(k.prefix, im.prefixes[m]))
    && RouteKey(im.peerVNI, k.prefix) in i.learned.own
    && Usable(i, k, i.learned.own[RouteKey(im.peerVNI, k.prefix)].nexthops)
  }

  ghost predicate FirstServes(c: Env, i: Inputs, k: RouteKey, n: nat) {
    Serves(c, i, k, n) && forall m: nat :: m < n ==> !Serves(c, i, k, m)
  }

  /** An own route decides alone: the learned external flag, the key's own VNI. */
  predicate WantsOwn(i: Inputs, k: RouteKey, d: DpRoute)
    requires k in i.learned.own
  {
    var r := i.learned.own[k];
    d.DpRoute? && Picks(i, k, r.nexthops, d.nexthop) && d.external == r.external && d.deliveryVNI == k.vni
      && d.origin == OriginOwn
  }

  /** An imported route is delivered toward the peer's VNI, by a nexthop of the peer's route, and never external. */
  ghost predicate WantsPeer(c: Env, i: Inputs, k: RouteKey, n: nat, d: DpRoute)
    requires Serves(c, i, k, n)
  {
    var peer := i.peerImports[k.vni][n].peerVNI;
    && d.DpRoute? && Picks(i, k, i.learned.own[RouteKey(peer, k.prefix)].nexthops, d.nexthop)
    && d.external == false && d.deliveryVNI == peer && d.origin == OriginPeer
  }

  /** A public default is external and delivered at VNI 0. */
  predicate WantsPublic(i: Inputs, k: RouteKey, d: DpRoute)
    requires k.prefix in i.learned.public
  {
    d.DpRoute? && d.nexthop == i.learned.public[k.prefix] && d.external && d.deliveryVNI == 0
      && d.origin == OriginPublic
  }

  /** d is what the inputs want at k. */
  ghost predicate IsWanted(c: Env, i: Inputs, k: RouteKey, d: Option<DpRoute>) {
    if k in i.learned.own then
      if Usable(i, k, i.learned.own[k].nexthops) then d.Some? && WantsOwn(i, k, d.value) else d.None?
    else if exists n: nat :: Serves(c, i, k, n) then
      d.Some? && exists n: nat :: FirstServes(c, i, k, n) && WantsPeer(c, i, k, n, d.value)
    else if k.prefix in i.learned.public && k.vni in i.egressVNIs then d.Some? && WantsPublic(i, k, d.value)
    else d.None?
  }

  lemma {:induction false} FirstForeign(own: set<string>, nexthops: seq<string>)
    ensures var nh := ForeignNexthop(own, nexthops);
            || (nh == "" && forall m :: 0 <= m < |nexthops| ==> nexthops[m] in own)
            || exists n ::
                 && 0 <= n < |nexthops| && nexthops[n] == nh && nh !in own
                 && forall m :: 0 <= m < n ==> nexthops[m] in own
  {
    if nexthops != [] && nexthops[0] in own {
      var rest, nh := nexthops[1..], ForeignNexthop(own, nexthops);
      FirstForeign(own, rest);
      assert forall m :: 0 < m < |nexthops| ==> nexthops[m] == rest[m - 1];
      if n :| 0 <= n < |rest| && rest[n] == nh && nh !in own && forall m :: 0 <= m < n ==> rest[m] in own {
        assert nexthops[n + 1] == nh;
      }
    }
  }

  /** The program's choice of a nexthop is that one, and there is none exactly when there is none to pick. */
  lemma PicksExactly(i: Inputs, k: RouteKey, nexthops: seq<string>, nh: string)
    ensures NexthopFor(i, k, nexthops) == Some(nh) <==> Picks(i, k, nexthops, nh)
    ensures NexthopFor(i, k, nexthops).Some? <==> Usable(i, k, nexthops)
  {
    hide ForeignNexthop;
    FirstForeign(i.ownUnderlays, nexthops);
    var found := NexthopFor(i, k, nexthops);
    if found.Some? { assert Picks(i, k, nexthops, found.value); }
  }

  lemma ServesHere(c: Env, i: Inputs, k: RouteKey, at: nat)
    requires k.vni in i.peerImports && at < |i.peerImports[k.vni]|
    ensures var im := i.peerImports[k.vni][at];
            Serves(c, i, k, at) <==>
            && PrefixInCIDRs(c, k.prefix, im.prefixes) && RouteKey(im.peerVNI, k.prefix) in i.learned.own
            && Usable(i, k, i.learned.own[RouteKey(im.peerVNI, k.prefix)].nexthops)
  {
  }

  /** One import of the scan: taken if it serves, else passed over. */
  lemma PeerRouteStep(c: Env, i: Inputs, k: RouteKey, at: nat)
    requires k.vni in i.peerImports && at < |i.peerImports[k.vni]|
    ensures var imports := i.peerImports[k.vni];
            if Serves(c, i, k, at)
            then PeerRoute(c, i, k, imports[at..]).Some?
              && WantsPeer(c, i, k, at, PeerRoute(c, i, k, imports[at..]).value)
            else PeerRoute(c, i, k, imports[at..]) == PeerRoute(c, i, k, imports[at + 1..])
  {
    var imports := i.peerImports[k.vni];
    var im := imports[at];
    assert imports[at..][0] == im && imports[at..][1..] == imports[at + 1..];
    ServesHere(c, i, k, at);
    hide NexthopFor, Picks, Usable, PrefixInCIDRs, Serves;
    var peer := RouteKey(im.peerVNI, k.prefix);
    if peer in i.learned.own {
      var nexthops := i.learned.own[peer].nexthops;
      var nh := NexthopFor(i, k, nexthops);
      PicksExactly(i, k, nexthops, if nh.Some? then nh.value else "");
    }
  }

  lemma NoneBeyond(c: Env, i: Inputs, k: RouteKey, n: nat)
    requires k.vni in i.peerImports && n >= |i.peerImports[k.vni]|
    ensures !Serves(c, i, k, n)
  {
  }

  /** Import n is the first from `at` on that serves. */
  ghost predicate FirstFrom(c: Env, i: Inputs, k: RouteKey, at: nat, n: nat) {
    at <= n && Serves(c, i, k, n) && forall m: nat :: at <= m < n ==> !Serves(c, i, k, m)
  }

  ghost predicate NoneFrom(c: Env, i: Inputs, k: RouteKey, at: nat) { forall n: nat :: at <= n ==> !Serves(c, i, k, n) }

  lemma FromNext(c: Env, i: Inputs, k: RouteKey, at: nat)
    ensures Serves(c, i, k, at) ==> FirstFrom(c, i, k, at, at) && !NoneFrom(c, i, k, at)
    ensures !Serves(c, i, k, at) ==> (NoneFrom(c, i, k, at) <==> NoneFrom(c, i, k, at + 1))
    ensures forall n: nat :: !Serves(c, i, k, at) && FirstFrom(c, i, k, at + 1, n) ==> FirstFrom(c, i, k, at, n)
  {
    hide Serves;
    if !Serves(c, i, k, at) && NoneFrom(c, i, k, at + 1) {
      forall n: nat | at <= n ensures !Serves(c, i, k, n) {}
    }
  }

  lemma NoneAtEnd(c: Env, i: Inputs, k: RouteKey, at: nat)
    requires k.vni in i.peerImports && at >= |i.peerImports[k.vni]|
    ensures NoneFrom(c, i, k, at)
  {
    hide Serves;
    forall n: nat | at <= n ensures !Serves(c, i, k, n) { NoneBeyond(c, i, k, n); }
  }

  /** The scan of the imports stops at the first that serves. */
  lemma {:induction false} PeerRouteExactly(c: Env, i: Inputs, k: RouteKey, at: nat) returns (n: nat)
    requires k.vni in i.peerImports && at <= |i.peerImports[k.vni]|
    ensures var d := PeerRoute(c, i, k, i.peerImports[k.vni][at..]);
            && (d.None? <==> NoneFrom(c, i, k, at))
            && (d.Some? ==> FirstFrom(c, i, k, at, n) && WantsPeer(c, i, k, n, d.value))
    decreases |i.peerImports[k.vni]| - at
  {
    n := at;
    if at == |i.peerImports[k.vni]| {
      hide Serves, WantsPeer, FirstFrom, NoneFrom;
      NoneAtEnd(c, i, k, at);
    } else {
      hide Serves, WantsPeer, PeerRoute, NoneFrom;
      PeerRouteStep(c, i, k, at);
      FromNext(c, i, k, at);
      if !Serves(c, i, k, at) { n := PeerRouteExactly(c, i, k, at + 1); }
    }
  }

  /** What the agent computes for a key is what the inputs want there, and they want one thing. */
  lemma DesiredIsWanted(c: Env, i: Inputs, k: RouteKey, d: Option<DpRoute>)
    ensures Desired(c, i, k) == d <==> IsWanted(c, i, k, d)
  {
    hide NexthopFor, PeerRoute, Picks;
    WantedComputed(c, i, k);
    if IsWanted(c, i, k, d) { WantedOnce(c, i, k, d, Desired(c, i, k)); }
  }

  lemma WantedComputed(c: Env, i: Inputs, k: RouteKey)
    ensures IsWanted(c, i, k, Desired(c, i, k))
  {
    hide NexthopFor, PeerRoute, Picks;
    if k in i.learned.own {
      var nh := NexthopFor(i, k, i.learned.own[k].nexthops);
      PicksExactly(i, k, i.learned.own[k].nexthops, if nh.Some? then nh.value else "");
    } else if k.vni in i.peerImports {
      var n := PeerRouteExactly(c, i, k, 0);
      assert i.peerImports[k.vni][0..] == i.peerImports[k.vni];
      assert FirstFrom(c, i, k, 0, n) ==> FirstServes(c, i, k, n);
    } else {
      NoImports(c, i, k);
    }
  }

  lemma NoImports(c: Env, i: Inputs, k: RouteKey)
    requires k.vni !in i.peerImports
    ensures PeerRoute(c, i, k, ImportsOf(i, k.vni)).None? && forall n: nat :: !Serves(c, i, k, n)
  {
  }

  lemma PicksOnce(i: Inputs, k: RouteKey, nexthops: seq<string>, a: string, b: string)
    requires Picks(i, k, nexthops, a) && Picks(i, k, nexthops, b)
    ensures a == b
  {
  }

  lemma WantedOnce(c: Env, i: Inputs, k: RouteKey, a: Option<DpRoute>, b: Option<DpRoute>)
    requires IsWanted(c, i, k, a) && IsWanted(c, i, k, b)
    ensures a == b
  {
    hide Picks, Serves;
    if k in i.learned.own {
      if a.Some? { PicksOnce(i, k, i.learned.own[k].nexthops, a.value.nexthop, b.value.nexthop); }
    } else if exists n: nat :: Serves(c, i, k, n) {
      var n: nat :| FirstServes(c, i, k, n) && WantsPeer(c, i, k, n, a.value);
      var m: nat :| FirstServes(c, i, k, m) && WantsPeer(c, i, k, m, b.value);
      assert n == m;
      SamePeerRoute(c, i, k, n, a.value, b.value);
    }
  }

  lemma SamePeerRoute(c: Env, i: Inputs, k: RouteKey, n: nat, a: DpRoute, b: DpRoute)
    requires Serves(c, i, k, n) && WantsPeer(c, i, k, n, a) && WantsPeer(c, i, k, n, b)
    ensures a == b
  {
    PicksOnce(i, k, i.learned.own[RouteKey(i.peerImports[k.vni][n].peerVNI, k.prefix)].nexthops, a.nexthop, b.nexthop);
  }

  /** A converged dataplane holds at every key exactly what the inputs want: that route's nexthop, external flag and
      delivery VNI, or nothing. */
  lemma ConvergedHoldsWanted(c: Env, w: World, k: RouteKey, d: Option<DpRoute>)
    requires Matches(c, w) && IsWanted(c, w.inputs, k, d)
    ensures match d
      case None => k !in w.table
      case Some(r) => r.DpRoute? && k in w.table && w.table[k] == DpEntry(r.nexthop, r.external, r.deliveryVNI)
  {
    hide Desired, IsWanted;
    DesiredIsWanted(c, w.inputs, k, d);
    assert MatchesAt(c, w, k);
  }
}
