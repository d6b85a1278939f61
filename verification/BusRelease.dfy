/** Re-reading the local interfaces: what the new view holds, and what becomes of the keys of guests that left. */
module BusRelease {
  import opened Order
  import opened RouteBus
  import opened BusState

  /** The entries of nhs that `own` does not hold, all of them and in their order. */
  ghost predicate Sifts(own: set<string>, nhs: seq<string>, at: seq<nat>, r: seq<string>) {
    && |at| == |r| && (forall i :: 0 <= i < |at| ==> at[i] < |nhs| && r[i] == nhs[at[i]])
    && (forall i, j :: 0 <= i < j < |at| ==> at[i] < at[j])
    && forall n :: 0 <= n < |nhs| ==> (n in at <==> nhs[n] !in own)
  }

  lemma OneMoreSifted(own: set<string>, init: seq<string>, nh: string, at: seq<nat>, r: seq<string>)
    requires Sifts(own, init, at, r)
    ensures nh in own ==> Sifts(own, init + [nh], at, r)
    ensures nh !in own ==> Sifts(own, init + [nh], at + [|init|], r + [nh])
  {
    var nhs := init + [nh];
    forall n | 0 <= n < |init| ensures nhs[n] == init[n] && (n in at + [|init|] <==> n in at) {}
    assert |init| !in at;
    assert |init| in at + [|init|] by { assert (at + [|init|])[|at|] == |init|; }
  }

  lemma {:induction false} ForeignSifts(own: set<string>, nhs: seq<string>) returns (at: seq<nat>)
    ensures Sifts(own, nhs, at, Foreign(own, nhs))
  {
    if nhs == [] {
      at := [];
    } else {
      var n := |nhs| - 1;
      at := ForeignSifts(own, nhs[..n]);
      hide Sifts;
      OneMoreSifted(own, nhs[..n], nhs[n], at, Foreign(own, nhs[..n]));
      assert nhs == nhs[..n] + [nhs[n]];
      if nhs[n] !in own { at := at + [n]; }
    }
  }

  lemma {:induction false} ForeignTwice(own: set<string>, nhs: seq<string>)
    ensures Foreign(own, Foreign(own, nhs)) == Foreign(own, nhs)
  {
    if nhs != [] {
      var init, nh := nhs[..|nhs| - 1], nhs[|nhs| - 1];
      ForeignTwice(own, init);
      var f := Foreign(own, init);
      assert (f + [nh])[..|f|] == f;
    }
  }

  /** The route held for a key once its guest has left: as it was, without this node's VTEPs. */
  function Sifted(own: set<string>, r: OwnRoute): OwnRoute { r.(nexthops := Foreign(own, r.nexthops)) }

  /** Releasing keys sifts exactly their held routes, one call each, and leaves the rest of the inputs. */
  lemma {:induction false} ReleaseEachSifts(c: Env, w: World, order: seq<RouteKey>)
    ensures var w', own := ReleaseEach(c, w, order), w.inputs.learned.own;
            && w'.inputs == w.inputs.(learned := w.inputs.learned.(own := w'.inputs.learned.own))
            && w'.inputs.learned.own.Keys == own.Keys && w'.calls == w.calls + |order|
            && forall k :: k in own ==>
                 w'.inputs.learned.own[k] == if k in order then Sifted(w.inputs.ownUnderlays, own[k]) else own[k]
  {
    hide Foreign, Desired, NoteFailure, Lands;
    if order != [] {
      var init, k := order[..|order| - 1], order[|order| - 1];
      ReleaseEachSifts(c, w, init);
      assert order == init + [k];
      if k in w.inputs.learned.own { ForeignTwice(w.inputs.ownUnderlays, w.inputs.learned.own[k].nexthops); }
    }
  }

  /** Some attached interface of this VNI has this host prefix. */
  ghost predicate Attached(ifaces: seq<LocalInterface>, k: RouteKey) {
    exists n :: 0 <= n < |ifaces| && ifaces[n].vni == k.vni && k.prefix in ifaces[n].hosts
  }

  /** The view a successful read leaves: the host prefixes of every attached interface off the public VNI, this node's
      own address and every VTEP, and the held routes of the keys that left without this node in them. */
  lemma RefreshedView(c: Env, w: World, self: string, reply: ListReply, left: seq<RouteKey>)
    requires ListsLeft(w, reply, left) && reply.ListOk?
    ensures var i, i' := w.inputs, Refreshed(c, w, self, reply, left).inputs;
            && (forall k: RouteKey :: k in i'.localHosts <==> k.vni != 0 && Attached(reply.ifaces, k))
            && (forall u :: u in i'.ownUnderlays <==>
                 u == self || (u != "" && exists n :: 0 <= n < |reply.ifaces| && reply.ifaces[n].underlay == u))
            && i'.peerImports == i.peerImports && i'.egressVNIs == i.egressVNIs
            && i'.learned == i.learned.(own := i'.learned.own) && i'.learned.own.Keys == i.learned.own.Keys
            && forall k :: k in i.learned.own ==>
                 i'.learned.own[k] == if k in i.localHosts && k !in i'.localHosts
                   then Sifted(i'.ownUnderlays, i.learned.own[k]) else i.learned.own[k]
  {
    var w1 :=
      w.(inputs := w.inputs.(localHosts := HostsOf(reply.ifaces), ownUnderlays := UnderlaysOf(self, reply.ifaces)));
    ReleaseEachSifts(c, w1, left);
    hide ReleaseEach, Sifted;
  }

  /** A failed read keeps the old view and calls nothing. */
  lemma FailedReadKeepsView(c: Env, w: World, self: string, left: seq<RouteKey>)
    ensures Refreshed(c, w, self, ListFailed, left) == w
  {
  }

  /** A guest that left is never routed to this node: its key wants the first nexthop of its held route that is not
      this node, and nothing if there is none. */
  lemma DepartedNeverPointsHere(c: Env, w: World, self: string, reply: ListReply, left: seq<RouteKey>, k: RouteKey)
    requires ListsLeft(w, reply, left) && reply.ListOk? && k in left && k in w.inputs.learned.own
    ensures var i' := Refreshed(c, w, self, reply, left).inputs;
            var nhs, d := w.inputs.learned.own[k].nexthops, Desired(c, i', k);
            && (d.None? <==> forall n :: 0 <= n < |nhs| ==> nhs[n] in i'.ownUnderlays)
            && (d.Some? ==> exists n ::
                 && 0 <= n < |nhs| && d.value.nexthop == nhs[n] && nhs[n] !in i'.ownUnderlays
                 && forall m :: 0 <= m < n ==> nhs[m] in i'.ownUnderlays)
  {
    RefreshedView(c, w, self, reply, left);
    hide Refreshed, HostsOf, UnderlaysOf;
    var i' := Refreshed(c, w, self, reply, left).inputs;
    var nhs := w.inputs.learned.own[k].nexthops;
    var at := ForeignSifts(i'.ownUnderlays, nhs);
    hide Foreign;
    assert i'.learned.own[k].nexthops == Foreign(i'.ownUnderlays, nhs);
    if at != [] { assert forall m :: 0 <= m < at[0] ==> m !in at; }
  }
}
