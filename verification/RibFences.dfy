/** When releasing a fence is safe: what AnnouncedFrom answers, and what ClearFence then changes. */
module RibFences {
  import opened Order
  import opened Addresses
  import opened RouteBus
  import opened RibState
  import opened RibViews

  datatype Holding = Holding(key: RouteKey, origin: string, nexthop: string)

  /** A nexthop whose address lies in the network. */
  predicate Inside(t: Texts, nh: string, net: Prefix) {
    t.ip(nh).Some? && net.Contains(t.ip(nh).value.v6, t.ip(nh).value.bits)
  }

  /** The (origin, nexthop) pairs of one origin inside net, in the order given. */
  function OriginHoldings(t: Texts, asked: RouteKey, o: string, nhs: seq<string>, net: Prefix): (hs: seq<Holding>)
    ensures forall h :: h in hs <==> exists nh :: nh in nhs && Inside(t, nh, net) && h == Holding(asked, o, nh)
  {
    if nhs == [] then []
    else
      var rest := OriginHoldings(t, asked, o, nhs[..|nhs| - 1], net);
      var nh := nhs[|nhs| - 1];
      if Inside(t, nh, net) then rest + [Holding(asked, o, nh)] else rest
  }

  /** Every pair of a stored route, origins in the order given and each one's nexthops sorted. */
  function RouteHoldings(t: Texts, origins: map<string, seq<string>>, asked: RouteKey, ids: seq<string>,
      net: Prefix): seq<Holding>
    requires forall o :: o in ids ==> o in origins
  {
    if ids == [] then []
    else
      var o := ids[|ids| - 1];
      RouteHoldings(t, origins, asked, ids[..|ids| - 1], net) + OriginHoldings(t, asked, o, Sort(Less, origins[o]), net)
  }

  ghost function HoldersWithin(t: Texts, r: Rib, k: RouteKey, asked: RouteKey, net: Prefix): seq<Holding> {
    var origins := EntryAt(r.routes, k).origins;
    RouteHoldings(t, origins, asked, Sorted(origins.Keys), net)
  }

  /** The key as asked and, when it differs, in canonical form. */
  function Spellings(t: Texts, k: RouteKey): seq<RouteKey> {
    match t.canonical(k.prefix)
    case None => [k]
    case Some(p) => if p == k.prefix then [k] else [k, RouteKey(k.vni, p)]
  }

  /** The first spelling with holders answers for the key. */
  ghost function HoldingsOf(t: Texts, r: Rib, spellings: seq<RouteKey>, asked: RouteKey, net: Prefix): seq<Holding> {
    if spellings == [] then []
    else
      var hs := HoldersWithin(t, r, spellings[0], asked, net);
      if hs != [] then hs else HoldingsOf(t, r, spellings[1..], asked, net)
  }

  /** AnnouncedFrom over the first keys; each is answered at most once. */
  ghost function AnnouncedFrom(t: Texts, r: Rib, net: Prefix, keys: seq<RouteKey>): seq<Holding> {
    if keys == [] then []
    else
      var init, k := keys[..|keys| - 1], keys[|keys| - 1];
      AnnouncedFrom(t, r, net, init) + if k in init then [] else HoldingsOf(t, r, Spellings(t, k), k, net)
  }

  // ---------------------------------------------------------------- an empty answer

  /** Someone announces k with a nexthop inside net. */
  ghost predicate HeldFrom(t: Texts, r: Rib, k: RouteKey, net: Prefix) {
    exists nh :: nh in NexthopSet(EntryAt(r.routes, k).origins) && Inside(t, nh, net)
  }

  lemma {:induction false} RouteHoldingsEmpty(t: Texts, origins: map<string, seq<string>>, asked: RouteKey,
      ids: seq<string>, net: Prefix)
    requires forall o :: o in ids ==> o in origins
    ensures RouteHoldings(t, origins, asked, ids, net) == [] <==>
            forall o, nh :: o in ids && nh in origins[o] ==> !Inside(t, nh, net)
  {
    if ids != [] {
      var init, o := ids[..|ids| - 1], ids[|ids| - 1];
      assert ids == init + [o];
      RouteHoldingsEmpty(t, origins, asked, init, net);
      var hs := OriginHoldings(t, asked, o, Sort(Less, origins[o]), net);
      if hs != [] {
        assert hs[0] in hs;
        assert exists nh :: nh in origins[o] && Inside(t, nh, net);
      } else {
        forall nh | nh in origins[o] ensures !Inside(t, nh, net) {
          assert nh in Sort(Less, origins[o]);
          assert Inside(t, nh, net) ==> Holding(asked, o, nh) in hs;
        }
      }
    }
  }

  lemma HoldersEmpty(t: Texts, r: Rib, k: RouteKey, asked: RouteKey, net: Prefix)
    ensures HoldersWithin(t, r, k, asked, net) == [] <==> !HeldFrom(t, r, k, net)
  {
    var origins := EntryAt(r.routes, k).origins;
    RouteHoldingsEmpty(t, origins, asked, Sorted(origins.Keys), net);
  }

  lemma {:induction false} HoldingsEmpty(t: Texts, r: Rib, spellings: seq<RouteKey>, asked: RouteKey, net: Prefix)
    ensures HoldingsOf(t, r, spellings, asked, net) == [] <==> forall k :: k in spellings ==> !HeldFrom(t, r, k, net)
  {
    hide HeldFrom, HoldersWithin;
    if spellings != [] {
      HoldersEmpty(t, r, spellings[0], asked, net);
      HoldingsEmpty(t, r, spellings[1..], asked, net);
      assert spellings == [spellings[0]] + spellings[1..];
    }
  }

  /** An empty answer is exactly: no asked key, in either spelling, is announced from inside. */
  lemma {:induction false} AnnouncedFromEmpty(t: Texts, r: Rib, net: Prefix, keys: seq<RouteKey>)
    ensures AnnouncedFrom(t, r, net, keys) == [] <==>
            forall q, k :: q in keys && k in Spellings(t, q) ==> !HeldFrom(t, r, k, net)
  {
    hide HeldFrom, HoldingsOf, Spellings;
    if keys != [] {
      var init, q := keys[..|keys| - 1], keys[|keys| - 1];
      assert keys == init + [q];
      AnnouncedFromEmpty(t, r, net, init);
      HoldingsEmpty(t, r, Spellings(t, q), q, net);
    }
  }

  // ---------------------------------------------------------------- main theorems

  /** A fence over nothing a route announces hides nothing of it, whatever other fences stand. */
  lemma FenceOverNothing(t: Texts, r: Rib, k: RouteKey, net: Prefix)
    requires !HeldFrom(t, r, k, net)
    ensures Advertised(t, EntryAt(r.routes, k), r.fenced - {net}) == Advertised(t, EntryAt(r.routes, k), r.fenced)
  {
    var e := EntryAt(r.routes, k);
    forall nh | nh in NexthopSet(e.origins) ensures Fenced(t, nh, r.fenced - {net}) <==> Fenced(t, nh, r.fenced) {
      assert !Inside(t, nh, net);
    }
    assert Visible(t, e, r.fenced - {net}) == Visible(t, e, r.fenced);
  }

  /** Safe release: after an empty answer, clearing the fence changes no asked key's advertised
      nexthops, in either spelling. */
  lemma SafeFenceRelease(t: Texts, r: Rib, text: string, keys: seq<RouteKey>, order: seq<RouteKey>, q: RouteKey,
      k: RouteKey)
    requires FenceNet(t, text).Some?
    requires AnnouncedFrom(t, r, FenceNet(t, text).value, keys) == []
    requires q in keys && k in Spellings(t, q)
    ensures AdvertisedAt(t, ClearFence(t, r, text, order), k) == AdvertisedAt(t, r, k)
  {
    hide Advertised, Refilter, HeldFrom, AnnouncedFrom;
    var net := FenceNet(t, text).value;
    AnnouncedFromEmpty(t, r, net, keys);
    FenceOverNothing(t, r, k, net);
    RefilterFrame(t, r, r.fenced - {net}, order);
  }

  /** Without that answer a release does re-advertise: the key gains a nexthop exactly when one is
      announced from inside the fence and no other fence hides it. */
  lemma ReleaseReveals(t: Texts, r: Rib, text: string, order: seq<RouteKey>, k: RouteKey)
    requires FenceNet(t, text).Some? && FenceNet(t, text).value in r.fenced
    ensures var net := FenceNet(t, text).value;
            AdvertisedAt(t, ClearFence(t, r, text, order), k) != AdvertisedAt(t, r, k) <==>
            exists nh :: nh in NexthopSet(EntryAt(r.routes, k).origins) && Inside(t, nh, net)
              && !Fenced(t, nh, r.fenced - {net})
  {
    var net, e := FenceNet(t, text).value, EntryAt(r.routes, k);
    RefilterFrame(t, r, r.fenced - {net}, order);
    var was, now := Visible(t, e, r.fenced), Visible(t, e, r.fenced - {net});
    forall nh | nh in NexthopSet(e.origins)
      ensures Fenced(t, nh, r.fenced) <==> Fenced(t, nh, r.fenced - {net}) || Inside(t, nh, net)
    {
    }
    if nh :| nh in NexthopSet(e.origins) && Inside(t, nh, net) && !Fenced(t, nh, r.fenced - {net}) {
      assert nh in Sorted(now) && nh !in Sorted(was);
    } else {
      assert was == now;
    }
  }

  lemma InsideIsFenced(t: Texts, nh: string, p: Prefix, fenced: set<Prefix>)
    ensures Fenced(t, nh, fenced + {Masked(p)}) <==> Fenced(t, nh, fenced) || Inside(t, nh, p)
    ensures Masked(p) in fenced && Inside(t, nh, p) ==> Fenced(t, nh, fenced)
  {
    if t.ip(nh).Some? { MaskedIsCanonical(p, p, t.ip(nh).value.v6, t.ip(nh).value.bits); }
  }

  /** Setting a fence hides exactly what it covers: afterwards a key advertises a nexthop if and only if it did before
      and the network does not contain it, every stored route stands, and the fences are the old ones and this. */
  lemma SetFenceHides(t: Texts, r: Rib, text: string, order: seq<RouteKey>, p: Prefix, k: RouteKey, nh: string)
    requires t.cidr(text) == Some(p)
    ensures var r' := SetFence(t, r, text, order);
            && r'.fenced == r.fenced + {Masked(p)} && r'.routes == r.routes
            && (nh in AdvertisedAt(t, r', k) <==> nh in AdvertisedAt(t, r, k) && !Inside(t, nh, p))
  {
    hide Refilter;
    var r' := SetFence(t, r, text, order);
    RefilterFrame(t, r, r.fenced + {Masked(p)}, order);
    assert Masked(p) in r.fenced ==> r.fenced + {Masked(p)} == r.fenced;
    MoreFenced(t, r, r', p, k, nh);
  }

  lemma MoreFenced(t: Texts, r: Rib, r': Rib, p: Prefix, k: RouteKey, nh: string)
    requires r'.routes == r.routes && r'.fenced == r.fenced + {Masked(p)}
    ensures nh in AdvertisedAt(t, r', k) <==> nh in AdvertisedAt(t, r, k) && !Inside(t, nh, p)
  {
    InsideIsFenced(t, nh, p, r.fenced);
  }

  /** Clearing one brings back exactly what no other fence covers: afterwards a key advertises a nexthop if and only if
      some origin announces it and no fence left contains it. */
  lemma ClearFenceShows(t: Texts, r: Rib, text: string, order: seq<RouteKey>, p: Prefix)
    requires t.cidr(text) == Some(p)
    ensures var r' := ClearFence(t, r, text, order); r'.fenced == r.fenced - {Masked(p)} && r'.routes == r.routes
    ensures forall k, nh ::
              nh in AdvertisedAt(t, ClearFence(t, r, text, order), k) <==>
              && k in r.routes && (exists o :: o in r.routes[k].origins && nh in r.routes[k].origins[o])
              && forall n :: n in r.fenced && n != Masked(p) ==> !Inside(t, nh, n)
  {
    hide Refilter;
    RefilterFrame(t, r, r.fenced - {Masked(p)}, order);
    assert Masked(p) !in r.fenced ==> r.fenced - {Masked(p)} == r.fenced;
  }

  /** A text that names no network sets and clears nothing. */
  lemma UnreadFenceIsIgnored(t: Texts, r: Rib, text: string, order: seq<RouteKey>)
    requires t.cidr(text).None?
    ensures SetFence(t, r, text, order) == r == ClearFence(t, r, text, order)
  {
  }

  /** Setting a fence that was not standing and clearing it again restores every advertised set, with
      no origin announcing anything. A fence that was already standing is released instead. */
  lemma SetThenClear(t: Texts, r: Rib, text: string, o1: seq<RouteKey>, o2: seq<RouteKey>)
    ensures var r' := ClearFence(t, SetFence(t, r, text, o1), text, o2);
            && r'.routes == r.routes
            && (FenceNet(t, text).None? || FenceNet(t, text).value !in r.fenced ==>
                  forall k :: AdvertisedAt(t, r', k) == AdvertisedAt(t, r, k))
            && (FenceNet(t, text).Some? ==> r'.fenced == r.fenced - {FenceNet(t, text).value})
  {
    hide Advertised, Refilter;
    var n := FenceNet(t, text);
    if n.Some? {
      RefilterFrame(t, r, r.fenced + {n.value}, o1);
      var r1 := SetFence(t, r, text, o1);
      RefilterFrame(t, r1, r1.fenced - {n.value}, o2);
      if n.value !in r.fenced {
        assert r.fenced + {n.value} - {n.value} == r.fenced;
      }
    }
  }
}
