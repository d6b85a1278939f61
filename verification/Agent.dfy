/** The agent's route state as it is kept: one object edited in place, driving a dataplane object.

    Each method is the matching step of `BusState`; where it ranges over a map it reports the order it
    happened to take. Everything here runs on one goroutine. */
module Agent {
  import opened Order
  import opened RouteBus
  import opened BusState
  import S = BusState

  /** A route table reached by calls that may fail without saying whether they landed. */
  class Dataplane {
    const oracle: nat -> Outcome
    var table: map<RouteKey, DpEntry>
    var calls: nat

    constructor (oracle: nat -> Outcome)
      ensures this.oracle == oracle && table == map[] && calls == 0
    {
      this.oracle := oracle;
      table, calls := map[], 0;
    }

    method AddRoute(k: RouteKey, e: DpEntry) returns (out: Outcome)
      modifies this
      ensures out == oracle(old(calls)) && calls == old(calls) + 1
      ensures table == if Lands(out) then old(table)[k := e] else old(table)
    {
      out := oracle(calls);
      calls := calls + 1;
      if Lands(out) { table := table[k := e]; }
    }

    method WithdrawRoute(k: RouteKey) returns (out: Outcome)
      modifies this
      ensures out == oracle(old(calls)) && calls == old(calls) + 1
      ensures table == if Lands(out) then old(table) - {k} else old(table)
    {
      out := oracle(calls);
      calls := calls + 1;
      if Lands(out) { table := table - {k}; }
    }
  }

  class Bus {
    const within: (string, string) -> bool
    const underlay: string
    const dp: Dataplane

    var learnedOwn: map<RouteKey, OwnRoute>
    var learnedPublic: map<string, string>
    var seen: map<nat, set<string>>
    var rxRoutes: map<nat, nat>
    var localHosts: set<RouteKey>
    var ownUnderlays: set<string>
    var peerImports: map<nat, seq<PeerImport>>
    var egressVNIs: seq<nat>
    var programmed: map<RouteKey, DpRoute>
    var retries: map<RouteKey, Retry>
    var resendQueue: seq<RouteKey>
    var ticks: nat
    var dpInstance: string
    var dpSeen: bool
    var dpUnreachable: bool

    ghost function Ctx(): Env { Env(within, dp.oracle) }

    function Known(): Learned
      reads this
    {
      Learned(learnedOwn, learnedPublic, seen, rxRoutes)
    }

    function In(): Inputs
      reads this
    {
      Inputs(Known(), localHosts, ownUnderlays, peerImports, egressVNIs)
    }

    ghost function State(): World
      reads this, dp
    {
      World(In(), programmed, retries, resendQueue, ticks, dp.table, dp.calls)
    }

    /** What earlier reads of the interfaces told of the dataplane. */
    function Seen(): Probe
      reads this
    {
      Probe(dpInstance, dpSeen, dpUnreachable)
    }

    constructor (within: (string, string) -> bool, underlay: string, dp: Dataplane)
      ensures this.dp == dp && this.within == within && this.underlay == underlay && Seen() == NoProbe
      ensures programmed == map[] && retries == map[] && resendQueue == [] && ticks == 0
      ensures In() == Inputs(Learned(map[], map[], map[], map[]), {}, {}, map[], [])
    {
      this.within, this.underlay, this.dp := within, underlay, dp;
      dpInstance, dpSeen, dpUnreachable := "", false, false;
      learnedOwn, learnedPublic, seen, rxRoutes := map[], map[], map[], map[];
      localHosts, ownUnderlays, peerImports, egressVNIs := {}, {}, map[], [];
      programmed, retries, resendQueue, ticks := map[], map[], [], 0;
    }

    function DesiredRoute(k: RouteKey): Option<DpRoute>
      reads this
    {
      Desired(Env(within, dp.oracle), In(), k)
    }

    method NoteFailure(k: RouteKey, out: Outcome, want: Option<DpRoute>)
      modifies this`retries
      ensures retries == S.NoteFailure(old(State()), k, out, want)
    {
      if out.Unreachable? { return; }
      var r := if k in retries && retries[k].want == want then retries[k] else Retry(want, 0, 0);
      var failures := r.failures + 1;
      retries := retries[k := Retry(want, failures, ticks + Backoff(failures))];
    }

    /** The withdraw of a key nothing is wanted for; a failed call leaves it unknown. */
    method Unprogram(k: RouteKey) returns (out: Outcome)
      modifies this`programmed, this`retries, dp
      ensures State() == Call(Ctx(), old(State()), k, None) && out == dp.oracle(old(dp.calls))
    {
      hide Backoff;
      out := dp.WithdrawRoute(k);
      if out.Accepted? {
        retries := retries - {k};
        programmed := programmed - {k};
      } else {
        NoteFailure(k, out, None);
        programmed := programmed[k := Unknown];
      }
    }

    /** The add of a wanted route; a failed call leaves the key unknown. */
    method Program(k: RouteKey, want: DpRoute) returns (out: Outcome)
      requires want.DpRoute?
      modifies this`programmed, this`retries, dp
      ensures State() == Call(Ctx(), old(State()), k, Some(want)) && out == dp.oracle(old(dp.calls))
    {
      hide Backoff;
      out := dp.AddRoute(k, EntryOf(want));
      if out.Accepted? {
        retries := retries - {k};
        programmed := programmed[k := want];
      } else {
        NoteFailure(k, out, Some(want));
        programmed := programmed[k := Unknown];
      }
    }

    method SyncKey(k: RouteKey, force: bool) returns (sent: bool, out: Outcome)
      modifies this`programmed, this`retries, dp
      ensures Synced(State(), sent, out) == S.SyncKey(Ctx(), old(State()), k, force)
    {
      hide Desired, Call;
      var want := DesiredRoute(k);
      if want.None? {
        if k !in programmed && !force { return false, Accepted; }
        out := Unprogram(k);
        return true, out;
      }
      if k in programmed && programmed[k] == want.value && !force { return false, Accepted; }
      out := Program(k, want.value);
      return true, out;
    }

    /** importersOf, filtered by prefix, each table synced as it is found. */
    method SyncImporters(k: RouteKey) returns (ghost order: seq<RouteKey>)
      modifies this`programmed, this`retries, dp
      ensures State() == SyncEach(Ctx(), old(State()), order)
      ensures forall j :: j in order <==> j in ImporterKeys(Ctx(), old(In()), k.vni, k.prefix)
    {
      hide S.SyncKey;
      order := [];
      var todo := peerImports.Keys;
      while todo != {}
        invariant todo <= peerImports.Keys
        invariant State() == SyncEach(Ctx(), old(State()), order)
        invariant forall j :: j in order <==> j in ImporterKeys(Ctx(), old(In()), k.vni, k.prefix) && j.vni !in todo
        decreases |todo|
      {
        var local :| local in todo;
        var imports := peerImports[local];
        ghost var before := order;
        for n := 0 to |imports|
          invariant todo <= peerImports.Keys
          invariant State() == SyncEach(Ctx(), old(State()), order)
          invariant forall j :: j in order <==>
            j in before || (j == RouteKey(local, k.prefix) && ImportsWithin(Ctx(), imports[..n], k))
        {
          assert imports[..n + 1] == imports[..n] + [imports[n]];
          ImportsWithinOneMore(Ctx(), imports[..n], imports[n], k);
          if imports[n].peerVNI == k.vni && PrefixInCIDRs(Env(within, dp.oracle), k.prefix, imports[n].prefixes) {
            ghost var next := order + [RouteKey(local, k.prefix)];
            assert next[..|order|] == order;
            var _, _ := SyncKey(RouteKey(local, k.prefix), false);
            order := next;
          }
        }
        assert imports[..|imports|] == imports;
        ImporterKeysOf(Ctx(), old(In()), k, local);
        todo := todo - {local};
      }
    }

    method SyncLearned(k: RouteKey, force: bool) returns (ghost importers: seq<RouteKey>)
      modifies this`programmed, this`retries, dp
      ensures State() == S.SyncLearned(Ctx(), old(State()), k, force, importers)
      ensures ListsImporters(Ctx(), old(In()), k, importers)
    {
      hide S.SyncKey;
      importers := [];
      if k.vni == PUBLIC_VNI {
        for n := 0 to |egressVNIs|
          invariant State() == SyncEach(Ctx(), old(State()), EgressKeys(egressVNIs[..n], k.prefix))
        {
          assert egressVNIs[..n + 1][..n] == egressVNIs[..n];
          ghost var next := EgressKeys(egressVNIs[..n + 1], k.prefix);
          assert next[..|next| - 1] == EgressKeys(egressVNIs[..n], k.prefix);
          var _, _ := SyncKey(RouteKey(egressVNIs[n], k.prefix), false);
        }
        assert egressVNIs[..|egressVNIs|] == egressVNIs;
        return;
      }
      var _, _ := SyncKey(k, force);
      importers := SyncImporters(k);
    }

    /** Counts one ADD and marks it seen. */
    method NoteAdd(k: RouteKey)
      modifies this`seen, this`rxRoutes
      ensures rxRoutes == old(rxRoutes)[k.vni := RxOf(old(Known()), k.vni) + 1]
      ensures seen == old(seen)[k.vni := SeenOf(old(Known()), k.vni) + {k.prefix}]
    {
      rxRoutes := rxRoutes[k.vni := (if k.vni in rxRoutes then rxRoutes[k.vni] else 0) + 1];
      seen := seen[k.vni := (if k.vni in seen then seen[k.vni] else {}) + {k.prefix}];
    }

    /** Records one RouteUpdate, counted and marked seen. */
    method NoteUpdate(k: RouteKey, nexthops: seq<string>, add: bool, external: bool)
      modifies this`learnedOwn, this`learnedPublic, this`seen, this`rxRoutes
      ensures Known() == LearnRoute(old(Known()), k, nexthops, add, external)
    {
      hide RxOf, SeenOf;
      if add {
        NoteAdd(k);
        if k.vni == PUBLIC_VNI {
          learnedPublic := learnedPublic[k.prefix := if nexthops == [] then "" else nexthops[0]];
        } else {
          learnedOwn := learnedOwn[k := OwnRoute(nexthops, external)];
        }
      } else if k.vni == PUBLIC_VNI {
        learnedPublic := learnedPublic - {k.prefix};
      } else {
        learnedOwn := learnedOwn - {k};
      }
    }

    /** apply: the update is recorded, then the keys it feeds are programmed. */
    method Apply(k: RouteKey, nexthops: seq<string>, add: bool, external: bool) returns (ghost importers: seq<RouteKey>)
      modifies this, dp
      ensures State() == S.Apply(Ctx(), old(State()), k, nexthops, add, external, importers)
      ensures ListsImporters(Ctx(), old(In()), k, importers)
    {
      hide S.SyncLearned, ImporterKeys, LearnRoute;
      NoteUpdate(k, nexthops, add, external);
      importers := SyncLearned(k, true);
      SameImporters(Ctx(), old(In()), Known(), k);
    }

    /** The end of a replay: forget and unprogram what it did not name, if it was whole. */
    method PruneVNI(vni: nat, want: nat) returns (ghost stale: seq<string>, ghost importers: seq<seq<RouteKey>>)
      modifies this, dp
      ensures |stale| == |importers| && State() == S.PruneVNI(Ctx(), old(State()), vni, want, stale, importers)
      ensures RxOf(old(Known()), vni) == want ==> Enumerates(stale, Stale(old(Known()), vni))
      ensures forall n :: 0 <= n < |stale| ==> ListsImporters(Ctx(), old(In()), RouteKey(vni, stale[n]), importers[n])
    {
      hide SyncStale, ImporterKeys;
      stale, importers := [], [];
      if (if vni in rxRoutes then rxRoutes[vni] else 0) != want { return; }
      var forgotten := ForgetStale(vni, want);
      ghost var l := Known();
      stale, importers := UnprogramAll(vni, forgotten);
      forall n | 0 <= n < |stale| ensures ListsImporters(Ctx(), old(In()), RouteKey(vni, stale[n]), importers[n]) {
        SameImporters(Ctx(), old(In()), l, RouteKey(vni, stale[n]));
      }
    }

    method ForgetStale(vni: nat, ghost want: nat) returns (stale: set<string>)
      requires RxOf(Known(), vni) == want
      modifies this`learnedOwn, this`learnedPublic
      ensures stale == Stale(old(Known()), vni)
      ensures State() == Relearned(old(State()), Prune(old(Known()), vni, want))
    {
      var named := if vni in seen then seen[vni] else {};
      if vni == PUBLIC_VNI {
        stale := learnedPublic.Keys - named;
        learnedPublic := learnedPublic - stale;
      } else {
        stale := (set k | k in learnedOwn && k.vni == vni :: k.prefix) - named;
        learnedOwn := map k | k in learnedOwn && !(k.vni == vni && k.prefix in stale) :: learnedOwn[k];
      }
    }

    method UnprogramAll(vni: nat, prefixes: set<string>)
      returns (ghost stale: seq<string>, ghost importers: seq<seq<RouteKey>>)
      modifies this`programmed, this`retries, dp
      ensures Enumerates(stale, prefixes) && |stale| == |importers|
      ensures State() == SyncStale(Ctx(), old(State()), vni, stale, importers)
      ensures forall n :: 0 <= n < |stale| ==> ListsImporters(Ctx(), old(In()), RouteKey(vni, stale[n]), importers[n])
    {
      hide S.SyncLearned, ListsImporters;
      stale, importers := [], [];
      var todo := prefixes;
      while todo != {}
        invariant todo <= prefixes && Enumerates(stale, prefixes - todo) && |stale| == |importers|
        invariant State() == SyncStale(Ctx(), old(State()), vni, stale, importers)
        invariant forall n :: 0 <= n < |stale| ==>
                ListsImporters(Ctx(), old(In()), RouteKey(vni, stale[n]), importers[n])
        decreases |todo|
      {
        var p :| p in todo;
        ghost var was, had := stale, importers;
        ghost var more := SyncLearned(RouteKey(vni, p), false);
        stale, importers := stale + [p], importers + [more];
        assert stale[..|was|] == was && importers[..|was|] == had;
        todo := todo - {p};
      }
    }

    /** routeKeys: every key the learned routes reach, plus every key programmed. */
    method AllRouteKeys() returns (keys: set<RouteKey>)
      ensures keys == RouteKeys(Ctx(), State())
    {
      hide PrefixInCIDRs;
      keys := learnedOwn.Keys;
      var imported := AllImported();
      ImportedKeys(Ctx(), State(), imported);
      var public := AllEgress();
      keys := keys + imported + public + programmed.Keys;
    }

    method AllImported() returns (imported: set<RouteKey>)
      ensures forall j :: j in imported <==> j.vni in peerImports && Imported(Ctx(), In(), j, |peerImports[j.vni]|)
    {
      hide Imported;
      imported := {};
      var todo := peerImports.Keys;
      while todo != {}
        invariant todo <= peerImports.Keys
        invariant forall j :: j in imported <==>
                j.vni in peerImports && j.vni !in todo && Imported(Ctx(), In(), j, |peerImports[j.vni]|)
        decreases |todo|
      {
        var local :| local in todo;
        var found := ImportedInto(local);
        imported := imported + found;
        todo := todo - {local};
      }
    }

    method ImportedInto(local: nat) returns (found: set<RouteKey>)
      requires local in peerImports
      ensures forall j :: j in found <==> j.vni == local && Imported(Ctx(), In(), j, |peerImports[local]|)
    {
      hide PrefixInCIDRs;
      found := {};
      for n := 0 to |peerImports[local]|
        invariant forall j :: j in found <==> j.vni == local && Imported(Ctx(), In(), j, n)
      {
        var more := ImportedBy(local, peerImports[local][n]);
        ImportedOneMore(Ctx(), In(), local, n);
        found := found + more;
      }
    }

    method AllEgress() returns (keys: set<RouteKey>)
      ensures keys == set vni, prefix | vni in egressVNIs && prefix in learnedPublic :: RouteKey(vni, prefix)
    {
      keys := {};
      for n := 0 to |egressVNIs|
        invariant keys == set vni, prefix | vni in egressVNIs[..n] && prefix in learnedPublic :: RouteKey(vni, prefix)
      {
        assert egressVNIs[..n + 1] == egressVNIs[..n] + [egressVNIs[n]];
        keys := keys + set p | p in learnedPublic :: RouteKey(egressVNIs[n], p);
      }
      assert egressVNIs[..|egressVNIs|] == egressVNIs;
    }

    /** The prefixes one import brings into a local table. */
    method ImportedBy(local: nat, im: PeerImport) returns (found: set<RouteKey>)
      ensures forall j :: j in found <==>
              j.vni == local && RouteKey(im.peerVNI, j.prefix) in learnedOwn
                && PrefixInCIDRs(Ctx(), j.prefix, im.prefixes)
    {
      found := {};
      var todo := learnedOwn.Keys;
      while todo != {}
        invariant todo <= learnedOwn.Keys
        invariant forall j :: j in found <==>
          && j.vni == local && RouteKey(im.peerVNI, j.prefix) in learnedOwn.Keys - todo
             && PrefixInCIDRs(Ctx(), j.prefix, im.prefixes)
        decreases |todo|
      {
        var k :| k in todo;
        if k.vni == im.peerVNI && PrefixInCIDRs(Env(within, dp.oracle), k.prefix, im.prefixes) {
          found := found + {RouteKey(local, k.prefix)};
        }
        todo := todo - {k};
      }
    }

    /** Owes every key a re-send, held local host keys first. */
    method QueueFullResend() returns (ghost order: seq<RouteKey>)
      modifies this`resendQueue
      ensures OwesAll(Ctx(), old(State()), order) && State() == S.QueueFullResend(old(State()), order)
    {
      hide RouteKeys;
      var keys := AllRouteKeys();
      var listed: seq<RouteKey> := [];
      var todo := keys;
      while todo != {}
        invariant todo <= keys && Enumerates(listed, keys - todo)
        invariant State() == old(State())
        decreases |todo|
      {
        var k :| k in todo;
        listed := listed + [k];
        todo := todo - {k};
      }
      var local := localHosts;
      resendQueue := Sort((x, y) => ResendBefore(local, x, y), listed);
      ResendOrder(local, listed);
      order := resendQueue;
    }

    // -------------------------------------------------------------- the tick

    /** backingOff: still waiting for the very route that was refused? A changed wish ends the wait. */
    method BackingOff(k: RouteKey) returns (waits: bool)
      modifies this`retries
      ensures waits == Waits(Ctx(), old(State()), k)
      ensures State() == Unwaited(Ctx(), old(State()), k)
    {
      hide Desired;
      if k !in retries { return false; }
      var want := DesiredRoute(k);
      if want.None? { return false; }
      if retries[k].want != want {
        retries := retries - {k};
        return false;
      }
      return ticks < retries[k].nextTick;
    }

    /** The diff half of a tick: drifted keys, in whatever order, until the budget runs out. */
    method DiffKeys(keys: set<RouteKey>) returns (budget: nat, stopped: bool, ghost order: seq<RouteKey>)
      modifies this`programmed, this`retries, dp
      ensures Enumerates(order, keys)
      ensures Loop(State(), budget, stopped) == DiffAll(Ctx(), Loop(old(State()), ROUTE_CALLS_PER_TICK, false), order)
    {
      hide DiffStep;
      budget, stopped, order := ROUTE_CALLS_PER_TICK, false, [];
      var todo := keys;
      while todo != {}
        invariant todo <= keys && Enumerates(order, keys - todo)
        invariant Loop(State(), budget, stopped) ==
                DiffAll(Ctx(), Loop(old(State()), ROUTE_CALLS_PER_TICK, false), order)
        decreases |todo|
      {
        var k :| k in todo;
        ghost var next := order + [k];
        assert next[..|order|] == order;
        budget, stopped := DiffOne(budget, stopped, k);
        order := next;
        todo := todo - {k};
      }
    }

    method DiffOne(b: nat, s: bool, k: RouteKey) returns (budget: nat, stopped: bool)
      modifies this`programmed, this`retries, dp
      ensures Loop(State(), budget, stopped) == DiffStep(Ctx(), Loop(old(State()), b, s), k)
    {
      hide Desired, S.SyncKey;
      budget, stopped := b, s;
      if stopped { return; }
      if budget == 0 { return 0, true; }
      ghost var w := State();
      UnwaitedKeeps(Ctx(), w, k);
      var waits := BackingOff(k);
      if waits { return; }
      var sent, out := SyncKey(k, false);
      if sent { budget := budget - 1; }
      stopped := sent && out.Unreachable?;
    }

    /** The owed re-sends, within what the diff left of the budget. */
    method PayResends(b: nat)
      modifies this`programmed, this`retries, this`resendQueue, dp
      ensures State() == ResendLoop(Ctx(), old(State()), b)
    {
      hide Desired, S.SyncKey;
      var budget := b;
      while resendQueue != [] && budget > 0
        invariant ResendLoop(Ctx(), State(), budget) == ResendLoop(Ctx(), old(State()), b)
        decreases |resendQueue|
      {
        var k := resendQueue[0];
        resendQueue := resendQueue[1..];
        var want := DesiredRoute(k);
        if want.None? && k !in programmed && k !in localHosts { continue; }
        var sent, out := SyncKey(k, true);
        ForcedSends(Ctx(), k);
        if out.Unreachable? { return; }
        budget := budget - 1;
      }
    }

    method ResyncRoutes() returns (ghost order: seq<RouteKey>)
      modifies this`programmed, this`retries, this`resendQueue, dp
      ensures Enumerates(order, RouteKeys(Ctx(), old(State())))
      ensures State() == Resync(Ctx(), old(State()), order)
    {
      hide RouteKeys, DiffAll, ResendLoop;
      var keys := AllRouteKeys();
      retries := map k | k in retries && k in keys :: retries[k];
      assert State() == Cleaned(Ctx(), old(State()));
      var budget, stopped;
      budget, stopped, order := DiffKeys(keys);
      if stopped { return; }
      PayResends(budget);
    }

    // -------------------------------------------------------------- the local interfaces

    method ReleaseLocalHost(k: RouteKey)
      modifies this`learnedOwn, this`programmed, this`retries, dp
      ensures State() == Released(Ctx(), old(State()), k)
    {
      hide S.SyncKey;
      if k in learnedOwn {
        var kept: seq<string> := [];
        var nexthops := learnedOwn[k].nexthops;
        for n := 0 to |nexthops|
          invariant kept == Foreign(ownUnderlays, nexthops[..n])
        {
          assert nexthops[..n + 1][..n] == nexthops[..n];
          if nexthops[n] !in ownUnderlays { kept := kept + [nexthops[n]]; }
        }
        assert nexthops[..|nexthops|] == nexthops;
        learnedOwn := learnedOwn[k := learnedOwn[k].(nexthops := kept)];
      }
      var _, _ := SyncKey(k, true);
    }

    method ReleaseAll(keys: set<RouteKey>) returns (ghost left: seq<RouteKey>)
      modifies this`learnedOwn, this`programmed, this`retries, dp
      ensures Enumerates(left, keys) && State() == ReleaseEach(Ctx(), old(State()), left)
    {
      hide Released;
      left := [];
      var todo := keys;
      while todo != {}
        invariant todo <= keys && Enumerates(left, keys - todo)
        invariant State() == ReleaseEach(Ctx(), old(State()), left)
        decreases |todo|
      {
        var k :| k in todo;
        ghost var next := left + [k];
        assert next[..|left|] == left;
        ReleaseLocalHost(k);
        left := next;
        todo := todo - {k};
      }
    }

    method ReadInterfaces(ifaces: seq<LocalInterface>) returns (hosts: set<RouteKey>, own: set<string>)
      ensures hosts == HostsOf(ifaces) && own == UnderlaysOf(underlay, ifaces)
    {
      hosts, own := {}, {underlay};
      for n := 0 to |ifaces|
        invariant hosts == HostsOf(ifaces[..n]) && own == UnderlaysOf(underlay, ifaces[..n])
      {
        var i := ifaces[n];
        OneMoreInterface(underlay, ifaces, n);
        if i.underlay != "" { own := own + {i.underlay}; }
        if i.vni == PUBLIC_VNI { continue; }
        hosts := hosts + set p | p in i.hosts :: RouteKey(i.vni, p);
      }
      assert ifaces[..|ifaces|] == ifaces;
    }

    method NoteReply(reply: ListReply) returns (restarted: bool)
      modifies this`dpInstance, this`dpSeen, this`dpUnreachable
      ensures restarted == Restarted(old(Seen()), reply) && Seen() == Probed(old(Seen()), reply)
              && State() == old(State())
    {
      if reply.ListFailed? {
        dpUnreachable := true;
        return false;
      }
      restarted := dpUnreachable || (dpSeen && reply.instance != dpInstance);
      dpInstance, dpSeen, dpUnreachable := reply.instance, true, false;
    }

    method AdoptView(ifaces: seq<LocalInterface>) returns (gone: set<RouteKey>)
      modifies this`localHosts, this`ownUnderlays
      ensures gone == old(localHosts) - HostsOf(ifaces)
      ensures State() ==
              old(State()).(inputs :=
                old(In()).(localHosts := HostsOf(ifaces), ownUnderlays := UnderlaysOf(underlay, ifaces)))
    {
      hide HostsOf, UnderlaysOf;
      var next, own := ReadInterfaces(ifaces);
      gone := localHosts - next;
      localHosts, ownUnderlays := next, own;
    }

    /** refreshLocalHosts: re-reads the interfaces and says whether the dataplane may have restarted. */
    method RefreshLocalHosts(reply: ListReply) returns (restarted: bool, ghost left: seq<RouteKey>)
      modifies this`learnedOwn, this`localHosts, this`ownUnderlays, this`programmed, this`retries,
               this`dpInstance, this`dpSeen, this`dpUnreachable, dp
      ensures restarted == Restarted(old(Seen()), reply) && Seen() == Probed(old(Seen()), reply)
      ensures ListsLeft(old(State()), reply, left) && State() == Refreshed(Ctx(), old(State()), underlay, reply, left)
    {
      hide ReleaseEach, HostsOf, UnderlaysOf, Restarted, Probed, Enumerates;
      restarted := NoteReply(reply);
      left := [];
      if reply.ListFailed? { return; }
      var gone := AdoptView(reply.ifaces);
      left := ReleaseAll(gone);
    }

    /** Queues the full re-send a restart calls for, or a sweep that is due. */
    method QueueIfOwed(restarted: bool, due: bool) returns (ghost resend: seq<RouteKey>)
      modifies this`resendQueue
      ensures var owed := restarted || (dpInstance == "" && old(resendQueue) == [] && due);
              && (owed ==> OwesAll(Ctx(), old(State()), resend))
              && State() == if owed then S.QueueFullResend(old(State()), resend) else old(State())
    {
      hide RouteKeys, OwesAll;
      resend := [];
      if restarted { resend := QueueFullResend(); }
      if dpInstance == "" && resendQueue == [] && due {
        SameKeys(Ctx(), old(State()), []);
        resend := QueueFullResend();
      }
    }

    method CountTick()
      modifies this`ticks
      ensures State() == Ticked(old(State()))
    {
      ticks := ticks + 1;
    }

    /** One reconcile tick; `due` says whether the slow sweep's time has come. */
    method SyncRoutes(reply: ListReply, due: bool) returns (ghost o: TickOrders)
      modifies this, dp
      ensures TickOrdered(Ctx(), old(State()), old(Seen()), underlay, reply, due, o)
      ensures State() == S.SyncRoutes(Ctx(), old(State()), old(Seen()), underlay, reply, due, o)
      ensures Seen() == Probed(old(Seen()), reply)
    {
      hide Resync, Refreshed, RouteKeys, OwesAll, Restarted, Probed, Enumerates, HostsOf;
      CountTick();
      var restarted;
      ghost var left, diff;
      restarted, left := RefreshLocalHosts(reply);
      ghost var w1 := State();
      assert w1 == Refreshed(Ctx(), Ticked(old(State())), underlay, reply, left);
      ghost var resend := QueueIfOwed(restarted, due);
      ghost var w2 := State();
      assert w2 == if OwesResend(w1, old(Seen()), reply, due) then S.QueueFullResend(w1, resend) else w1;
      diff := ResyncRoutes();
      o := TickOrders(left, resend, diff);
    }
  }

  // ---------------------------------------------------------------- helpers of the loops

  predicate ImportsWithin(c: Env, imports: seq<PeerImport>, k: RouteKey) {
    exists i :: 0 <= i < |imports| && imports[i].peerVNI == k.vni && PrefixInCIDRs(c, k.prefix, imports[i].prefixes)
  }

  lemma ImportsWithinOneMore(c: Env, imports: seq<PeerImport>, im: PeerImport, k: RouteKey)
    ensures ImportsWithin(c, imports + [im], k) <==>
            ImportsWithin(c, imports, k) || (im.peerVNI == k.vni && PrefixInCIDRs(c, k.prefix, im.prefixes))
  {
    var all := imports + [im];
    if ImportsWithin(c, imports, k) {
      var i :| 0 <= i < |imports| && imports[i].peerVNI == k.vni && PrefixInCIDRs(c, k.prefix, imports[i].prefixes);
      assert all[i] == imports[i];
    }
    assert all[|imports|] == im;
  }

  lemma ImporterKeysOf(c: Env, i: Inputs, k: RouteKey, local: nat)
    requires local in i.peerImports
    ensures RouteKey(local, k.prefix) in ImporterKeys(c, i, k.vni, k.prefix) <==>
            ImportsWithin(c, i.peerImports[local], k)
    ensures forall j :: j in ImporterKeys(c, i, k.vni, k.prefix) ==> j.prefix == k.prefix && j.vni in i.peerImports
  {
  }

  lemma SameImporters(c: Env, i: Inputs, l: Learned, k: RouteKey)
    ensures ImporterKeys(c, i.(learned := l), k.vni, k.prefix) == ImporterKeys(c, i, k.vni, k.prefix)
  {
  }

  /** One of the first n imports of j's table brings j in. */
  predicate Imported(c: Env, i: Inputs, j: RouteKey, n: nat)
    requires j.vni in i.peerImports && n <= |i.peerImports[j.vni]|
  {
    exists m :: 0 <= m < n && RouteKey(i.peerImports[j.vni][m].peerVNI, j.prefix) in i.learned.own &&
      PrefixInCIDRs(c, j.prefix, i.peerImports[j.vni][m].prefixes)
  }

  lemma ImportedOneMore(c: Env, i: Inputs, local: nat, n: nat)
    requires local in i.peerImports && n < |i.peerImports[local]|
    ensures forall j: RouteKey :: j.vni == local ==>
              (Imported(c, i, j, n + 1) <==>
                 Imported(c, i, j, n) || (RouteKey(i.peerImports[local][n].peerVNI, j.prefix) in i.learned.own &&
                                          PrefixInCIDRs(c, j.prefix, i.peerImports[local][n].prefixes)))
  {
  }

  lemma ImportedKeys(c: Env, w: World, imported: set<RouteKey>)
    requires forall j :: j in imported <==>
             j.vni in w.inputs.peerImports && Imported(c, w.inputs, j, |w.inputs.peerImports[j.vni]|)
    ensures imported == set local, n, k | local in w.inputs.peerImports && 0 <= n < |w.inputs.peerImports[local]| &&
                            k in w.inputs.learned.own && k.vni == w.inputs.peerImports[local][n].peerVNI &&
                            PrefixInCIDRs(c, k.prefix, w.inputs.peerImports[local][n].prefixes)
                          :: RouteKey(local, k.prefix)
  {
    var i := w.inputs;
    forall j | j in imported
      ensures exists local, n, k :: local in i.peerImports && 0 <= n < |i.peerImports[local]| && k in i.learned.own &&
                k.vni == i.peerImports[local][n].peerVNI
                  && PrefixInCIDRs(c, k.prefix, i.peerImports[local][n].prefixes) &&
                j == RouteKey(local, k.prefix)
    {
      var m :| 0 <= m < |i.peerImports[j.vni]|
        && RouteKey(i.peerImports[j.vni][m].peerVNI, j.prefix) in i.learned.own &&
        PrefixInCIDRs(c, j.prefix, i.peerImports[j.vni][m].prefixes);
      var k := RouteKey(i.peerImports[j.vni][m].peerVNI, j.prefix);
      assert j == RouteKey(j.vni, k.prefix);
    }
  }

  lemma ResendOrder(local: set<RouteKey>, listed: seq<RouteKey>)
    requires forall i, j :: 0 <= i < j < |listed| ==> listed[i] != listed[j]
    ensures Ascending((x, y) => ResendBefore(local, x, y), Sort((x, y) => ResendBefore(local, x, y), listed))
  {
    var less := (x, y) => ResendBefore(local, x, y);
    StringsStrictlyOrdered();
    assert StrictOrder(less);
    forall i, j | 0 <= i < j < |listed| ensures less(listed[i], listed[j]) || less(listed[j], listed[i]) {
      assert listed[i].prefix != listed[j].prefix || listed[i].vni != listed[j].vni;
    }
    SortAscending(less, listed);
  }

  lemma OneMoreInterface(self: string, ifaces: seq<LocalInterface>, n: nat)
    requires n < |ifaces|
    ensures var i := ifaces[n];
            && HostsOf(ifaces[..n + 1]) ==
               HostsOf(ifaces[..n]) + (if i.vni == PUBLIC_VNI then {} else set p | p in i.hosts :: RouteKey(i.vni, p))
            && UnderlaysOf(self, ifaces[..n + 1]) ==
               UnderlaysOf(self, ifaces[..n]) + if i.underlay == "" then {} else {i.underlay}
  {
    var a, b := ifaces[..n], ifaces[..n + 1];
    assert forall m :: 0 <= m < |b| ==> b[m] == if m < n then a[m] else ifaces[n];
    assert b[n] == ifaces[n] && forall m :: 0 <= m < n ==> a[m] == b[m];
  }

  /** Queueing a re-send changes no key. */
  lemma SameKeys(c: Env, w: World, order: seq<RouteKey>)
    ensures RouteKeys(c, S.QueueFullResend(w, order)) == RouteKeys(c, w)
    ensures forall o :: OwesAll(c, S.QueueFullResend(w, order), o) <==> OwesAll(c, w, o)
  {
  }

  lemma UnwaitedKeeps(c: Env, w: World, k: RouteKey)
    ensures Waits(c, w, k) ==> Unwaited(c, w, k) == w
  {
  }

  lemma ForcedSends(c: Env, k: RouteKey)
    ensures forall w :: S.SyncKey(c, w, k, true).sent
  {
  }
}
