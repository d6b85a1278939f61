/** The agent's learned routes, the route each dataplane key should hold, and the calls that program
    it, as steps on a value.

    The dataplane is a table and a script of outcomes: the n-th call meets `oracle(n)`. A call that is
    refused, or that never got an answer, may or may not have landed. */
module BusState {
  import opened Order
  import opened RouteBus

  const PUBLIC_VNI := 0
  const ROUTE_CALLS_PER_TICK := 256
  const RETRY_MAX_TICKS := 60

  // ---------------------------------------------------------------- what the bus has taught

  datatype OwnRoute = OwnRoute(nexthops: seq<string>, external: bool)

  /** The learned routes, and this session's replay bookkeeping. */
  datatype Learned = Learned(
    own: map<RouteKey, OwnRoute>, public: map<string, string>, seen: map<nat, set<string>>, rx: map<nat, nat>)

  function SeenOf(l: Learned, vni: nat): set<string> { if vni in l.seen then l.seen[vni] else {} }

  function RxOf(l: Learned, vni: nat): nat { if vni in l.rx then l.rx[vni] else 0 }

  /** resetRouteSnapshot: a new replay epoch for one VNI. */
  function ResetSnapshot(l: Learned, vni: nat): Learned {
    l.(rx := l.rx[vni := 0], seen := l.seen[vni := {}])
  }

  function LearnRoute(l: Learned, k: RouteKey, nexthops: seq<string>, add: bool, external: bool): Learned {
    if add then
      var l' := l.(rx := l.rx[k.vni := RxOf(l, k.vni) + 1], seen := l.seen[k.vni := SeenOf(l, k.vni) + {k.prefix}]);
      if k.vni == PUBLIC_VNI
      then l'.(public := l.public[k.prefix := if nexthops == [] then "" else nexthops[0]])
      else l'.(own := l.own[k := OwnRoute(nexthops, external)])
    else if k.vni == PUBLIC_VNI then l.(public := l.public - {k.prefix})
    else l.(own := l.own - {k})
  }

  /** What this session's replay did not name again. */
  function Stale(l: Learned, vni: nat): set<string> {
    if vni == PUBLIC_VNI then l.public.Keys - SeenOf(l, vni)
    else (set k | k in l.own && k.vni == vni :: k.prefix) - SeenOf(l, vni)
  }

  /** pruneVNI's half on the learned routes: a replay of the wrong length prunes nothing. */
  function Prune(l: Learned, vni: nat, want: nat): Learned {
    if RxOf(l, vni) != want then l
    else if vni == PUBLIC_VNI then l.(public := l.public - Stale(l, vni))
    else l.(own := map k | k in l.own && !(k.vni == vni && k.prefix in Stale(l, vni)) :: l.own[k])
  }

  /** The effect of one server message on what is learned. */
  function Learn(l: Learned, m: ServerMsg): Learned {
    match m
    case RouteUpdate(k, nhs, add, ext) => LearnRoute(l, k, nhs, add, ext)
    case EndOfRib(vni, count) => Prune(l, vni, count)
    case _ => l
  }

  function LearnAll(l: Learned, ms: seq<ServerMsg>): Learned {
    if ms == [] then l else Learn(LearnAll(l, ms[..|ms| - 1]), ms[|ms| - 1])
  }

  // ---------------------------------------------------------------- what a key should hold

  datatype PeerImport = PeerImport(peerVNI: nat, prefixes: seq<string>)

  /** Everything the wanted route of a key depends on. */
  datatype Inputs = Inputs(
    learned: Learned,
    localHosts: set<RouteKey>, ownUnderlays: set<string>,
    peerImports: map<nat, seq<PeerImport>>, egressVNIs: seq<nat>)

  datatype RouteOrigin = OriginOwn | OriginPeer | OriginPublic

  /** A programmed route; Unknown after a failed call, when the key may hold anything. */
  datatype DpRoute =
    | Unknown
    | DpRoute(nexthop: string, external: bool, deliveryVNI: nat, origin: RouteOrigin)

  /** What the dataplane itself stores for a route. */
  datatype DpEntry = DpEntry(nexthop: string, external: bool, deliveryVNI: nat)

  function EntryOf(d: DpRoute): DpEntry
    requires d.DpRoute?
  {
    DpEntry(d.nexthop, d.external, d.deliveryVNI)
  }

  datatype Outcome = Accepted | Refused(landed: bool) | Unreachable(landed: bool)

  predicate Lands(out: Outcome) { out.Accepted? || out.landed }

  /** How prefixes are matched against CIDRs, and how each dataplane call turns out. */
  datatype Env = Env(within: (string, string) -> bool, oracle: nat -> Outcome)

  /** An import with no prefixes exposes nothing. */
  predicate PrefixInCIDRs(c: Env, prefix: string, cidrs: seq<string>) {
    exists i :: 0 <= i < |cidrs| && c.within(prefix, cidrs[i])
  }

  function ForeignNexthop(own: set<string>, nexthops: seq<string>): string {
    if nexthops == [] then ""
    else if nexthops[0] !in own then nexthops[0]
    else ForeignNexthop(own, nexthops[1..])
  }

  /** The first nexthop, or for a local guest's key the first that is not this node. */
  function NexthopFor(i: Inputs, k: RouteKey, nexthops: seq<string>): Option<string> {
    if k !in i.localHosts then (if nexthops == [] then None else Some(nexthops[0]))
    else
      var nh := ForeignNexthop(i.ownUnderlays, nexthops);
      if nh == "" then None else Some(nh)
  }

  function ImportsOf(i: Inputs, vni: nat): seq<PeerImport> {
    if vni in i.peerImports then i.peerImports[vni] else []
  }

  /** The first import that covers the prefix and has a usable learned route for it. */
  function PeerRoute(c: Env, i: Inputs, k: RouteKey, imports: seq<PeerImport>): (d: Option<DpRoute>)
    ensures d.Some? ==> d.value.DpRoute?
  {
    if imports == [] then None
    else
      var im := imports[0];
      var peer := RouteKey(im.peerVNI, k.prefix);
      if peer in i.learned.own && PrefixInCIDRs(c, k.prefix, im.prefixes) &&
         NexthopFor(i, k, i.learned.own[peer].nexthops).Some?
      then Some(DpRoute(NexthopFor(i, k, i.learned.own[peer].nexthops).value, false, im.peerVNI, OriginPeer))
      else PeerRoute(c, i, k, imports[1..])
  }

  function Desired(c: Env, i: Inputs, k: RouteKey): (d: Option<DpRoute>)
    ensures d.Some? ==> d.value.DpRoute?
  {
    if k in i.learned.own then
      match NexthopFor(i, k, i.learned.own[k].nexthops)
      case None => None
      case Some(nh) => Some(DpRoute(nh, i.learned.own[k].external, k.vni, OriginOwn))
    else
      var peer := PeerRoute(c, i, k, ImportsOf(i, k.vni));
      if peer.Some? then peer
      else if k.prefix in i.learned.public && k.vni in i.egressVNIs
      then Some(DpRoute(i.learned.public[k.prefix], true, PUBLIC_VNI, OriginPublic))
      else None
  }

  // ---------------------------------------------------------------- programming a key

  /** A key whose last call the dataplane refused: what it was for, and when to try again. */
  datatype Retry = Retry(want: Option<DpRoute>, failures: nat, nextTick: nat)

  datatype World = World(
    inputs: Inputs,
    programmed: map<RouteKey, DpRoute>,
    retries: map<RouteKey, Retry>,
    resend: seq<RouteKey>,
    ticks: nat,
    table: map<RouteKey, DpEntry>,
    calls: nat)

  function Pow2(n: nat): nat { if n == 0 then 1 else 2 * Pow2(n - 1) }

  function Min(a: nat, b: nat): nat { if a <= b then a else b }

  /** Retries come 1, 2, 4, ... ticks apart, then every RETRY_MAX_TICKS. */
  function Backoff(failures: nat): nat
    requires failures > 0
  {
    Min(Pow2(Min(failures - 1, 30)), RETRY_MAX_TICKS)
  }

  /** A refusal backs the key off; an unreachable dataplane is not the key's fault. */
  function NoteFailure(w: World, k: RouteKey, out: Outcome, want: Option<DpRoute>): map<RouteKey, Retry> {
    if out.Unreachable? then w.retries
    else
      var failures := 1 + if k in w.retries && w.retries[k].want == want then w.retries[k].failures else 0;
      w.retries[k := Retry(want, failures, w.ticks + Backoff(failures))]
  }

  /** The call itself: AddRoute of the wanted route, or WithdrawRoute when nothing is wanted. */
  function Call(c: Env, w: World, k: RouteKey, want: Option<DpRoute>): World
    requires want.Some? ==> want.value.DpRoute?
  {
    var out := c.oracle(w.calls);
    w.(calls := w.calls + 1,
       table :=
         if !Lands(out) then w.table else if want.None? then w.table - {k} else w.table[k := EntryOf(want.value)],
       programmed :=
         if !out.Accepted? then w.programmed[k := Unknown]
         else if want.None? then w.programmed - {k}
         else w.programmed[k := want.value],
       retries := if out.Accepted? then w.retries - {k} else NoteFailure(w, k, out, want))
  }

  /** Without force, a key is called only when it drifted from what was last programmed. */
  predicate Drifted(c: Env, w: World, k: RouteKey) {
    var want := Desired(c, w.inputs, k);
    if want.None? then k in w.programmed
    else !(k in w.programmed && w.programmed[k] == want.value)
  }

  datatype Synced = Synced(world: World, sent: bool, outcome: Outcome)

  function SyncKey(c: Env, w: World, k: RouteKey, force: bool): Synced {
    if Drifted(c, w, k) || force
    then Synced(Call(c, w, k, Desired(c, w.inputs, k)), true, c.oracle(w.calls))
    else Synced(w, false, Accepted)
  }

  /** Unforced syncs of each key of `order` in turn. */
  function SyncEach(c: Env, w: World, order: seq<RouteKey>): World {
    if order == [] then w
    else SyncKey(c, SyncEach(c, w, order[..|order| - 1]), order[|order| - 1], false).world
  }

  // ---------------------------------------------------------------- a route update

  /** The tables that import vni and cover the prefix. */
  ghost function ImporterKeys(c: Env, i: Inputs, vni: nat, prefix: string): set<RouteKey> {
    set local, n | local in i.peerImports && 0 <= n < |i.peerImports[local]| &&
        i.peerImports[local][n].peerVNI == vni && PrefixInCIDRs(c, prefix, i.peerImports[local][n].prefixes)
      :: RouteKey(local, prefix)
  }

  /** The order lists the importing tables of the key; the public VNI has none. */
  ghost predicate ListsImporters(c: Env, i: Inputs, k: RouteKey, importers: seq<RouteKey>) {
    k.vni != PUBLIC_VNI ==> forall j :: j in importers <==> j in ImporterKeys(c, i, k.vni, k.prefix)
  }

  function EgressKeys(egress: seq<nat>, prefix: string): (ks: seq<RouteKey>)
    ensures forall k :: k in ks <==> k.prefix == prefix && k.vni in egress
  {
    if egress == [] then []
    else EgressKeys(egress[..|egress| - 1], prefix) + [RouteKey(egress[|egress| - 1], prefix)]
  }

  /** Programs every key a learned route on (vni, prefix) feeds; `importers` lists the importing ones. */
  function SyncLearned(c: Env, w: World, k: RouteKey, force: bool, importers: seq<RouteKey>): World {
    if k.vni == PUBLIC_VNI then SyncEach(c, w, EgressKeys(w.inputs.egressVNIs, k.prefix))
    else SyncEach(c, SyncKey(c, w, k, force).world, importers)
  }

  function Relearned(w: World, l: Learned): World { w.(inputs := w.inputs.(learned := l)) }

  function Apply(c: Env, w: World, k: RouteKey, nexthops: seq<string>, add: bool, external: bool,
      importers: seq<RouteKey>): World {
    SyncLearned(c, Relearned(w, LearnRoute(w.inputs.learned, k, nexthops, add, external)), k, true, importers)
  }

  /** The pruned prefixes synced in turn, each with its importers. */
  function SyncStale(c: Env, w: World, vni: nat, stale: seq<string>, importers: seq<seq<RouteKey>>): World
    requires |stale| == |importers|
  {
    if stale == [] then w
    else
      var n := |stale| - 1;
      SyncLearned(c, SyncStale(c, w, vni, stale[..n], importers[..n]), RouteKey(vni, stale[n]), false, importers[n])
  }

  /** A replay of the right length: forget what it did not name, and withdraw what that fed. */
  function PruneVNI(c: Env, w: World, vni: nat, want: nat, stale: seq<string>, importers: seq<seq<RouteKey>>): World
    requires |stale| == |importers|
  {
    if RxOf(w.inputs.learned, vni) != want then w
    else SyncStale(c, Relearned(w, Prune(w.inputs.learned, vni, want)), vni, stale, importers)
  }

  // ---------------------------------------------------------------- the tick

  /** Every key the learned routes reach, and every key programmed. */
  ghost function RouteKeys(c: Env, w: World): set<RouteKey> {
    w.inputs.learned.own.Keys
    + (set local, n, k | local in w.inputs.peerImports && 0 <= n < |w.inputs.peerImports[local]| &&
           k in w.inputs.learned.own && k.vni == w.inputs.peerImports[local][n].peerVNI &&
           PrefixInCIDRs(c, k.prefix, w.inputs.peerImports[local][n].prefixes)
         :: RouteKey(local, k.prefix))
    + (set vni, prefix | vni in w.inputs.egressVNIs && prefix in w.inputs.learned.public :: RouteKey(vni, prefix))
    + w.programmed.Keys
  }

  /** A key waits only for the very route whose AddRoute was refused. */
  predicate Waits(c: Env, w: World, k: RouteKey) {
    var want := Desired(c, w.inputs, k);
    k in w.retries && want.Some? && w.retries[k].want == want && w.ticks < w.retries[k].nextTick
  }

  /** A key that wants a different route starts its backoff over. */
  function Unwaited(c: Env, w: World, k: RouteKey): World {
    var want := Desired(c, w.inputs, k);
    if k in w.retries && want.Some? && w.retries[k].want != want then w.(retries := w.retries - {k}) else w
  }

  /** The diff loop: what is left of the budget, and whether it stopped early. */
  datatype Loop = Loop(world: World, budget: nat, stopped: bool)

  function DiffStep(c: Env, l: Loop, k: RouteKey): Loop {
    if l.stopped then l
    else if l.budget == 0 then l.(stopped := true)
    else if Waits(c, l.world, k) then l
    else
      var s := SyncKey(c, Unwaited(c, l.world, k), k, false);
      Loop(s.world, if s.sent then l.budget - 1 else l.budget, s.sent && s.outcome.Unreachable?)
  }

  function DiffAll(c: Env, l: Loop, order: seq<RouteKey>): Loop {
    if order == [] then l else DiffStep(c, DiffAll(c, l, order[..|order| - 1]), order[|order| - 1])
  }

  /** The owed re-sends, head first, within what is left of the budget. */
  function ResendLoop(c: Env, w: World, budget: nat): World
    decreases |w.resend|
  {
    if w.resend == [] || budget == 0 then w
    else
      var k := w.resend[0];
      var w' := w.(resend := w.resend[1..]);
      if Desired(c, w.inputs, k).None? && k !in w.programmed && k !in w.inputs.localHosts
      then ResendLoop(c, w', budget)
      else
        var s := SyncKey(c, w', k, true);
        if s.outcome.Unreachable? then s.world else ResendLoop(c, s.world, budget - 1)
  }

  /** Retries of keys nothing wants or holds any more are dropped first. */
  ghost function Cleaned(c: Env, w: World): World {
    w.(retries := map k | k in w.retries && k in RouteKeys(c, w) :: w.retries[k])
  }

  ghost function Resync(c: Env, w: World, order: seq<RouteKey>): World {
    var l := DiffAll(c, Loop(Cleaned(c, w), ROUTE_CALLS_PER_TICK, false), order);
    if l.stopped then l.world else ResendLoop(c, l.world, l.budget)
  }

  function Ticked(w: World): World { w.(ticks := w.ticks + 1) }

  ghost function Tick(c: Env, w: World, order: seq<RouteKey>): World { Resync(c, Ticked(w), order) }

  // ---------------------------------------------------------------- a restarted dataplane

  /** Held local host keys first, then by VNI and prefix. */
  predicate ResendBefore(local: set<RouteKey>, x: RouteKey, y: RouteKey) {
    if (x in local) != (y in local) then x in local
    else if x.vni != y.vni then x.vni < y.vni
    else Less(x.prefix, y.prefix)
  }

  /** `order` owes every key a re-send. */
  ghost predicate OwesAll(c: Env, w: World, order: seq<RouteKey>) {
    Ascending((x, y) => ResendBefore(w.inputs.localHosts, x, y), order)
      && forall k :: k in order <==> k in RouteKeys(c, w)
  }

  function QueueFullResend(w: World, order: seq<RouteKey>): World { w.(resend := order) }

  // ---------------------------------------------------------------- the local interfaces

  /** An attached interface: the host prefixes of those of its addresses that parse, and its own VTEP or "". */
  datatype LocalInterface = LocalInterface(vni: nat, hosts: seq<string>, underlay: string)

  datatype ListReply = ListFailed | ListOk(ifaces: seq<LocalInterface>, instance: string)

  /** What earlier reads told of the dataplane: its instance id, whether one ever came, whether the last failed. */
  datatype Probe = Probe(instance: string, seen: bool, unreachable: bool)

  const NoProbe := Probe("", false, false)

  function HostsOf(ifaces: seq<LocalInterface>): set<RouteKey> {
    set n, p | 0 <= n < |ifaces| && ifaces[n].vni != PUBLIC_VNI && p in ifaces[n].hosts :: RouteKey(ifaces[n].vni, p)
  }

  function UnderlaysOf(self: string, ifaces: seq<LocalInterface>): set<string> {
    {self} + set n | 0 <= n < |ifaces| && ifaces[n].underlay != "" :: ifaces[n].underlay
  }

  /** The read shows that the dataplane may have restarted. */
  predicate Restarted(p: Probe, reply: ListReply) {
    reply.ListOk? && (p.unreachable || (p.seen && reply.instance != p.instance))
  }

  function Probed(p: Probe, reply: ListReply): Probe {
    match reply
    case ListFailed => p.(unreachable := true)
    case ListOk(_, instance) => Probe(instance, true, false)
  }

  function Foreign(own: set<string>, nexthops: seq<string>): seq<string> {
    if nexthops == [] then []
    else
      var init, nh := nexthops[..|nexthops| - 1], nexthops[|nexthops| - 1];
      if nh in own then Foreign(own, init) else Foreign(own, init) + [nh]
  }

  /** releaseLocalHost: this node's own VTEPs leave the route held for the key, and the key is re-asserted. */
  function Released(c: Env, w: World, k: RouteKey): World {
    var own := w.inputs.learned.own;
    var w' := if k !in own then w
              else Relearned(w,
                w.inputs.learned.(own :=
                  own[k := own[k].(nexthops := Foreign(w.inputs.ownUnderlays, own[k].nexthops))]));
    SyncKey(c, w', k, true).world
  }

  function ReleaseEach(c: Env, w: World, order: seq<RouteKey>): World {
    if order == [] then w else Released(c, ReleaseEach(c, w, order[..|order| - 1]), order[|order| - 1])
  }

  /** The new view of the interfaces; every key whose interface left is released. A failed read keeps the old view. */
  function Refreshed(c: Env, w: World, self: string, reply: ListReply, left: seq<RouteKey>): World {
    match reply
    case ListFailed => w
    case ListOk(ifaces, _) =>
      ReleaseEach(c, w.(inputs := w.inputs.(localHosts := HostsOf(ifaces), ownUnderlays := UnderlaysOf(self, ifaces))),
        left)
  }

  ghost predicate ListsLeft(w: World, reply: ListReply, left: seq<RouteKey>) {
    reply.ListOk? ==> Enumerates(left, w.inputs.localHosts - HostsOf(reply.ifaces))
  }

  // ---------------------------------------------------------------- the whole tick

  /** The orders a tick walked: the released keys, the full re-send it queued, the keys it diffed. */
  datatype TickOrders = TickOrders(left: seq<RouteKey>, resend: seq<RouteKey>, diff: seq<RouteKey>)

  /** A restart, or, for a dataplane without an instance id, a sweep that is due. */
  predicate OwesResend(w: World, p: Probe, reply: ListReply, due: bool) {
    Restarted(p, reply) || (Probed(p, reply).instance == "" && w.resend == [] && due)
  }

  function Swept(c: Env, w: World, p: Probe, self: string, reply: ListReply, due: bool, o: TickOrders): World {
    var w1 := Refreshed(c, Ticked(w), self, reply, o.left);
    if OwesResend(w1, p, reply, due) then QueueFullResend(w1, o.resend) else w1
  }

  /** syncRoutes: the interfaces re-read, a full re-send queued when one is owed, then the resync. */
  ghost function SyncRoutes(c: Env, w: World, p: Probe, self: string, reply: ListReply, due: bool,
      o: TickOrders): World {
    Resync(c, Swept(c, w, p, self, reply, due, o), o.diff)
  }

  /** The orders list what the tick's loops range over. */
  ghost predicate TickOrdered(c: Env, w: World, p: Probe, self: string, reply: ListReply, due: bool, o: TickOrders) {
    var w1 := Refreshed(c, Ticked(w), self, reply, o.left);
    && ListsLeft(w, reply, o.left)
    && (OwesResend(w1, p, reply, due) ==> OwesAll(c, w1, o.resend))
    && Enumerates(o.diff, RouteKeys(c, Swept(c, w, p, self, reply, due, o)))
  }
}
