/** The reflector's table as a value, and each of its operations as a step on it.

    Where the operation ranges over a map, the step takes the order it happened to walk. Everything a
    sink is handed is kept in `sent`, in order: single deltas, and whole snapshots. */
module RibState {
  import opened Order
  import opened Addresses
  import opened RouteBus
  import opened OwnedTable

  /** A session's outbound path: the node id it speaks for and which session it is. */
  datatype Sink = Sink(id: string, session: nat)

  datatype Envelope = Delta(msg: ServerMsg) | Snapshot(msgs: seq<ServerMsg>)

  datatype RouteEntry = RouteEntry(origins: map<string, seq<string>>, external: bool)

  datatype Subscription = Subscription(vni: nat, id: string)

  type Nats = Owned<NatKey, NatBlock>
  type Publics = Owned<PublicKey, PublicRecord>

  datatype Rib = Rib(
    routes: map<RouteKey, RouteEntry>,
    byOrigin: map<string, set<RouteKey>>,
    subscribers: map<Subscription, Sink>,
    fenced: set<Prefix>,
    origins: map<string, nat>,
    nextToken: nat,
    nats: Nats,
    publics: Publics,
    sinks: map<string, Sink>,
    globalSnap: Option<seq<ServerMsg>>,
    sent: map<Sink, seq<Envelope>>)

  ghost function NewRib(): Rib {
    Rib(map[], map[], map[], {}, map[], 0, Empty(), Empty(), map[], None, map[])
  }

  // ---------------------------------------------------------------- what is advertised

  ghost function NexthopSet(origins: map<string, seq<string>>): set<string> {
    set o, nh | o in origins && nh in origins[o] :: nh
  }

  ghost predicate Fenced(t: Texts, nh: string, fenced: set<Prefix>) {
    t.ip(nh).Some? && exists n :: n in fenced && n.Contains(t.ip(nh).value.v6, t.ip(nh).value.bits)
  }

  ghost function Visible(t: Texts, e: RouteEntry, fenced: set<Prefix>): set<string> {
    set nh | nh in NexthopSet(e.origins) && !Fenced(t, nh, fenced)
  }

  /** The sorted nexthops no fence hides; empty means the key is not advertised. */
  ghost function Advertised(t: Texts, e: RouteEntry, fenced: set<Prefix>): seq<string> {
    Sorted(Visible(t, e, fenced))
  }

  const NoEntry := RouteEntry(map[], false)

  function EntryAt(routes: map<RouteKey, RouteEntry>, k: RouteKey): RouteEntry {
    if k in routes then routes[k] else NoEntry
  }

  ghost function AdvertisedAt(t: Texts, r: Rib, k: RouteKey): seq<string> {
    Advertised(t, EntryAt(r.routes, k), r.fenced)
  }

  // ---------------------------------------------------------------- fanout

  function Log(sent: map<Sink, seq<Envelope>>, s: Sink): seq<Envelope> {
    if s in sent then sent[s] else []
  }

  function Deliver(sent: map<Sink, seq<Envelope>>, to: set<Sink>, e: Envelope): map<Sink, seq<Envelope>> {
    map s | s in sent.Keys + to :: if s in to then Log(sent, s) + [e] else sent[s]
  }

  lemma LogAfter(sent: map<Sink, seq<Envelope>>, to: set<Sink>, e: Envelope, s: Sink)
    ensures Log(Deliver(sent, to, e), s) == if s in to then Log(sent, s) + [e] else Log(sent, s)
  {
  }

  lemma DeliverOneMore(sent: map<Sink, seq<Envelope>>, to: set<Sink>, s: Sink, e: Envelope)
    requires s !in to
    ensures Deliver(Deliver(sent, to, e), {s}, e) == Deliver(sent, to + {s}, e)
  {
  }

  lemma DeliverNone(sent: map<Sink, seq<Envelope>>, e: Envelope)
    ensures Deliver(sent, {}, e) == sent
  {
  }

  /** The sinks of vni's subscribers, those with a skipped id left out. */
  function Audience(subscribers: map<Subscription, Sink>, vni: nat, skip: set<string>): set<Sink> {
    set sub | sub in subscribers && sub.vni == vni && sub.id !in skip :: subscribers[sub]
  }

  function Fanout(r: Rib, k: RouteKey, nexthops: seq<string>, skip: set<string>, external: bool): Rib {
    r.(sent := Deliver(r.sent, Audience(r.subscribers, k.vni, skip),
                       Delta(RouteUpdate(k, nexthops, nexthops != [], external))))
  }

  /** Nothing when before and after agree, else a WITHDRAW or an ADD of the new set. */
  function FanoutChange(r: Rib, k: RouteKey, before: seq<string>, after: seq<string>, skip: set<string>,
      external: bool): Rib {
    if before == after then r else Fanout(r, k, after, skip, external)
  }

  // ---------------------------------------------------------------- routes

  ghost function Announce(t: Texts, r: Rib, origin: string, k: RouteKey, nexthops: seq<string>, external: bool): Rib {
    var e := EntryAt(r.routes, k);
    var e' := RouteEntry(e.origins[origin := nexthops], external);
    FanoutChange(
      r.(routes := r.routes[k := e'], byOrigin := r.byOrigin[origin := KeysOf(r.byOrigin, origin) + {k}]),
      k, Advertised(t, e, r.fenced), Advertised(t, e', r.fenced), {origin}, external)
  }

  /** One origin leaves a route; the reverse index is the caller's job. */
  ghost function WithdrawRouteOrigin(t: Texts, r: Rib, k: RouteKey, origin: string): Rib {
    if k !in r.routes || origin !in r.routes[k].origins then r
    else
      var e := r.routes[k];
      var e' := e.(origins := e.origins - {origin});
      FanoutChange(
        r.(routes := if e'.origins == map[] then r.routes - {k} else r.routes[k := e']),
        k, Advertised(t, e, r.fenced), Advertised(t, e', r.fenced), {}, e.external)
  }

  function Unindexed(byOrigin: map<string, set<RouteKey>>, origin: string, k: RouteKey): map<string, set<RouteKey>> {
    if origin in byOrigin then byOrigin[origin := byOrigin[origin] - {k}] else byOrigin
  }

  ghost function Withdraw(t: Texts, r: Rib, origin: string, k: RouteKey): Rib {
    WithdrawRouteOrigin(t, r.(byOrigin := Unindexed(r.byOrigin, origin, k)), k, origin)
  }

  /** Withdraws the origin from each key of `order` in turn. */
  ghost function WithdrawAll(t: Texts, r: Rib, origin: string, order: seq<RouteKey>): Rib {
    if order == [] then r
    else WithdrawRouteOrigin(t, WithdrawAll(t, r, origin, order[..|order| - 1]), order[|order| - 1], origin)
  }

  // ---------------------------------------------------------------- subscriptions

  /** The prefixes stored for a VNI, sorted. */
  ghost function PrefixesOf(routes: map<RouteKey, RouteEntry>, vni: nat): seq<string> {
    Sorted(set k | k in routes && k.vni == vni :: k.prefix)
  }

  /** The records of a replay: each stored prefix that has something left to advertise. */
  ghost function Records(t: Texts, r: Rib, vni: nat, prefixes: seq<string>): seq<ServerMsg> {
    if prefixes == [] then []
    else
      var rest := Records(t, r, vni, prefixes[..|prefixes| - 1]);
      var k := RouteKey(vni, prefixes[|prefixes| - 1]);
      var nhs := AdvertisedAt(t, r, k);
      if nhs == [] then rest else rest + [RouteUpdate(k, nhs, true, EntryAt(r.routes, k).external)]
  }

  ghost function Replay(t: Texts, r: Rib, vni: nat): seq<ServerMsg> {
    var recs := Records(t, r, vni, PrefixesOf(r.routes, vni));
    recs + [EndOfRib(vni, |recs|)]
  }

  predicate Resubscribes(r: Rib, vni: nat, s: Sink) {
    var sub := Subscription(vni, s.id);
    sub in r.subscribers && r.subscribers[sub] == s
  }

  ghost function Subscribe(t: Texts, r: Rib, vni: nat, s: Sink): Rib {
    if Resubscribes(r, vni, s) then r
    else r.(subscribers := r.subscribers[Subscription(vni, s.id) := s],
            sent := Deliver(r.sent, {s}, Snapshot(Replay(t, r, vni))))
  }

  function Unsubscribe(r: Rib, vni: nat, id: string): Rib {
    r.(subscribers := r.subscribers - {Subscription(vni, id)})
  }

  // ---------------------------------------------------------------- fences

  /** The canonical network a fence text names. */
  function FenceNet(t: Texts, text: string): Option<Prefix> {
    match t.cidr(text)
    case None => None
    case Some(p) => Some(Masked(p))
  }

  /** Moves to the fence set `fenced`, fanning out each key of `order` whose advertisement changed. */
  ghost function Refilter(t: Texts, r: Rib, fenced: set<Prefix>, order: seq<RouteKey>): Rib {
    if order == [] then r.(fenced := fenced)
    else
      var prev := Refilter(t, r, fenced, order[..|order| - 1]);
      var k := order[|order| - 1];
      var e := EntryAt(r.routes, k);
      FanoutChange(prev, k, Advertised(t, e, r.fenced), Advertised(t, e, fenced), e.origins.Keys, e.external)
  }

  ghost function SetFence(t: Texts, r: Rib, text: string, order: seq<RouteKey>): Rib {
    var n := FenceNet(t, text);
    if n.None? || n.value in r.fenced then r else Refilter(t, r, r.fenced + {n.value}, order)
  }

  ghost function ClearFence(t: Texts, r: Rib, text: string, order: seq<RouteKey>): Rib {
    var n := FenceNet(t, text);
    if n.None? || n.value !in r.fenced then r else Refilter(t, r, r.fenced - {n.value}, order)
  }

  // ---------------------------------------------------------------- the global feed

  function SinksOf(r: Rib): set<Sink> { r.sinks.Values }

  /** Any change to a global table drops the shared replay and goes to every registered sink. */
  function GlobalFanout(r: Rib, m: ServerMsg): Rib {
    r.(globalSnap := None, sent := Deliver(r.sent, SinksOf(r), Delta(m)))
  }

  function AnnounceNat(r: Rib, origin: string, b: NatBlock): Rib {
    GlobalFanout(r.(nats := Put(r.nats, origin, NatKeyOf(b), b)), NatUpdate(b, true))
  }

  function AnnouncePublic(r: Rib, origin: string, p: PublicRecord): Rib {
    GlobalFanout(r.(publics := Put(r.publics, origin, PublicKeyOf(p), p)), PublicUpdate(p, true))
  }

  datatype WithdrawOutcome = WithdrawApplied | WithdrawAbsent | WithdrawRefused

  /** Only the announcing origin, with a certificate for the owner, may withdraw. */
  function NatVerdict(r: Rib, origin: string, k: NatKey, permit: string -> bool): WithdrawOutcome {
    if k !in r.nats.recs then WithdrawAbsent
    else if k !in r.nats.origin || r.nats.origin[k] != origin
      || !permit(r.nats.recs[k].ownerUnderlay) then WithdrawRefused
    else WithdrawApplied
  }

  function WithdrawNat(r: Rib, origin: string, k: NatKey, permit: string -> bool): Rib {
    if NatVerdict(r, origin, k, permit) != WithdrawApplied then r
    else GlobalFanout(r.(nats := Remove(r.nats, origin, k)), NatUpdate(r.nats.recs[k], false))
  }

  function PublicVerdict(r: Rib, origin: string, k: PublicKey, permit: string -> bool): WithdrawOutcome {
    if k !in r.publics.recs then WithdrawAbsent
    else if k !in r.publics.origin || r.publics.origin[k] != origin
      || !permit(r.publics.recs[k].ownerUnderlay) then WithdrawRefused
    else WithdrawApplied
  }

  function WithdrawPublic(r: Rib, origin: string, k: PublicKey, permit: string -> bool): Rib {
    if PublicVerdict(r, origin, k, permit) != WithdrawApplied then r
    else GlobalFanout(r.(publics := Remove(r.publics, origin, k)), PublicUpdate(r.publics.recs[k], false))
  }

  function DropNat(r: Rib, origin: string, order: seq<NatKey>): Rib {
    if order == [] then r.(nats := DropAll(r.nats, origin, []))
    else
      var prev := DropNat(r, origin, order[..|order| - 1]);
      var k := order[|order| - 1];
      if StillHolds(prev.nats, origin, k)
      then GlobalFanout(prev.(nats := Drop(prev.nats, origin, k)), NatUpdate(prev.nats.recs[k], false))
      else prev
  }

  function DropPublic(r: Rib, origin: string, order: seq<PublicKey>): Rib {
    if order == [] then r.(publics := DropAll(r.publics, origin, []))
    else
      var prev := DropPublic(r, origin, order[..|order| - 1]);
      var k := order[|order| - 1];
      if StillHolds(prev.publics, origin, k)
      then GlobalFanout(prev.(publics := Drop(prev.publics, origin, k)), PublicUpdate(prev.publics.recs[k], false))
      else prev
  }

  function NatRecords(recs: map<NatKey, NatBlock>, order: seq<NatKey>): seq<ServerMsg>
    requires forall k :: k in order ==> k in recs
  {
    if order == [] then []
    else NatRecords(recs, order[..|order| - 1]) + [NatUpdate(recs[order[|order| - 1]], true)]
  }

  function PublicRecords(recs: map<PublicKey, PublicRecord>, order: seq<PublicKey>): seq<ServerMsg>
    requires forall k :: k in order ==> k in recs
  {
    if order == [] then []
    else PublicRecords(recs, order[..|order| - 1]) + [PublicUpdate(recs[order[|order| - 1]], true)]
  }

  /** The shared replay: both tables in some order, and the marker that counts them. */
  function GlobalReplay(r: Rib, nats: seq<NatKey>, pubs: seq<PublicKey>): seq<ServerMsg>
    requires forall k :: k in nats ==> k in r.nats.recs
    requires forall k :: k in pubs ==> k in r.publics.recs
  {
    if r.globalSnap.Some? then r.globalSnap.value
    else
      NatRecords(r.nats.recs, nats) + PublicRecords(r.publics.recs, pubs) + [EndOfGlobal(|nats| + |pubs|)]
  }

  function RegisterSink(r: Rib, s: Sink, nats: seq<NatKey>, pubs: seq<PublicKey>): Rib
    requires forall k :: k in nats ==> k in r.nats.recs
    requires forall k :: k in pubs ==> k in r.publics.recs
  {
    var snap := GlobalReplay(r, nats, pubs);
    r.(sinks := r.sinks[s.id := s], globalSnap := Some(snap), sent := Deliver(r.sent, {s}, Snapshot(snap)))
  }

  // ---------------------------------------------------------------- sessions

  /** The orders a teardown walked the three sets it clears. */
  datatype Orders = Orders(routes: seq<RouteKey>, nats: seq<NatKey>, pubs: seq<PublicKey>)

  ghost predicate WalksAll(r: Rib, origin: string, o: Orders) {
    && Enumerates(o.routes, KeysOf(r.byOrigin, origin))
    && Enumerates(o.nats, KeysOf(r.nats.byOrigin, origin))
    && Enumerates(o.pubs, KeysOf(r.publics.byOrigin, origin))
  }

  function WithoutSubscriber(subscribers: map<Subscription, Sink>, id: string): map<Subscription, Sink> {
    map sub | sub in subscribers && sub.id != id :: subscribers[sub]
  }

  ghost function DropOrigin(t: Texts, r: Rib, origin: string, o: Orders): Rib {
    var r1 := WithdrawAll(t, r.(byOrigin := r.byOrigin - {origin}), origin, o.routes);
    var r2 := r1.(subscribers := WithoutSubscriber(r1.subscribers, origin));
    DropPublic(DropNat(r2, origin, o.nats), origin, o.pubs)
  }

  /** A new session takes the id; whatever its predecessor left goes in the same step. */
  ghost function ClaimOrigin(t: Texts, r: Rib, id: string, o: Orders): Rib {
    var r' := r.(nextToken := r.nextToken + 1, origins := r.origins[id := r.nextToken + 1]);
    if id in r.origins then DropOrigin(t, r'.(sinks := r'.sinks - {id}), id, o) else r'
  }

  /** A session ends; a superseded one has nothing left to tear down. */
  ghost function ReleaseOrigin(t: Texts, r: Rib, id: string, token: nat, o: Orders): Rib {
    if id !in r.origins || r.origins[id] != token then r
    else DropOrigin(t, r.(origins := r.origins - {id}, sinks := r.sinks - {id}), id, o)
  }

  // ---------------------------------------------------------------- runs

  datatype Op =
    | OpSubscribe(vni: nat, sink: Sink)
    | OpUnsubscribe(vni: nat, id: string)
    | OpAnnounce(origin: string, key: RouteKey, nexthops: seq<string>, external: bool)
    | OpWithdraw(origin: string, key: RouteKey)
    | OpSetFence(text: string, order: seq<RouteKey>)
    | OpClearFence(text: string, order: seq<RouteKey>)
    | OpClaim(id: string, orders: Orders)
    | OpRelease(id: string, token: nat, orders: Orders)
    | OpRegister(sink: Sink, nats: seq<NatKey>, pubs: seq<PublicKey>)
    | OpAnnounceNat(origin: string, block: NatBlock)
    | OpWithdrawNat(origin: string, natKey: NatKey, permit: string -> bool)
    | OpAnnouncePublic(origin: string, rec: PublicRecord)
    | OpWithdrawPublic(origin: string, publicKey: PublicKey, permit: string -> bool)

  /** The orders an operation carries list exactly the keys its loops range over. */
  ghost predicate Legal(r: Rib, op: Op) {
    match op
    case OpSetFence(_, order) => Enumerates(order, r.routes.Keys)
    case OpClearFence(_, order) => Enumerates(order, r.routes.Keys)
    case OpClaim(id, o) => WalksAll(r, id, o)
    case OpRelease(id, _, o) => WalksAll(r, id, o)
    case OpRegister(_, nats, pubs) => Enumerates(nats, r.nats.recs.Keys) && Enumerates(pubs, r.publics.recs.Keys)
    case _ => true
  }

  ghost function Step(t: Texts, r: Rib, op: Op): Rib
    requires Legal(r, op)
  {
    match op
    case OpSubscribe(vni, s) => Subscribe(t, r, vni, s)
    case OpUnsubscribe(vni, id) => Unsubscribe(r, vni, id)
    case OpAnnounce(o, k, nhs, ext) => Announce(t, r, o, k, nhs, ext)
    case OpWithdraw(o, k) => Withdraw(t, r, o, k)
    case OpSetFence(text, order) => SetFence(t, r, text, order)
    case OpClearFence(text, order) => ClearFence(t, r, text, order)
    case OpClaim(id, o) => ClaimOrigin(t, r, id, o)
    case OpRelease(id, token, o) => ReleaseOrigin(t, r, id, token, o)
    case OpRegister(s, nats, pubs) => RegisterSink(r, s, nats, pubs)
    case OpAnnounceNat(o, b) => AnnounceNat(r, o, b)
    case OpWithdrawNat(o, k, permit) => WithdrawNat(r, o, k, permit)
    case OpAnnouncePublic(o, p) => AnnouncePublic(r, o, p)
    case OpWithdrawPublic(o, k, permit) => WithdrawPublic(r, o, k, permit)
  }

  /** `run` goes from the empty table through legal steps; run[i + 1] is what ops[i] made of run[i]. */
  ghost predicate IsRun(t: Texts, run: seq<Rib>, ops: seq<Op>) {
    && |run| == |ops| + 1 && run[0] == NewRib()
    && forall i :: 0 <= i < |ops| ==> Legal(run[i], ops[i]) && run[i + 1] == Step(t, run[i], ops[i])
  }
}
