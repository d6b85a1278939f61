/** The records and server messages the reflector and the agents exchange. */
module RouteBus {
  import opened Order
  import opened Addresses

  datatype RouteKey = RouteKey(vni: nat, prefix: string)

  datatype LbPort = LbPort(port: nat, proto: nat)

  datatype NatBlock = NatBlock(
    vni: nat, sourceIP: string, natIP: string, portMin: nat, portMax: nat, ownerUnderlay: string)

  /** The reflector stores a block under its address and first port. */
  datatype NatKey = NatKey(natIP: string, portMin: nat)

  function NatKeyOf(b: NatBlock): NatKey { NatKey(b.natIP, b.portMin) }

  datatype PublicKind = EdgeUnderlay | NatIp | LbIp | FloatingIp

  datatype PublicRecord = PublicRecord(
    kind: PublicKind, prefix: string, ownerUnderlay: string, vni: nat, portMin: nat, portMax: nat,
    overlayIP: string, ports: seq<LbPort>)

  datatype PublicKey = PublicKey(kind: PublicKind, prefix: string, owner: string, overlay: string)

  function PublicKeyOf(r: PublicRecord): PublicKey { PublicKey(r.kind, r.prefix, r.ownerUnderlay, r.overlayIP) }

  datatype ServerMsg =
    | RouteUpdate(key: RouteKey, nexthops: seq<string>, add: bool, external: bool)
    | NatUpdate(block: NatBlock, add: bool)
    | PublicUpdate(rec: PublicRecord, add: bool)
    | EndOfRib(vni: nat, count: nat)
    | EndOfGlobal(count: nat)

  /** How text is read: net.ParseIP, net.ParseCIDR, and netip.ParsePrefix printed back. */
  datatype Texts = Texts(ip: string -> Option<Addr>, cidr: string -> Option<Prefix>,
      canonical: string -> Option<string>)
}
