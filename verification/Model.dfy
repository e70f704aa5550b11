/** Values shared by every layer: addresses, routes and their kernel codes (src/linux/model.rs). */
module Model {
  import opened Wrappers

  type byte = x: int | 0 <= x < 0x100
  type u16 = x: int | 0 <= x < 0x1_0000
  type u32 = x: int | 0 <= x < 0x1_0000_0000
  type i32 = x: int | -0x8000_0000 <= x < 0x8000_0000

  type Octets4 = s: seq<byte> | |s| == 4 witness [0, 0, 0, 0]
  type Octets16 = s: seq<byte> | |s| == 16
    witness [0, 0, 0, 0, 0, 0, 0, 0, 0, 0, 0, 0, 0, 0, 0, 0]

  const UNSPECIFIED_V4: Octets4 := [0, 0, 0, 0]
  const UNSPECIFIED_V6: Octets16 := [0, 0, 0, 0, 0, 0, 0, 0, 0, 0, 0, 0, 0, 0, 0, 0]

  datatype IpFamily = FamilyV4 | FamilyV6

  datatype IpAddr = V4(v4: Octets4) | V6(v6: Octets16)

  function FamilyOf(address: IpAddr): IpFamily {
    if address.V4? then FamilyV4 else FamilyV6
  }

  function UnspecifiedAddress(family: IpFamily): IpAddr {
    if family.FamilyV4? then V4(UNSPECIFIED_V4) else V6(UNSPECIFIED_V6)
  }

  datatype RouteKind =
    | Unicast | Local | Broadcast | Anycast | Multicast | Blackhole | Unreachable
    | OtherKind(kindCode: byte)

  function KindCode(kind: RouteKind): byte {
    match kind
    case Unicast => 1
    case Local => 2
    case Broadcast => 3
    case Anycast => 4
    case Multicast => 5
    case Blackhole => 6
    case Unreachable => 7
    case OtherKind(code) => code
  }

  function KindOfCode(code: byte): RouteKind {
    match code
    case 1 => Unicast
    case 2 => Local
    case 3 => Broadcast
    case 4 => Anycast
    case 5 => Multicast
    case 6 => Blackhole
    case 7 => Unreachable
    case _ => OtherKind(code)
  }

  datatype RouteScope = Universe | Link | HostScope | OtherScope(scopeCode: byte)

  function ScopeCode(scope: RouteScope): byte {
    match scope
    case Universe => 0
    case Link => 253
    case HostScope => 254
    case OtherScope(code) => code
  }

  function ScopeOfCode(code: byte): RouteScope {
    match code
    case 0 => Universe
    case 253 => Link
    case 254 => HostScope
    case _ => OtherScope(code)
  }

  datatype Route = Route(
    family: IpFamily,
    destination: IpAddr,
    prefixLength: byte,
    gateway: Option<IpAddr>,
    outputInterface: Option<i32>,
    metric: Option<u32>,
    kind: RouteKind,
    scope: RouteScope)
  {
    predicate IsDefault() {
      && prefixLength == 0
      && match (family, destination)
         case (FamilyV4, V4(address)) => address == UNSPECIFIED_V4
         case (FamilyV6, V6(address)) => address == UNSPECIFIED_V6
         case _ => false
    }
  }
}
