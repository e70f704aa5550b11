/** The bytes of the netlink requests in plain numbers, as the kernel reads them (sections 2.3.2, 3.1.1 and
    3.1.2 of RFC 3549; src/linux/netlink.rs, src/linux/ipconfig.rs, src/linux/nl80211.rs). */
module WireLayout {
  import opened Model
  import opened Wrappers
  import opened Bytes
  import opened Netlink
  import opened Buffers
  import opened RouteCodec
  import opened NetworkEvents
  import opened Commands
  import Genl

  // --- Numbers --------------------------------------------------------------------------------------

  function Low16(n: nat): seq<byte> {
    [n % 256, n / 256 % 256]
  }

  function Low32(n: nat): seq<byte> {
    [n % 256, n / 256 % 256, n / 65536 % 256, n / 16777216 % 256]
  }

  function Word(i: i32): nat {
    if i >= 0 then i else 4294967296 + i
  }

  lemma Low32IsLe32(n: nat)
    ensures Low32(n) == Le32(n)
  {
    assert n / 65536 == n / 256 / 256 && n / 16777216 == n / 256 / 256 / 256;
  }

  /** The sixteen header bytes: length, kind, flags, sequence number 1, port 0. */
  function Header(length: nat, kind: nat, flags: nat): seq<byte> {
    Low32(length) + Low16(kind) + Low16(flags) + [1, 0, 0, 0] + [0, 0, 0, 0]
  }

  function Octets(address: IpAddr): seq<byte> {
    match address
    case V4(octets) => octets
    case V6(octets) => octets
  }

  /** An attribute whose value is a whole number of words: no padding. */
  function Attribute(kind: byte, value: seq<byte>): seq<byte> {
    [(4 + |value|) % 256, 0, kind, 0] + value
  }

  lemma AttributeBytes(kind: byte, value: seq<byte>)
    requires |value| % 4 == 0 && 4 + |value| < 256
    ensures AttrBytes(Attr(kind, value)) == Attribute(kind, value)
  {
    assert Zeros(0) == [];
  }

  // --- Requests -------------------------------------------------------------------------------------------

  function FamilyNumber(family: IpFamily): byte {
    match family
    case FamilyV4 => 2
    case FamilyV6 => 10
  }

  function KindNumber(kind: RouteKind): byte {
    match kind
    case Unicast => 1
    case Local => 2
    case Broadcast => 3
    case Anycast => 4
    case Multicast => 5
    case Blackhole => 6
    case Unreachable => 7
    case OtherKind(code) => code
  }

  function ScopeNumber(scope: RouteScope): byte {
    match scope
    case Universe => 0
    case Link => 253
    case HostScope => 254
    case OtherScope(code) => code
  }

  /** A destination that is left out: the all-zero address of the route's own family with prefix 0. */
  predicate IsDefaultRoute(r: Route) {
    && r.prefixLength == 0 && (r.destination.V4? <==> r.family.FamilyV4?)
    && (forall i :: 0 <= i < |Octets(r.destination)| ==> Octets(r.destination)[i] == 0)
  }

  /** Attribute 1 is the destination, 5 the gateway, 4 the output interface and 6 the metric. */
  function DestinationPart(r: Route): seq<byte> {
    if IsDefaultRoute(r) then [] else Attribute(1, Octets(r.destination))
  }

  function GatewayPart(r: Route): seq<byte> {
    if r.gateway.Some? then Attribute(5, Octets(r.gateway.value)) else []
  }

  function InterfacePart(r: Route): seq<byte> {
    Attribute(4, Low32(Word(if r.outputInterface.Some? then r.outputInterface.value else 0)))
  }

  function MetricPart(r: Route): seq<byte> {
    if r.metric.Some? then Attribute(6, Low32(r.metric.value)) else []
  }

  function RouteHead(r: Route): seq<byte> {
    [FamilyNumber(r.family), r.prefixLength, 0, 0, 254, 4, ScopeNumber(r.scope), KindNumber(r.kind), 0, 0, 0, 0]
  }

  function RouteBody(r: Route): seq<byte> {
    RouteHead(r) + (DestinationPart(r) + GatewayPart(r) + InterfacePart(r) + MetricPart(r))
  }

  /** The ifaddrmsg and its attributes: 2 local address, 1 address. */
  function AddressBody(index: i32, address: IpAddr, prefixLength: byte): seq<byte> {
    [if address.V4? then 2 else 10, prefixLength, 0, 0] + Low32(Word(index))
    + Attribute(2, Octets(address)) + Attribute(1, Octets(address))
  }

  /** Request, create, exclusive and acknowledge; request, create, replace and acknowledge; request and acknowledge. */
  function RequestOf(kind: nat, flags: nat, body: seq<byte>): seq<byte> {
    Header(16 + |body|, kind, flags) + body
  }

  function RequestBytes(command: Command): seq<byte> {
    match command
    case AddAddressCommand(index, address, prefix) =>
      RequestOf(20, 1 + 4 + 0x200 + 0x400, AddressBody(index, address, prefix))
    case RemoveAddressCommand(index, address, prefix) => RequestOf(21, 1 + 4, AddressBody(index, address, prefix))
    case AddRouteCommand(route) => RequestOf(24, 1 + 4 + 0x100 + 0x400, RouteBody(route))
    case RemoveRouteCommand(route) => RequestOf(25, 1 + 4, RouteBody(route))
  }

  lemma MessageIsRequest(kind: u16, flags: u16, body: seq<byte>)
    ensures Message(kind, flags, body) == RequestOf(kind, flags, body)
  {
    Low32IsLe32(16 + |body|);
  }

  lemma WordIsUnsigned(i: i32)
    ensures Low32(Word(i)) == Le32(Unsigned(i))
  {
    Low32IsLe32(Word(i));
  }

  lemma {:induction false} AttrsSplit(a: seq<Attr>, b: seq<Attr>)
    ensures AttrsBytes(a + b) == AttrsBytes(a) + AttrsBytes(b)
  {
    if a == [] {
      assert a + b == b;
    } else {
      assert (a + b)[1..] == a[1..] + b;
      AttrsSplit(a[1..], b);
      var first, rest := AttrBytes(a[0]), AttrsBytes(a[1..]);
      assert first + (rest + AttrsBytes(b)) == first + rest + AttrsBytes(b);
    }
  }

  lemma OneAttr(attr: Attr)
    ensures AttrsBytes([attr]) == AttrBytes(attr)
  {
    assert [attr][1..] == [];
  }

  lemma OneAttribute(kind: byte, value: seq<byte>)
    requires |value| % 4 == 0 && 4 + |value| < 256
    ensures AttrsBytes([Attr(kind, value)]) == Attribute(kind, value)
  {
    OneAttr(Attr(kind, value));
    AttributeBytes(kind, value);
  }

  lemma ZeroOctets(o: seq<byte>)
    ensures |o| == 4 && (forall i :: 0 <= i < |o| ==> o[i] == 0) ==> o == UNSPECIFIED_V4
    ensures |o| == 16 && (forall i :: 0 <= i < |o| ==> o[i] == 0) ==> o == UNSPECIFIED_V6
  {
  }

  lemma DefaultsAgree(r: Route)
    ensures r.IsDefault() <==> IsDefaultRoute(r)
  {
    ZeroOctets(Octets(r.destination));
  }

  lemma DestinationBytes(r: Route)
    ensures AttrsBytes(if r.IsDefault() then [] else [Attr(RTA_DST, IpBytes(r.destination))]) == DestinationPart(r)
  {
    DefaultsAgree(r);
    OneAttribute(1, Octets(r.destination));
  }

  lemma GatewayBytes(r: Route)
    ensures AttrsBytes(if r.gateway.None? then [] else [Attr(RTA_GATEWAY, IpBytes(r.gateway.value))]) == GatewayPart(r)
  {
    if r.gateway.Some? {
      OneAttribute(5, Octets(r.gateway.value));
    }
  }

  lemma InterfaceBytes(r: Route)
    ensures AttrsBytes([Attr(RTA_OIF, Le32(Unsigned(r.outputInterface.GetOr(0))))]) == InterfacePart(r)
  {
    var oif := r.outputInterface.GetOr(0);
    WordIsUnsigned(oif);
    OneAttribute(4, Low32(Word(oif)));
  }

  lemma MetricBytes(r: Route)
    ensures AttrsBytes(if r.metric.None? then [] else [Attr(RTA_PRIORITY, Le32(r.metric.value))]) == MetricPart(r)
  {
    if r.metric.Some? {
      Low32IsLe32(r.metric.value);
      OneAttribute(6, Low32(r.metric.value));
    }
  }

  lemma FourParts(a: seq<Attr>, b: seq<Attr>, c: seq<Attr>, d: seq<Attr>)
    ensures AttrsBytes(a + b + c + d) == AttrsBytes(a) + AttrsBytes(b) + AttrsBytes(c) + AttrsBytes(d)
  {
    AttrsSplit(a + b + c, d);
    AttrsSplit(a + b, c);
    AttrsSplit(a, b);
  }

  lemma RouteAttributes(r: Route)
    ensures AttrsBytes(RouteAttrList(r)) == DestinationPart(r) + GatewayPart(r) + InterfacePart(r) + MetricPart(r)
  {
    FourParts(if r.IsDefault() then [] else [Attr(RTA_DST, IpBytes(r.destination))],
              if r.gateway.None? then [] else [Attr(RTA_GATEWAY, IpBytes(r.gateway.value))],
              [Attr(RTA_OIF, Le32(Unsigned(r.outputInterface.GetOr(0))))],
              if r.metric.None? then [] else [Attr(RTA_PRIORITY, Le32(r.metric.value))]);
    DestinationBytes(r);
    GatewayBytes(r);
    InterfaceBytes(r);
    MetricBytes(r);
  }

  lemma HeadBytes(r: Route)
    ensures RtMsg(r) == RouteHead(r)
  {
  }

  lemma RoutePayloadLayout(r: Route)
    ensures RoutePayload(r) == RouteBody(r)
  {
    HeadBytes(r);
    RouteAttributes(r);
  }

  lemma AddressPayloadLayout(index: i32, address: IpAddr, prefixLength: byte)
    ensures AddressPayload(index, address, prefixLength) == AddressBody(index, address, prefixLength)
  {
    WordIsUnsigned(index);
    AttrsSplit([Attr(IFA_LOCAL, IpBytes(address))], [Attr(IFA_ADDRESS, IpBytes(address))]);
    OneAttribute(2, Octets(address));
    OneAttribute(1, Octets(address));
  }

  /** Every address and route request, byte for byte. */
  lemma RequestLayout(command: Command)
    ensures CommandMessage(command) == RequestBytes(command)
  {
    match command
    case AddAddressCommand(index, address, prefix) =>
      AddressPayloadLayout(index, address, prefix);
      MessageIsRequest(20, 0x605, AddressBody(index, address, prefix));
    case RemoveAddressCommand(index, address, prefix) =>
      AddressPayloadLayout(index, address, prefix);
      MessageIsRequest(21, 5, AddressBody(index, address, prefix));
    case AddRouteCommand(route) =>
      RoutePayloadLayout(route);
      MessageIsRequest(24, 0x505, RouteBody(route));
    case RemoveRouteCommand(route) =>
      RoutePayloadLayout(route);
      MessageIsRequest(25, 5, RouteBody(route));
  }

  // --- What arrives ------------------------------------------------------------------------------------------

  /** A link announcement: family, padding, device type, index, flags, change mask, and attribute 3, the name. */
  function LinkBody(deviceType: u16, index: i32, flags: u32, change: u32, name: seq<byte>): seq<byte> {
    [0, 0] + Low16(deviceType) + Low32(Word(index)) + Low32(flags) + Low32(change) + AttrBytes(Attr(3, name + [0]))
  }

  lemma LinkSlices(head: seq<byte>, index: seq<byte>, flags: seq<byte>, change: seq<byte>, attrs: seq<byte>)
    requires |head| == 4 && |index| == 4 && |flags| == 4 && |change| == 4
    ensures var payload := head + index + flags + change + attrs;
            payload[4..8] == index && payload[8..12] == flags && payload[16..] == attrs
  {
  }

  lemma NameScans(name: seq<byte>)
    requires 0 !in name && |name| < 0x1000
    ensures Scan(AttrBytes(Attr(3, name + [0])), None, LinkStep()) == Success(Some(name))
  {
    var attr := Attr(3, name + [0]);
    var nothing: Option<seq<byte>> := None;
    assert AttrBytes(attr) + [] == AttrBytes(attr);
    ScanCons(attr, [], nothing, LinkStep());
    assert name + [0] + [] == name + [0];
    UntilNulOf(name, []);
  }

  lemma WordReadsBack(i: i32)
    ensures |Low32(Word(i))| == 4 && Signed(FromLe32(Low32(Word(i)))) == i
  {
    WordIsUnsigned(i);
    Le32RoundTrip(Unsigned(i));
  }

  lemma FlagsReadBack(v: u32)
    ensures |Low32(v)| == 4 && FromLe32(Low32(v)) == v
  {
    Low32IsLe32(v);
    Le32RoundTrip(v);
  }

  lemma ParseLinkParts(payload: seq<byte>, index: i32, flags: u32, name: seq<byte>)
    requires |payload| >= 16 && Signed(FromLe32(payload[4..8])) == index && FromLe32(payload[8..12]) == flags
    requires Scan(payload[16..], None, LinkStep()) == Success(Some(name))
    ensures ParseLink(payload) == Success(Some(LinkInfo(index, name, flags)))
  {
  }

  /** Every link announcement reads as its index, name and flags. */
  lemma LinkReadsBack(deviceType: u16, index: i32, flags: u32, change: u32, name: seq<byte>)
    requires 0 !in name && |name| < 0x1000
    ensures ParseLink(LinkBody(deviceType, index, flags, change, name)) == Success(Some(LinkInfo(index, name, flags)))
  {
    LinkSlices([0, 0] + Low16(deviceType), Low32(Word(index)), Low32(flags), Low32(change),
               AttrBytes(Attr(3, name + [0])));
    WordReadsBack(index);
    FlagsReadBack(flags);
    NameScans(name);
    ParseLinkParts(LinkBody(deviceType, index, flags, change, name), index, flags, name);
  }

  predicate CreateFlag(flags: u16) {
    flags / 1024 % 2 == 1
  }

  /** Which event each kind of message announces: 16 and 17 a link, 20 and 21 an address, 24 and 25 a route;
      3 ends the buffer, 2 is the kernel's error and anything else is skipped. */
  lemma EventKinds(flags: u16, payload: seq<byte>, link: LinkInfo, address: AddressInfo, route: Route, kind: u16)
    ensures ParseLink(payload) == Success(Some(link)) ==>
              && JudgeEvent(Frame(16, flags, payload))
                 == Keep([LinkEvent(if CreateFlag(flags) then Created else Changed, link)])
              && JudgeEvent(Frame(17, flags, payload)) == Keep([LinkEvent(Removed, link)])
    ensures ParseAddress(payload) == Success(Some(address)) ==>
              && JudgeEvent(Frame(20, flags, payload)) == Keep([AddressEvent(Created, address)])
              && JudgeEvent(Frame(21, flags, payload)) == Keep([AddressEvent(Removed, address)])
    ensures ParseRoute(payload) == Success(Some(route)) ==>
              && JudgeEvent(Frame(24, flags, payload))
                 == Keep([RouteEvent(if CreateFlag(flags) then Created else Changed, route)])
              && JudgeEvent(Frame(25, flags, payload)) == Keep([RouteEvent(Removed, route)])
    ensures JudgeEvent(Frame(3, flags, payload)) == Stop
    ensures kind !in {2, 3, 16, 17, 20, 21, 24, 25} ==> JudgeEvent(Frame(kind, flags, payload)) == Keep([])
  {
  }

  /** The kernel's error code is the signed word in front of the payload. */
  lemma KernelErrors(flags: u16, code: i32, rest: seq<byte>)
    ensures JudgeEvent(Frame(2, flags, Low32(Word(code)) + rest)) == Reject(KernelError(code))
    ensures JudgeRoute(Frame(2, flags, Low32(Word(code)) + rest)) == Reject(KernelError(code))
    ensures JudgeRoute(Frame(3, flags, rest)) == Stop
  {
    var payload := Low32(Word(code)) + rest;
    WordIsUnsigned(code);
    assert payload[..4] == Le32(Unsigned(code));
    Le32RoundTrip(Unsigned(code));
  }

  // --- Generic netlink ------------------------------------------------------------------------------------------

  /** Length, type and value, then zeros up to a multiple of four. */
  function Padded(attr: Attr): seq<byte> {
    Low16(4 + |attr.value|) + Low16(attr.typ) + attr.value + [0, 0, 0][..(4 - |attr.value| % 4) % 4]
  }

  function AllPadded(attrs: seq<Attr>): seq<byte> {
    if attrs == [] then [] else Padded(attrs[0]) + AllPadded(attrs[1..])
  }

  lemma PaddedBytes(attr: Attr)
    ensures AttrBytes(attr) == Padded(attr)
  {
    var pad := (4 - |attr.value| % 4) % 4;
    assert Align(4 + |attr.value|) - (4 + |attr.value|) == pad;
    assert Zeros(pad) == [0, 0, 0][..pad];
  }

  lemma {:induction false} AllPaddedBytes(attrs: seq<Attr>)
    ensures AttrsBytes(attrs) == AllPadded(attrs)
  {
    if attrs != [] {
      PaddedBytes(attrs[0]);
      AllPaddedBytes(attrs[1..]);
    }
  }

  /** Header with the given sequence number, then command, version 1 and two zero bytes, then the attributes. */
  function GenericBytes(family: u16, cmd: byte, flags: u16, sequence: u32, attrs: seq<Attr>): seq<byte> {
    Low32(20 + |AllPadded(attrs)|) + Low16(family) + Low16(flags) + Low32(sequence) + [0, 0, 0, 0]
    + ([cmd, 1, 0, 0] + AllPadded(attrs))
  }

  /** Every generic-netlink request, byte for byte. */
  lemma GenericLayout(family: u16, cmd: byte, flags: u16, sequence: u32, attrs: seq<Attr>)
    ensures SequencedMessage(family, flags, sequence, Genl.GenlPayload(cmd, attrs))
            == GenericBytes(family, cmd, flags, sequence, attrs)
  {
    AllPaddedBytes(attrs);
    Low32IsLe32(20 + |AllPadded(attrs)|);
    Low32IsLe32(sequence);
    Low32IsLe32(0);
  }

  /** The numbers of a family description: 1 its id, 7 the groups, and in each group 1 the name and 2 the id. */
  lemma FamilyNumbers(info: Genl.FamilyInfo, k: nat)
    requires k < |info.groups|
    ensures var trees, group := Genl.FamilyTrees(info), info.groups[k];
            && |trees| == 2 && trees[0] == Genl.Leaf(1, Low16(info.id))
            && trees[1].Nest? && trees[1].typ == 7 && |trees[1].children| == |info.groups|
            && trees[1].children[k] == Genl.Nest(1, [Genl.Leaf(1, group.name + [0]), Genl.Leaf(2, Low32(group.id))])
  {
    Low32IsLe32(info.groups[k].id);
  }

  /** A nested attribute carries the top bit of its type, and reading takes the two flag bits off again. */
  lemma NestedFlag(typ: u16, children: seq<Genl.Tree>, value: seq<byte>)
    requires typ < 0x4000 && Genl.Typed(children)
    ensures Genl.Encode(Genl.Nest(typ, children)).typ == 0x8000 + typ
    ensures forall high :: 0 <= high < 4 ==>
              Genl.Decoded(Attr(high * 0x4000 + typ, value)) == Genl.RawAttr(typ, high >= 2, value)
  {
  }
}
