/** The messages the configurator sends, read as the events they would announce
    (src/linux/ipconfig.rs, src/linux/netlink.rs). */
module Commands {
  import opened Model
  import opened Wrappers
  import opened Bytes
  import opened Netlink
  import opened Buffers
  import opened RouteCodec
  import opened NetworkEvents

  const ACKNOWLEDGED: u16 := 0x5
  const CREATE_EXCLUSIVE: u16 := 0x605
  const CREATE_REPLACE: u16 := 0x505

  /** What the configurator asks of the kernel. */
  datatype Command =
    | AddAddressCommand(index: i32, address: IpAddr, prefixLength: byte)
    | RemoveAddressCommand(index: i32, address: IpAddr, prefixLength: byte)
    | AddRouteCommand(route: Route)
    | RemoveRouteCommand(route: Route)

  function AddressAttrs(address: IpAddr): seq<Attr> {
    [Attr(IFA_LOCAL, IpBytes(address)), Attr(IFA_ADDRESS, IpBytes(address))]
  }

  function IfAddrMsg(index: i32, address: IpAddr, prefixLength: byte): (b: seq<byte>)
    ensures |b| == 8
  {
    [FamilyCode(FamilyOf(address)), prefixLength, 0, 0] + Le32(Unsigned(index))
  }

  function AddressPayload(index: i32, address: IpAddr, prefixLength: byte): (b: seq<byte>)
    ensures |b| % 4 == 0
  {
    IfAddrMsg(index, address, prefixLength) + AttrsBytes(AddressAttrs(address))
  }

  function CommandFrame(command: Command): Frame {
    match command
    case AddAddressCommand(index, address, prefix) =>
      Frame(RTM_NEWADDR, CREATE_EXCLUSIVE, AddressPayload(index, address, prefix))
    case RemoveAddressCommand(index, address, prefix) =>
      Frame(RTM_DELADDR, ACKNOWLEDGED, AddressPayload(index, address, prefix))
    case AddRouteCommand(route) => Frame(RTM_NEWROUTE, CREATE_REPLACE, RoutePayload(route))
    case RemoveRouteCommand(route) => Frame(RTM_DELROUTE, ACKNOWLEDGED, RoutePayload(route))
  }

  function CommandMessage(command: Command): seq<byte> {
    var frame := CommandFrame(command);
    Message(frame.kind, frame.flags, frame.payload)
  }

  /** Builds the message of a command, attribute by attribute. */
  method BuildCommand(command: Command) returns (message: seq<byte>)
    ensures message == CommandMessage(command)
  {
    match command
    case AddAddressCommand(index, address, prefix) =>
      var payload := PushAttrs(IfAddrMsg(index, address, prefix), AddressAttrs(address));
      message := Message(RTM_NEWADDR, CREATE_EXCLUSIVE, payload);
    case RemoveAddressCommand(index, address, prefix) =>
      var payload := PushAttrs(IfAddrMsg(index, address, prefix), AddressAttrs(address));
      message := Message(RTM_DELADDR, ACKNOWLEDGED, payload);
    case AddRouteCommand(route) => message := BuildRouteMessage(RTM_NEWROUTE, CREATE_REPLACE, route);
    case RemoveRouteCommand(route) => message := BuildRouteMessage(RTM_DELROUTE, ACKNOWLEDGED, route);
  }

  // --- Read as events ------------------------------------------------------------------------------

  function RouteEvents(change: ChangeKind, read: Option<Route>): seq<NetworkEvent> {
    if read.None? then [] else [RouteEvent(change, read.value)]
  }

  /** What a command announces; nothing for a route of a kind the daemon does not report. */
  function Announced(command: Command): Result<seq<NetworkEvent>, NetlinkError> {
    match command
    case AddAddressCommand(index, address, prefix) =>
      Success([AddressEvent(Created, AddressInfo(Unsigned(index), address, prefix))])
    case RemoveAddressCommand(index, address, prefix) =>
      Success([AddressEvent(Removed, AddressInfo(Unsigned(index), address, prefix))])
    case AddRouteCommand(route) =>
      var read :- Expected(route);
      Success(RouteEvents(Created, read))
    case RemoveRouteCommand(route) =>
      var read :- Expected(route);
      Success(RouteEvents(Removed, read))
  }

  lemma FoldAddress(address: IpAddr)
    ensures Fold(AddressAttrs(address), None, AddressStep(FamilyOf(address))) == Success(Some(IpBytes(address)))
  {
    var local, peer := Attr(IFA_LOCAL, IpBytes(address)), Attr(IFA_ADDRESS, IpBytes(address));
    var step := AddressStep(FamilyOf(address));
    var found := Some(IpBytes(address));
    assert AddressAttrs(address) == [local] + [peer] && [peer] + [] == [peer];
    assert |IpBytes(address)| == AddressLength(FamilyOf(address));
    assert step(None, local) == Success(found) && step(found, peer) == Success(found);
    FoldOne(local, [peer], None, step);
    FoldOne(peer, [], found, step);
  }

  lemma AddressReadsBack(index: i32, address: IpAddr, prefixLength: byte)
    ensures ParseAddress(AddressPayload(index, address, prefixLength))
            == Success(Some(AddressInfo(Unsigned(index), address, prefixLength)))
  {
    var payload := AddressPayload(index, address, prefixLength);
    assert payload[8..] == AttrsBytes(AddressAttrs(address));
    assert payload[4..8] == Le32(Unsigned(index));
    Le32RoundTrip(Unsigned(index));
    ScanIsFold(AddressAttrs(address), None, AddressStep(FamilyOf(address)));
    FoldAddress(address);
  }

  lemma AddressPayloadIsSmall(index: i32, address: IpAddr, prefixLength: byte)
    ensures |AddressPayload(index, address, prefixLength)| < 0x1000
  {
    AttrsAreSmall(AddressAttrs(address), 16);
  }

  lemma CommandFrameIsSmall(command: Command)
    ensures var frame := CommandFrame(command);
            |frame.payload| < 0x1000 && |frame.payload| % 4 == 0
  {
    match command
    case AddAddressCommand(index, address, prefix) => AddressPayloadIsSmall(index, address, prefix);
    case RemoveAddressCommand(index, address, prefix) => AddressPayloadIsSmall(index, address, prefix);
    case AddRouteCommand(route) => RoutePayloadIsSmall(route);
    case RemoveRouteCommand(route) => RoutePayloadIsSmall(route);
  }

  lemma AddressIsJudged(frame: Frame, info: AddressInfo)
    requires frame.kind == RTM_NEWADDR || frame.kind == RTM_DELADDR
    requires ParseAddress(frame.payload) == Success(Some(info))
    ensures JudgeEvent(frame) == Keep([AddressEvent(if frame.kind == RTM_DELADDR then Removed else Created, info)])
  {
  }

  lemma RouteIsJudged(frame: Frame, read: Result<Option<Route>, NetlinkError>)
    requires (frame.kind == RTM_NEWROUTE && frame.flags == CREATE_REPLACE) || frame.kind == RTM_DELROUTE
    requires ParseRoute(frame.payload) == read
    ensures JudgeEvent(frame)
            == if read.Failure? then Reject(read.error)
               else Keep(RouteEvents(if frame.kind == RTM_DELROUTE then Removed else Created, read.value))
  {
  }

  lemma CommandIsJudged(command: Command)
    ensures JudgeEvent(CommandFrame(command))
            == if Announced(command).Failure? then Reject(Announced(command).error) else Keep(Announced(command).value)
  {
    var frame := CommandFrame(command);
    if command.AddAddressCommand? || command.RemoveAddressCommand? {
      AddressReadsBack(command.index, command.address, command.prefixLength);
      AddressIsJudged(frame, AddressInfo(Unsigned(command.index), command.address, command.prefixLength));
    } else {
      RouteReadsBack(command.route);
      RouteIsJudged(frame, Expected(command.route));
    }
  }

  function CommandMessages(commands: seq<Command>): seq<byte> {
    if commands == [] then [] else CommandMessage(commands[0]) + CommandMessages(commands[1..])
  }

  /** What a list of commands announces, in order, or the first that is refused. */
  function AnnouncedAll(commands: seq<Command>): Result<seq<NetworkEvent>, NetlinkError> {
    if commands == [] then Success([])
    else
      var first :- Announced(commands[0]);
      var rest :- AnnouncedAll(commands[1..]);
      Success(first + rest)
  }

  /** Every list of address and route commands, echoed in one buffer, reads as exactly the events it
      announces: same interface, address, prefix and route, added or removed, in order. */
  lemma {:induction false} CommandsReadAsEvents(commands: seq<Command>)
    ensures ParseTiled(CommandMessages(commands), JudgeEvent) == AnnouncedAll(commands)
  {
    if commands != [] {
      var frame := CommandFrame(commands[0]);
      CommandFrameIsSmall(commands[0]);
      ParseOneMessage(frame.kind, frame.flags, 1, frame.payload, CommandMessages(commands[1..]), JudgeEvent);
      CommandIsJudged(commands[0]);
      CommandsReadAsEvents(commands[1..]);
    }
  }
}
