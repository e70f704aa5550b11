/** Dumps and event buffers: whole buffers of netlink messages (src/linux/netlink.rs). */
module NetworkEvents {
  import opened Model
  import opened Wrappers
  import opened Bytes
  import opened Netlink
  import opened Buffers
  import opened RouteCodec

  function ToSeq<T>(o: Option<T>): seq<T> {
    if o.None? then [] else [o.value]
  }

  /** Dumps keep the wanted kind of message, skip other kinds, stop at DONE and refuse an error. */
  function JudgeWanted<T>(frame: Frame, wanted: u16, parse: seq<byte> -> Result<Option<T>, NetlinkError>): Verdict<T> {
    if frame.kind == NLMSG_DONE then Stop
    else if frame.kind == NLMSG_ERROR then Reject(KernelErrorOf(frame.payload))
    else if frame.kind != wanted then Keep([])
    else match parse(frame.payload)
      case Failure(error) => Reject(error)
      case Success(item) => Keep(ToSeq(item))
  }

  function JudgeRoute(frame: Frame): Verdict<Route> {
    JudgeWanted(frame, RTM_NEWROUTE, ParseRoute)
  }

  /** One buffer of a route dump: the routes in it and whether the dump is done. */
  method ParseRouteMessages(buf: seq<byte>) returns (r: Result<(seq<Route>, bool), NetlinkError>)
    ensures r == Dump(buf, JudgeRoute)
  {
    r := DumpLoop(buf, JudgeRoute);
  }

  // --- Routes, there and back -------------------------------------------------------------------------

  function RouteMessages(routes: seq<Route>, flags: u16): seq<byte> {
    if routes == [] then [] else RouteMessage(RTM_NEWROUTE, flags, routes[0]) + RouteMessages(routes[1..], flags)
  }

  /** What a list of routes comes back as: the reported ones in order, or the first refusal. */
  function ExpectedAll(routes: seq<Route>): Result<seq<Route>, NetlinkError> {
    if routes == [] then Success([])
    else
      var first :- Expected(routes[0]);
      var rest :- ExpectedAll(routes[1..]);
      Success(ToSeq(first) + rest)
  }

  lemma RoutePayloadIsSmall(route: Route)
    ensures |RoutePayload(route)| < 0x1000
  {
    var attrs := RouteAttrList(route);
    assert |attrs| <= 4 && forall i :: 0 <= i < |attrs| ==> |attrs[i].value| <= 16;
    AttrsAreSmall(attrs, 16);
  }

  lemma {:induction false} AttrsAreSmall(attrs: seq<Attr>, limit: nat)
    requires limit <= 16 && forall i :: 0 <= i < |attrs| ==> |attrs[i].value| <= limit
    ensures |AttrsBytes(attrs)| <= |attrs| * 23
  {
    if attrs != [] {
      AttrsAreSmall(attrs[1..], limit);
    }
  }

  lemma DumpOneRoute(route: Route, flags: u16, rest: seq<byte>)
    ensures Dump(RouteMessage(RTM_NEWROUTE, flags, route) + rest, JudgeRoute)
            == if Expected(route).Failure? then Failure(Expected(route).error)
               else Prepend(ToSeq(Expected(route).value), Dump(rest, JudgeRoute))
  {
    RoutePayloadIsSmall(route);
    ReadMessage(RTM_NEWROUTE, flags, 1, RoutePayload(route), rest);
    RouteReadsBack(route);
  }

  lemma DumpDone(flags: u16, payload: seq<byte>, rest: seq<byte>)
    requires |payload| < 0x1000
    ensures Dump(Message(NLMSG_DONE, flags, payload) + rest, JudgeRoute) == Success(([], true))
  {
    ReadMessage(NLMSG_DONE, flags, 1, payload, rest);
  }

  /** For every list of routes: dumping their built messages followed by DONE (and anything after
      it) gives back exactly the reported routes in order, or the first refusal. */
  lemma {:induction false} RouteListReadsBack(routes: seq<Route>, flags: u16, done: seq<byte>, after: seq<byte>)
    requires |done| < 0x1000
    ensures Dump(RouteMessages(routes, flags) + Message(NLMSG_DONE, 0, done) + after, JudgeRoute)
            == if ExpectedAll(routes).Failure? then Failure(ExpectedAll(routes).error)
               else Success((ExpectedAll(routes).value, true))
  {
    var tail := Message(NLMSG_DONE, 0, done) + after;
    assert RouteMessages(routes, flags) + Message(NLMSG_DONE, 0, done) + after == RouteMessages(routes, flags) + tail;
    if routes == [] {
      assert RouteMessages(routes, flags) + tail == tail;
      DumpDone(0, done, after);
    } else {
      var rest := RouteMessages(routes[1..], flags) + Message(NLMSG_DONE, 0, done) + after;
      assert RouteMessages(routes, flags) + tail == RouteMessage(RTM_NEWROUTE, flags, routes[0]) + rest;
      RouteListReadsBack(routes[1..], flags, done, after);
      DumpOneRoute(routes[0], flags, rest);
    }
  }

  /** Routes that come back unchanged: family-consistent, of a reported kind, with an interface and
      with the named form of their kind and scope. */
  predicate Canonical(route: Route) {
    && FamilyConsistent(route)
    && (route.kind.Unicast? || route.kind.Blackhole? || route.kind.Unreachable?)
    && route.outputInterface.Some?
    && ScopeOfCode(ScopeCode(route.scope)) == route.scope
  }

  /** Lists of canonical routes survive the round trip exactly, and only those do. */
  lemma {:induction false} ExactlyCanonicalListsAreUnchanged(routes: seq<Route>)
    ensures ExpectedAll(routes) == Success(routes) <==> forall i :: 0 <= i < |routes| ==> Canonical(routes[i])
  {
    if routes != [] {
      var first, rest := routes[0], routes[1..];
      assert routes == [first] + rest;
      ExactlyCanonicalListsAreUnchanged(rest);
      ExpectedIsNoLonger(rest);
      if ExpectedAll(routes) == Success(routes) {
        assert ToSeq(Expected(first).value) + ExpectedAll(rest).value == routes;
        assert |ToSeq(Expected(first).value)| == 1;
        assert (ToSeq(Expected(first).value) + ExpectedAll(rest).value)[1..] == ExpectedAll(rest).value;
        assert ReadBack(first) == first;
      }
    }
  }

  lemma {:induction false} ExpectedIsNoLonger(routes: seq<Route>)
    ensures ExpectedAll(routes).Success? ==> |ExpectedAll(routes).value| <= |routes|
  {
    if routes != [] {
      ExpectedIsNoLonger(routes[1..]);
    }
  }

  // --- Events ------------------------------------------------------------------------------------------

  const RTM_NEWLINK: u16 := 16
  const RTM_DELLINK: u16 := 17
  const RTM_NEWADDR: u16 := 20
  const RTM_DELADDR: u16 := 21
  const RTM_DELROUTE: u16 := 25
  const IFLA_IFNAME: u16 := 3
  const IFA_ADDRESS: u16 := 1
  const IFA_LOCAL: u16 := 2

  /** A link, its name as raw bytes up to the first NUL. */
  datatype LinkInfo = LinkInfo(index: i32, name: seq<byte>, flags: u32)

  datatype AddressInfo = AddressInfo(interfaceIndex: u32, address: IpAddr, prefixLength: byte)

  datatype ChangeKind = Created | Changed | Removed

  datatype NetworkEvent =
    | LinkEvent(change: ChangeKind, link: LinkInfo)
    | AddressEvent(change: ChangeKind, address: AddressInfo)
    | RouteEvent(change: ChangeKind, route: Route)

  function LinkStep(): Step<Option<seq<byte>>> {
    (acc: Option<seq<byte>>, attr: Attr) =>
      Success(if attr.typ == IFLA_IFNAME then Some(UntilNul(attr.value)) else acc)
  }

  function ParseLink(payload: seq<byte>): Result<Option<LinkInfo>, NetlinkError> {
    if |payload| < 16 then Failure(MalformedMessage("short ifinfomsg"))
    else
      var name :- Scan(payload[16..], None, LinkStep());
      if name.None? then Success(None)
      else Success(Some(LinkInfo(Signed(FromLe32(payload[4..8])), name.value, FromLe32(payload[8..12]))))
  }

  function AddressStep(family: IpFamily): Step<Option<seq<byte>>> {
    (acc: Option<seq<byte>>, attr: Attr) =>
      if (attr.typ == IFA_LOCAL || attr.typ == IFA_ADDRESS) && acc.None? then
        if |attr.value| != AddressLength(family) then Failure(MalformedMessage("invalid address attribute length"))
        else Success(Some(attr.value))
      else Success(acc)
  }

  lemma {:induction false} AddressScanSize(family: IpFamily, buf: seq<byte>, acc: Option<seq<byte>>)
    requires acc.Some? ==> |acc.value| == AddressLength(family)
    ensures var r := Scan(buf, acc, AddressStep(family));
            r.Success? && r.value.Some? ==> |r.value.value| == AddressLength(family)
    decreases |buf|
  {
    var read := ReadAttr(buf);
    if read.SomeAttr? && AddressStep(family)(acc, read.attr).Success? {
      AddressScanSize(family, From(buf, read.size), AddressStep(family)(acc, read.attr).value);
    }
  }

  function ParseAddress(payload: seq<byte>): Result<Option<AddressInfo>, NetlinkError> {
    if |payload| < 8 then Failure(MalformedMessage("short ifaddrmsg"))
    else if FamilyOfCode(payload[0]).None? then Success(None)
    else
      var family := FamilyOfCode(payload[0]).value;
      AddressScanSize(family, payload[8..], None);
      var octets :- Scan(payload[8..], None, AddressStep(family));
      if octets.None? then Success(None)
      else Success(Some(AddressInfo(FromLe32(payload[4..8]), AddressFromBytes(family, octets.value), payload[1])))
  }

  /** NLM_F_CREATE marks a new object; without it an existing one changed. */
  function NewOrChanged(flags: u16): ChangeKind {
    if flags / 0x400 % 2 == 1 then Created else Changed
  }

  function EventOf(frame: Frame): Result<Option<NetworkEvent>, NetlinkError> {
    if frame.kind == RTM_NEWLINK || frame.kind == RTM_DELLINK then
      var link :- ParseLink(frame.payload);
      var change := if frame.kind == RTM_DELLINK then Removed else NewOrChanged(frame.flags);
      Success(if link.None? then None else Some(LinkEvent(change, link.value)))
    else if frame.kind == RTM_NEWADDR || frame.kind == RTM_DELADDR then
      var address :- ParseAddress(frame.payload);
      var change := if frame.kind == RTM_DELADDR then Removed else Created;
      Success(if address.None? then None else Some(AddressEvent(change, address.value)))
    else if frame.kind == RTM_NEWROUTE || frame.kind == RTM_DELROUTE then
      var route :- ParseRoute(frame.payload);
      var change := if frame.kind == RTM_DELROUTE then Removed else NewOrChanged(frame.flags);
      Success(if route.None? then None else Some(RouteEvent(change, route.value)))
    else Success(None)
  }

  /** DONE stops the parse and an error message refuses the buffer. */
  function JudgeEvent(frame: Frame): Verdict<NetworkEvent> {
    if frame.kind == NLMSG_DONE then Stop
    else if frame.kind == NLMSG_ERROR then Reject(KernelErrorOf(frame.payload))
    else match EventOf(frame)
      case Failure(error) => Reject(error)
      case Success(event) => Keep(ToSeq(event))
  }

  /** The events of one receive buffer. */
  method ParseNetworkEvents(buf: seq<byte>) returns (r: Result<seq<NetworkEvent>, NetlinkError>)
    ensures r == ParseTiled(buf, JudgeEvent)
  {
    r := ParseLoop(buf, JudgeEvent);
  }

  /** An accepted event buffer that does not stop at DONE is tiled exactly by aligned messages, and
      yields their events in order. */
  lemma AcceptedEventsTile(buf: seq<byte>) returns (chunks: seq<seq<byte>>, rest: seq<byte>)
    requires ParseTiled(buf, JudgeEvent).Success?
    ensures buf == Concat(chunks) + rest
    ensures rest == [] || (ReadFrame(rest).SomeFrame? && ReadFrame(rest).frame.kind == NLMSG_DONE)
    ensures AllKept(chunks, JudgeEvent) && ParseTiled(buf, JudgeEvent).value == ItemsOf(chunks, JudgeEvent)
  {
    chunks, rest := AcceptedBufferTiles(buf, JudgeEvent);
  }
}
