/** Route messages, built and parsed (src/linux/ipconfig.rs, src/linux/netlink.rs; section 3.1.1 of RFC 3549). */
module RouteCodec {
  import opened Model
  import opened Wrappers
  import opened Bytes
  import opened Netlink

  const RTA_DST: u16 := 1
  const RTA_OIF: u16 := 4
  const RTA_GATEWAY: u16 := 5
  const RTA_PRIORITY: u16 := 6
  const RT_TABLE_MAIN: byte := 254
  const RTPROT_STATIC: byte := 4
  const AF_INET: byte := 2
  const AF_INET6: byte := 10
  const RTM_NEWROUTE: u16 := 24
  const RTMSG_LENGTH := 12

  // --- Building --------------------------------------------------------------------------------

  function FamilyCode(family: IpFamily): byte {
    if family.FamilyV4? then AF_INET else AF_INET6
  }

  function IpBytes(ip: IpAddr): seq<byte> {
    match ip
    case V4(octets) => octets
    case V6(octets) => octets
  }

  function RouteAttrList(route: Route): seq<Attr> {
    (if route.IsDefault() then [] else [Attr(RTA_DST, IpBytes(route.destination))])
    + (if route.gateway.None? then [] else [Attr(RTA_GATEWAY, IpBytes(route.gateway.value))])
    + [Attr(RTA_OIF, Le32(Unsigned(route.outputInterface.GetOr(0))))]
    + (if route.metric.None? then [] else [Attr(RTA_PRIORITY, Le32(route.metric.value))])
  }

  function RtMsg(route: Route): (b: seq<byte>)
    ensures |b| == RTMSG_LENGTH
  {
    [FamilyCode(route.family), route.prefixLength, 0, 0, RT_TABLE_MAIN, RTPROT_STATIC,
     ScopeCode(route.scope), KindCode(route.kind), 0, 0, 0, 0]
  }

  function RoutePayload(route: Route): (b: seq<byte>)
    ensures |b| % 4 == 0
  {
    RtMsg(route) + AttrsBytes(RouteAttrList(route))
  }

  function RouteMessage(kind: u16, flags: u16, route: Route): seq<byte> {
    Message(kind, flags, RoutePayload(route))
  }

  /** Builds a route message the way the configurator does: attributes in order, then the frame. */
  method BuildRouteMessage(kind: u16, flags: u16, route: Route) returns (message: seq<byte>)
    ensures message == RouteMessage(kind, flags, route)
  {
    var attrs: seq<Attr> := [];
    if !route.IsDefault() {
      attrs := attrs + [Attr(RTA_DST, IpBytes(route.destination))];
    }
    if route.gateway.Some? {
      attrs := attrs + [Attr(RTA_GATEWAY, IpBytes(route.gateway.value))];
    }
    attrs := attrs + [Attr(RTA_OIF, Le32(Unsigned(route.outputInterface.GetOr(0))))];
    if route.metric.Some? {
      attrs := attrs + [Attr(RTA_PRIORITY, Le32(route.metric.value))];
    }
    assert attrs == RouteAttrList(route);
    var payload := PushAttrs(RtMsg(route), attrs);
    message := Message(kind, flags, payload);
  }

  // --- Parsing ---------------------------------------------------------------------------------------

  datatype RouteAttrs = RouteAttrs(
    destination: Option<seq<byte>>,
    gateway: Option<seq<byte>>,
    outputInterface: Option<i32>,
    metric: Option<u32>)

  const NO_ROUTE_ATTRS := RouteAttrs(None, None, None, None)

  function AddressLength(family: IpFamily): nat {
    if family.FamilyV4? then 4 else 16
  }

  function RouteStep(family: IpFamily): Step<RouteAttrs> {
    (acc: RouteAttrs, attr: Attr) => RouteAttr(family, acc, attr)
  }

  function RouteAttr(family: IpFamily, acc: RouteAttrs, attr: Attr): Result<RouteAttrs, NetlinkError> {
    if attr.typ == RTA_DST then
      if |attr.value| != AddressLength(family) then Failure(MalformedMessage("invalid route destination length"))
      else Success(acc.(destination := Some(attr.value)))
    else if attr.typ == RTA_GATEWAY then
      if |attr.value| != AddressLength(family) then Failure(MalformedMessage("invalid route gateway length"))
      else Success(acc.(gateway := Some(attr.value)))
    else if attr.typ == RTA_OIF then
      if |attr.value| != 4 then Failure(MalformedMessage("invalid route oif length"))
      else Success(acc.(outputInterface := Some(Signed(FromLe32(attr.value)))))
    else if attr.typ == RTA_PRIORITY then
      if |attr.value| != 4 then Failure(MalformedMessage("invalid route metric length"))
      else Success(acc.(metric := Some(FromLe32(attr.value))))
    else Success(acc)
  }

  function AddressFromBytes(family: IpFamily, bytes: seq<byte>): IpAddr
    requires |bytes| == AddressLength(family)
  {
    if family.FamilyV4? then V4(bytes) else V6(bytes)
  }

  predicate WellSized(family: IpFamily, attrs: RouteAttrs) {
    && (attrs.destination.Some? ==> |attrs.destination.value| == AddressLength(family))
    && (attrs.gateway.Some? ==> |attrs.gateway.value| == AddressLength(family))
  }

  lemma {:induction false} ScanKeepsSizes(family: IpFamily, buf: seq<byte>, acc: RouteAttrs)
    requires WellSized(family, acc)
    ensures var r := Scan(buf, acc, RouteStep(family)); r.Success? ==> WellSized(family, r.value)
    decreases |buf|
  {
    var read := ReadAttr(buf);
    if read.SomeAttr? {
      var next := RouteStep(family)(acc, read.attr);
      if next.Success? {
        ScanKeepsSizes(family, From(buf, read.size), next.value);
      }
    }
  }

  /** Only unicast, blackhole and unreachable routes are reported. */
  predicate ReportedKind(code: byte) {
    code == 1 || code == 6 || code == 7
  }

  function FamilyOfCode(code: byte): Option<IpFamily> {
    if code == AF_INET then Some(FamilyV4) else if code == AF_INET6 then Some(FamilyV6) else None
  }

  function RouteFrom(info: seq<byte>, family: IpFamily, attrs: RouteAttrs): Route
    requires |info| >= RTMSG_LENGTH && WellSized(family, attrs)
  {
    Route(family,
          if attrs.destination.None? then UnspecifiedAddress(family)
          else AddressFromBytes(family, attrs.destination.value),
          info[1],
          if attrs.gateway.None? then None else Some(AddressFromBytes(family, attrs.gateway.value)),
          attrs.outputInterface, attrs.metric, KindOfCode(info[7]), ScopeOfCode(info[6]))
  }

  /** Whether a route message is one the daemon looks at: family known, main table, reported kind. */
  predicate Relevant(info: seq<byte>)
    requires |info| >= RTMSG_LENGTH
  {
    FamilyOfCode(info[0]).Some? && (info[4] == 0 || info[4] == RT_TABLE_MAIN) && ReportedKind(info[7])
  }

  function ParseRoute(payload: seq<byte>): Result<Option<Route>, NetlinkError> {
    if |payload| < RTMSG_LENGTH then Failure(MalformedMessage("short rtmsg"))
    else if !Relevant(payload) then Success(None)
    else
      var family := FamilyOfCode(payload[0]).value;
      ScanKeepsSizes(family, payload[RTMSG_LENGTH..], NO_ROUTE_ATTRS);
      var attrs :- Scan(payload[RTMSG_LENGTH..], NO_ROUTE_ATTRS, RouteStep(family));
      Success(Some(RouteFrom(payload, family, attrs)))
  }

  method ParseRoutePayload(payload: seq<byte>) returns (r: Result<Option<Route>, NetlinkError>)
    ensures r == ParseRoute(payload)
  {
    if |payload| < RTMSG_LENGTH {
      return Failure(MalformedMessage("short rtmsg"));
    }
    var family := FamilyOfCode(payload[0]);
    if family.None? {
      return Success(None);
    }
    var table := if payload[4] == 0 then RT_TABLE_MAIN else payload[4];
    if table != RT_TABLE_MAIN {
      return Success(None);
    }
    if !ReportedKind(payload[7]) {
      return Success(None);
    }
    var attrs := ScanLoop(payload, RTMSG_LENGTH, NO_ROUTE_ATTRS, RouteStep(family.value));
    ScanKeepsSizes(family.value, payload[RTMSG_LENGTH..], NO_ROUTE_ATTRS);
    if attrs.Failure? {
      return Failure(attrs.error);
    }
    r := Success(Some(RouteFrom(payload, family.value, attrs.value)));
  }

  // --- One route, there and back -------------------------------------------------------------------------

  predicate InFamily(address: IpAddr, family: IpFamily) {
    address.V4? == family.FamilyV4?
  }

  predicate FamilyConsistent(route: Route) {
    InFamily(route.destination, route.family)
    && (route.gateway.Some? ==> InFamily(route.gateway.value, route.family))
  }

  /** How a route comes back: a missing interface as 0, kinds and scopes by their codes. */
  function ReadBack(route: Route): Route {
    route.(outputInterface := Some(route.outputInterface.GetOr(0)),
           kind := KindOfCode(KindCode(route.kind)),
           scope := ScopeOfCode(ScopeCode(route.scope)))
  }

  /** What parsing one built route gives. */
  function Expected(route: Route): Result<Option<Route>, NetlinkError> {
    if !ReportedKind(KindCode(route.kind)) then Success(None)
    else if !InFamily(route.destination, route.family) then
      Failure(MalformedMessage("invalid route destination length"))
    else if route.gateway.Some? && !InFamily(route.gateway.value, route.family) then
      Failure(MalformedMessage("invalid route gateway length"))
    else Success(Some(ReadBack(route)))
  }

  function ExpectedAttrs(route: Route): RouteAttrs {
    RouteAttrs(if route.IsDefault() then None else Some(IpBytes(route.destination)),
               if route.gateway.None? then None else Some(IpBytes(route.gateway.value)),
               Some(route.outputInterface.GetOr(0)), route.metric)
  }

  /** What scanning the attributes of a built route gives. */
  function ExpectedScan(route: Route): Result<RouteAttrs, NetlinkError> {
    if !InFamily(route.destination, route.family) then
      Failure(MalformedMessage("invalid route destination length"))
    else if route.gateway.Some? && !InFamily(route.gateway.value, route.family) then
      Failure(MalformedMessage("invalid route gateway length"))
    else Success(ExpectedAttrs(route))
  }

  lemma FoldOne<A>(attr: Attr, rest: seq<Attr>, acc: A, step: Step<A>)
    ensures Fold([attr] + rest, acc, step)
            == if step(acc, attr).Failure? then step(acc, attr) else Fold(rest, step(acc, attr).value, step)
  {
    assert ([attr] + rest)[1..] == rest;
  }

  /** The interface and metric attributes at the end of every route. */
  lemma FoldTail(route: Route, acc: RouteAttrs)
    ensures var tail := [Attr(RTA_OIF, Le32(Unsigned(route.outputInterface.GetOr(0))))]
                        + (if route.metric.None? then [] else [Attr(RTA_PRIORITY, Le32(route.metric.value))]);
            Fold(tail, acc, RouteStep(route.family))
            == Success(acc.(outputInterface := Some(route.outputInterface.GetOr(0)),
                            metric := if route.metric.None? then acc.metric else route.metric))
  {
    var step := RouteStep(route.family);
    var oif := Attr(RTA_OIF, Le32(Unsigned(route.outputInterface.GetOr(0))));
    var metrics := if route.metric.None? then [] else [Attr(RTA_PRIORITY, Le32(route.metric.value))];
    Le32RoundTrip(Unsigned(route.outputInterface.GetOr(0)));
    FoldOne(oif, metrics, acc, step);
    if route.metric.Some? {
      Le32RoundTrip(route.metric.value);
      var next := acc.(outputInterface := Some(route.outputInterface.GetOr(0)));
      FoldOne(metrics[0], [], next, step);
      assert [metrics[0]] + [] == metrics;
    }
  }

  lemma FoldRouteAttrs(route: Route)
    ensures Fold(RouteAttrList(route), NO_ROUTE_ATTRS, RouteStep(route.family)) == ExpectedScan(route)
  {
    var step := RouteStep(route.family);
    var tail := [Attr(RTA_OIF, Le32(Unsigned(route.outputInterface.GetOr(0))))]
                + (if route.metric.None? then [] else [Attr(RTA_PRIORITY, Le32(route.metric.value))]);
    var gateways := if route.gateway.None? then [] else [Attr(RTA_GATEWAY, IpBytes(route.gateway.value))];
    var acc := NO_ROUTE_ATTRS;
    if route.IsDefault() {
      assert RouteAttrList(route) == gateways + tail;
    } else {
      var dst := Attr(RTA_DST, IpBytes(route.destination));
      assert RouteAttrList(route) == [dst] + (gateways + tail);
      FoldOne(dst, gateways + tail, acc, step);
      acc := acc.(destination := Some(IpBytes(route.destination)));
    }
    if route.IsDefault() || InFamily(route.destination, route.family) {
      if route.gateway.Some? {
        FoldOne(gateways[0], tail, acc, step);
        FoldTail(route, acc.(gateway := Some(IpBytes(route.gateway.value))));
      } else {
        assert gateways + tail == tail;
        FoldTail(route, acc);
      }
    }
  }

  lemma HeaderReadsBack(route: Route)
    ensures var payload := RoutePayload(route);
            && payload[RTMSG_LENGTH..] == AttrsBytes(RouteAttrList(route))
            && payload[0] == FamilyCode(route.family) && payload[1] == route.prefixLength
            && payload[4] == RT_TABLE_MAIN
            && payload[6] == ScopeCode(route.scope) && payload[7] == KindCode(route.kind)
  {
  }

  lemma FieldsReadBack(route: Route, info: seq<byte>)
    requires |info| >= RTMSG_LENGTH && FamilyConsistent(route)
    requires info[1] == route.prefixLength && info[6] == ScopeCode(route.scope) && info[7] == KindCode(route.kind)
    ensures WellSized(route.family, ExpectedAttrs(route))
    ensures RouteFrom(info, route.family, ExpectedAttrs(route)) == ReadBack(route)
  {
  }

  /** Parsing a relevant message whose attributes scan as `attrs`. */
  lemma ParseScanned(payload: seq<byte>, family: IpFamily, attrs: Result<RouteAttrs, NetlinkError>)
    requires |payload| >= RTMSG_LENGTH && Relevant(payload) && FamilyOfCode(payload[0]) == Some(family)
    requires Scan(payload[RTMSG_LENGTH..], NO_ROUTE_ATTRS, RouteStep(family)) == attrs
    ensures attrs.Failure? ==> ParseRoute(payload) == Failure(attrs.error)
    ensures attrs.Success? ==> WellSized(family, attrs.value)
                               && ParseRoute(payload) == Success(Some(RouteFrom(payload, family, attrs.value)))
  {
    ScanKeepsSizes(family, payload[RTMSG_LENGTH..], NO_ROUTE_ATTRS);
  }

  lemma AttrsScan(route: Route)
    ensures Scan(RoutePayload(route)[RTMSG_LENGTH..], NO_ROUTE_ATTRS, RouteStep(route.family)) == ExpectedScan(route)
  {
    HeaderReadsBack(route);
    ScanIsFold(RouteAttrList(route), NO_ROUTE_ATTRS, RouteStep(route.family));
    FoldRouteAttrs(route);
  }

  /** Parsing any payload with the header and the scanned attributes of a route. */
  lemma PayloadReadsBack(route: Route, payload: seq<byte>)
    requires |payload| >= RTMSG_LENGTH && payload[0] == FamilyCode(route.family) && payload[1] == route.prefixLength
    requires payload[4] == RT_TABLE_MAIN && payload[6] == ScopeCode(route.scope) && payload[7] == KindCode(route.kind)
    requires Scan(payload[RTMSG_LENGTH..], NO_ROUTE_ATTRS, RouteStep(route.family)) == ExpectedScan(route)
    ensures ParseRoute(payload) == Expected(route)
  {
    if ReportedKind(payload[7]) {
      ParseScanned(payload, route.family, ExpectedScan(route));
      if FamilyConsistent(route) {
        FieldsReadBack(route, payload);
      }
    }
  }

  /** Parsing a built route, for every route: which come back, in what form, and which are refused. */
  lemma RouteReadsBack(route: Route)
    ensures ParseRoute(RoutePayload(route)) == Expected(route)
  {
    HeaderReadsBack(route);
    AttrsScan(route);
    PayloadReadsBack(route, RoutePayload(route));
  }
}
