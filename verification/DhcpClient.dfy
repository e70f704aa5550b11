/** The first-lease DHCPv4 exchange (src/linux/dhcp/mod.rs, src/linux/dhcp/packet.rs; section 3.1 of RFC 2131). */
module DhcpClient {
  import opened Model
  import opened Wrappers
  import opened Bytes
  import opened IpTypes
  import opened Profiles
  import opened DhcpPacket
  import Prefix

  const OPTION_SUBNET_MASK: byte := 1
  const OPTION_ROUTER: byte := 3
  const OPTION_DNS: byte := 6
  const OPTION_HOSTNAME: byte := 12
  const OPTION_DOMAIN_NAME: byte := 15
  const OPTION_REQUESTED_IP: byte := 50
  const OPTION_LEASE_TIME: byte := 51
  const OPTION_MESSAGE_TYPE: byte := 53
  const OPTION_SERVER_ID: byte := 54
  const OPTION_T1: byte := 58
  const OPTION_T2: byte := 59

  const DISCOVER: byte := 1
  const OFFER: byte := 2
  const REQUEST: byte := 3
  const ACK: byte := 5
  const NAK: byte := 6

  const BUFFER_LENGTH := 4096

  // --- Reading a packet ------------------------------------------------------------------------

  function FindOption(options: seq<DhcpOption>, code: byte): Option<seq<byte>> {
    if options == [] then None
    else if options[0].code == code then Some(options[0].value)
    else FindOption(options[1..], code)
  }

  /** The message type, 0 when the option is missing or empty. */
  function MessageType(p: Packet): byte {
    var found := FindOption(p.options, OPTION_MESSAGE_TYPE);
    if found.None? || found.value == [] then 0 else found.value[0]
  }

  function NonZero(address: Octets4): Option<Octets4> {
    if address == UNSPECIFIED_V4 then None else Some(address)
  }

  function AddressOption(p: Packet, code: byte): Option<Octets4> {
    var found := FindOption(p.options, code);
    if found.None? || |found.value| != 4 then None else Some(found.value)
  }

  function WordOption(p: Packet, code: byte): Option<u32> {
    var found := FindOption(p.options, code);
    if found.None? || |found.value| != 4 then None else Some(FromBe32(found.value))
  }

  /** Whole four-byte chunks; a shorter remainder is dropped. */
  function Chunks(bytes: seq<byte>): seq<Octets4> {
    if |bytes| < 4 then [] else [bytes[..4]] + Chunks(bytes[4..])
  }

  function AddressListOption(p: Packet, code: byte): seq<Octets4> {
    var found := FindOption(p.options, code);
    if found.None? then [] else Chunks(found.value)
  }

  /** The classful mask used when the server sends none. */
  function ClassfulMask(address: Octets4): Octets4 {
    if address[0] < 128 then [255, 0, 0, 0]
    else if address[0] < 192 then [255, 255, 0, 0]
    else [255, 255, 255, 0]
  }

  function Netmask(p: Packet, address: Octets4): Octets4 {
    AddressOption(p, OPTION_SUBNET_MASK).GetOr(ClassfulMask(address))
  }

  /** What the caller asks for, and how option text is read. */
  datatype Lessee = Lessee(
    interfaceIndex: i32,
    interfaceName: string,
    mac: MacAddress,
    hostname: Option<seq<byte>>,
    requested: Option<Octets4>,
    readText: seq<byte> -> string)

  function SearchDomains(p: Packet, readText: seq<byte> -> string): seq<string> {
    var found := FindOption(p.options, OPTION_DOMAIN_NAME);
    if found.None? then [] else [readText(UntilNul(found.value))]
  }

  function ToLease(p: Packet, lessee: Lessee): Result<DhcpLease, DhcpError> {
    if NonZero(p.yiaddr).None? then Failure(MalformedPacket("DHCPACK carried no address"))
    else if p.chaddr[..6] != lessee.mac then Failure(MalformedPacket("DHCPACK addressed to another client"))
    else
      var netmask := Netmask(p, p.yiaddr);
      Prefix.PrefixDescribesContiguousMasks(netmask);
      var routers := AddressListOption(p, OPTION_ROUTER);
      Success(DhcpLease(
        lessee.interfaceIndex, lessee.interfaceName, p.yiaddr, Prefix.PrefixLengthFromNetmask(netmask), netmask,
        if routers == [] then None else Some(routers[0]),
        AddressListOption(p, OPTION_DNS), SearchDomains(p, lessee.readText),
        AddressOption(p, OPTION_SERVER_ID), WordOption(p, OPTION_LEASE_TIME),
        WordOption(p, OPTION_T1), WordOption(p, OPTION_T2)))
  }

  /** A lease's prefix is always a real IPv4 prefix, and describes its mask exactly when the mask is contiguous. */
  lemma LeasePrefixIsInRange(p: Packet, lessee: Lessee)
    requires ToLease(p, lessee).Success?
    ensures ToLease(p, lessee).value.prefixLength <= 32
    ensures var lease := ToLease(p, lessee).value;
            Prefix.SubnetMask(lease.prefixLength) == lease.netmask <==> Prefix.Contiguous(lease.netmask)
  {
    Prefix.PrefixDescribesContiguousMasks(Netmask(p, p.yiaddr));
  }

  // --- Writing requests --------------------------------------------------------------------------------

  function Optional(code: byte, value: Option<seq<byte>>): seq<DhcpOption> {
    if value.None? then [] else [DhcpOption(code, value.value)]
  }

  function BasePacket(xid: u32, mac: MacAddress, options: seq<DhcpOption>): Packet {
    Packet(1, xid, 0x8000, UNSPECIFIED_V4, UNSPECIFIED_V4, UNSPECIFIED_V4, UNSPECIFIED_V4,
           mac + Zeros(10), Zeros(64), Zeros(128), options)
  }

  function DiscoverPacket(xid: u32, lessee: Lessee): Packet {
    BasePacket(xid, lessee.mac,
               [DhcpOption(OPTION_MESSAGE_TYPE, [DISCOVER])]
               + Optional(OPTION_HOSTNAME, lessee.hostname) + Optional(OPTION_REQUESTED_IP, lessee.requested))
  }

  /** The server to confirm with: the server identifier, or else the next-server address. */
  function ServerOf(offer: Packet): Option<Octets4> {
    var named := AddressOption(offer, OPTION_SERVER_ID);
    if named.Some? then named else NonZero(offer.siaddr)
  }

  function RequestPacket(xid: u32, lessee: Lessee, offer: Packet): Packet {
    BasePacket(xid, lessee.mac,
               [DhcpOption(OPTION_MESSAGE_TYPE, [REQUEST])]
               + Optional(OPTION_REQUESTED_IP, NonZero(offer.yiaddr))
               + Optional(OPTION_SERVER_ID, ServerOf(offer))
               + Optional(OPTION_HOSTNAME, lessee.hostname))
  }

  // --- The exchange ----------------------------------------------------------------------------------------

  /** A datagram as the client sees it: cut to its receive buffer. */
  function Received(datagram: seq<byte>): seq<byte> {
    if |datagram| > BUFFER_LENGTH then datagram[..BUFFER_LENGTH] else datagram
  }

  predicate Relevant(datagram: seq<byte>, xid: u32) {
    var parsed := Parse(Received(datagram));
    parsed.Success? && parsed.value.xid == xid
  }

  /** The packets with our transaction id, in order of arrival. */
  function RelevantPackets(datagrams: seq<seq<byte>>, xid: u32): seq<Packet> {
    if datagrams == [] then []
    else if Relevant(datagrams[0], xid) then
      [Parse(Received(datagrams[0])).value] + RelevantPackets(datagrams[1..], xid)
    else RelevantPackets(datagrams[1..], xid)
  }

  datatype Exchange = Exchange(result: Result<DhcpLease, DhcpError>, sent: seq<seq<byte>>)

  predicate UsableOffer(p: Packet) {
    MessageType(p) == OFFER && NonZero(p.yiaddr).Some?
  }

  /** What the first packet says is wrong with it as an offer. */
  function OfferError(p: Packet): DhcpError {
    if MessageType(p) != OFFER then MalformedPacket("expected a DHCPOFFER in response to DISCOVER")
    else MalformedPacket("DHCPOFFER carried no usable address")
  }

  function Conclude(ack: Packet, lessee: Lessee): Result<DhcpLease, DhcpError> {
    if MessageType(ack) == ACK then ToLease(ack, lessee)
    else if MessageType(ack) == NAK then Failure(MalformedPacket("server returned DHCPNAK"))
    else Failure(MalformedPacket("expected a DHCPACK in response to REQUEST"))
  }

  /** The exchange as a function of the packets that matter. */
  function Acquire(packets: seq<Packet>, xid: u32, lessee: Lessee): Exchange {
    var discover := Serialize(DiscoverPacket(xid, lessee));
    if |packets| == 0 then Exchange(Failure(Timeout), [discover])
    else if !UsableOffer(packets[0]) then Exchange(Failure(OfferError(packets[0])), [discover])
    else
      var request := Serialize(RequestPacket(xid, lessee, packets[0]));
      Exchange(if |packets| == 1 then Failure(Timeout) else Conclude(packets[1], lessee), [discover, request])
  }

  /** Receives until a packet with our transaction id arrives; running out of datagrams is the deadline. */
  method WaitForPacket(
      datagrams: seq<seq<byte>>, start: nat, xid: u32) returns (r: Result<Packet, DhcpError>, next: nat)
    requires start <= |datagrams|
    ensures start <= next <= |datagrams|
    ensures var packets := RelevantPackets(datagrams[start..], xid);
            if packets == [] then r == Failure(Timeout)
            else r == Success(packets[0]) && RelevantPackets(datagrams[next..], xid) == packets[1..]
  {
    next := start;
    while next < |datagrams|
      invariant start <= next <= |datagrams|
      invariant RelevantPackets(datagrams[start..], xid) == RelevantPackets(datagrams[next..], xid)
    {
      var datagram := Received(datagrams[next]);
      assert datagrams[next..][1..] == datagrams[next + 1..];
      next := next + 1;
      if datagram == [] {
        continue;
      }
      var parsed := ParsePacket(datagram);
      if parsed.Success? && parsed.value.xid == xid {
        return parsed, next;
      }
    }
    r := Failure(Timeout);
  }

  /** Sends DISCOVER, takes one reply, sends REQUEST, takes one reply. */
  method AcquireLease(datagrams: seq<seq<byte>>, xid: u32, lessee: Lessee) returns (exchange: Exchange)
    ensures exchange == Acquire(RelevantPackets(datagrams, xid), xid, lessee)
  {
    var discover := SerializePacket(DiscoverPacket(xid, lessee), []);
    assert DiscoverPacket(xid, lessee).options + [] == DiscoverPacket(xid, lessee).options;
    var sent := [discover];
    assert datagrams[0..] == datagrams;
    var offer, next := WaitForPacket(datagrams, 0, xid);
    if offer.Failure? {
      return Exchange(Failure(offer.error), sent);
    }
    if MessageType(offer.value) != OFFER || NonZero(offer.value.yiaddr).None? {
      return Exchange(Failure(OfferError(offer.value)), sent);
    }
    var request := SerializePacket(RequestPacket(xid, lessee, offer.value), []);
    assert RequestPacket(xid, lessee, offer.value).options + [] == RequestPacket(xid, lessee, offer.value).options;
    sent := sent + [request];
    var ack, end := WaitForPacket(datagrams, next, xid);
    if ack.Failure? {
      return Exchange(Failure(ack.error), sent);
    }
    exchange := Exchange(Conclude(ack.value, lessee), sent);
  }

  // --- Results -------------------------------------------------------------------------------------------------

  predicate AcceptableAck(p: Packet, mac: MacAddress) {
    MessageType(p) == ACK && NonZero(p.yiaddr).Some? && p.chaddr[..6] == mac
  }

  /** Position `i` holds the first datagram with our id at or after `start`. */
  ghost predicate FirstRelevant(datagrams: seq<seq<byte>>, start: nat, i: nat, xid: u32) {
    && start <= i < |datagrams| && Relevant(datagrams[i], xid)
    && forall k :: start <= k < i ==> !Relevant(datagrams[k], xid)
  }

  function PacketIn(datagram: seq<byte>, xid: u32): Packet
    requires Relevant(datagram, xid)
  {
    Parse(Received(datagram)).value
  }

  lemma {:induction false} FirstPacketAt(datagrams: seq<seq<byte>>, start: nat, i: nat, xid: u32)
    requires FirstRelevant(datagrams, start, i, xid)
    ensures RelevantPackets(datagrams[start..], xid)
            == [PacketIn(datagrams[i], xid)] + RelevantPackets(datagrams[i + 1..], xid)
    decreases i - start
  {
    assert datagrams[start..][1..] == datagrams[start + 1..];
    if start < i {
      FirstPacketAt(datagrams, start + 1, i, xid);
    }
  }

  lemma {:induction false} SomeFirst(datagrams: seq<seq<byte>>, start: nat, xid: u32) returns (i: nat)
    requires start <= |datagrams| && RelevantPackets(datagrams[start..], xid) != []
    ensures FirstRelevant(datagrams, start, i, xid)
    decreases |datagrams| - start
  {
    assert datagrams[start..][1..] == datagrams[start + 1..];
    if Relevant(datagrams[start], xid) {
      i := start;
    } else {
      i := SomeFirst(datagrams, start + 1, xid);
    }
  }

  /** The datagrams at `i` and `j` are the first two with our id: a usable offer and an acknowledgement for us. */
  ghost predicate OfferThenAck(datagrams: seq<seq<byte>>, i: nat, j: nat, xid: u32, mac: MacAddress) {
    && FirstRelevant(datagrams, 0, i, xid) && FirstRelevant(datagrams, i + 1, j, xid)
    && UsableOffer(PacketIn(datagrams[i], xid)) && AcceptableAck(PacketIn(datagrams[j], xid), mac)
  }

  /** The exchange when two packets with our id arrive. */
  lemma TwoPackets(packets: seq<Packet>, first: Packet, second: Packet, rest: seq<Packet>, xid: u32, lessee: Lessee)
    requires packets == [first] + ([second] + rest)
    ensures var result := Acquire(packets, xid, lessee).result;
            && (result.Success? <==> UsableOffer(first) && AcceptableAck(second, lessee.mac))
            && (result.Success? ==> result == ToLease(second, lessee))
  {
    assert packets[0] == first && packets[1] == second;
  }

  /** The first two datagrams with our id give the first two packets. */
  lemma FirstTwo(datagrams: seq<seq<byte>>, i: nat, j: nat, xid: u32)
    requires FirstRelevant(datagrams, 0, i, xid) && FirstRelevant(datagrams, i + 1, j, xid)
    ensures RelevantPackets(datagrams, xid)
            == [PacketIn(datagrams[i], xid)]
               + ([PacketIn(datagrams[j], xid)] + RelevantPackets(datagrams[j + 1..], xid))
  {
    assert datagrams[0..] == datagrams;
    FirstPacketAt(datagrams, 0, i, xid);
    FirstPacketAt(datagrams, i + 1, j, xid);
  }

  lemma SomeTwo(datagrams: seq<seq<byte>>, xid: u32) returns (i: nat, j: nat)
    requires |RelevantPackets(datagrams, xid)| >= 2
    ensures FirstRelevant(datagrams, 0, i, xid) && FirstRelevant(datagrams, i + 1, j, xid)
  {
    assert datagrams[0..] == datagrams;
    i := SomeFirst(datagrams, 0, xid);
    FirstPacketAt(datagrams, 0, i, xid);
    j := SomeFirst(datagrams, i + 1, xid);
  }

  lemma OfferThenAckGivesLease(datagrams: seq<seq<byte>>, i: nat, j: nat, xid: u32, lessee: Lessee)
    requires OfferThenAck(datagrams, i, j, xid, lessee.mac)
    ensures var result := Acquire(RelevantPackets(datagrams, xid), xid, lessee).result;
            result.Success? && result == ToLease(PacketIn(datagrams[j], xid), lessee)
  {
    FirstTwo(datagrams, i, j, xid);
    TwoPackets(RelevantPackets(datagrams, xid), PacketIn(datagrams[i], xid), PacketIn(datagrams[j], xid),
               RelevantPackets(datagrams[j + 1..], xid), xid, lessee);
  }

  lemma LeaseNeedsTwo(packets: seq<Packet>, xid: u32, lessee: Lessee)
    ensures Acquire(packets, xid, lessee).result.Success? ==> |packets| >= 2
  {
  }

  lemma LeaseComesFromOfferThenAck(datagrams: seq<seq<byte>>, xid: u32, lessee: Lessee) returns (i: nat, j: nat)
    requires Acquire(RelevantPackets(datagrams, xid), xid, lessee).result.Success?
    ensures OfferThenAck(datagrams, i, j, xid, lessee.mac)
  {
    LeaseNeedsTwo(RelevantPackets(datagrams, xid), xid, lessee);
    i, j := SomeTwo(datagrams, xid);
    FirstTwo(datagrams, i, j, xid);
    TwoPackets(RelevantPackets(datagrams, xid), PacketIn(datagrams[i], xid), PacketIn(datagrams[j], xid),
               RelevantPackets(datagrams[j + 1..], xid), xid, lessee);
  }

  /** For every sequence of datagrams, a lease is returned exactly when the first datagram with our id
      is a usable offer and the next such datagram an acknowledgement for us, and it is that one's lease. */
  lemma LeaseExactlyOnOfferThenAck(datagrams: seq<seq<byte>>, xid: u32, lessee: Lessee)
    ensures var result := Acquire(RelevantPackets(datagrams, xid), xid, lessee).result;
            && (result.Success? <==> exists i: nat, j: nat :: OfferThenAck(datagrams, i, j, xid, lessee.mac))
            && (forall i: nat, j: nat :: OfferThenAck(datagrams, i, j, xid, lessee.mac)
                                         ==> result == ToLease(PacketIn(datagrams[j], xid), lessee))
  {
    if Acquire(RelevantPackets(datagrams, xid), xid, lessee).result.Success? {
      var i, j := LeaseComesFromOfferThenAck(datagrams, xid, lessee);
    }
    forall i: nat, j: nat | OfferThenAck(datagrams, i, j, xid, lessee.mac)
      ensures Acquire(RelevantPackets(datagrams, xid), xid, lessee).result
              == ToLease(PacketIn(datagrams[j], xid), lessee)
      ensures Acquire(RelevantPackets(datagrams, xid), xid, lessee).result.Success?
    {
      OfferThenAckGivesLease(datagrams, i, j, xid, lessee);
    }
  }

  lemma {:induction false} NoiseIsInvisible(before: seq<seq<byte>>, noise: seq<byte>, after: seq<seq<byte>>, xid: u32)
    requires !Relevant(noise, xid)
    ensures RelevantPackets(before + [noise] + after, xid) == RelevantPackets(before + after, xid)
  {
    if before == [] {
      assert before + [noise] + after == [noise] + after && before + after == after;
      assert ([noise] + after)[1..] == after;
    } else {
      assert (before + [noise] + after)[1..] == before[1..] + [noise] + after;
      assert (before + after)[1..] == before[1..] + after;
      NoiseIsInvisible(before[1..], noise, after, xid);
    }
  }

  /** Inserting an unparseable or foreign datagram anywhere changes neither the result nor what is sent. */
  lemma NoiseChangesNothing(before: seq<seq<byte>>, noise: seq<byte>, after: seq<seq<byte>>, xid: u32, lessee: Lessee)
    requires !Relevant(noise, xid)
    ensures Acquire(RelevantPackets(before + [noise] + after, xid), xid, lessee)
            == Acquire(RelevantPackets(before + after, xid), xid, lessee)
  {
    NoiseIsInvisible(before, noise, after, xid);
  }

  /** A hostname that fits its option. */
  predicate ShortHostname(lessee: Lessee) {
    lessee.hostname.Some? ==> |lessee.hostname.value| < 0x100
  }

  lemma DiscoverReadsBack(xid: u32, lessee: Lessee)
    ensures Parse(Serialize(DiscoverPacket(xid, lessee))) == Success(DiscoverPacket(xid, lessee))
            <==> ShortHostname(lessee)
    ensures MessageType(DiscoverPacket(xid, lessee)) == DISCOVER
  {
    var options := DiscoverPacket(xid, lessee).options;
    PacketReadsBackExactly(DiscoverPacket(xid, lessee));
    assert lessee.hostname.Some? ==> options[1] == DhcpOption(OPTION_HOSTNAME, lessee.hostname.value);
  }

  lemma RequestReadsBack(xid: u32, lessee: Lessee, offer: Packet)
    ensures Parse(Serialize(RequestPacket(xid, lessee, offer))) == Success(RequestPacket(xid, lessee, offer))
            <==> ShortHostname(lessee)
  {
    var options := RequestPacket(xid, lessee, offer).options;
    PacketReadsBackExactly(RequestPacket(xid, lessee, offer));
    assert lessee.hostname.Some?
           ==> options[|options| - 1] == DhcpOption(OPTION_HOSTNAME, lessee.hostname.value);
  }

  /** What is sent: a DISCOVER with our id and hardware address and then, after a usable offer only, a REQUEST
      for exactly the offered address and the offering server. A server reads each back as it was meant if
      and only if the host name fits its option. */
  lemma SentPacketsReadBack(packets: seq<Packet>, xid: u32, lessee: Lessee)
    ensures var sent := Acquire(packets, xid, lessee).sent;
            && (Parse(sent[0]) == Success(DiscoverPacket(xid, lessee)) <==> ShortHostname(lessee))
            && MessageType(DiscoverPacket(xid, lessee)) == DISCOVER
            && (|sent| == 2 <==> |packets| >= 1 && UsableOffer(packets[0]))
            && (|sent| == 2 ==>
                  var request := RequestPacket(xid, lessee, packets[0]);
                  && (Parse(sent[1]) == Success(request) <==> ShortHostname(lessee))
                  && MessageType(request) == REQUEST
                  && request.xid == xid && request.chaddr[..6] == lessee.mac
                  && AddressOption(request, OPTION_REQUESTED_IP) == Some(packets[0].yiaddr)
                  && AddressOption(request, OPTION_SERVER_ID) == ServerOf(packets[0]))
  {
    DiscoverReadsBack(xid, lessee);
    if |packets| >= 1 && UsableOffer(packets[0]) {
      RequestOptions(xid, lessee, packets[0]);
      RequestReadsBack(xid, lessee, packets[0]);
    }
  }

  lemma FindSkips(first: DhcpOption, rest: seq<DhcpOption>, code: byte)
    ensures FindOption([first] + rest, code) == if first.code == code then Some(first.value) else FindOption(rest, code)
  {
    assert ([first] + rest)[1..] == rest;
  }

  lemma RequestOptions(xid: u32, lessee: Lessee, offer: Packet)
    requires UsableOffer(offer)
    ensures var request := RequestPacket(xid, lessee, offer);
            && MessageType(request) == REQUEST
            && AddressOption(request, OPTION_REQUESTED_IP) == Some(offer.yiaddr)
            && AddressOption(request, OPTION_SERVER_ID) == ServerOf(offer)
  {
    var kind := DhcpOption(OPTION_MESSAGE_TYPE, [REQUEST]);
    var address := DhcpOption(OPTION_REQUESTED_IP, offer.yiaddr);
    var server := Optional(OPTION_SERVER_ID, ServerOf(offer));
    var host := Optional(OPTION_HOSTNAME, lessee.hostname);
    assert RequestPacket(xid, lessee, offer).options == [kind] + ([address] + (server + host));
    FindSkips(kind, [address] + (server + host), OPTION_MESSAGE_TYPE);
    FindSkips(kind, [address] + (server + host), OPTION_REQUESTED_IP);
    FindSkips(kind, [address] + (server + host), OPTION_SERVER_ID);
    FindSkips(address, server + host, OPTION_REQUESTED_IP);
    FindSkips(address, server + host, OPTION_SERVER_ID);
    if server != [] {
      assert server + host == [server[0]] + host;
      FindSkips(server[0], host, OPTION_SERVER_ID);
    } else {
      assert server + host == host;
      assert host == [] || host[1..] == [];
    }
  }
}
