/** What the exchange and its packets mean in plain numbers (section 2 of RFC 2131, section 3 and section 9 of
    RFC 2132; src/linux/dhcp/mod.rs, src/linux/dhcp/packet.rs). */
module DhcpMeaning {
  import opened Model
  import opened Wrappers
  import opened Bytes
  import opened IpTypes
  import opened Profiles
  import opened DhcpPacket
  import opened DhcpClient
  import Prefix

  // --- Options by number --------------------------------------------------------------------------

  /** The first option with a code has this value, or there is none. */
  ghost predicate Carries(options: seq<DhcpOption>, code: byte, value: Option<seq<byte>>) {
    if value.None? then forall i :: 0 <= i < |options| ==> options[i].code != code
    else exists i :: && 0 <= i < |options| && options[i] == DhcpOption(code, value.value)
                     && forall j :: 0 <= j < i ==> options[j].code != code
  }

  lemma {:induction false} FoundIsCarried(options: seq<DhcpOption>, code: byte)
    ensures Carries(options, code, FindOption(options, code))
  {
    if options != [] && options[0].code != code {
      FoundIsCarried(options[1..], code);
      var found := FindOption(options, code);
      if found.Some? {
        var rest := options[1..];
        var i :| 0 <= i < |rest| && rest[i] == DhcpOption(code, found.value)
          && forall j :: 0 <= j < i ==> rest[j].code != code;
        assert options[i + 1] == rest[i];
        forall j | 0 <= j < i + 1 ensures options[j].code != code {
          assert j > 0 ==> options[j] == rest[j - 1];
        }
      } else {
        forall j | 0 <= j < |options| ensures options[j].code != code {
          assert j > 0 ==> options[j] == options[1..][j - 1];
        }
      }
    } else if options != [] {
      assert options[0] == DhcpOption(code, options[0].value);
    }
  }

  lemma CarriedIsUnique(options: seq<DhcpOption>, code: byte, a: Option<seq<byte>>, b: Option<seq<byte>>)
    requires Carries(options, code, a) && Carries(options, code, b)
    ensures a == b
  {
    if a.Some? && b.Some? {
      var i :| 0 <= i < |options| && options[i] == DhcpOption(code, a.value)
        && forall j :: 0 <= j < i ==> options[j].code != code;
      var k :| 0 <= k < |options| && options[k] == DhcpOption(code, b.value)
        && forall j :: 0 <= j < k ==> options[j].code != code;
      assert !(i < k) && !(k < i);
    }
  }

  lemma CarriedIsFound(options: seq<DhcpOption>, code: byte, value: Option<seq<byte>>)
    ensures Carries(options, code, value) <==> value == FindOption(options, code)
  {
    FoundIsCarried(options, code);
    if Carries(options, code, value) {
      CarriedIsUnique(options, code, value, FindOption(options, code));
    }
  }

  // --- A lease, field by field --------------------------------------------------------------------------

  /** Exactly four bytes, or nothing. */
  function FourBytes(value: Option<seq<byte>>): Option<seq<byte>> {
    if value.Some? && |value.value| == 4 then value else None
  }

  function BigEndian(b: seq<byte>): nat
    requires |b| == 4
  {
    16777216 * (b[0] as int) + 65536 * (b[1] as int) + 256 * (b[2] as int) + b[3] as int
  }

  function Seconds(value: Option<seq<byte>>): Option<nat> {
    if value.Some? && |value.value| == 4 then Some(BigEndian(value.value)) else None
  }

  /** The addresses of a list option: its whole four-byte chunks in order. */
  predicate ListedIn(addresses: seq<Octets4>, value: Option<seq<byte>>) {
    var bytes := if value.Some? then value.value else [];
    |addresses| == |bytes| / 4 && forall k :: 0 <= k < |addresses| ==> addresses[k] == bytes[4 * k..4 * k + 4]
  }

  /** Option 1 is the mask, 3 the routers, 6 the name servers, 15 the domain, 51 the lease time, 54 the server,
      58 and 59 the renewal and rebinding times. */
  ghost predicate LeaseSays(lease: DhcpLease, ack: Packet, lessee: Lessee) {
    && lease.interfaceIndex == lessee.interfaceIndex && lease.interfaceName == lessee.interfaceName
    && lease.address == ack.yiaddr
    && (forall v :: Carries(ack.options, 1, v) ==>
          lease.netmask == if FourBytes(v).Some? then v.value
                           else if ack.yiaddr[0] < 128 then [255, 0, 0, 0]
                           else if ack.yiaddr[0] < 192 then [255, 255, 0, 0]
                           else [255, 255, 255, 0])
    && lease.prefixLength == Prefix.PrefixLengthFromNetmask(lease.netmask)
    && (forall v :: Carries(ack.options, 3, v) ==>
          lease.gateway == if v.Some? && |v.value| >= 4 then Some(v.value[..4]) else None)
    && (forall v :: Carries(ack.options, 6, v) ==> ListedIn(lease.dnsServers, v))
    && (forall v :: Carries(ack.options, 15, v) ==>
          lease.searchDomains == if v.Some? then [lessee.readText(UntilNul(v.value))] else [])
    && (forall v :: Carries(ack.options, 54, v) ==> lease.serverIdentifier == FourBytes(v))
    && (forall v :: Carries(ack.options, 51, v) ==> lease.leaseSeconds == Seconds(v))
    && (forall v :: Carries(ack.options, 58, v) ==> lease.t1Seconds == Seconds(v))
    && (forall v :: Carries(ack.options, 59, v) ==> lease.t2Seconds == Seconds(v))
  }

  lemma {:induction false} ChunksAreListed(bytes: seq<byte>)
    ensures ListedIn(Chunks(bytes), Some(bytes))
    decreases |bytes|
  {
    if |bytes| >= 4 {
      var rest := bytes[4..];
      ChunksAreListed(rest);
      var all := Chunks(bytes);
      assert all[1..] == Chunks(rest);
      forall k | 0 <= k < |all| ensures all[k] == bytes[4 * k..4 * k + 4] {
        if k > 0 {
          assert all[k] == Chunks(rest)[k - 1] == rest[4 * (k - 1)..4 * (k - 1) + 4];
        }
      }
    }
  }

  lemma BigEndianIsFromBe32(b: seq<byte>)
    requires |b| == 4
    ensures BigEndian(b) == FromBe32(b)
  {
  }

  lemma WordMeans(p: Packet, code: byte)
    ensures forall v :: Carries(p.options, code, v) ==> WordOption(p, code) == Seconds(v)
  {
    forall v | Carries(p.options, code, v) ensures WordOption(p, code) == Seconds(v) {
      CarriedIsFound(p.options, code, v);
      if v.Some? && |v.value| == 4 {
        BigEndianIsFromBe32(v.value);
      }
    }
  }

  lemma AddressMeans(p: Packet, code: byte)
    ensures forall v :: Carries(p.options, code, v) ==> AddressOption(p, code) == FourBytes(v)
  {
    forall v | Carries(p.options, code, v) ensures AddressOption(p, code) == FourBytes(v) {
      CarriedIsFound(p.options, code, v);
    }
  }

  lemma ListMeans(p: Packet, code: byte)
    ensures forall v :: Carries(p.options, code, v) ==> ListedIn(AddressListOption(p, code), v)
  {
    forall v | Carries(p.options, code, v) ensures ListedIn(AddressListOption(p, code), v) {
      CarriedIsFound(p.options, code, v);
      if v.Some? {
        ChunksAreListed(v.value);
      }
    }
  }

  lemma DomainMeans(p: Packet, readText: seq<byte> -> string)
    ensures forall v :: Carries(p.options, 15, v)
                        ==> SearchDomains(p, readText) == if v.Some? then [readText(UntilNul(v.value))] else []
  {
    forall v | Carries(p.options, 15, v)
      ensures SearchDomains(p, readText) == if v.Some? then [readText(UntilNul(v.value))] else []
    {
      CarriedIsFound(p.options, 15, v);
    }
  }

  lemma GatewayMeans(p: Packet)
    ensures var routers := AddressListOption(p, 3);
            forall v :: Carries(p.options, 3, v) ==>
              (if routers == [] then None else Some(routers[0]))
              == if v.Some? && |v.value| >= 4 then Some(v.value[..4]) else None
  {
    var routers := AddressListOption(p, 3);
    ListMeans(p, 3);
    forall v | Carries(p.options, 3, v)
      ensures (if routers == [] then None else Some(routers[0]))
              == if v.Some? && |v.value| >= 4 then Some(v.value[..4]) else None
    {
      assert ListedIn(routers, v);
      if routers != [] {
        assert routers[0] == v.value[0..4];
      }
    }
  }

  lemma LeaseMeans(ack: Packet, lessee: Lessee)
    requires ToLease(ack, lessee).Success?
    ensures LeaseSays(ToLease(ack, lessee).value, ack, lessee)
  {
    AddressMeans(ack, 1);
    GatewayMeans(ack);
    ListMeans(ack, 6);
    DomainMeans(ack, lessee.readText);
    AddressMeans(ack, 54);
    WordMeans(ack, 51);
    WordMeans(ack, 58);
    WordMeans(ack, 59);
  }

  // --- The exchange -----------------------------------------------------------------------------------------

  /** Option 53 is the message type; 2 is an offer and 5 an acknowledgement. */
  ghost predicate IsMessage(p: Packet, kind: byte) {
    exists v :: Carries(p.options, 53, Some(v)) && |v| > 0 && v[0] == kind
  }

  lemma TypeMeans(p: Packet, kind: byte)
    requires kind != 0
    ensures MessageType(p) == kind <==> IsMessage(p, kind)
  {
    var found := FindOption(p.options, 53);
    CarriedIsFound(p.options, 53, found);
    forall v ensures Carries(p.options, 53, Some(v)) <==> Some(v) == found {
      CarriedIsFound(p.options, 53, Some(v));
    }
    if MessageType(p) == kind {
      assert Carries(p.options, 53, Some(found.value));
    }
  }

  predicate AllZero(address: Octets4) {
    address[0] == 0 && address[1] == 0 && address[2] == 0 && address[3] == 0
  }

  /** The first datagram with our id is an offer of an address, the next an acknowledgement of one to us. */
  ghost predicate Offered(datagrams: seq<seq<byte>>, i: nat, j: nat, xid: u32, mac: MacAddress) {
    && FirstRelevant(datagrams, 0, i, xid) && FirstRelevant(datagrams, i + 1, j, xid)
    && (var offer, ack := PacketIn(datagrams[i], xid), PacketIn(datagrams[j], xid);
        && IsMessage(offer, 2) && !AllZero(offer.yiaddr)
        && IsMessage(ack, 5) && !AllZero(ack.yiaddr) && ack.chaddr[..6] == mac)
  }

  lemma OfferedIsOfferThenAck(datagrams: seq<seq<byte>>, i: nat, j: nat, xid: u32, mac: MacAddress)
    ensures Offered(datagrams, i, j, xid, mac) <==> OfferThenAck(datagrams, i, j, xid, mac)
  {
    if FirstRelevant(datagrams, 0, i, xid) && FirstRelevant(datagrams, i + 1, j, xid) {
      var offer, ack := PacketIn(datagrams[i], xid), PacketIn(datagrams[j], xid);
      TypeMeans(offer, 2);
      TypeMeans(ack, 5);
      ZeroAddress(offer.yiaddr);
      ZeroAddress(ack.yiaddr);
    }
  }

  lemma ZeroAddress(address: Octets4)
    ensures NonZero(address).Some? <==> !AllZero(address)
  {
    if AllZero(address) {
      assert address == UNSPECIFIED_V4;
    }
  }

  /** For every sequence of datagrams: a lease is returned exactly when the first datagram with our id offers an
      address and the next acknowledges one to us, and each of its fields is what that acknowledgement says. */
  lemma LeaseIsWhatTheAckSays(datagrams: seq<seq<byte>>, xid: u32, lessee: Lessee)
    ensures var result := Acquire(RelevantPackets(datagrams, xid), xid, lessee).result;
            && (result.Success? <==> exists i: nat, j: nat :: Offered(datagrams, i, j, xid, lessee.mac))
            && (forall i: nat, j: nat :: Offered(datagrams, i, j, xid, lessee.mac)
                                         ==> LeaseSays(result.value, PacketIn(datagrams[j], xid), lessee))
  {
    var result := Acquire(RelevantPackets(datagrams, xid), xid, lessee).result;
    LeaseExactlyOnOfferThenAck(datagrams, xid, lessee);
    forall i: nat, j: nat
      ensures Offered(datagrams, i, j, xid, lessee.mac) <==> OfferThenAck(datagrams, i, j, xid, lessee.mac)
    {
      OfferedIsOfferThenAck(datagrams, i, j, xid, lessee.mac);
    }
    forall i: nat, j: nat | Offered(datagrams, i, j, xid, lessee.mac)
      ensures LeaseSays(result.value, PacketIn(datagrams[j], xid), lessee)
    {
      assert OfferThenAck(datagrams, i, j, xid, lessee.mac);
      LeaseMeans(PacketIn(datagrams[j], xid), lessee);
    }
  }

  /** Why there is no lease: silence before or after the request is a timeout, any other packet a refusal. */
  lemma WhyNoLease(packets: seq<Packet>, xid: u32, lessee: Lessee)
    ensures var result := Acquire(packets, xid, lessee).result;
            result.Failure? ==>
              (result.error.Timeout?
               <==> packets == [] || (|packets| == 1 && IsMessage(packets[0], 2) && !AllZero(packets[0].yiaddr)))
  {
    if packets != [] {
      TypeMeans(packets[0], 2);
      ZeroAddress(packets[0].yiaddr);
    }
  }

  // --- Packets, byte for byte -----------------------------------------------------------------------------------

  function High32(n: nat): seq<byte> {
    [n / 16777216 % 256, n / 65536 % 256, n / 256 % 256, n % 256]
  }

  function High16(n: nat): seq<byte> {
    [n / 256 % 256, n % 256]
  }

  /** An option as sent: pad and end are left out, and a length keeps its low byte. */
  function OptionOut(code: byte, value: seq<byte>): seq<byte> {
    if code == 0 || code == 255 then [] else [code, |value| % 256] + value
  }

  function OptionsOut(options: seq<DhcpOption>): seq<byte> {
    if options == [] then [255] else OptionOut(options[0].code, options[0].value) + OptionsOut(options[1..])
  }

  /** Op, Ethernet, six-byte addresses, no hops, id, no seconds, flags; then client, your, server and relay
      address; hardware address, server name, file; the cookie 99.130.83.99 and the options. */
  function PacketOut(p: Packet): seq<byte> {
    ([p.op, 1, 6, 0] + High32(p.xid) + [0, 0] + High16(p.flags))
    + (p.ciaddr + p.yiaddr + p.siaddr + p.giaddr) + (p.chaddr + p.sname + p.file)
    + [99, 130, 83, 99] + OptionsOut(p.options)
  }

  lemma {:induction false} OptionsLayout(options: seq<DhcpOption>)
    ensures BuildOptions(options) == OptionsOut(options)
  {
    if options != [] {
      OptionsLayout(options[1..]);
    }
  }

  lemma High32IsBe32(n: nat)
    ensures High32(n) == Be32(n)
  {
    assert n / 65536 == n / 256 / 256 && n / 16777216 == n / 256 / 256 / 256;
  }

  /** Every serialized packet. */
  lemma PacketLayout(p: Packet)
    ensures Serialize(p) == PacketOut(p)
  {
    OptionsLayout(p.options);
    High32IsBe32(p.xid);
  }

  function OptionalOut(code: byte, value: Option<seq<byte>>): seq<byte> {
    if value.Some? then OptionOut(code, value.value) else []
  }

  /** A request of ours: op 1, broadcast flag, no addresses, our hardware address, then its options. */
  function RequestOut(xid: u32, mac: MacAddress, options: seq<byte>): seq<byte> {
    ([1, 1, 6, 0] + High32(xid) + [0, 0] + [128, 0]) + Zeros(16) + (mac + Zeros(10) + Zeros(64) + Zeros(128))
    + [99, 130, 83, 99] + options
  }

  lemma OptionsOutSplits(first: DhcpOption, rest: seq<DhcpOption>)
    ensures OptionsOut([first] + rest) == OptionOut(first.code, first.value) + OptionsOut(rest)
  {
    assert ([first] + rest)[1..] == rest;
  }

  lemma OptionalFirst(code: byte, value: Option<seq<byte>>, rest: seq<DhcpOption>)
    ensures OptionsOut(Optional(code, value) + rest) == OptionalOut(code, value) + OptionsOut(rest)
  {
    if value.Some? {
      OptionsOutSplits(DhcpOption(code, value.value), rest);
    } else {
      assert Optional(code, value) + rest == rest;
    }
  }

  lemma NoAddresses()
    ensures UNSPECIFIED_V4 + UNSPECIFIED_V4 + UNSPECIFIED_V4 + UNSPECIFIED_V4 == Zeros(16)
  {
  }

  lemma BaseLayout(xid: u32, mac: MacAddress, options: seq<DhcpOption>)
    ensures Serialize(BasePacket(xid, mac, options)) == RequestOut(xid, mac, OptionsOut(options))
  {
    PacketLayout(BasePacket(xid, mac, options));
    NoAddresses();
    assert High16(0x8000) == [128, 0];
  }

  lemma DiscoverOptionsLayout(kind: DhcpOption, host: Option<seq<byte>>, wanted: Option<seq<byte>>)
    ensures OptionsOut([kind] + (Optional(12, host) + (Optional(50, wanted) + [])))
            == OptionOut(kind.code, kind.value) + (OptionalOut(12, host) + (OptionalOut(50, wanted) + [255]))
  {
    OptionsOutSplits(kind, Optional(12, host) + (Optional(50, wanted) + []));
    OptionalFirst(12, host, Optional(50, wanted) + []);
    OptionalFirst(50, wanted, []);
  }

  lemma DiscoverOptionList(xid: u32, lessee: Lessee)
    ensures DiscoverPacket(xid, lessee).options
            == [DhcpOption(53, [1])] + (Optional(12, lessee.hostname) + (Optional(50, lessee.requested) + []))
  {
  }

  /** The DISCOVER: type 1, the host name in option 12 and the wanted address in option 50 if there are any. */
  lemma DiscoverLayout(xid: u32, lessee: Lessee)
    ensures Serialize(DiscoverPacket(xid, lessee))
            == RequestOut(xid, lessee.mac,
                          [53, 1, 1] + (OptionalOut(12, lessee.hostname) + (OptionalOut(50, lessee.requested) + [255])))
  {
    DiscoverOptionList(xid, lessee);
    DiscoverOptionsLayout(DhcpOption(53, [1]), lessee.hostname, lessee.requested);
    BaseLayout(xid, lessee.mac, DiscoverPacket(xid, lessee).options);
  }

  /** The server a request goes to: the four bytes of the offer's option 54, or else its next-server address. */
  ghost predicate ServerIs(offer: Packet, server: Option<seq<byte>>) {
    forall v :: Carries(offer.options, 54, v) ==>
      && (FourBytes(v).Some? ==> server == v)
      && (FourBytes(v).None? && AllZero(offer.siaddr) ==> server.None?)
      && (FourBytes(v).None? && !AllZero(offer.siaddr) ==> server == Some(offer.siaddr))
  }

  lemma ServerMeans(offer: Packet)
    ensures ServerIs(offer, ServerOf(offer))
  {
    AddressMeans(offer, 54);
    ZeroAddress(offer.siaddr);
  }

  lemma RequestOptionsLayout(kind: DhcpOption, address: DhcpOption, server: Option<seq<byte>>, host: Option<seq<byte>>)
    ensures OptionsOut([kind] + ([address] + (Optional(54, server) + (Optional(12, host) + []))))
            == OptionOut(kind.code, kind.value)
               + (OptionOut(address.code, address.value) + (OptionalOut(54, server) + (OptionalOut(12, host) + [255])))
  {
    OptionsOutSplits(kind, [address] + (Optional(54, server) + (Optional(12, host) + [])));
    OptionsOutSplits(address, Optional(54, server) + (Optional(12, host) + []));
    OptionalFirst(54, server, Optional(12, host) + []);
    OptionalFirst(12, host, []);
  }

  lemma RequestOptionList(xid: u32, lessee: Lessee, offer: Packet)
    requires !AllZero(offer.yiaddr)
    ensures RequestPacket(xid, lessee, offer).options
            == [DhcpOption(53, [3])] + ([DhcpOption(50, offer.yiaddr)]
                                        + (Optional(54, ServerOf(offer)) + (Optional(12, lessee.hostname) + [])))
  {
    ZeroAddress(offer.yiaddr);
  }

  /** The REQUEST: type 3, the offered address in option 50, its server in option 54, the host name in option 12. */
  lemma RequestLayout(xid: u32, lessee: Lessee, offer: Packet)
    requires !AllZero(offer.yiaddr)
    ensures ServerIs(offer, ServerOf(offer))
    ensures Serialize(RequestPacket(xid, lessee, offer))
            == RequestOut(xid, lessee.mac,
                          [53, 1, 3]
                          + (OptionOut(50, offer.yiaddr)
                             + (OptionalOut(54, ServerOf(offer)) + (OptionalOut(12, lessee.hostname) + [255]))))
  {
    ServerMeans(offer);
    RequestOptionList(xid, lessee, offer);
    RequestOptionsLayout(DhcpOption(53, [3]), DhcpOption(50, offer.yiaddr), ServerOf(offer), lessee.hostname);
    BaseLayout(xid, lessee.mac, RequestPacket(xid, lessee, offer).options);
  }
}
