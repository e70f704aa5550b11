/** The BOOTP/DHCP packet codec (src/linux/dhcp/packet.rs; section 2 of RFC 2131, section 2 of RFC 2132). */
module DhcpPacket {
  import opened Model
  import opened Wrappers
  import opened Bytes

  type Octets64 = s: seq<byte> | |s| == 64 witness seq(64, _ => 0)
  type Octets128 = s: seq<byte> | |s| == 128 witness seq(128, _ => 0)

  const OPTION_PAD: byte := 0
  const OPTION_END: byte := 255
  const FIXED_LENGTH := 236
  const OPTIONS_OFFSET := 240
  const MAGIC_COOKIE: seq<byte> := [0x63, 0x82, 0x53, 0x63]

  datatype DhcpOption = DhcpOption(code: byte, value: seq<byte>)

  datatype Packet = Packet(
    op: byte,
    xid: u32,
    flags: u16,
    ciaddr: Octets4,
    yiaddr: Octets4,
    siaddr: Octets4,
    giaddr: Octets4,
    chaddr: Octets16,
    sname: Octets64,
    file: Octets128,
    options: seq<DhcpOption>)

  datatype DhcpError = MalformedPacket(reason: string) | Timeout | SendFailed

  // --- Options ---------------------------------------------------------------------------------

  /** One encoded option; a length keeps only its low byte, and pad and end codes are dropped. */
  function OptionBytes(entry: DhcpOption): seq<byte> {
    if entry.code == OPTION_PAD || entry.code == OPTION_END then []
    else [entry.code, |entry.value| % 0x100] + entry.value
  }

  function BuildOptions(entries: seq<DhcpOption>): seq<byte> {
    if entries == [] then [OPTION_END] else OptionBytes(entries[0]) + BuildOptions(entries[1..])
  }

  lemma BuildOptionsFrom(before: seq<byte>, entries: seq<DhcpOption>, i: nat)
    requires i < |entries|
    ensures before + BuildOptions(entries[i..]) == before + OptionBytes(entries[i]) + BuildOptions(entries[i + 1..])
  {
    assert entries[i..][1..] == entries[i + 1..];
    var first, rest := OptionBytes(entries[i]), BuildOptions(entries[i + 1..]);
    assert before + (first + rest) == before + first + rest;
  }

  method PushOption(start: seq<byte>, entry: DhcpOption) returns (bytes: seq<byte>)
    ensures bytes == start + OptionBytes(entry)
  {
    bytes := start;
    if entry.code != OPTION_PAD && entry.code != OPTION_END {
      bytes := bytes + [entry.code];
      bytes := bytes + [|entry.value| % 0x100];
      bytes := bytes + entry.value;
    }
  }

  method BuildOptionsLoop(entries: seq<DhcpOption>) returns (bytes: seq<byte>)
    ensures bytes == BuildOptions(entries)
  {
    bytes := [];
    assert entries[0..] == entries && [] + BuildOptions(entries) == BuildOptions(entries);
    for i := 0 to |entries|
      invariant BuildOptions(entries) == bytes + BuildOptions(entries[i..])
    {
      BuildOptionsFrom(bytes, entries, i);
      bytes := PushOption(bytes, entries[i]);
    }
    bytes := bytes + [OPTION_END];
    assert entries[|entries|..] == [];
  }

  const SHORT_HEADER := MalformedPacket("truncated DHCP option header")
  const SHORT_VALUE := MalformedPacket("truncated DHCP option value")

  function ParseOptions(bytes: seq<byte>): Result<seq<DhcpOption>, DhcpError>
    decreases |bytes|
  {
    if bytes == [] || bytes[0] == OPTION_END then Success([])
    else if bytes[0] == OPTION_PAD then ParseOptions(bytes[1..])
    else if |bytes| < 2 then Failure(SHORT_HEADER)
    else if 2 + bytes[1] as int > |bytes| then Failure(SHORT_VALUE)
    else
      var len := bytes[1] as int;
      var rest :- ParseOptions(bytes[2 + len..]);
      Success([DhcpOption(bytes[0], bytes[2..2 + len])] + rest)
  }

  function WithOptions(
      options: seq<DhcpOption>, r: Result<seq<DhcpOption>, DhcpError>): Result<seq<DhcpOption>, DhcpError> {
    if r.Failure? then r else Success(options + r.value)
  }

  /** One option at an offset: the parse from there on. */
  lemma ParseOptionAt(bytes: seq<byte>, offset: nat, len: nat, options: seq<DhcpOption>)
    requires offset + 2 + len <= |bytes| && OPTION_PAD < bytes[offset] < OPTION_END && bytes[offset + 1] == len
    ensures WithOptions(options, ParseOptions(bytes[offset..]))
            == WithOptions(options + [DhcpOption(bytes[offset], bytes[offset + 2..offset + 2 + len])],
                           ParseOptions(bytes[offset + 2 + len..]))
  {
    var tail := bytes[offset..];
    var option := DhcpOption(bytes[offset], bytes[offset + 2..offset + 2 + len]);
    assert tail[2..2 + len] == option.value && tail[2 + len..] == bytes[offset + 2 + len..];
    var later := ParseOptions(bytes[offset + 2 + len..]);
    if later.Success? {
      assert options + ([option] + later.value) == options + [option] + later.value;
    }
  }

  lemma ParsePadAt(bytes: seq<byte>, offset: nat)
    requires offset < |bytes| && bytes[offset] == OPTION_PAD
    ensures ParseOptions(bytes[offset..]) == ParseOptions(bytes[offset + 1..])
  {
    assert bytes[offset..][1..] == bytes[offset + 1..];
  }

  method ParseOptionsLoop(bytes: seq<byte>, start: nat) returns (r: Result<seq<DhcpOption>, DhcpError>)
    requires start <= |bytes|
    ensures r == ParseOptions(bytes[start..])
  {
    var options: seq<DhcpOption> := [];
    var offset := start;
    ghost var whole := ParseOptions(bytes[start..]);
    assert whole.Success? ==> [] + whole.value == whole.value;
    while offset < |bytes|
      invariant start <= offset <= |bytes|
      invariant whole == WithOptions(options, ParseOptions(bytes[offset..]))
    {
      var code := bytes[offset];
      if code == OPTION_END {
        break;
      }
      if code == OPTION_PAD {
        ParsePadAt(bytes, offset);
        offset := offset + 1;
        continue;
      }
      if offset + 2 > |bytes| {
        return Failure(SHORT_HEADER);
      }
      var len := bytes[offset + 1] as int;
      if offset + 2 + len > |bytes| {
        return Failure(SHORT_VALUE);
      }
      ParseOptionAt(bytes, offset, len, options);
      options := options + [DhcpOption(code, bytes[offset + 2..offset + 2 + len])];
      offset := offset + 2 + len;
    }
    assert options + [] == options;
    r := Success(options);
  }

  /** Options that survive: a real code and a value whose length fits one byte. */
  predicate Representable(option: DhcpOption) {
    OPTION_PAD < option.code < OPTION_END && |option.value| < 0x100
  }

  predicate AllRepresentable(options: seq<DhcpOption>) {
    forall i :: 0 <= i < |options| ==> Representable(options[i])
  }

  lemma OptionInFront(option: DhcpOption, rest: seq<byte>)
    requires Representable(option)
    ensures var bytes, len := OptionBytes(option) + rest, |option.value|;
            && |bytes| >= 2 + len && bytes[0] == option.code && bytes[1] == len
            && bytes[2..2 + len] == option.value && bytes[2 + len..] == rest
  {
  }

  lemma ParseOneOption(bytes: seq<byte>, option: DhcpOption, rest: seq<byte>)
    requires Representable(option) && bytes == OptionBytes(option) + rest && ParseOptions(rest).Success?
    ensures ParseOptions(bytes) == Success([option] + ParseOptions(rest).value)
  {
    OptionInFront(option, rest);
  }

  lemma {:induction false} OptionsReadBack(options: seq<DhcpOption>)
    requires AllRepresentable(options)
    ensures ParseOptions(BuildOptions(options)) == Success(options)
  {
    if options != [] {
      assert Representable(options[0]);
      OptionsReadBack(options[1..]);
      ParseOneOption(BuildOptions(options), options[0], BuildOptions(options[1..]));
      assert options == [options[0]] + options[1..];
    }
  }

  /** Whatever is parsed has only representable options. */
  lemma {:induction false} ParsedOptionsAreRepresentable(bytes: seq<byte>)
    ensures ParseOptions(bytes).Success? ==> AllRepresentable(ParseOptions(bytes).value)
    decreases |bytes|
  {
    if bytes != [] && bytes[0] != OPTION_END {
      if bytes[0] == OPTION_PAD {
        ParsedOptionsAreRepresentable(bytes[1..]);
      } else if |bytes| >= 2 && 2 + bytes[1] as int <= |bytes| {
        ParsedOptionsAreRepresentable(bytes[2 + bytes[1] as int..]);
      }
    }
  }

  // --- Packets -------------------------------------------------------------------------------------

  function Words(p: Packet): (b: seq<byte>)
    ensures |b| == 12
  {
    [p.op, 1, 6, 0] + Be32(p.xid) + [0, 0] + Be16(p.flags)
  }

  function Addresses(p: Packet): (b: seq<byte>)
    ensures |b| == 16
  {
    p.ciaddr + p.yiaddr + p.siaddr + p.giaddr
  }

  function Names(p: Packet): (b: seq<byte>)
    ensures |b| == 208
  {
    p.chaddr + p.sname + p.file
  }

  function Serialize(p: Packet): seq<byte> {
    Words(p) + Addresses(p) + Names(p) + MAGIC_COOKIE + BuildOptions(p.options)
  }

  method SerializePacket(p: Packet, extra: seq<DhcpOption>) returns (bytes: seq<byte>)
    ensures bytes == Serialize(p.(options := p.options + extra))
  {
    bytes := [p.op, 1, 6, 0] + Be32(p.xid) + [0, 0] + Be16(p.flags);
    bytes := bytes + (p.ciaddr + p.yiaddr + p.siaddr + p.giaddr);
    bytes := bytes + (p.chaddr + p.sname + p.file);
    bytes := bytes + MAGIC_COOKIE;
    var options := BuildOptionsLoop(p.options + extra);
    bytes := bytes + options;
  }

  function PacketFrom(bytes: seq<byte>, options: seq<DhcpOption>): Packet
    requires |bytes| >= OPTIONS_OFFSET
  {
    Packet(bytes[0], FromBe32(bytes[4..8]), FromBe16(bytes[10..12]),
           bytes[12..16], bytes[16..20], bytes[20..24], bytes[24..28],
           bytes[28..44], bytes[44..108], bytes[108..236], options)
  }

  function Parse(bytes: seq<byte>): Result<Packet, DhcpError> {
    if |bytes| < OPTIONS_OFFSET then Failure(MalformedPacket("packet shorter than fixed header"))
    else if bytes[FIXED_LENGTH..OPTIONS_OFFSET] != MAGIC_COOKIE then
      Failure(MalformedPacket("missing DHCP magic cookie"))
    else
      var options :- ParseOptions(bytes[OPTIONS_OFFSET..]);
      Success(PacketFrom(bytes, options))
  }

  method ParsePacket(bytes: seq<byte>) returns (r: Result<Packet, DhcpError>)
    ensures r == Parse(bytes)
  {
    if |bytes| < OPTIONS_OFFSET {
      return Failure(MalformedPacket("packet shorter than fixed header"));
    }
    if bytes[FIXED_LENGTH..OPTIONS_OFFSET] != MAGIC_COOKIE {
      return Failure(MalformedPacket("missing DHCP magic cookie"));
    }
    var options := ParseOptionsLoop(bytes, OPTIONS_OFFSET);
    if options.Failure? {
      return Failure(options.error);
    }
    r := Success(PacketFrom(bytes, options.value));
  }

  /** Where the parts of a serialized packet lie. */
  lemma SerializedParts(p: Packet)
    ensures var bytes := Serialize(p);
            && |bytes| >= OPTIONS_OFFSET
            && bytes[..12] == Words(p) && bytes[12..28] == Addresses(p) && bytes[28..236] == Names(p)
            && bytes[FIXED_LENGTH..OPTIONS_OFFSET] == MAGIC_COOKIE
            && bytes[OPTIONS_OFFSET..] == BuildOptions(p.options)
  {
  }

  lemma WordsReadBack(bytes: seq<byte>, p: Packet)
    requires |bytes| >= OPTIONS_OFFSET && bytes[..12] == Words(p)
    ensures bytes[0] == p.op && FromBe32(bytes[4..8]) == p.xid && FromBe16(bytes[10..12]) == p.flags
  {
    var words := bytes[..12];
    assert bytes[4..8] == words[4..8] == Be32(p.xid);
    assert bytes[10..12] == words[10..12] == Be16(p.flags);
    assert bytes[0] == words[0];
    Be32RoundTrip(p.xid);
    Be16RoundTrip(p.flags);
  }

  /** A slice of a slice. */
  lemma SliceOfSlice(bytes: seq<byte>, start: nat, end: nat, i: nat, j: nat)
    requires start <= end <= |bytes| && i <= j <= end - start
    ensures bytes[start..end][i..j] == bytes[start + i..start + j]
  {
    var inner, outer := bytes[start..end][i..j], bytes[start + i..start + j];
    assert |inner| == |outer| && forall k :: 0 <= k < |inner| ==> inner[k] == outer[k];
  }

  lemma FourSlices(part: seq<byte>, a: Octets4, b: Octets4, c: Octets4, d: Octets4)
    requires part == a + b + c + d
    ensures part[0..4] == a && part[4..8] == b && part[8..12] == c && part[12..16] == d
  {
  }

  lemma AddressesReadBack(bytes: seq<byte>, p: Packet)
    requires |bytes| >= OPTIONS_OFFSET && bytes[12..28] == Addresses(p)
    ensures bytes[12..16] == p.ciaddr && bytes[16..20] == p.yiaddr
    ensures bytes[20..24] == p.siaddr && bytes[24..28] == p.giaddr
  {
    FourSlices(bytes[12..28], p.ciaddr, p.yiaddr, p.siaddr, p.giaddr);
    SliceOfSlice(bytes, 12, 28, 0, 4);
    SliceOfSlice(bytes, 12, 28, 4, 8);
    SliceOfSlice(bytes, 12, 28, 8, 12);
    SliceOfSlice(bytes, 12, 28, 12, 16);
  }

  lemma ThreeSlices(part: seq<byte>, a: Octets16, b: Octets64, c: Octets128)
    requires part == a + b + c
    ensures part[0..16] == a && part[16..80] == b && part[80..208] == c
  {
  }

  lemma NamesReadBack(bytes: seq<byte>, p: Packet)
    requires |bytes| >= OPTIONS_OFFSET && bytes[28..236] == Names(p)
    ensures bytes[28..44] == p.chaddr && bytes[44..108] == p.sname && bytes[108..236] == p.file
  {
    ThreeSlices(bytes[28..236], p.chaddr, p.sname, p.file);
    SliceOfSlice(bytes, 28, 236, 0, 16);
    SliceOfSlice(bytes, 28, 236, 16, 80);
    SliceOfSlice(bytes, 28, 236, 80, 208);
  }

  lemma HeaderReadsBack(p: Packet, options: seq<DhcpOption>)
    ensures |Serialize(p)| >= OPTIONS_OFFSET
    ensures PacketFrom(Serialize(p), options) == p.(options := options)
  {
    SerializedParts(p);
    WordsReadBack(Serialize(p), p);
    AddressesReadBack(Serialize(p), p);
    NamesReadBack(Serialize(p), p);
  }

  /** Parsing a serialized packet gives it back if and only if every option is representable. */
  lemma PacketReadsBackExactly(p: Packet)
    ensures Parse(Serialize(p)) == Success(p) <==> AllRepresentable(p.options)
  {
    SerializedParts(p);
    var bytes := Serialize(p);
    ParsedOptionsAreRepresentable(bytes[OPTIONS_OFFSET..]);
    if AllRepresentable(p.options) {
      OptionsReadBack(p.options);
      HeaderReadsBack(p, p.options);
    }
  }

  /** Whatever is accepted is stable: serializing and parsing it again gives the same packet. */
  lemma AcceptedPacketsAreStable(bytes: seq<byte>)
    requires Parse(bytes).Success?
    ensures Parse(Serialize(Parse(bytes).value)) == Parse(bytes)
  {
    ParsedOptionsAreRepresentable(bytes[OPTIONS_OFFSET..]);
    PacketReadsBackExactly(Parse(bytes).value);
  }
}
