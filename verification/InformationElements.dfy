/** Beacon information elements: the security scan and the SSID fallback (src/linux/nl80211.rs). */
module InformationElements {
  import opened Model
  import opened Wrappers
  import opened Bytes
  import opened Netlink

  const IE_SSID: byte := 0
  const IE_RSN: byte := 48
  const IE_VENDOR: byte := 221
  const WPA_HEADER: seq<byte> := [0x00, 0x50, 0xf2, 1]

  datatype AuthSuite =
    | Wpa1Psk | Wpa18021x | Rsn8021x | RsnPsk | RsnFt8021x | RsnFtPsk | Rsn8021xSha256 | RsnPskSha256
    | RsnSae | RsnSaeFt | RsnApPsk | RsnSuiteB | RsnSuiteB192 | RsnFt8021xSha384 | RsnFilsSha256
    | RsnFilsSha384 | RsnFtFilsSha256 | RsnFtFilsSha384 | RsnOwe | RsnFtPskSha384 | RsnPskSha384 | RsnPasn
    | OtherSuite(code: u32)

  function SuiteFromRsn(value: u32): AuthSuite {
    match value
    case 0x000FAC01 => Rsn8021x
    case 0x000FAC02 => RsnPsk
    case 0x000FAC03 => RsnFt8021x
    case 0x000FAC04 => RsnFtPsk
    case 0x000FAC05 => Rsn8021xSha256
    case 0x000FAC06 => RsnPskSha256
    case 0x000FAC08 => RsnSae
    case 0x000FAC09 => RsnSaeFt
    case 0x000FAC0A => RsnApPsk
    case 0x000FAC0B => RsnSuiteB
    case 0x000FAC0C => RsnSuiteB192
    case 0x000FAC0D => RsnFt8021xSha384
    case 0x000FAC0E => RsnFilsSha256
    case 0x000FAC0F => RsnFilsSha384
    case 0x000FAC10 => RsnFtFilsSha256
    case 0x000FAC11 => RsnFtFilsSha384
    case 0x000FAC12 => RsnOwe
    case 0x000FAC13 => RsnFtPskSha384
    case 0x000FAC14 => RsnPskSha384
    case 0x000FAC15 => RsnPasn
    case _ => OtherSuite(value)
  }

  function SuiteFromWpa(value: u32): AuthSuite {
    match value
    case 1 => Wpa18021x
    case 2 => Wpa1Psk
    case _ => OtherSuite(value)
  }

  // --- Inside an element ------------------------------------------------------------------------

  const MALFORMED := MalformedMessage("malformed information element")

  function ReadU16(data: seq<byte>, offset: nat): Result<u16, NetlinkError> {
    if offset + 2 > |data| then Failure(MALFORMED) else Success(FromLe16(data[offset..offset + 2]))
  }

  /** The offset after a counted list of four-byte selectors. */
  function SkipCounted(data: seq<byte>, offset: nat): Result<nat, NetlinkError> {
    var count :- ReadU16(data, offset);
    if offset + 2 + 4 * count > |data| then Failure(MALFORMED) else Success(offset + 2 + 4 * count)
  }

  /** `count` selectors from `offset`, read little-endian as the program does. */
  function Selectors(data: seq<byte>, offset: nat, count: nat): seq<u32>
    requires offset + 4 * count <= |data|
    decreases count
  {
    if count == 0 then []
    else [FromLe32(data[offset..offset + 4])] + Selectors(data, offset + 4, count - 1)
  }

  /** A version or type of two bytes, a group selector, the pairwise list, then the authentication
      list; the result is that list and the offset after it. */
  function ReadSuites(data: seq<byte>): Result<(seq<u32>, nat), NetlinkError> {
    if |data| < 6 then Failure(MALFORMED)
    else
      var offset :- SkipCounted(data, 6);
      var count :- ReadU16(data, offset);
      if offset + 2 + 4 * count > |data| then Failure(MALFORMED)
      else Success((Selectors(data, offset + 2, count), offset + 2 + 4 * count))
  }

  function MapSuites(codes: seq<u32>, suite: u32 -> AuthSuite): seq<AuthSuite> {
    if codes == [] then [] else [suite(codes[0])] + MapSuites(codes[1..], suite)
  }

  /** Either management-frame-protection bit of the capabilities; absent capabilities have none. */
  predicate ProtectsManagement(tail: seq<byte>) {
    |tail| >= 2 && FromLe16(tail[..2]) / 0x40 % 4 != 0
  }

  function ParseRsn(data: seq<byte>): Result<(seq<AuthSuite>, bool), NetlinkError> {
    var suites :- ReadSuites(data);
    Success((MapSuites(suites.0, SuiteFromRsn), suites.1 <= |data| && ProtectsManagement(data[suites.1..])))
  }

  function ParseWpa(data: seq<byte>): Result<seq<AuthSuite>, NetlinkError> {
    var suites :- ReadSuites(data);
    Success(MapSuites(suites.0, SuiteFromWpa))
  }

  // --- Lists of elements ------------------------------------------------------------------------------

  datatype Element = Element(id: byte, data: seq<byte>)

  /** What the scan has gathered. */
  datatype Gathered = Gathered(suites: seq<AuthSuite>, rsn: bool, wpa: bool, protection: bool)

  const NOTHING := Gathered([], false, false, false)

  predicate IsWpa(e: Element) {
    e.id == IE_VENDOR && WPA_HEADER <= e.data
  }

  function Gather(acc: Gathered, e: Element): Result<Gathered, NetlinkError> {
    if e.id == IE_RSN then
      var rsn :- ParseRsn(e.data);
      Success(acc.(suites := acc.suites + rsn.0, rsn := true, protection := acc.protection || rsn.1))
    else if IsWpa(e) then
      var suites :- ParseWpa(e.data[4..]);
      Success(acc.(suites := acc.suites + suites, wpa := true))
    else Success(acc)
  }

  /** How one element adds to what was gathered: `Gather`, or any other way. */
  type Step = (Gathered, Element) -> Result<Gathered, NetlinkError>

  /** The declarative form: a fold over the list. */
  function GatherAll(step: Step, acc: Gathered, elements: seq<Element>): Result<Gathered, NetlinkError>
    decreases |elements|
  {
    if elements == [] then Success(acc)
    else
      var next :- step(acc, elements[0]);
      GatherAll(step, next, elements[1..])
  }

  /** The byte-level form: id, length, data; a last lone byte is ignored. */
  function ScanBytes(step: Step, acc: Gathered, ies: seq<byte>): Result<Gathered, NetlinkError>
    decreases |ies|
  {
    if |ies| < 2 then Success(acc)
    else
      var len := ies[1] as int;
      if 2 + len > |ies| then Failure(MALFORMED)
      else
        var next :- step(acc, Element(ies[0], ies[2..2 + len]));
        ScanBytes(step, next, ies[2 + len..])
  }

  datatype Security = Security(
    wep: bool, wpa1: bool, wpa2: bool, wpa3: bool, enterprise: bool, protection: bool, suites: seq<AuthSuite>)

  predicate IsWpa3(s: AuthSuite) {
    s.RsnSae? || s.RsnSaeFt? || s.RsnOwe? || s.RsnPskSha384? || s.RsnFt8021xSha384? || s.RsnFtPskSha384?
    || s.RsnSuiteB192? || s.RsnPasn?
  }

  predicate IsWpa2(s: AuthSuite) {
    !(s.RsnSae? || s.RsnSaeFt? || s.RsnOwe? || s.RsnPasn? || s.OtherSuite?)
  }

  predicate IsEnterprise(s: AuthSuite) {
    s.Wpa18021x? || s.Rsn8021x? || s.RsnFt8021x? || s.Rsn8021xSha256? || s.RsnFt8021xSha384?
    || s.RsnSuiteB? || s.RsnSuiteB192?
  }

  predicate PrivacyBit(capability: Option<u16>) {
    capability.Some? && capability.value / 0x10 % 2 == 1
  }

  function Classify(g: Gathered, capability: Option<u16>): Security {
    Security(
      PrivacyBit(capability) && !g.rsn && !g.wpa,
      g.wpa,
      g.rsn && exists i :: 0 <= i < |g.suites| && IsWpa2(g.suites[i]),
      exists i :: 0 <= i < |g.suites| && IsWpa3(g.suites[i]),
      exists i :: 0 <= i < |g.suites| && IsEnterprise(g.suites[i]),
      g.protection,
      g.suites)
  }

  function SecurityOf(ies: seq<byte>, capability: Option<u16>): Result<Security, NetlinkError> {
    var gathered :- ScanBytes(Gather, NOTHING, ies);
    Success(Classify(gathered, capability))
  }

  lemma SliceAt(ies: seq<byte>, offset: nat, len: nat)
    requires offset + 2 + len <= |ies|
    ensures ies[offset..][2..2 + len] == ies[offset + 2..offset + 2 + len]
    ensures ies[offset..][2 + len..] == ies[offset + 2 + len..]
  {
  }

  /** One turn of the scan. */
  lemma ScanTurn(step: Step, acc: Gathered, ies: seq<byte>, offset: nat)
    requires offset + 2 <= |ies|
    ensures var len := ies[offset + 1] as int;
            ScanBytes(step, acc, ies[offset..])
            == if offset + 2 + len > |ies| then Failure(MALFORMED)
               else var next := step(acc, Element(ies[offset], ies[offset + 2..offset + 2 + len]));
                    if next.Failure? then next else ScanBytes(step, next.value, ies[offset + 2 + len..])
  {
    var len := ies[offset + 1] as int;
    if offset + 2 + len <= |ies| {
      SliceAt(ies, offset, len);
    }
  }

  /** The offset loop of the security scan. */
  method ScanLoop(step: Step, start: Gathered, ies: seq<byte>) returns (r: Result<Gathered, NetlinkError>)
    ensures r == ScanBytes(step, start, ies)
  {
    var acc := start;
    var offset := 0;
    assert ies[0..] == ies;
    while offset + 2 <= |ies|
      invariant 0 <= offset <= |ies|
      invariant ScanBytes(step, start, ies) == ScanBytes(step, acc, ies[offset..])
    {
      ScanTurn(step, acc, ies, offset);
      var len := ies[offset + 1] as int;
      if offset + 2 + len > |ies| {
        return Failure(MALFORMED);
      }
      var next := step(acc, Element(ies[offset], ies[offset + 2..offset + 2 + len]));
      if next.Failure? {
        return next;
      }
      acc := next.value;
      offset := offset + 2 + len;
    }
    r := Success(acc);
  }

  method ParseSecurity(ies: seq<byte>, capability: Option<u16>) returns (r: Result<Security, NetlinkError>)
    ensures r == SecurityOf(ies, capability)
  {
    var gathered :- ScanLoop(Gather, NOTHING, ies);
    r := Success(Classify(gathered, capability));
  }

  /** Reads the selectors of a list one by one. */
  method ReadSelectors(data: seq<byte>, start: nat, count: nat) returns (codes: seq<u32>)
    requires start + 4 * count <= |data|
    ensures codes == Selectors(data, start, count)
  {
    codes := [];
    var offset := start;
    for i := 0 to count
      invariant offset == start + 4 * i
      invariant Selectors(data, start, count) == codes + Selectors(data, offset, count - i)
    {
      codes := codes + [FromLe32(data[offset..offset + 4])];
      offset := offset + 4;
    }
  }

  // --- Results ----------------------------------------------------------------------------------------------

  predicate Encodable(e: Element) {
    |e.data| < 0x100
  }

  predicate AllEncodable(elements: seq<Element>) {
    forall i :: 0 <= i < |elements| ==> Encodable(elements[i])
  }

  function Encode(elements: seq<Element>): seq<byte>
    requires AllEncodable(elements)
  {
    if elements == [] then []
    else
      assert Encodable(elements[0]);
      [elements[0].id, |elements[0].data|] + elements[0].data + Encode(elements[1..])
  }

  lemma FrontElement(e: Element, rest: seq<byte>)
    requires Encodable(e)
    ensures var bytes := [e.id, |e.data|] + e.data + rest;
            && |bytes| >= 2 + |e.data| && bytes[0] == e.id && bytes[1] == |e.data|
            && bytes[2..2 + |e.data|] == e.data && bytes[2 + |e.data|..] == rest
  {
  }

  /** For every list of elements, the byte-level scan of its encoding, with or without a stray last
      byte, is the fold over the list. */
  lemma {:induction false} ScanIsGatherAll(step: Step, elements: seq<Element>, stray: seq<byte>, acc: Gathered)
    requires AllEncodable(elements) && |stray| < 2
    ensures ScanBytes(step, acc, Encode(elements) + stray) == GatherAll(step, acc, elements)
    decreases |elements|
  {
    if elements == [] {
      assert Encode(elements) + stray == stray;
    } else {
      var e := elements[0];
      assert Encodable(e);
      var rest := Encode(elements[1..]) + stray;
      assert Encode(elements) + stray == [e.id, |e.data|] + e.data + rest;
      FrontElement(e, rest);
      var next := step(acc, e);
      if next.Success? {
        ScanIsGatherAll(step, elements[1..], stray, next.value);
      }
    }
  }

  /** Suites and protection come only from RSN and WPA elements. */
  predicate Explained(g: Gathered) {
    !g.rsn && !g.wpa ==> g.suites == [] && !g.protection
  }

  lemma {:induction false} ScanIsExplained(acc: Gathered, ies: seq<byte>)
    requires Explained(acc)
    ensures ScanBytes(Gather, acc, ies).Success? ==> Explained(ScanBytes(Gather, acc, ies).value)
    decreases |ies|
  {
    if |ies| >= 2 && 2 + ies[1] as int <= |ies| {
      var len := ies[1] as int;
      var next := Gather(acc, Element(ies[0], ies[2..2 + len]));
      if next.Success? {
        ScanIsExplained(next.value, ies[2 + len..]);
      }
    }
  }

  /** On every byte string, a WEP verdict excludes every newer mode and any authentication suite. */
  lemma WepExcludesEverythingElse(ies: seq<byte>, capability: Option<u16>)
    requires SecurityOf(ies, capability).Success? && SecurityOf(ies, capability).value.wep
    ensures var s := SecurityOf(ies, capability).value;
            && !s.wpa1 && !s.wpa2 && !s.wpa3 && !s.enterprise && !s.protection && s.suites == []
  {
    ScanIsExplained(NOTHING, ies);
  }

  // --- RSN and WPA elements, there and back --------------------------------------------------------------------

  function SelectorBytes(codes: seq<u32>): (b: seq<byte>)
    ensures |b| == 4 * |codes|
  {
    if codes == [] then [] else Le32(codes[0]) + SelectorBytes(codes[1..])
  }

  /** The body shared by RSN and WPA elements, with any bytes after it. */
  function SuiteBody(version: u16, group: u32, pairwise: seq<u32>, auth: seq<u32>, tail: seq<byte>): seq<byte> {
    Le16(version) + Le32(group) + Le16(|pairwise|) + SelectorBytes(pairwise) + Le16(|auth|) + SelectorBytes(auth) + tail
  }

  lemma {:induction false} SelectorsReadBack(before: seq<byte>, codes: seq<u32>, after: seq<byte>)
    ensures Selectors(before + SelectorBytes(codes) + after, |before|, |codes|) == codes
    decreases |codes|
  {
    var data := before + SelectorBytes(codes) + after;
    if codes != [] {
      var rest := before + Le32(codes[0]);
      assert data == rest + SelectorBytes(codes[1..]) + after;
      assert data[|before|..|before| + 4] == Le32(codes[0]);
      Le32RoundTrip(codes[0]);
      SelectorsReadBack(rest, codes[1..], after);
      assert codes == [codes[0]] + codes[1..];
    }
  }

  lemma CountAt(before: seq<byte>, count: u16, after: seq<byte>)
    ensures ReadU16(before + Le16(count) + after, |before|) == Success(count)
  {
    var data := before + Le16(count) + after;
    assert data[|before|..|before| + 2] == Le16(count);
    Le16RoundTrip(count);
  }

  /** A counted list of selectors `list`, then the next count. */
  lemma CountsReadBack(head: seq<byte>, n: u16, list: seq<byte>, m: u16, rest: seq<byte>)
    requires |list| == 4 * n
    ensures var data := head + Le16(n) + list + Le16(m) + rest;
            var second := |head| + 2 + 4 * n;
            && SkipCounted(data, |head|) == Success(second)
            && ReadU16(data, second) == Success(m)
            && |data| == second + 2 + |rest|
  {
    var data := head + Le16(n) + list + Le16(m) + rest;
    assert data == head + Le16(n) + (list + Le16(m) + rest);
    CountAt(head, n, list + Le16(m) + rest);
    CountAt(head + Le16(n) + list, m, rest);
  }

  lemma SuiteBodyReadsBack(version: u16, group: u32, pairwise: seq<u32>, auth: seq<u32>, tail: seq<byte>)
    requires |pairwise| < 0x1_0000 && |auth| < 0x1_0000
    ensures var data := SuiteBody(version, group, pairwise, auth, tail);
            var end := 10 + 4 * |pairwise| + 4 * |auth|;
            && ReadSuites(data) == Success((auth, end))
            && |data| == end + |tail| && data[end..] == tail
  {
    var data := SuiteBody(version, group, pairwise, auth, tail);
    var head := Le16(version) + Le32(group);
    CountsReadBack(head, |pairwise|, SelectorBytes(pairwise), |auth|, SelectorBytes(auth) + tail);
    assert data == head + Le16(|pairwise|) + SelectorBytes(pairwise) + Le16(|auth|) + (SelectorBytes(auth) + tail);
    var last := head + Le16(|pairwise|) + SelectorBytes(pairwise) + Le16(|auth|);
    assert data == last + SelectorBytes(auth) + tail;
    SelectorsReadBack(last, auth, tail);
  }

  /** An RSN element yields exactly its authentication list and the protection bits of what follows. */
  lemma RsnReadsBack(version: u16, group: u32, pairwise: seq<u32>, auth: seq<u32>, tail: seq<byte>)
    requires |pairwise| < 0x1_0000 && |auth| < 0x1_0000
    ensures ParseRsn(SuiteBody(version, group, pairwise, auth, tail))
            == Success((MapSuites(auth, SuiteFromRsn), ProtectsManagement(tail)))
  {
    SuiteBodyReadsBack(version, group, pairwise, auth, tail);
  }

  /** A WPA element yields exactly its authentication list, whatever follows it. */
  lemma WpaReadsBack(version: u16, group: u32, pairwise: seq<u32>, auth: seq<u32>, tail: seq<byte>)
    requires |pairwise| < 0x1_0000 && |auth| < 0x1_0000
    ensures ParseWpa(SuiteBody(version, group, pairwise, auth, tail)) == Success(MapSuites(auth, SuiteFromWpa))
  {
    SuiteBodyReadsBack(version, group, pairwise, auth, tail);
  }

  // --- The SSID fallback ---------------------------------------------------------------------------------------

  function SsidFromBytes(data: seq<byte>): Option<seq<byte>> {
    if |data| <= 32 then Some(data) else None
  }

  function SsidOf(ies: seq<byte>): Option<seq<byte>>
    decreases |ies|
  {
    if |ies| < 2 then None
    else
      var len := ies[1] as int;
      if 2 + len > |ies| then None
      else if ies[0] == IE_SSID then SsidFromBytes(ies[2..2 + len])
      else SsidOf(ies[2 + len..])
  }

  method SsidFromIes(ies: seq<byte>) returns (ssid: Option<seq<byte>>)
    ensures ssid == SsidOf(ies)
  {
    var offset := 0;
    assert ies[0..] == ies;
    while offset + 2 <= |ies|
      invariant 0 <= offset <= |ies|
      invariant SsidOf(ies) == SsidOf(ies[offset..])
    {
      var len := ies[offset + 1] as int;
      if offset + 2 + len > |ies| {
        return None;
      }
      SliceAt(ies, offset, len);
      if ies[offset] == IE_SSID {
        return SsidFromBytes(ies[offset + 2..offset + 2 + len]);
      }
      offset := offset + 2 + len;
    }
    ssid := None;
  }

  lemma SsidAfter(e: Element, rest: seq<byte>)
    requires Encodable(e)
    ensures SsidOf([e.id, |e.data|] + e.data + rest) == if e.id == IE_SSID then SsidFromBytes(e.data) else SsidOf(rest)
  {
    FrontElement(e, rest);
  }

  /** The first SSID element of a list, if it is at most 32 bytes long. */
  function FirstSsid(elements: seq<Element>): Option<seq<byte>> {
    if elements == [] then None
    else if elements[0].id == IE_SSID then SsidFromBytes(elements[0].data)
    else FirstSsid(elements[1..])
  }

  /** The byte-level fallback is the first SSID element of the list. */
  lemma {:induction false} FallbackIsFirstSsid(elements: seq<Element>, stray: seq<byte>)
    requires AllEncodable(elements) && |stray| < 2
    ensures SsidOf(Encode(elements) + stray) == FirstSsid(elements)
    decreases |elements|
  {
    if elements == [] {
      assert Encode(elements) + stray == stray;
    } else {
      var e := elements[0];
      assert Encodable(e) && AllEncodable(elements[1..]);
      FallbackIsFirstSsid(elements[1..], stray);
      SsidAfter(e, Encode(elements[1..]) + stray);
      assert Encode(elements) + stray == [e.id, |e.data|] + e.data + (Encode(elements[1..]) + stray);
    }
  }

  /** Elements before the first SSID element do not matter, and neither do those after it. */
  lemma {:induction false} FirstSsidIgnoresTheRest(before: seq<Element>, ssid: Element, after: seq<Element>)
    requires forall i :: 0 <= i < |before| ==> before[i].id != IE_SSID
    requires ssid.id == IE_SSID
    ensures FirstSsid(before + [ssid] + after) == SsidFromBytes(ssid.data)
  {
    if before != [] {
      assert (before + [ssid] + after)[1..] == before[1..] + [ssid] + after;
      FirstSsidIgnoresTheRest(before[1..], ssid, after);
    }
  }
}
