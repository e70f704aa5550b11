/** The security verdicts of a beacon, read off its list of elements in plain numbers (src/linux/nl80211.rs,
    src/linux/model.rs). */
module SecurityMeaning {
  import opened Model
  import opened Wrappers
  import opened Bytes
  import opened InformationElements

  /** An element of a beacon: 48 is RSN, 221 starting with 0.80.242.1 is WPA, anything else says nothing. The
      suite codes are the selectors as read. */
  datatype Item =
    | RsnItem(version: u16, group: u32, pairwise: seq<u32>, auth: seq<u32>, tail: seq<byte>)
    | WpaItem(version: u16, group: u32, pairwise: seq<u32>, auth: seq<u32>, tail: seq<byte>)
    | OtherItem(id: byte, data: seq<byte>)

  predicate Plain(item: Item) {
    match item
    case OtherItem(id, data) => id != 48 && !(id == 221 && [0, 80, 242, 1] <= data)
    case _ => |item.pairwise| < 65536 && |item.auth| < 65536
  }

  function ElementOf(item: Item): Element {
    match item
    case RsnItem(version, group, pairwise, auth, tail) => Element(48, SuiteBody(version, group, pairwise, auth, tail))
    case WpaItem(version, group, pairwise, auth, tail) =>
      Element(221, [0, 80, 242, 1] + SuiteBody(version, group, pairwise, auth, tail))
    case OtherItem(id, data) => Element(id, data)
  }

  function ElementsOf(items: seq<Item>): seq<Element> {
    if items == [] then [] else [ElementOf(items[0])] + ElementsOf(items[1..])
  }

  predicate AllPlain(items: seq<Item>) {
    forall i :: 0 <= i < |items| ==> Plain(items[i])
  }

  // --- What the list says -------------------------------------------------------------------------------

  ghost predicate HasRsn(items: seq<Item>) {
    exists i :: 0 <= i < |items| && items[i].RsnItem?
  }

  ghost predicate HasWpa(items: seq<Item>) {
    exists i :: 0 <= i < |items| && items[i].WpaItem?
  }

  /** Bit 6 or 7 of the capabilities that follow the suites of an RSN element. */
  predicate Protects(item: Item) {
    item.RsnItem? && |item.tail| >= 2 && item.tail[0] >= 64
  }

  /** Some RSN element lists one of the codes `rsn`, or some WPA element one of the codes `wpa`. */
  predicate Names(item: Item, rsn: set<u32>, wpa: set<u32>) {
    || (item.RsnItem? && exists k :: 0 <= k < |item.auth| && item.auth[k] in rsn)
    || (item.WpaItem? && exists k :: 0 <= k < |item.auth| && item.auth[k] in wpa)
  }

  ghost predicate Offers(items: seq<Item>, rsn: set<u32>, wpa: set<u32>) {
    exists i :: 0 <= i < |items| && Names(items[i], rsn, wpa)
  }

  const WPA2_CODES: set<u32> := {
    0x000FAC01, 0x000FAC02, 0x000FAC03, 0x000FAC04, 0x000FAC05, 0x000FAC06, 0x000FAC0A, 0x000FAC0B,
    0x000FAC0C, 0x000FAC0D, 0x000FAC0E, 0x000FAC0F, 0x000FAC10, 0x000FAC11, 0x000FAC13, 0x000FAC14}
  const WPA3_CODES: set<u32> := {
    0x000FAC08, 0x000FAC09, 0x000FAC0C, 0x000FAC0D, 0x000FAC12, 0x000FAC13, 0x000FAC14, 0x000FAC15}
  const ENTERPRISE_CODES: set<u32> := {
    0x000FAC01, 0x000FAC03, 0x000FAC05, 0x000FAC0B, 0x000FAC0C, 0x000FAC0D}

  // --- Gathering -----------------------------------------------------------------------------------------------

  function SuitesOf(item: Item): seq<AuthSuite> {
    match item
    case RsnItem(_, _, _, auth, _) => MapSuites(auth, SuiteFromRsn)
    case WpaItem(_, _, _, auth, _) => MapSuites(auth, SuiteFromWpa)
    case OtherItem(_, _) => []
  }

  function AllSuites(items: seq<Item>): seq<AuthSuite> {
    if items == [] then [] else SuitesOf(items[0]) + AllSuites(items[1..])
  }

  lemma ProtectionBits(item: Item)
    requires item.RsnItem?
    ensures ProtectsManagement(item.tail) <==> Protects(item)
  {
    if |item.tail| >= 2 {
      var low, high := item.tail[0] as int, item.tail[1] as int;
      assert FromLe16(item.tail[..2]) == low + 0x100 * high;
      assert (low + 0x100 * high) / 0x40 == low / 0x40 + 4 * high;
    }
  }

  /** What one element adds. */
  function AfterItem(acc: Gathered, item: Item): Gathered {
    Gathered(acc.suites + SuitesOf(item), acc.rsn || item.RsnItem?, acc.wpa || item.WpaItem?,
             acc.protection || Protects(item))
  }

  function AfterAll(acc: Gathered, items: seq<Item>): Gathered
    decreases |items|
  {
    if items == [] then acc else AfterAll(AfterItem(acc, items[0]), items[1..])
  }

  lemma GatherItem(acc: Gathered, item: Item)
    requires Plain(item)
    ensures Gather(acc, ElementOf(item)) == Success(AfterItem(acc, item))
  {
    match item
    case RsnItem(version, group, pairwise, auth, tail) =>
      RsnReadsBack(version, group, pairwise, auth, tail);
      ProtectionBits(item);
    case WpaItem(version, group, pairwise, auth, tail) =>
      WpaReadsBack(version, group, pairwise, auth, tail);
      WpaHeader(SuiteBody(version, group, pairwise, auth, tail));
    case OtherItem(id, data) =>
      assert acc.suites + [] == acc.suites;
  }

  lemma WpaHeader(body: seq<byte>)
    ensures IsWpa(Element(221, [0, 80, 242, 1] + body)) && ([0, 80, 242, 1] + body)[4..] == body
  {
  }

  /** A step that treats each element as `AfterItem` does treats the list as `AfterAll` does. */
  lemma {:induction false} StepsAreAfterAll(step: Step, acc: Gathered, items: seq<Item>)
    requires forall a, i :: 0 <= i < |items| ==> step(a, ElementOf(items[i])) == Success(AfterItem(a, items[i]))
    ensures GatherAll(step, acc, ElementsOf(items)) == Success(AfterAll(acc, items))
    decreases |items|
  {
    if items != [] {
      var rest := items[1..];
      assert ElementsOf(items)[1..] == ElementsOf(rest);
      assert forall i :: 0 <= i < |rest| ==> rest[i] == items[i + 1];
      StepsAreAfterAll(step, AfterItem(acc, items[0]), rest);
    }
  }

  lemma GatherItems(acc: Gathered, items: seq<Item>)
    requires AllPlain(items)
    ensures GatherAll(Gather, acc, ElementsOf(items)) == Success(AfterAll(acc, items))
  {
    forall a, i | 0 <= i < |items| ensures Gather(a, ElementOf(items[i])) == Success(AfterItem(a, items[i])) {
      GatherItem(a, items[i]);
    }
    StepsAreAfterAll(Gather, acc, items);
  }

  ghost predicate HasProtection(items: seq<Item>) {
    exists i :: 0 <= i < |items| && Protects(items[i])
  }

  lemma Regroup<T>(a: seq<T>, b: seq<T>, c: seq<T>)
    ensures a + b + c == a + (b + c)
  {
  }

  lemma {:induction false} AfterAllSuites(acc: Gathered, items: seq<Item>)
    ensures AfterAll(acc, items).suites == acc.suites + AllSuites(items)
    decreases |items|
  {
    if items == [] {
      assert acc.suites + [] == acc.suites;
    } else {
      var next := AfterItem(acc, items[0]);
      AfterAllSuites(next, items[1..]);
      Regroup(acc.suites, SuitesOf(items[0]), AllSuites(items[1..]));
    }
  }

  lemma {:induction false} AfterAllFlags(acc: Gathered, items: seq<Item>)
    ensures var after := AfterAll(acc, items);
            && after.rsn == (acc.rsn || HasRsn(items)) && after.wpa == (acc.wpa || HasWpa(items))
            && after.protection == (acc.protection || HasProtection(items))
    decreases |items|
  {
    if items != [] {
      AfterAllFlags(AfterItem(acc, items[0]), items[1..]);
      FlagsSplit(items[0], items[1..], items);
    }
  }

  lemma FlagsSplit(first: Item, rest: seq<Item>, items: seq<Item>)
    requires items == [first] + rest
    ensures HasRsn(items) <==> first.RsnItem? || HasRsn(rest)
    ensures HasWpa(items) <==> first.WpaItem? || HasWpa(rest)
    ensures HasProtection(items) <==> Protects(first) || HasProtection(rest)
  {
    assert items[0] == first;
    assert forall i :: 0 < i < |items| ==> items[i] == rest[i - 1];
    assert forall i :: 0 <= i < |rest| ==> rest[i] == items[i + 1];
  }

  lemma OffersSplit(first: Item, rest: seq<Item>, items: seq<Item>, rsn: set<u32>, wpa: set<u32>)
    requires items == [first] + rest
    ensures Offers(items, rsn, wpa) <==> Names(first, rsn, wpa) || Offers(rest, rsn, wpa)
  {
    assert items[0] == first;
    assert forall i :: 0 < i < |items| ==> items[i] == rest[i - 1];
    assert forall i :: 0 <= i < |rest| ==> rest[i] == items[i + 1];
  }

  // --- From suites to codes -------------------------------------------------------------------------------------

  /** `kind` holds of exactly the RSN suites with a code in `rsn` and the WPA suites with a code in `wpa`. */
  ghost predicate Describes(rsn: set<u32>, wpa: set<u32>, kind: AuthSuite -> bool) {
    && (forall c: u32 :: kind(SuiteFromRsn(c)) <==> c in rsn)
    && (forall c: u32 :: kind(SuiteFromWpa(c)) <==> c in wpa)
  }

  ghost predicate AnyIs(suites: seq<AuthSuite>, kind: AuthSuite -> bool) {
    exists i :: 0 <= i < |suites| && kind(suites[i])
  }

  lemma {:induction false} MapAt(codes: seq<u32>, suite: u32 -> AuthSuite)
    ensures |MapSuites(codes, suite)| == |codes|
    ensures forall i :: 0 <= i < |codes| ==> MapSuites(codes, suite)[i] == suite(codes[i])
  {
    if codes != [] {
      MapAt(codes[1..], suite);
    }
  }

  lemma ItemNames(item: Item, rsn: set<u32>, wpa: set<u32>, kind: AuthSuite -> bool)
    requires Describes(rsn, wpa, kind)
    ensures AnyIs(SuitesOf(item), kind) <==> Names(item, rsn, wpa)
  {
    match item
    case RsnItem(_, _, _, auth, _) =>
      MapAt(auth, SuiteFromRsn);
      assert forall k :: 0 <= k < |auth| ==> (kind(SuitesOf(item)[k]) <==> auth[k] in rsn);
    case WpaItem(_, _, _, auth, _) =>
      MapAt(auth, SuiteFromWpa);
      assert forall k :: 0 <= k < |auth| ==> (kind(SuitesOf(item)[k]) <==> auth[k] in wpa);
    case OtherItem(_, _) =>
  }

  lemma AnyOfTwo(a: seq<AuthSuite>, b: seq<AuthSuite>, kind: AuthSuite -> bool)
    ensures AnyIs(a + b, kind) <==> AnyIs(a, kind) || AnyIs(b, kind)
  {
    var all := a + b;
    assert forall i :: 0 <= i < |a| ==> all[i] == a[i];
    assert forall i :: 0 <= i < |b| ==> all[|a| + i] == b[i];
    if AnyIs(all, kind) {
      var i :| 0 <= i < |all| && kind(all[i]);
      assert if i < |a| then kind(a[i]) else kind(b[i - |a|]);
    }
  }

  lemma {:induction false} ItemsOffer(items: seq<Item>, rsn: set<u32>, wpa: set<u32>, kind: AuthSuite -> bool)
    requires Describes(rsn, wpa, kind)
    ensures AnyIs(AllSuites(items), kind) <==> Offers(items, rsn, wpa)
  {
    if items != [] {
      ItemsOffer(items[1..], rsn, wpa, kind);
      ItemNames(items[0], rsn, wpa, kind);
      AnyOfTwo(SuitesOf(items[0]), AllSuites(items[1..]), kind);
      OffersSplit(items[0], items[1..], items, rsn, wpa);
    }
  }

  lemma Wpa2Codes()
    ensures Describes(WPA2_CODES, {1, 2}, IsWpa2)
  {
  }

  lemma Wpa3Codes()
    ensures Describes(WPA3_CODES, {}, IsWpa3)
  {
  }

  lemma EnterpriseCodes()
    ensures Describes(ENTERPRISE_CODES, {1}, IsEnterprise)
  {
  }

  /** The suites by number. */
  lemma SuiteNumbers(code: u32)
    ensures && SuiteFromRsn(0x000FAC01) == Rsn8021x && SuiteFromRsn(0x000FAC02) == RsnPsk
            && SuiteFromRsn(0x000FAC03) == RsnFt8021x && SuiteFromRsn(0x000FAC04) == RsnFtPsk
            && SuiteFromRsn(0x000FAC05) == Rsn8021xSha256 && SuiteFromRsn(0x000FAC06) == RsnPskSha256
            && SuiteFromRsn(0x000FAC08) == RsnSae && SuiteFromRsn(0x000FAC09) == RsnSaeFt
            && SuiteFromRsn(0x000FAC0A) == RsnApPsk && SuiteFromRsn(0x000FAC0B) == RsnSuiteB
            && SuiteFromRsn(0x000FAC0C) == RsnSuiteB192 && SuiteFromRsn(0x000FAC0D) == RsnFt8021xSha384
            && SuiteFromRsn(0x000FAC0E) == RsnFilsSha256 && SuiteFromRsn(0x000FAC0F) == RsnFilsSha384
            && SuiteFromRsn(0x000FAC10) == RsnFtFilsSha256 && SuiteFromRsn(0x000FAC11) == RsnFtFilsSha384
            && SuiteFromRsn(0x000FAC12) == RsnOwe && SuiteFromRsn(0x000FAC13) == RsnFtPskSha384
            && SuiteFromRsn(0x000FAC14) == RsnPskSha384 && SuiteFromRsn(0x000FAC15) == RsnPasn
            && SuiteFromWpa(1) == Wpa18021x && SuiteFromWpa(2) == Wpa1Psk
    ensures !(0x000FAC01 <= code <= 0x000FAC15) || code == 0x000FAC07 ==> SuiteFromRsn(code) == OtherSuite(code)
    ensures code != 1 && code != 2 ==> SuiteFromWpa(code) == OtherSuite(code)
  {
  }

  // --- The verdicts -----------------------------------------------------------------------------------------------

  /** Bit 4 of the capability field. */
  predicate Privacy(capability: Option<u16>) {
    capability.Some? && capability.value / 16 % 2 == 1
  }

  ghost predicate Verdicts(s: Security, items: seq<Item>, capability: Option<u16>) {
    && (s.wep <==> Privacy(capability) && !HasRsn(items) && !HasWpa(items))
    && (s.wpa1 <==> HasWpa(items))
    && (s.wpa2 <==> HasRsn(items) && Offers(items, WPA2_CODES, {1, 2}))
    && (s.wpa3 <==> Offers(items, WPA3_CODES, {}))
    && (s.enterprise <==> Offers(items, ENTERPRISE_CODES, {1}))
    && (s.protection <==> HasProtection(items))
    && s.suites == AllSuites(items)
  }

  lemma ClassifyMeans(g: Gathered, items: seq<Item>, capability: Option<u16>)
    requires g == Gathered(AllSuites(items), HasRsn(items), HasWpa(items), HasProtection(items))
    ensures Verdicts(Classify(g, capability), items, capability)
  {
    Wpa2Codes();
    Wpa3Codes();
    EnterpriseCodes();
    ItemsOffer(items, WPA2_CODES, {1, 2}, IsWpa2);
    ItemsOffer(items, WPA3_CODES, {}, IsWpa3);
    ItemsOffer(items, ENTERPRISE_CODES, {1}, IsEnterprise);
    var s := Classify(g, capability);
    assert s.wpa2 <==> g.rsn && AnyIs(g.suites, IsWpa2);
    assert s.wpa3 <==> AnyIs(g.suites, IsWpa3);
    assert s.enterprise <==> AnyIs(g.suites, IsEnterprise);
  }

  /** Every verdict, for every list of elements with or without a stray last byte: WEP is the privacy bit with
      neither RSN nor WPA; WPA1 is a WPA element; WPA2 an RSN element and a suite of the WPA2 codes; WPA3 and
      enterprise a suite of theirs; protection a bit of an RSN element; and all suites in order. */
  lemma VerdictsFromTheElements(items: seq<Item>, stray: seq<byte>, capability: Option<u16>)
    requires AllPlain(items) && AllEncodable(ElementsOf(items)) && |stray| < 2
    ensures var r := SecurityOf(Encode(ElementsOf(items)) + stray, capability);
            r.Success? && Verdicts(r.value, items, capability)
  {
    ScanIsGatherAll(Gather, ElementsOf(items), stray, NOTHING);
    GatherItems(NOTHING, items);
    AfterAllSuites(NOTHING, items);
    AfterAllFlags(NOTHING, items);
    assert [] + AllSuites(items) == AllSuites(items);
    ClassifyMeans(AfterAll(NOTHING, items), items, capability);
  }

  /** The SSID fallback in plain numbers: element 0 with at most 32 bytes, the first there is. */
  lemma SsidFromTheElements(before: seq<Element>, data: seq<byte>, after: seq<Element>, stray: seq<byte>)
    requires forall i :: 0 <= i < |before| ==> before[i].id != 0
    requires AllEncodable(before + [Element(0, data)] + after) && |stray| < 2
    ensures SsidOf(Encode(before + [Element(0, data)] + after) + stray) == if |data| <= 32 then Some(data) else None
  {
    FallbackIsFirstSsid(before + [Element(0, data)] + after, stray);
    FirstSsidIgnoresTheRest(before, Element(0, data), after);
  }
}
