/** Generic netlink: nested attributes and messages (src/linux/nl80211.rs). */
module Genl {
  import opened Model
  import opened Wrappers
  import opened Bytes
  import opened Netlink
  import opened Buffers

  const NLA_F_NESTED: u16 := 0x8000
  const GENL_HDRLEN := 4

  /** A decoded attribute: its type without flag bits, the nested flag, and its payload. */
  datatype RawAttr = RawAttr(typ: u16, nested: bool, payload: seq<byte>)

  /** `& 0x3fff` keeps the low 14 bits; the top bit is the nested flag. */
  function Decoded(attr: Attr): RawAttr {
    RawAttr(attr.typ % 0x4000, attr.typ >= NLA_F_NESTED, attr.value)
  }

  function DecodedAll(attrs: seq<Attr>): seq<RawAttr> {
    if attrs == [] then [] else [Decoded(attrs[0])] + DecodedAll(attrs[1..])
  }

  function PushDecoded(): Step<seq<RawAttr>> {
    (acc: seq<RawAttr>, attr: Attr) => Success(acc + [Decoded(attr)])
  }

  function ParseAttrs(payload: seq<byte>): Result<seq<RawAttr>, NetlinkError> {
    Scan(payload, [], PushDecoded())
  }

  lemma {:induction false} FoldDecodes(attrs: seq<Attr>, acc: seq<RawAttr>)
    ensures Fold(attrs, acc, PushDecoded()) == Success(acc + DecodedAll(attrs))
    decreases |attrs|
  {
    if attrs == [] {
      assert acc + [] == acc;
    } else {
      FoldDecodes(attrs[1..], acc + [Decoded(attrs[0])]);
      assert acc + [Decoded(attrs[0])] + DecodedAll(attrs[1..]) == acc + DecodedAll(attrs);
    }
  }

  predicate AllFit(attrs: seq<Attr>) {
    forall i :: 0 <= i < |attrs| ==> Fits(attrs[i])
  }

  lemma ParseBuiltAttrs(attrs: seq<Attr>)
    requires AllFit(attrs)
    ensures ParseAttrs(AttrsBytes(attrs)) == Success(DecodedAll(attrs))
  {
    ScanIsFold(attrs, [], PushDecoded());
    FoldDecodes(attrs, []);
    assert [] + DecodedAll(attrs) == DecodedAll(attrs);
  }

  // --- Attribute trees -----------------------------------------------------------------------------

  datatype Tree = Leaf(typ: u16, payload: seq<byte>) | Nest(typ: u16, children: seq<Tree>)

  function Encode(tree: Tree): Attr
    requires tree.typ < 0x4000
    requires tree.Nest? ==> Typed(tree.children)
    decreases tree, 0
  {
    match tree
    case Leaf(typ, payload) => Attr(typ, payload)
    case Nest(typ, children) => Attr(typ + NLA_F_NESTED, AttrsBytes(EncodeAll(children)))
  }

  /** Every type in the forest leaves the two flag bits free. */
  predicate Typed(trees: seq<Tree>)
    decreases trees, 0
  {
    forall i :: 0 <= i < |trees| ==>
      trees[i].typ < 0x4000 && (trees[i].Nest? ==> Typed(trees[i].children))
  }

  function EncodeAll(trees: seq<Tree>): (attrs: seq<Attr>)
    requires Typed(trees)
    ensures |attrs| == |trees|
    ensures forall i :: 0 <= i < |trees| ==> attrs[i] == Encode(trees[i])
    decreases trees, 1
  {
    if trees == [] then []
    else
      assert Typed(trees[1..]);
      [Encode(trees[0])] + EncodeAll(trees[1..])
  }

  /** Types in range and every attribute short enough for its 16-bit length, at every level. */
  ghost predicate WellFormed(trees: seq<Tree>)
    decreases trees
  {
    && Typed(trees)
    && AllFit(EncodeAll(trees))
    && forall i :: 0 <= i < |trees| && trees[i].Nest? ==> WellFormed(trees[i].children)
  }

  /** The bytes parse to exactly these attributes, and so do the payloads of nested ones, all the way down. */
  ghost predicate ReadsAs(bytes: seq<byte>, trees: seq<Tree>)
    decreases trees
  {
    var r := ParseAttrs(bytes);
    && r.Success? && |r.value| == |trees|
    && forall i :: 0 <= i < |trees| ==>
         && r.value[i].typ == trees[i].typ
         && (trees[i].Leaf? ==> !r.value[i].nested && r.value[i].payload == trees[i].payload)
         && (trees[i].Nest? ==> r.value[i].nested && ReadsAs(r.value[i].payload, trees[i].children))
  }

  lemma {:induction false} DecodedAllAt(attrs: seq<Attr>, i: nat)
    requires i < |attrs|
    ensures |DecodedAll(attrs)| == |attrs| && DecodedAll(attrs)[i] == Decoded(attrs[i])
  {
    if |attrs| > 1 {
      DecodedAllAt(attrs[1..], if i > 0 then i - 1 else 0);
    }
  }

  /** One decoded attribute is the encoding of this tree, all the way down. */
  ghost predicate ReadsAsTree(raw: RawAttr, tree: Tree) {
    && raw.typ == tree.typ
    && (tree.Leaf? ==> !raw.nested && raw.payload == tree.payload)
    && (tree.Nest? ==> raw.nested && ReadsAs(raw.payload, tree.children))
  }

  lemma NestedType(typ: u16)
    requires typ < 0x4000
    ensures (typ + NLA_F_NESTED) % 0x4000 == typ && typ + NLA_F_NESTED >= NLA_F_NESTED
  {
  }

  lemma {:induction false} TreeReadsBack(trees: seq<Tree>, i: nat)
    requires WellFormed(trees) && i < |trees|
    ensures ReadsAsTree(Decoded(Encode(trees[i])), trees[i])
    decreases trees, 0
  {
    var tree := trees[i];
    if tree.Nest? {
      ForestReadsBack(tree.children);
      NestedType(tree.typ);
    }
  }

  lemma ReadsAsEach(bytes: seq<byte>, trees: seq<Tree>)
    requires ParseAttrs(bytes).Success? && |ParseAttrs(bytes).value| == |trees|
    requires forall i :: 0 <= i < |trees| ==> ReadsAsTree(ParseAttrs(bytes).value[i], trees[i])
    ensures ReadsAs(bytes, trees)
  {
  }

  /** Building and parsing any well-formed attribute forest gives the same attributes at every level. */
  lemma {:induction false} ForestReadsBack(trees: seq<Tree>)
    requires WellFormed(trees)
    ensures ReadsAs(AttrsBytes(EncodeAll(trees)), trees)
    decreases trees, 1
  {
    var attrs := EncodeAll(trees);
    ParseBuiltAttrs(attrs);
    assert |DecodedAll(attrs)| == |trees| by {
      if trees != [] {
        DecodedAllAt(attrs, 0);
      }
    }
    forall i | 0 <= i < |trees| ensures ReadsAsTree(DecodedAll(attrs)[i], trees[i]) {
      DecodedAllAt(attrs, i);
      TreeReadsBack(trees, i);
    }
    ReadsAsEach(AttrsBytes(attrs), trees);
  }

  /** What bytes read as is unique. */
  lemma {:induction false} ReadsAsUnique(bytes: seq<byte>, a: seq<Tree>, b: seq<Tree>)
    requires ReadsAs(bytes, a) && ReadsAs(bytes, b)
    ensures a == b
    decreases a
  {
    forall i | 0 <= i < |a| ensures a[i] == b[i] {
      if a[i].Nest? {
        ReadsAsUnique(ParseAttrs(bytes).value[i].payload, a[i].children, b[i].children);
      }
    }
  }

  // --- Messages ----------------------------------------------------------------------------------------

  datatype RawMsg = RawMsg(kind: u16, flags: u16, cmd: Option<byte>, attrs: seq<RawAttr>, payload: seq<byte>)

  function GenlPayload(cmd: byte, attrs: seq<Attr>): (b: seq<byte>)
    ensures |b| % 4 == 0
  {
    [cmd, 1, 0, 0] + AttrsBytes(attrs)
  }

  /** The lengths the builder adds up before writing anything. */
  function PaddedLength(attrs: seq<Attr>): (n: nat)
    ensures n == |AttrsBytes(attrs)|
  {
    if attrs == [] then 0 else Align(4 + |attrs[0].value|) + PaddedLength(attrs[1..])
  }

  /** Adds up the padded lengths of the attributes. */
  method SumLengths(attrs: seq<Attr>) returns (total: nat)
    ensures total == PaddedLength(attrs)
  {
    total := 0;
    for i := 0 to |attrs|
      invariant total + PaddedLength(attrs[i..]) == PaddedLength(attrs)
    {
      assert attrs[i..][1..] == attrs[i + 1..];
      total := total + Align(4 + |attrs[i].value|);
    }
  }

  /** Writes one attribute, padding the whole buffer to a multiple of four. */
  method PushPadded(start: seq<byte>, attr: Attr) returns (buf: seq<byte>)
    requires |start| % 4 == 0
    ensures buf == start + AttrBytes(attr) && |buf| % 4 == 0
  {
    buf := start + (Le16(4 + |attr.value|) + Le16(attr.typ));
    buf := buf + attr.value;
    buf := PadToFour(buf);
    PaddingAgrees(start, attr);
  }

  lemma AttrsFrom(before: seq<byte>, attrs: seq<Attr>, i: nat)
    requires i < |attrs|
    ensures before + AttrsBytes(attrs[i..]) == before + AttrBytes(attrs[i]) + AttrsBytes(attrs[i + 1..])
  {
    assert attrs[i..][1..] == attrs[i + 1..];
    var first, rest := AttrBytes(attrs[i]), AttrsBytes(attrs[i + 1..]);
    assert before + (first + rest) == before + first + rest;
  }

  method PushAllPadded(start: seq<byte>, attrs: seq<Attr>) returns (buf: seq<byte>)
    requires |start| % 4 == 0
    ensures buf == start + AttrsBytes(attrs)
  {
    buf := start;
    assert attrs[0..] == attrs;
    for i := 0 to |attrs|
      invariant |buf| % 4 == 0
      invariant start + AttrsBytes(attrs) == buf + AttrsBytes(attrs[i..])
    {
      AttrsFrom(buf, attrs, i);
      buf := PushPadded(buf, attrs[i]);
    }
    assert attrs[|attrs|..] == [] && buf + [] == buf;
  }

  /** Writes a message front to back; the length announced in the header, summed up beforehand, is
      the number of bytes written. */
  method BuildMessage(family: u16, cmd: byte, flags: u16, sequence: u32, attrs: seq<Attr>) returns (buf: seq<byte>)
    ensures buf == SequencedMessage(family, flags, sequence, GenlPayload(cmd, attrs))
    ensures |buf| == HEADER_LENGTH + GENL_HDRLEN + PaddedLength(attrs)
  {
    var attrLength := SumLengths(attrs);
    var length := HEADER_LENGTH + GENL_HDRLEN + attrLength;
    var header := Le32(length) + Le16(family) + Le16(flags) + Le32(sequence) + Le32(0);
    buf := PushAllPadded(header + [cmd, 1, 0, 0], attrs);
    assert header + [cmd, 1, 0, 0] + AttrsBytes(attrs) == header + GenlPayload(cmd, attrs);
  }

  /** Pushes zeros until the whole buffer is aligned. */
  method PadToFour(start: seq<byte>) returns (buf: seq<byte>)
    ensures buf == start + Zeros(Align(|start|) - |start|)
  {
    buf := start;
    ghost var pad := 0;
    while |buf| % 4 != 0
      invariant |buf| <= Align(|start|)
      invariant buf == start + Zeros(pad) && |buf| == |start| + pad
      decreases Align(|start|) - |buf|
    {
      assert Zeros(pad) + [0] == Zeros(pad + 1);
      buf := buf + [0];
      pad := pad + 1;
    }
  }

  /** Padding by the whole buffer's length is padding by the attribute's, when the buffer was aligned. */
  lemma PaddingAgrees(before: seq<byte>, attr: Attr)
    requires |before| % 4 == 0
    ensures var written := before + (Le16(4 + |attr.value|) + Le16(attr.typ)) + attr.value;
            written + Zeros(Align(|written|) - |written|) == before + AttrBytes(attr)
  {
    var written := before + (Le16(4 + |attr.value|) + Le16(attr.typ)) + attr.value;
    assert Align(|written|) - |written| == Align(4 + |attr.value|) - (4 + |attr.value|);
  }

  /** Control messages are kept raw; any other message needs a generic header and well-formed attributes. */
  function JudgeGenl(frame: Frame): Verdict<RawMsg> {
    if frame.kind == NLMSG_DONE || frame.kind == NLMSG_ERROR then
      Keep([RawMsg(frame.kind, frame.flags, None, [], frame.payload)])
    else if |frame.payload| < GENL_HDRLEN then Reject(MalformedMessage("short genl header"))
    else match ParseAttrs(frame.payload[GENL_HDRLEN..])
      case Failure(error) => Reject(error)
      case Success(attrs) =>
        Keep([RawMsg(frame.kind, frame.flags, Some(frame.payload[0]), attrs, frame.payload)])
  }

  method ParseGenlMessages(buf: seq<byte>) returns (r: Result<seq<RawMsg>, NetlinkError>)
    ensures r == ParseTiled(buf, JudgeGenl)
  {
    r := ParseLoop(buf, JudgeGenl);
  }

  /** An accepted generic-netlink buffer is tiled exactly, to its last byte. */
  lemma AcceptedGenlTiles(buf: seq<byte>) returns (chunks: seq<seq<byte>>)
    requires ParseTiled(buf, JudgeGenl).Success?
    ensures buf == Concat(chunks) && AllKept(chunks, JudgeGenl)
    ensures ParseTiled(buf, JudgeGenl).value == ItemsOf(chunks, JudgeGenl)
  {
    var rest;
    chunks, rest := AcceptedBufferTiles(buf, JudgeGenl);
    assert rest == [];
    assert Concat(chunks) + [] == Concat(chunks);
  }

  /** A request as the builder takes it. */
  datatype Request = Request(family: u16, cmd: byte, flags: u16, sequence: u32, attrs: seq<Attr>)

  predicate Sendable(r: Request) {
    && r.family != NLMSG_DONE && r.family != NLMSG_ERROR
    && AllFit(r.attrs)
    && HEADER_LENGTH + GENL_HDRLEN + PaddedLength(r.attrs) < 0x1_0000_0000
  }

  function RequestBytes(r: Request): seq<byte> {
    SequencedMessage(r.family, r.flags, r.sequence, GenlPayload(r.cmd, r.attrs))
  }

  function RequestsBytes(rs: seq<Request>): seq<byte> {
    if rs == [] then [] else RequestBytes(rs[0]) + RequestsBytes(rs[1..])
  }

  function Received(r: Request): RawMsg {
    RawMsg(r.family, r.flags, Some(r.cmd), DecodedAll(r.attrs), GenlPayload(r.cmd, r.attrs))
  }

  function ReceivedAll(rs: seq<Request>): seq<RawMsg> {
    if rs == [] then [] else [Received(rs[0])] + ReceivedAll(rs[1..])
  }

  lemma JudgeBuilt(r: Request)
    requires Sendable(r)
    ensures JudgeGenl(Frame(r.family, r.flags, GenlPayload(r.cmd, r.attrs))) == Keep([Received(r)])
  {
    var payload := GenlPayload(r.cmd, r.attrs);
    assert payload[GENL_HDRLEN..] == AttrsBytes(r.attrs);
    ParseBuiltAttrs(r.attrs);
  }

  lemma ParseOneBuilt(r: Request, rest: seq<byte>)
    requires Sendable(r)
    ensures ParseTiled(RequestBytes(r) + rest, JudgeGenl) == Prefixed([Received(r)], ParseTiled(rest, JudgeGenl))
  {
    ParseOneMessage(r.family, r.flags, r.sequence, GenlPayload(r.cmd, r.attrs), rest, JudgeGenl);
    JudgeBuilt(r);
  }

  /** Any list of built messages, concatenated, parses back to exactly that list. */
  lemma {:induction false} MessagesReadBack(rs: seq<Request>)
    requires forall i :: 0 <= i < |rs| ==> Sendable(rs[i])
    ensures ParseTiled(RequestsBytes(rs), JudgeGenl) == Success(ReceivedAll(rs))
  {
    if rs != [] {
      MessagesReadBack(rs[1..]);
      ParseOneBuilt(rs[0], RequestsBytes(rs[1..]));
    }
  }

  // --- Nested readers: resolving a family ----------------------------------------------------------------

  const CTRL_ATTR_FAMILY_ID: u16 := 1
  const CTRL_ATTR_MCAST_GROUPS: u16 := 7
  const CTRL_ATTR_MCAST_GRP_NAME: u16 := 1
  const CTRL_ATTR_MCAST_GRP_ID: u16 := 2

  datatype Group = Group(name: seq<byte>, id: u32)

  datatype FamilyInfo = FamilyInfo(id: u16, groups: seq<Group>)

  /** The first attribute of a type. */
  function Find(attrs: seq<RawAttr>, typ: u16): Option<RawAttr> {
    if attrs == [] then None
    else if attrs[0].typ == typ then Some(attrs[0])
    else Find(attrs[1..], typ)
  }

  function ReadString(attrs: seq<RawAttr>, typ: u16): Option<seq<byte>> {
    var found := Find(attrs, typ);
    if found.None? then None else Some(UntilNul(found.value.payload))
  }

  function ReadU32(attrs: seq<RawAttr>, typ: u16): Result<Option<u32>, NetlinkError> {
    var found := Find(attrs, typ);
    if found.None? then Success(None)
    else if |found.value.payload| != 4 then Failure(MalformedMessage("invalid u32 attribute length"))
    else Success(Some(FromLe32(found.value.payload)))
  }

  function ReadGroup(entry: RawAttr): Result<seq<Group>, NetlinkError> {
    var inner :- ParseAttrs(entry.payload);
    var id :- ReadU32(inner, CTRL_ATTR_MCAST_GRP_ID);
    var name := ReadString(inner, CTRL_ATTR_MCAST_GRP_NAME);
    Success(if name.Some? && id.Some? then [Group(name.value, id.value)] else [])
  }

  function ReadGroups(entries: seq<RawAttr>): Result<seq<Group>, NetlinkError> {
    if entries == [] then Success([])
    else
      var first :- ReadGroup(entries[0]);
      var rest :- ReadGroups(entries[1..]);
      Success(first + rest)
  }

  function FamilyInfoFromAttrs(attrs: seq<RawAttr>): Result<Option<FamilyInfo>, NetlinkError> {
    var id := Find(attrs, CTRL_ATTR_FAMILY_ID);
    if id.None? then Success(None)
    else if |id.value.payload| != 2 then Failure(MalformedMessage("invalid family id length"))
    else
      var nested := Find(attrs, CTRL_ATTR_MCAST_GROUPS);
      var entries :- if nested.None? then Success([]) else ParseAttrs(nested.value.payload);
      var groups :- ReadGroups(entries);
      Success(Some(FamilyInfo(FromLe16(id.value.payload), groups)))
  }

  /** A family description as the controller sends it: groups nested in groups. */
  function GroupTree(g: Group): Tree {
    Nest(1, [Leaf(CTRL_ATTR_MCAST_GRP_NAME, g.name + [0]), Leaf(CTRL_ATTR_MCAST_GRP_ID, Le32(g.id))])
  }

  function GroupTrees(groups: seq<Group>): (trees: seq<Tree>)
    ensures |trees| == |groups|
    ensures forall i :: 0 <= i < |groups| ==> trees[i] == GroupTree(groups[i])
  {
    if groups == [] then [] else [GroupTree(groups[0])] + GroupTrees(groups[1..])
  }

  function FamilyTrees(info: FamilyInfo): seq<Tree> {
    [Leaf(CTRL_ATTR_FAMILY_ID, Le16(info.id)), Nest(CTRL_ATTR_MCAST_GROUPS, GroupTrees(info.groups))]
  }

  lemma GroupReadsBack(entry: RawAttr, g: Group)
    requires ReadsAsTree(entry, GroupTree(g)) && 0 !in g.name
    ensures ReadGroup(entry) == Success([g])
  {
    var children := GroupTree(g).children;
    var inner := ParseAttrs(entry.payload).value;
    assert ReadsAs(entry.payload, children);
    assert inner[0].typ == children[0].typ && inner[0].payload == children[0].payload;
    assert inner[1].typ == children[1].typ && inner[1].payload == children[1].payload;
    assert Find(inner, CTRL_ATTR_MCAST_GRP_NAME) == Some(inner[0]);
    assert Find(inner, CTRL_ATTR_MCAST_GRP_ID) == Find(inner[1..], CTRL_ATTR_MCAST_GRP_ID) == Some(inner[1]);
    UntilNulOf(g.name, []);
    assert g.name + [0] + [] == g.name + [0];
    Le32RoundTrip(g.id);
  }

  lemma {:induction false} GroupsReadBack(entries: seq<RawAttr>, groups: seq<Group>)
    requires |entries| == |groups|
    requires forall i :: 0 <= i < |groups| ==> ReadsAsTree(entries[i], GroupTree(groups[i])) && 0 !in groups[i].name
    ensures ReadGroups(entries) == Success(groups)
  {
    if groups != [] {
      GroupReadsBack(entries[0], groups[0]);
      GroupsReadBack(entries[1..], groups[1..]);
      assert groups == [groups[0]] + groups[1..];
    }
  }

  /** Resolving a family recovers its id and every multicast group through three levels of nesting. */
  lemma FamilyReadsBack(info: FamilyInfo)
    requires WellFormed(FamilyTrees(info))
    requires forall i :: 0 <= i < |info.groups| ==> 0 !in info.groups[i].name
    ensures var attrs := ParseAttrs(AttrsBytes(EncodeAll(FamilyTrees(info))));
            attrs.Success? && FamilyInfoFromAttrs(attrs.value) == Success(Some(info))
  {
    var trees := FamilyTrees(info);
    ForestReadsBack(trees);
    var attrs := ParseAttrs(AttrsBytes(EncodeAll(trees))).value;
    assert attrs[0].typ == trees[0].typ && attrs[0].payload == trees[0].payload;
    assert attrs[1].typ == trees[1].typ && ReadsAs(attrs[1].payload, trees[1].children);
    assert Find(attrs, CTRL_ATTR_FAMILY_ID) == Some(attrs[0]);
    assert Find(attrs, CTRL_ATTR_MCAST_GROUPS) == Find(attrs[1..], CTRL_ATTR_MCAST_GROUPS) == Some(attrs[1]);
    Le16RoundTrip(info.id);
    var entries := ParseAttrs(attrs[1].payload).value;
    forall i | 0 <= i < |info.groups| ensures ReadsAsTree(entries[i], GroupTree(info.groups[i])) {
      assert trees[1].children[i] == GroupTree(info.groups[i]);
    }
    GroupsReadBack(entries, info.groups);
  }
}
