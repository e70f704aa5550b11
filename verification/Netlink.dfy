/** Netlink framing: messages and attributes (src/linux/netlink.rs; section 2.3.2 of RFC 3549). */
module Netlink {
  import opened Model
  import opened Wrappers
  import opened Bytes

  datatype NetlinkError = KernelError(code: i32) | MalformedMessage(reason: string)

  const HEADER_LENGTH := 16
  const NLMSG_ERROR := 2
  const NLMSG_DONE := 3

  // --- Messages ------------------------------------------------------------------------------

  datatype Frame = Frame(kind: u16, flags: u16, payload: seq<byte>)

  /** What the front of a buffer holds: too few bytes for a header, a header with a bad length, or
      a message and the number of bytes it takes with its padding. */
  datatype FrameRead = NoFrame | BadFrame | SomeFrame(frame: Frame, size: nat)

  function DeclaredLength(buf: seq<byte>): u32
    requires |buf| >= HEADER_LENGTH
  {
    FromLe32(buf[..4])
  }

  function ReadFrame(buf: seq<byte>): (r: FrameRead)
    ensures r.SomeFrame? ==> HEADER_LENGTH <= r.size < |buf| + 4
  {
    if |buf| < HEADER_LENGTH then NoFrame
    else
      var len := DeclaredLength(buf);
      if len < HEADER_LENGTH || len > |buf| then BadFrame
      else SomeFrame(Frame(FromLe16(buf[4..6]), FromLe16(buf[6..8]), buf[HEADER_LENGTH..len]), Align(len))
  }

  function SequencedMessage(kind: u16, flags: u16, sequence: u32, payload: seq<byte>): (m: seq<byte>)
    ensures |m| == HEADER_LENGTH + |payload|
  {
    Le32(HEADER_LENGTH + |payload|) + Le16(kind) + Le16(flags) + Le32(sequence) + Le32(0) + payload
  }

  /** One message with sequence number 1. */
  function Message(kind: u16, flags: u16, payload: seq<byte>): (m: seq<byte>)
    ensures |m| == HEADER_LENGTH + |payload|
  {
    SequencedMessage(kind, flags, 1, payload)
  }

  lemma MessageSlices(
      length: seq<byte>, kind: seq<byte>, flags: seq<byte>, ids: seq<byte>, payload: seq<byte>, rest: seq<byte>)
    requires |length| == 4 && |kind| == 2 && |flags| == 2 && |ids| == 8
    ensures var buf := length + kind + flags + ids + payload + rest;
            && buf[..4] == length && buf[4..6] == kind && buf[6..8] == flags
            && buf[HEADER_LENGTH..HEADER_LENGTH + |payload|] == payload && buf[HEADER_LENGTH + |payload|..] == rest
  {
  }

  lemma FrameInSlices(buf: seq<byte>, kind: u16, flags: u16, payload: seq<byte>)
    requires HEADER_LENGTH + |payload| < 0x1_0000_0000 && |buf| >= HEADER_LENGTH + |payload|
    requires buf[..4] == Le32(HEADER_LENGTH + |payload|) && buf[4..6] == Le16(kind) && buf[6..8] == Le16(flags)
    requires buf[HEADER_LENGTH..HEADER_LENGTH + |payload|] == payload
    ensures ReadFrame(buf) == SomeFrame(Frame(kind, flags, payload), Align(HEADER_LENGTH + |payload|))
  {
    Le32RoundTrip(HEADER_LENGTH + |payload|);
    Le16RoundTrip(kind);
    Le16RoundTrip(flags);
  }

  lemma AlignedRest(m: seq<byte>, rest: seq<byte>)
    ensures From(m + rest, |m|) == rest
    ensures |m| % 4 == 0 ==> Align(|m|) == |m|
  {
  }

  lemma MessageParts(kind: u16, flags: u16, sequence: u32, payload: seq<byte>, rest: seq<byte>)
    ensures SequencedMessage(kind, flags, sequence, payload) + rest
            == Le32(HEADER_LENGTH + |payload|) + Le16(kind) + Le16(flags) + (Le32(sequence) + Le32(0)) + payload + rest
  {
  }

  lemma ReadMessage(kind: u16, flags: u16, sequence: u32, payload: seq<byte>, rest: seq<byte>)
    requires HEADER_LENGTH + |payload| < 0x1_0000_0000
    ensures var m := SequencedMessage(kind, flags, sequence, payload);
            && ReadFrame(m + rest) == SomeFrame(Frame(kind, flags, payload), Align(|m|))
            && (|payload| % 4 == 0 ==> Align(|m|) == |m| && From(m + rest, |m|) == rest)
  {
    var m := SequencedMessage(kind, flags, sequence, payload);
    MessageParts(kind, flags, sequence, payload, rest);
    MessageSlices(Le32(HEADER_LENGTH + |payload|), Le16(kind), Le16(flags), Le32(sequence) + Le32(0), payload, rest);
    FrameInSlices(m + rest, kind, flags, payload);
    AlignedRest(m, rest);
  }

  function KernelErrorOf(payload: seq<byte>): NetlinkError {
    if |payload| < 4 then MalformedMessage("short nlmsgerr")
    else KernelError(Signed(FromLe32(payload[..4])))
  }

  // --- Attributes ---------------------------------------------------------------------------------

  datatype Attr = Attr(typ: u16, value: seq<byte>)

  datatype AttrRead = NoAttr | BadAttr | SomeAttr(attr: Attr, size: nat)

  function ReadAttr(buf: seq<byte>): (r: AttrRead)
    ensures r.SomeAttr? ==> 4 <= r.size < |buf| + 4
  {
    if |buf| < 4 then NoAttr
    else
      var len := FromLe16(buf[..2]);
      if len < 4 || len > |buf| then BadAttr
      else SomeAttr(Attr(FromLe16(buf[2..4]), buf[4..len]), Align(len))
  }

  /** An attribute's value fits its 16-bit length. */
  predicate Fits(attr: Attr) {
    4 + |attr.value| < 0x1_0000
  }

  function AttrBytes(attr: Attr): (b: seq<byte>)
    ensures |b| == Align(4 + |attr.value|)
  {
    Le16(4 + |attr.value|) + Le16(attr.typ) + attr.value
    + Zeros(Align(4 + |attr.value|) - (4 + |attr.value|))
  }

  lemma ReadAttrBytes(attr: Attr, rest: seq<byte>)
    requires Fits(attr)
    ensures ReadAttr(AttrBytes(attr) + rest) == SomeAttr(attr, |AttrBytes(attr)|)
    ensures From(AttrBytes(attr) + rest, |AttrBytes(attr)|) == rest
  {
    var buf := AttrBytes(attr) + rest;
    assert buf[..2] == Le16(4 + |attr.value|);
    assert buf[2..4] == Le16(attr.typ);
    assert buf[4..4 + |attr.value|] == attr.value;
    Le16RoundTrip(4 + |attr.value|);
    Le16RoundTrip(attr.typ);
  }

  function AttrsBytes(attrs: seq<Attr>): (b: seq<byte>)
    ensures |b| % 4 == 0
  {
    if attrs == [] then [] else AttrBytes(attrs[0]) + AttrsBytes(attrs[1..])
  }

  type Step<!A> = (A, Attr) -> Result<A, NetlinkError>

  /** Feeds the attributes of a buffer to `step`, front to back, stopping at the first error. */
  function Scan<A>(buf: seq<byte>, acc: A, step: Step<A>): Result<A, NetlinkError>
    decreases |buf|
  {
    match ReadAttr(buf)
    case NoAttr => Success(acc)
    case BadAttr => Failure(MalformedMessage("invalid attribute length"))
    case SomeAttr(attr, size) =>
      var next :- step(acc, attr);
      Scan(From(buf, size), next, step)
  }

  /** The same over a list of attributes. */
  function Fold<A>(attrs: seq<Attr>, acc: A, step: Step<A>): Result<A, NetlinkError> {
    if attrs == [] then Success(acc)
    else
      var next :- step(acc, attrs[0]);
      Fold(attrs[1..], next, step)
  }

  lemma ScanCons<A>(attr: Attr, rest: seq<byte>, acc: A, step: Step<A>)
    requires Fits(attr)
    ensures Scan(AttrBytes(attr) + rest, acc, step)
            == if step(acc, attr).Failure? then step(acc, attr) else Scan(rest, step(acc, attr).value, step)
  {
    ReadAttrBytes(attr, rest);
  }

  /** Scanning built attributes is folding over the list they were built from. */
  lemma {:induction false} ScanIsFold<A>(attrs: seq<Attr>, acc: A, step: Step<A>)
    requires forall i :: 0 <= i < |attrs| ==> Fits(attrs[i])
    ensures Scan(AttrsBytes(attrs), acc, step) == Fold(attrs, acc, step)
    decreases |attrs|
  {
    if attrs != [] {
      ScanCons(attrs[0], AttrsBytes(attrs[1..]), acc, step);
      if step(acc, attrs[0]).Success? {
        ScanIsFold(attrs[1..], step(acc, attrs[0]).value, step);
      }
    }
  }

  /** Reads the attribute at an offset without leaving the buffer. */
  method ReadAttrAt(buf: seq<byte>, offset: nat) returns (read: AttrRead)
    requires offset + 4 <= |buf|
    ensures read == ReadAttr(From(buf, offset)) && !read.NoAttr?
  {
    ghost var tail := From(buf, offset);
    var len := FromLe16(buf[offset..offset + 2]);
    assert tail[..2] == buf[offset..offset + 2];
    if len < 4 || offset + len > |buf| {
      return BadAttr;
    }
    assert tail[2..4] == buf[offset + 2..offset + 4] && tail[4..len] == buf[offset + 4..offset + len];
    read := SomeAttr(Attr(FromLe16(buf[offset + 2..offset + 4]), buf[offset + 4..offset + len]), Align(len));
  }

  /** One turn of a scan. */
  lemma ScanTurn<A>(tail: seq<byte>, acc: A, step: Step<A>, attr: Attr, size: nat)
    requires ReadAttr(tail) == SomeAttr(attr, size)
    ensures Scan(tail, acc, step)
            == if step(acc, attr).Failure? then step(acc, attr) else Scan(From(tail, size), step(acc, attr).value, step)
  {
  }

  /** The offset loop that every attribute reader runs; it starts at `start` and never leaves the buffer. */
  method ScanLoop<A>(buf: seq<byte>, start: nat, init: A, step: Step<A>) returns (r: Result<A, NetlinkError>)
    ensures r == Scan(From(buf, start), init, step)
  {
    var offset := start;
    var acc := init;
    ghost var whole := Scan(From(buf, start), init, step);
    ghost var tail := From(buf, start);
    while offset + 4 <= |buf|
      invariant tail == From(buf, offset) && whole == Scan(tail, acc, step)
      decreases |buf| + 4 - offset
    {
      var read := ReadAttrAt(buf, offset);
      if read.BadAttr? {
        return Failure(MalformedMessage("invalid attribute length"));
      }
      ScanTurn(tail, acc, step, read.attr, read.size);
      var next := step(acc, read.attr);
      if next.Failure? {
        return next;
      }
      FromFrom(buf, offset, read.size);
      acc := next.value;
      offset := offset + read.size;
      tail := From(tail, read.size);
    }
    r := Success(acc);
  }

  /** Appends one attribute to a message under construction. */
  method PushAttr(message: seq<byte>, attr: Attr) returns (out: seq<byte>)
    ensures out == message + AttrBytes(attr)
  {
    out := message + (Le16(4 + |attr.value|) + Le16(attr.typ));
    out := out + attr.value;
    var pad := Align(4 + |attr.value|) - (4 + |attr.value|);
    out := out + [0, 0, 0, 0][..pad];
    assert [0, 0, 0, 0][..pad] == Zeros(pad);
    assert out == message + AttrBytes(attr);
  }

  /** Appends attributes one after another. */
  method PushAttrs(message: seq<byte>, attrs: seq<Attr>) returns (out: seq<byte>)
    ensures out == message + AttrsBytes(attrs)
  {
    out := message;
    for i := 0 to |attrs|
      invariant message + AttrsBytes(attrs) == out + AttrsBytes(attrs[i..])
    {
      assert attrs[i..][1..] == attrs[i + 1..];
      out := PushAttr(out, attrs[i]);
    }
  }
}
