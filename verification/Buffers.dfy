/** Whole receive buffers of netlink messages: the offset loop shared by event and generic-netlink
    parsing (src/linux/netlink.rs, src/linux/nl80211.rs). */
module Buffers {
  import opened Model
  import opened Wrappers
  import opened Bytes
  import opened Netlink

  /** What a parser makes of one message: stop here, refuse the buffer, or keep some items. */
  datatype Verdict<T> = Stop | Reject(error: NetlinkError) | Keep(items: seq<T>)

  type Judge<!T> = Frame -> Verdict<T>

  const TRAILING := MalformedMessage("trailing partial nlmsghdr")
  const BAD_LENGTH := MalformedMessage("invalid nlmsghdr length")

  /** Judges message after message; a buffer must end where a message ends. */
  function ParseTiled<T>(buf: seq<byte>, judge: Judge<T>): Result<seq<T>, NetlinkError>
    decreases |buf|
  {
    match ReadFrame(buf)
    case NoFrame => if buf == [] then Success([]) else Failure(TRAILING)
    case BadFrame => Failure(BAD_LENGTH)
    case SomeFrame(frame, size) =>
      match judge(frame)
      case Stop => Success([])
      case Reject(error) => Failure(error)
      case Keep(items) =>
        if size > |buf| then Failure(TRAILING)
        else
          var rest :- ParseTiled(buf[size..], judge);
          Success(items + rest)
  }

  /** Reads the message at an offset without leaving the buffer. */
  method ReadFrameAt(buf: seq<byte>, offset: nat) returns (read: FrameRead)
    requires offset + HEADER_LENGTH <= |buf|
    ensures read == ReadFrame(buf[offset..]) && !read.NoFrame?
  {
    ghost var tail := buf[offset..];
    var len := FromLe32(buf[offset..offset + 4]);
    assert tail[..4] == buf[offset..offset + 4];
    if len < HEADER_LENGTH || offset + len > |buf| {
      return BadFrame;
    }
    assert tail[4..6] == buf[offset + 4..offset + 6] && tail[6..8] == buf[offset + 6..offset + 8];
    assert tail[HEADER_LENGTH..len] == buf[offset + HEADER_LENGTH..offset + len];
    read := SomeFrame(Frame(FromLe16(buf[offset + 4..offset + 6]), FromLe16(buf[offset + 6..offset + 8]),
                            buf[offset + HEADER_LENGTH..offset + len]), Align(len));
  }

  function Prefixed<T>(items: seq<T>, r: Result<seq<T>, NetlinkError>): Result<seq<T>, NetlinkError> {
    if r.Failure? then r else Success(items + r.value)
  }

  lemma PrefixedNothing<T>(r: Result<seq<T>, NetlinkError>)
    ensures Prefixed([], r) == r
  {
    if r.Success? {
      assert [] + r.value == r.value;
    }
  }

  /** What a turn of a loop does: give an answer, or take the items of one message. */
  datatype Turn<T> = Answer(result: Result<(seq<T>, bool), NetlinkError>) | Taken(items: seq<T>, size: nat)

  lemma PrefixedTwice<T>(a: seq<T>, b: seq<T>, r: Result<seq<T>, NetlinkError>)
    ensures Prefixed(a, Prefixed(b, r)) == Prefixed(a + b, r)
  {
    if r.Success? {
      assert a + (b + r.value) == (a + b) + r.value;
    }
  }

  /** What parsing from an offset gives; beyond the end that is a refusal. */
  function ParseFrom<T>(buf: seq<byte>, offset: nat, judge: Judge<T>): Result<seq<T>, NetlinkError> {
    if offset > |buf| then Failure(TRAILING) else ParseTiled(buf[offset..], judge)
  }

  /** Judges the message at an offset. */
  method ParseMessage<T>(buf: seq<byte>, offset: nat, judge: Judge<T>) returns (turn: Turn<T>)
    requires offset + HEADER_LENGTH <= |buf|
    ensures turn.Answer? ==> ParseFrom(buf, offset, judge)
                             == (if turn.result.Failure? then Failure(turn.result.error) else Success([]))
    ensures turn.Taken? ==> 0 < turn.size < |buf| - offset + 4
    ensures turn.Taken? ==> ParseFrom(buf, offset, judge)
                            == Prefixed(turn.items, ParseFrom(buf, offset + turn.size, judge))
  {
    var read := ReadFrameAt(buf, offset);
    if read.BadFrame? {
      return Answer(Failure(BAD_LENGTH));
    }
    var verdict := judge(read.frame);
    match verdict
    case Reject(error) => turn := Answer(Failure(error));
    case Stop => turn := Answer(Success(([], true)));
    case Keep(items) =>
      if offset + read.size <= |buf| {
        assert buf[offset..][read.size..] == buf[offset + read.size..];
      }
      turn := Taken(items, read.size);
  }

  /** The offset loop. */
  method ParseLoop<T>(buf: seq<byte>, judge: Judge<T>) returns (r: Result<seq<T>, NetlinkError>)
    ensures r == ParseTiled(buf, judge)
  {
    var items: seq<T> := [];
    var offset := 0;
    ghost var whole := ParseTiled(buf, judge);
    assert buf[0..] == buf;
    PrefixedNothing(whole);
    while offset + HEADER_LENGTH <= |buf|
      invariant whole == Prefixed(items, ParseFrom(buf, offset, judge))
      decreases |buf| + 4 - offset
    {
      var turn := ParseMessage(buf, offset, judge);
      if turn.Answer? {
        assert items + [] == items;
        return if turn.result.Failure? then Failure(turn.result.error) else Success(items);
      }
      PrefixedTwice(items, turn.items, ParseFrom(buf, offset + turn.size, judge));
      items := items + turn.items;
      offset := offset + turn.size;
    }
    if offset != |buf| {
      return Failure(TRAILING);
    }
    assert items + [] == items && buf[offset..] == [];
    r := Success(items);
  }

  /** The result of a buffer whose first message got a verdict and whose rest parses as `rest`. */
  function AfterVerdict<T>(verdict: Verdict<T>, rest: Result<seq<T>, NetlinkError>): Result<seq<T>, NetlinkError> {
    match verdict
    case Stop => Success([])
    case Reject(error) => Failure(error)
    case Keep(items) => Prefixed(items, rest)
  }

  /** One built message in front of a buffer, under any judge. */
  lemma ParseOneMessage<T>(
      kind: u16, flags: u16, sequence: u32, payload: seq<byte>, rest: seq<byte>, judge: Judge<T>)
    requires HEADER_LENGTH + |payload| < 0x1_0000_0000 && |payload| % 4 == 0
    ensures ParseTiled(SequencedMessage(kind, flags, sequence, payload) + rest, judge)
            == AfterVerdict(judge(Frame(kind, flags, payload)), ParseTiled(rest, judge))
  {
    ReadMessage(kind, flags, sequence, payload, rest);
    var m := SequencedMessage(kind, flags, sequence, payload);
    ParseFirst(m + rest, Frame(kind, flags, payload), |m|, rest, judge);
  }

  /** A buffer whose first message is known. */
  lemma ParseFirst<T>(buf: seq<byte>, frame: Frame, size: nat, rest: seq<byte>, judge: Judge<T>)
    requires ReadFrame(buf) == SomeFrame(frame, size) && size <= |buf| && rest == buf[size..]
    ensures ParseTiled(buf, judge) == AfterVerdict(judge(frame), ParseTiled(rest, judge))
  {
  }

  // --- Dumps -------------------------------------------------------------------------------------

  /** The items of one dump buffer, and whether a stop message ended it; bytes too few for a
      message are left alone. */
  function Dump<T>(buf: seq<byte>, judge: Judge<T>): Result<(seq<T>, bool), NetlinkError>
    decreases |buf|
  {
    match ReadFrame(buf)
    case NoFrame => Success(([], false))
    case BadFrame => Failure(BAD_LENGTH)
    case SomeFrame(frame, size) =>
      match judge(frame)
      case Stop => Success(([], true))
      case Reject(error) => Failure(error)
      case Keep(items) => Prepend(items, Dump(From(buf, size), judge))
  }

  /** A result with more items in front. */
  function Prepend<T>(items: seq<T>, r: Result<(seq<T>, bool), NetlinkError>): Result<(seq<T>, bool), NetlinkError> {
    if r.Failure? then r else Success((items + r.value.0, r.value.1))
  }

  lemma PrependTwice<T>(a: seq<T>, b: seq<T>, r: Result<(seq<T>, bool), NetlinkError>)
    ensures Prepend(a, Prepend(b, r)) == Prepend(a + b, r)
    ensures Prepend([], r) == r
  {
    if r.Success? {
      assert a + (b + r.value.0) == (a + b) + r.value.0;
      assert [] + r.value.0 == r.value.0;
    }
  }

  /** One turn of the dump loop past a message with items to keep. */
  lemma DumpTurn<T>(tail: seq<byte>, items: seq<T>, more: seq<T>, size: nat, judge: Judge<T>)
    requires Dump(tail, judge) == Prepend(more, Dump(From(tail, size), judge))
    ensures Prepend(items, Dump(tail, judge)) == Prepend(items + more, Dump(From(tail, size), judge))
  {
    PrependTwice(items, more, Dump(From(tail, size), judge));
  }

  method DumpMessage<T>(buf: seq<byte>, offset: nat, judge: Judge<T>, ghost tail: seq<byte>) returns (turn: Turn<T>)
    requires offset + HEADER_LENGTH <= |buf| && tail == buf[offset..]
    ensures turn.Answer? ==> Dump(tail, judge) == turn.result
    ensures turn.Taken? ==> 0 < turn.size < |tail| + 4
    ensures turn.Taken? ==> Dump(tail, judge) == Prepend(turn.items, Dump(From(tail, turn.size), judge))
  {
    var read := ReadFrameAt(buf, offset);
    if read.BadFrame? {
      return Answer(Failure(BAD_LENGTH));
    }
    var verdict := judge(read.frame);
    match verdict
    case Reject(error) => turn := Answer(Failure(error));
    case Stop => turn := Answer(Success(([], true)));
    case Keep(more) => turn := Taken(more, read.size);
  }

  lemma TooShortToDump<T>(buf: seq<byte>, items: seq<T>, judge: Judge<T>)
    requires |buf| < HEADER_LENGTH
    ensures Prepend(items, Dump(buf, judge)) == Success((items, false))
  {
    assert items + [] == items;
  }

  /** The offset loop of the link, address and route dumps. */
  method DumpLoop<T>(buf: seq<byte>, judge: Judge<T>) returns (r: Result<(seq<T>, bool), NetlinkError>)
    ensures r == Dump(buf, judge)
  {
    var items: seq<T> := [];
    var offset := 0;
    ghost var whole := Dump(buf, judge);
    ghost var tail := buf;
    PrependTwice([], [], whole);
    while offset + HEADER_LENGTH <= |buf|
      invariant tail == From(buf, offset) && whole == Prepend(items, Dump(tail, judge))
      decreases |buf| + 4 - offset
    {
      var turn := DumpMessage(buf, offset, judge, tail);
      if turn.Answer? {
        return Prepend(items, turn.result);
      }
      DumpTurn(tail, items, turn.items, turn.size, judge);
      FromFrom(buf, offset, turn.size);
      items := items + turn.items;
      offset := offset + turn.size;
      tail := From(tail, turn.size);
    }
    TooShortToDump(tail, items, judge);
    r := Success((items, false));
  }

  // --- Tiling ------------------------------------------------------------------------------------

  function Concat(chunks: seq<seq<byte>>): seq<byte> {
    if chunks == [] then [] else chunks[0] + Concat(chunks[1..])
  }

  /** One aligned message on its own: its header declares its length up to padding. */
  predicate Tile(chunk: seq<byte>) {
    && |chunk| >= HEADER_LENGTH
    && HEADER_LENGTH <= DeclaredLength(chunk) <= |chunk|
    && Align(DeclaredLength(chunk)) == |chunk|
  }

  function FrameOf(chunk: seq<byte>): Frame
    requires Tile(chunk)
  {
    ReadFrame(chunk).frame
  }

  predicate KeptTile<T(!new)>(chunk: seq<byte>, judge: Judge<T>) {
    Tile(chunk) && judge(FrameOf(chunk)).Keep?
  }

  predicate AllKept<T(!new)>(chunks: seq<seq<byte>>, judge: Judge<T>) {
    forall i :: 0 <= i < |chunks| ==> KeptTile(chunks[i], judge)
  }

  function ItemsOf<T(!new)>(chunks: seq<seq<byte>>, judge: Judge<T>): seq<T>
    requires AllKept(chunks, judge)
  {
    if chunks == [] then []
    else
      assert KeptTile(chunks[0], judge);
      judge(FrameOf(chunks[0])).items + ItemsOf(chunks[1..], judge)
  }

  /** Where a parse may end: at the end of the buffer or at a message that stops it. */
  predicate EndsAt<T(!new)>(rest: seq<byte>, judge: Judge<T>) {
    rest == [] || (ReadFrame(rest).SomeFrame? && judge(ReadFrame(rest).frame).Stop?)
  }

  lemma TileReads(chunk: seq<byte>, rest: seq<byte>)
    requires Tile(chunk)
    ensures ReadFrame(chunk + rest) == SomeFrame(FrameOf(chunk), |chunk|)
    ensures (chunk + rest)[|chunk|..] == rest
  {
    var buf := chunk + rest;
    var len := DeclaredLength(chunk);
    assert buf[..4] == chunk[..4] && buf[4..6] == chunk[4..6] && buf[6..8] == chunk[6..8];
    assert buf[HEADER_LENGTH..len] == chunk[HEADER_LENGTH..len];
  }

  lemma FirstTile(buf: seq<byte>)
    requires ReadFrame(buf).SomeFrame? && ReadFrame(buf).size <= |buf|
    ensures var chunk := buf[..ReadFrame(buf).size];
            Tile(chunk) && FrameOf(chunk) == ReadFrame(buf).frame
  {
    var chunk := buf[..ReadFrame(buf).size];
    assert chunk[..4] == buf[..4] && chunk[4..6] == buf[4..6] && chunk[6..8] == buf[6..8];
    assert chunk[HEADER_LENGTH..DeclaredLength(buf)] == buf[HEADER_LENGTH..DeclaredLength(buf)];
  }

  lemma TilesCons<T(!new)>(first: seq<byte>, later: seq<seq<byte>>, rest: seq<byte>, judge: Judge<T>)
    requires KeptTile(first, judge) && AllKept(later, judge)
    ensures AllKept([first] + later, judge)
    ensures ItemsOf([first] + later, judge) == judge(FrameOf(first)).items + ItemsOf(later, judge)
    ensures Concat([first] + later) + rest == first + (Concat(later) + rest)
  {
    assert ([first] + later)[1..] == later;
    assert (first + Concat(later)) + rest == first + (Concat(later) + rest);
  }

  /** One message off the front of an accepted buffer. */
  lemma AcceptedStep<T(!new)>(buf: seq<byte>, judge: Judge<T>)
    requires ParseTiled(buf, judge).Success? && !EndsAt(buf, judge)
    ensures ReadFrame(buf).SomeFrame? && ReadFrame(buf).size <= |buf|
    ensures var first, tail := buf[..ReadFrame(buf).size], buf[ReadFrame(buf).size..];
            && KeptTile(first, judge) && ParseTiled(tail, judge).Success?
            && ParseTiled(buf, judge).value == judge(FrameOf(first)).items + ParseTiled(tail, judge).value
  {
    if ReadFrame(buf).SomeFrame? && ReadFrame(buf).size <= |buf| {
      FirstTile(buf);
    }
  }

  /** An accepted buffer is tiled exactly by aligned messages up to its end or to a stop message,
      and the result is what those messages contribute, in order. */
  lemma {:induction false} AcceptedBufferTiles<T(!new)>(buf: seq<byte>, judge: Judge<T>)
    returns (chunks: seq<seq<byte>>, rest: seq<byte>)
    requires ParseTiled(buf, judge).Success?
    ensures buf == Concat(chunks) + rest && EndsAt(rest, judge)
    ensures AllKept(chunks, judge) && ParseTiled(buf, judge).value == ItemsOf(chunks, judge)
    decreases |buf|, 1
  {
    if EndsAt(buf, judge) {
      chunks, rest := [], buf;
    } else {
      AcceptedStep(buf, judge);
      chunks, rest := TileThenRest(buf, ReadFrame(buf).size, judge);
    }
  }

  lemma {:induction false} TileThenRest<T(!new)>(buf: seq<byte>, size: nat, judge: Judge<T>)
    returns (chunks: seq<seq<byte>>, rest: seq<byte>)
    requires 0 < size <= |buf| && KeptTile(buf[..size], judge) && ParseTiled(buf[size..], judge).Success?
    ensures buf == Concat(chunks) + rest && EndsAt(rest, judge) && AllKept(chunks, judge)
    ensures ItemsOf(chunks, judge) == judge(FrameOf(buf[..size])).items + ParseTiled(buf[size..], judge).value
    decreases |buf|, 0
  {
    var later;
    later, rest := AcceptedBufferTiles(buf[size..], judge);
    TilesCons(buf[..size], later, rest, judge);
    chunks := [buf[..size]] + later;
    assert buf == buf[..size] + buf[size..];
  }

  /** Conversely, every buffer tiled that way is accepted with exactly that result. */
  lemma {:induction false} TiledBufferIsAccepted<T(!new)>(chunks: seq<seq<byte>>, rest: seq<byte>, judge: Judge<T>)
    requires AllKept(chunks, judge) && EndsAt(rest, judge)
    ensures ParseTiled(Concat(chunks) + rest, judge) == Success(ItemsOf(chunks, judge))
    decreases |chunks|
  {
    if chunks == [] {
      assert Concat(chunks) + rest == rest;
    } else {
      var tail := Concat(chunks[1..]) + rest;
      assert KeptTile(chunks[0], judge);
      assert Concat(chunks) + rest == chunks[0] + tail;
      TileReads(chunks[0], tail);
      TiledBufferIsAccepted(chunks[1..], rest, judge);
    }
  }
}
