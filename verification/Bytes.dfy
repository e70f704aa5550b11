/** Fixed-width integers as bytes. Native byte order is that of a little-endian host. */
module Bytes {
  import opened Model

  function Le16(v: nat): (b: seq<byte>)
    ensures |b| == 2
  {
    [v % 0x100, v / 0x100 % 0x100]
  }

  function Le32(v: nat): (b: seq<byte>)
    ensures |b| == 4
  {
    [v % 0x100, v / 0x100 % 0x100, v / 0x100 / 0x100 % 0x100, v / 0x100 / 0x100 / 0x100 % 0x100]
  }

  function FromLe16(b: seq<byte>): u16
    requires |b| == 2
  {
    b[0] as int + 0x100 * (b[1] as int)
  }

  function FromLe32(b: seq<byte>): u32
    requires |b| == 4
  {
    b[0] as int + 0x100 * (b[1] as int + 0x100 * (b[2] as int + 0x100 * (b[3] as int)))
  }

  function Be16(v: nat): (b: seq<byte>)
    ensures |b| == 2
  {
    [v / 0x100 % 0x100, v % 0x100]
  }

  function Be32(v: nat): (b: seq<byte>)
    ensures |b| == 4
  {
    [v / 0x100 / 0x100 / 0x100 % 0x100, v / 0x100 / 0x100 % 0x100, v / 0x100 % 0x100, v % 0x100]
  }

  function FromBe16(b: seq<byte>): u16
    requires |b| == 2
  {
    0x100 * (b[0] as int) + b[1] as int
  }

  function FromBe32(b: seq<byte>): u32
    requires |b| == 4
  {
    b[3] as int + 0x100 * (b[2] as int + 0x100 * (b[1] as int + 0x100 * (b[0] as int)))
  }

  lemma Le16RoundTrip(v: u16)
    ensures FromLe16(Le16(v)) == v
  {
  }

  lemma Le32RoundTrip(v: u32)
    ensures FromLe32(Le32(v)) == v
  {
    var high := v / 0x100 / 0x100;
    assert high == high % 0x100 + 0x100 * (high / 0x100 % 0x100);
    assert v / 0x100 == v / 0x100 % 0x100 + 0x100 * high;
  }

  lemma Be16RoundTrip(v: u16)
    ensures FromBe16(Be16(v)) == v
  {
  }

  lemma Be32RoundTrip(v: u32)
    ensures FromBe32(Be32(v)) == v
  {
    var high := v / 0x100 / 0x100;
    assert high == high % 0x100 + 0x100 * (high / 0x100 % 0x100);
    assert v / 0x100 == v / 0x100 % 0x100 + 0x100 * high;
  }

  lemma Le32ReadBack(b: seq<byte>)
    requires |b| == 4
    ensures Le32(FromLe32(b)) == b
  {
    var v := FromLe32(b);
    assert v / 0x100 == b[1] as int + 0x100 * (b[2] as int + 0x100 * (b[3] as int));
    assert v / 0x100 / 0x100 == b[2] as int + 0x100 * (b[3] as int);
  }

  /** The bits of a signed word, and back. */
  function Unsigned(v: i32): u32 {
    if v < 0 then v + 0x1_0000_0000 else v
  }

  function Signed(v: u32): i32 {
    if v >= 0x8000_0000 then v - 0x1_0000_0000 else v
  }

  function Zeros(n: nat): (b: seq<byte>)
    ensures |b| == n
  {
    seq(n, _ => 0)
  }

  /** The smallest multiple of four that is at least `n`. */
  function Align(n: nat): (r: nat)
    ensures n <= r < n + 4 && r % 4 == 0
  {
    (n + 3) / 4 * 4
  }

  /** What is left of a buffer from `offset` on; nothing if the offset is beyond its end. */
  function From(buf: seq<byte>, offset: nat): seq<byte> {
    if offset <= |buf| then buf[offset..] else []
  }

  lemma FromFrom(buf: seq<byte>, a: nat, b: nat)
    ensures From(From(buf, a), b) == From(buf, a + b)
  {
  }

  /** The bytes before the first NUL. */
  function UntilNul(bytes: seq<byte>): seq<byte> {
    if bytes == [] || bytes[0] == 0 then [] else [bytes[0]] + UntilNul(bytes[1..])
  }

  lemma {:induction false} UntilNulOf(text: seq<byte>, rest: seq<byte>)
    requires 0 !in text
    ensures UntilNul(text + [0] + rest) == text
  {
    if text != [] {
      assert (text + [0] + rest)[1..] == text[1..] + [0] + rest;
      UntilNulOf(text[1..], rest);
    }
  }
}
