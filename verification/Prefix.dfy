/** Prefix and mask arithmetic (src/linux/ip_engine.rs, src/dbus/ipconfig.rs, src/linux/dhcp/packet.rs). */
module Prefix {
  import opened Bits
  import opened Model

  function Min(a: nat, b: nat): nat {
    if a <= b then a else b
  }

  /** The mask word: all ones shifted left past the host bits, and zero for prefix 0. */
  function Mask(prefixLength: byte, width: nat): nat {
    if prefixLength == 0 then 0
    else ShiftLeft(Pow2(width) - 1, width - Min(prefixLength, width), width)
  }

  /** The network part of an address. The bus layer's `network_address` and the IP engine's two
      functions are this computation on 4 or 16 octets. */
  function NetworkOctets(octets: seq<byte>, prefixLength: byte): (network: seq<byte>)
    ensures |network| == |octets|
  {
    ToBe(BitAnd(FromBe(octets), Mask(prefixLength, 8 * |octets|)), |octets|)
  }

  function NetworkAddress(address: IpAddr, prefixLength: byte): IpAddr {
    match address
    case V4(octets) => V4(NetworkOctets(octets, prefixLength))
    case V6(octets) => V6(NetworkOctets(octets, prefixLength))
  }

  function MaskOctets(prefixLength: byte, count: nat): seq<byte> {
    ToBe(Mask(prefixLength, 8 * count), count)
  }

  function SubnetMask(prefixLength: byte): Octets4 {
    MaskOctets(prefixLength, 4)
  }

  function HostMask(prefixLength: byte, width: nat): (mask: nat)
    ensures mask == Pow2(HostBits(prefixLength, width)) - 1
  {
    if prefixLength == 0 || width == 0 then Pow2(width) - 1
    else
      OneShifted(width - Min(prefixLength, width), width);
      ShiftLeft(1, width - Min(prefixLength, width), width) - 1
  }

  function BroadcastOctets(octets: seq<byte>, prefixLength: byte): (broadcast: seq<byte>)
    ensures |broadcast| == |octets|
  {
    ToBe(BitOr(FromBe(octets), HostMask(prefixLength, 8 * |octets|)), |octets|)
  }

  function LeadingOnes(value: nat, bits: nat): (count: nat)
    ensures count <= bits
  {
    if bits == 0 || value < Pow2(bits - 1) then 0
    else 1 + LeadingOnes(value - Pow2(bits - 1), bits - 1)
  }

  /** Sums the leading ones of every octet. */
  function LeadingOnesPerOctet(octets: seq<byte>): nat {
    if octets == [] then 0
    else LeadingOnesPerOctet(octets[..|octets| - 1]) + LeadingOnes(octets[|octets| - 1], 8)
  }

  function PrefixLengthFromNetmask(netmask: Octets4): nat {
    LeadingOnesPerOctet(netmask)
  }

  // --- Arithmetic meaning ------------------------------------------------------------

  /** Host bits below a prefix. */
  function HostBits(prefixLength: byte, width: nat): nat {
    width - Min(prefixLength, width)
  }

  lemma MaskValue(prefixLength: byte, width: nat)
    ensures Mask(prefixLength, width) == Pow2(width) - Pow2(HostBits(prefixLength, width))
  {
    AllOnesShifted(HostBits(prefixLength, width), width);
  }

  lemma MaskedValue(bits: nat, prefixLength: byte, width: nat)
    requires bits < Pow2(width)
    ensures BitAnd(bits, Mask(prefixLength, width)) == Floor(bits, HostBits(prefixLength, width))
  {
    MaskValue(prefixLength, width);
    AndHighMask(bits, HostBits(prefixLength, width), width);
  }

  /** Masking octets rounds the address down to its block. */
  lemma NetworkValue(octets: seq<byte>, prefixLength: byte)
    ensures FromBe(NetworkOctets(octets, prefixLength))
            == Floor(FromBe(octets), HostBits(prefixLength, 8 * |octets|))
  {
    var bits, low := FromBe(octets), HostBits(prefixLength, 8 * |octets|);
    ToFromBe(octets);
    MaskedValue(bits, prefixLength, 8 * |octets|);
    FloorBounds(bits, low);
    FromToBe(Floor(bits, low), |octets|);
  }

  lemma WithHostBits(bits: nat, prefixLength: byte, width: nat)
    requires bits < Pow2(width)
    ensures var low := HostBits(prefixLength, width);
            && BitOr(bits, HostMask(prefixLength, width)) == Floor(bits, low) + Pow2(low) - 1
            && Floor(bits, low) + Pow2(low) <= Pow2(width)
  {
    OrLowMask(bits, HostBits(prefixLength, width));
    BlockEndFits(bits, HostBits(prefixLength, width), width);
  }

  lemma BroadcastValue(octets: seq<byte>, prefixLength: byte)
    ensures var low := HostBits(prefixLength, 8 * |octets|);
            FromBe(BroadcastOctets(octets, prefixLength)) == Floor(FromBe(octets), low) + Pow2(low) - 1
  {
    var bits, width := FromBe(octets), 8 * |octets|;
    ToFromBe(octets);
    WithHostBits(bits, prefixLength, width);
    FromToBe(BitOr(bits, HostMask(prefixLength, width)), |octets|);
  }

  // --- Results -----------------------------------------------------------------------------

  lemma SameValueSameOctets(a: seq<byte>, b: seq<byte>)
    requires |a| == |b| && FromBe(a) == FromBe(b)
    ensures a == b
  {
    ToFromBe(a);
    ToFromBe(b);
  }

  /** Nested prefixes compose to the shorter one; with equal prefixes this is idempotence. */
  lemma NestedPrefixesCompose(octets: seq<byte>, p: byte, q: byte)
    ensures NetworkOctets(NetworkOctets(octets, p), q) == NetworkOctets(octets, if p <= q then p else q)
  {
    var width := 8 * |octets|;
    NetworkValue(octets, p);
    NetworkValue(NetworkOctets(octets, p), q);
    NetworkValue(octets, if p <= q then p else q);
    FloorTwice(FromBe(octets), HostBits(p, width), HostBits(q, width));
    SameValueSameOctets(
      NetworkOctets(NetworkOctets(octets, p), q), NetworkOctets(octets, if p <= q then p else q));
  }

  /** The addresses sharing a network are exactly the `2^(width-p)` ones from the network address
      to the broadcast address, and the address itself is one of them. */
  lemma SubnetIsTheBlock(address: seq<byte>, other: seq<byte>, p: byte)
    requires |address| == |other|
    ensures var network := FromBe(NetworkOctets(address, p));
            var broadcast := FromBe(BroadcastOctets(address, p));
            && network <= FromBe(address) <= broadcast
            && broadcast - network + 1 == Pow2(HostBits(p, 8 * |address|))
            && (NetworkOctets(other, p) == NetworkOctets(address, p)
                <==> network <= FromBe(other) <= broadcast)
  {
    var low := HostBits(p, 8 * |address|);
    NetworkValue(address, p);
    NetworkValue(other, p);
    BroadcastValue(address, p);
    FloorBounds(FromBe(address), low);
    FloorIsTheBlock(FromBe(address), FromBe(other), low);
    if FromBe(NetworkOctets(other, p)) == FromBe(NetworkOctets(address, p)) {
      SameValueSameOctets(NetworkOctets(other, p), NetworkOctets(address, p));
    }
  }

  // --- Masks back to prefixes ------------------------------------------------------------------

  lemma LeadingOnesOfMaskOctet(low: nat)
    requires low <= 8
    ensures Pow2(low) <= 0x100
    ensures LeadingOnes(0x100 - Pow2(low), 8) == 8 - low
  {
    LeadingOnesOfTop(8, low);
    Pow2Values();
  }

  lemma {:induction false} LeadingOnesOfTop(bits: nat, low: nat)
    requires low <= bits
    ensures Pow2(low) <= Pow2(bits)
    ensures LeadingOnes(Pow2(bits) - Pow2(low), bits) == bits - low
  {
    if low < bits {
      LeadingOnesOfTop(bits - 1, low);
    }
  }

  lemma LastOctetCounts(rest: nat, octet: byte, width: nat)
    ensures LeadingOnesPerOctet(ToBe(0x100 * rest + octet as int, width + 1))
            == LeadingOnesPerOctet(ToBe(rest, width)) + LeadingOnes(octet, 8)
  {
    var word := 0x100 * rest + octet as int;
    assert word / 0x100 == rest && word % 0x100 == octet;
    assert ToBe(word, width + 1)[..width] == ToBe(rest, width);
  }

  /** A mask word of one octet more, split at its last octet. */
  lemma MaskSplits(low: nat, rest: nat)
    requires low <= 8 * rest + 8
    ensures Pow2(low) <= Pow2(8 * rest + 8)
    ensures low >= 8 ==> Pow2(low - 8) <= Pow2(8 * rest)
                         && Pow2(8 * rest + 8) - Pow2(low) == 0x100 * (Pow2(8 * rest) - Pow2(low - 8))
    ensures low < 8 ==> Pow2(low) <= 0x100
                        && Pow2(8 * rest + 8) - Pow2(low) == 0x100 * (Pow2(8 * rest) - 1) + (0x100 - Pow2(low))
  {
    Pow2Monotone(low, 8 * rest + 8);
    Pow2Byte(8 * rest);
    if low >= 8 {
      Pow2Byte(low - 8);
    } else {
      Pow2Monotone(low, 8);
      Pow2Values();
    }
  }

  /** The octets of a mask word carry its prefix length in their leading ones. */
  lemma {:induction false} LeadingOnesOfMask(word: nat, low: nat, width: nat)
    requires low <= 8 * width && word + Pow2(low) == Pow2(8 * width)
    ensures LeadingOnesPerOctet(ToBe(word, width)) == 8 * width - low
    decreases width, 0
  {
    if width > 0 {
      var rest := width - 1;
      MaskSplits(low, rest);
      if low >= 8 {
        HighMaskStep(word, low, rest);
      } else {
        LowMaskStep(word, low, rest);
      }
    }
  }

  lemma {:induction false} HighMaskStep(word: nat, low: nat, rest: nat)
    requires 8 <= low <= 8 * rest + 8 && Pow2(low - 8) <= Pow2(8 * rest)
    requires word == 0x100 * (Pow2(8 * rest) - Pow2(low - 8))
    ensures LeadingOnesPerOctet(ToBe(word, rest + 1)) == 8 * rest + 8 - low
    decreases rest, 1
  {
    var restWord, octet: byte := Pow2(8 * rest) - Pow2(low - 8), 0;
    LeadingOnesOfMask(restWord, low - 8, rest);
    LastOctetCounts(restWord, octet, rest);
    assert LeadingOnes(octet, 8) == 0;
  }

  lemma {:induction false} LowMaskStep(word: nat, low: nat, rest: nat)
    requires low < 8 && Pow2(low) <= 0x100
    requires word == 0x100 * (Pow2(8 * rest) - 1) + (0x100 - Pow2(low))
    ensures LeadingOnesPerOctet(ToBe(word, rest + 1)) == 8 * rest + 8 - low
    decreases rest, 1
  {
    var restWord, octet: byte := Pow2(8 * rest) - 1, 0x100 - Pow2(low);
    LeadingOnesOfMask(restWord, 0, rest);
    LastOctetCounts(restWord, octet, rest);
    LeadingOnesOfMaskOctet(low);
  }

  /** Reading back a mask gives the prefix it was made from. */
  lemma PrefixOfMaskOctets(p: byte, count: nat)
    ensures LeadingOnesPerOctet(MaskOctets(p, count)) == Min(p, 8 * count)
  {
    MaskValue(p, 8 * count);
    LeadingOnesOfMask(Mask(p, 8 * count), HostBits(p, 8 * count), count);
  }

  predicate TopOctet(octet: byte) {
    octet in {0, 0x80, 0xC0, 0xE0, 0xF0, 0xF8, 0xFC, 0xFE, 0xFF}
  }

  /** Ones first, then zeros: each octet is so by itself, and only zeros follow one that is not all ones. */
  predicate Contiguous(octets: seq<byte>) {
    && (forall i :: 0 <= i < |octets| ==> TopOctet(octets[i]))
    && (forall i, j :: 0 <= i < j < |octets| && octets[i] != 0xFF ==> octets[j] == 0)
  }

  lemma TopOctetsAreTops(octet: byte)
    requires TopOctet(octet)
    ensures var low := 8 - LeadingOnes(octet, 8);
            Pow2(low) <= 0x100 && octet == 0x100 - Pow2(low)
  {
    Pow2Values();
    var low := if octet == 0 then 8 else if octet == 0x80 then 7 else if octet == 0xC0 then 6
               else if octet == 0xE0 then 5 else if octet == 0xF0 then 4 else if octet == 0xF8 then 3
               else if octet == 0xFC then 2 else if octet == 0xFE then 1 else 0;
    assert octet == 0x100 - Pow2(low);
    LeadingOnesOfMaskOctet(low);
  }

  lemma TopsAreTopOctets(low: nat)
    requires low <= 8
    ensures Pow2(low) <= 0x100 && TopOctet(0x100 - Pow2(low))
  {
    Pow2Values();
  }

  /** Writing one more octet. */
  lemma ToBeSplits(rest: nat, octet: byte, width: nat)
    ensures ToBe(0x100 * rest + octet as int, width + 1) == ToBe(rest, width) + [octet]
  {
    var word := 0x100 * rest + octet as int;
    assert word / 0x100 == rest && word % 0x100 == octet;
  }

  predicate AllOnes(octets: seq<byte>) {
    forall i :: 0 <= i < |octets| ==> octets[i] == 0xFF
  }

  /** Mask words grow by an octet of zeros, or, while they are all ones, by any top octet. */
  lemma WiderWord(word: nat, low: nat, rest: nat)
    requires word + Pow2(low) == Pow2(8 * rest)
    ensures 0x100 * word + Pow2(low + 8) == Pow2(8 * rest + 8)
    ensures low == 0 ==> 0x100 * word + 0x100 == Pow2(8 * rest + 8)
  {
    Pow2Byte(low);
    Pow2Byte(8 * rest);
    Pow2Values();
  }

  lemma {:induction false} AllOnesOctets(word: nat, width: nat)
    requires word + 1 == Pow2(8 * width)
    ensures AllOnes(ToBe(word, width))
    decreases width
  {
    if width > 0 {
      var rest := Pow2(8 * (width - 1)) - 1;
      AllOnesOctets(rest, width - 1);
      WiderWord(rest, 0, width - 1);
      ToBeSplits(rest, 0xFF, width - 1);
    }
  }

  lemma ContiguousSnoc(front: seq<byte>, last: byte)
    requires Contiguous(front) && TopOctet(last) && (last == 0 || AllOnes(front))
    ensures Contiguous(front + [last])
  {
  }

  lemma {:induction false} MaskIsContiguous(word: nat, low: nat, width: nat)
    requires low <= 8 * width && word + Pow2(low) == Pow2(8 * width)
    ensures Contiguous(ToBe(word, width))
    decreases width
  {
    if width > 0 {
      var rest := width - 1;
      MaskSplits(low, rest);
      if low >= 8 {
        var restWord := Pow2(8 * rest) - Pow2(low - 8);
        MaskIsContiguous(restWord, low - 8, rest);
        ToBeSplits(restWord, 0, rest);
        ContiguousSnoc(ToBe(restWord, rest), 0);
      } else {
        var restWord, octet: byte := Pow2(8 * rest) - 1, 0x100 - Pow2(low);
        TopsAreTopOctets(low);
        AllOnesOctets(restWord, rest);
        ToBeSplits(restWord, octet, rest);
        ContiguousSnoc(ToBe(restWord, rest), octet);
      }
    }
  }

  lemma {:induction false} AllOnesCount(octets: seq<byte>)
    requires AllOnes(octets)
    ensures LeadingOnesPerOctet(octets) == 8 * |octets|
  {
    if octets != [] {
      AllOnesCount(octets[..|octets| - 1]);
      LeadingOnesOfMaskOctet(0);
      Pow2Values();
    }
  }

  /** The count after one more octet. */
  lemma CountSnoc(front: seq<byte>, last: byte)
    ensures LeadingOnesPerOctet(front + [last]) == LeadingOnesPerOctet(front) + LeadingOnes(last, 8)
  {
    assert (front + [last])[..|front|] == front;
  }

  lemma ContiguousFront(front: seq<byte>, last: byte)
    requires Contiguous(front + [last])
    ensures Contiguous(front) && TopOctet(last) && (last == 0 || AllOnes(front))
  {
    var all := front + [last];
    assert all[|front|] == last;
    assert forall i :: 0 <= i < |front| ==> all[i] == front[i];
  }

  /** Contiguous octets are the mask word of their count. */
  lemma {:induction false} ContiguousIsMask(octets: seq<byte>) returns (word: nat, low: nat)
    requires Contiguous(octets)
    ensures low + LeadingOnesPerOctet(octets) == 8 * |octets|
    ensures word + Pow2(low) == Pow2(8 * |octets|) && octets == ToBe(word, |octets|)
    decreases |octets|
  {
    if octets == [] {
      word, low := 0, 0;
    } else {
      var rest := |octets| - 1;
      var front, last := octets[..rest], octets[rest];
      assert octets == front + [last];
      ContiguousFront(front, last);
      var frontWord, frontLow := ContiguousIsMask(front);
      low := GrowMask(front, last, frontWord, frontLow);
      word := 0x100 * frontWord + last as int;
      ToBeSplits(frontWord, last, rest);
    }
  }

  lemma NoLeadingOnes()
    ensures LeadingOnes(0, 8) == 0
  {
  }

  lemma GrowMask(front: seq<byte>, last: byte, word: nat, frontLow: nat) returns (low: nat)
    requires frontLow + LeadingOnesPerOctet(front) == 8 * |front| && word + Pow2(frontLow) == Pow2(8 * |front|)
    requires TopOctet(last) && (last == 0 || AllOnes(front))
    ensures low + LeadingOnesPerOctet(front + [last]) == 8 * |front| + 8
    ensures 0x100 * word + last as int + Pow2(low) == Pow2(8 * |front| + 8)
  {
    CountSnoc(front, last);
    WiderWord(word, frontLow, |front|);
    if last == 0 {
      NoLeadingOnes();
      low := frontLow + 8;
    } else {
      TopOctetsAreTops(last);
      AllOnesCount(front);
      low := 8 - LeadingOnes(last, 8);
    }
  }

  /** The count is a prefix length on every mask, and describes the mask exactly when the mask is
      contiguous; on any other it describes some other mask. */
  lemma PrefixDescribesContiguousMasks(netmask: Octets4)
    ensures PrefixLengthFromNetmask(netmask) <= 32
    ensures SubnetMask(PrefixLengthFromNetmask(netmask)) == netmask <==> Contiguous(netmask)
  {
    AtMostEightPerOctet(netmask);
    var p: byte, width := PrefixLengthFromNetmask(netmask), 8 * |netmask|;
    MaskValue(p, width);
    MaskIsContiguous(Mask(p, width), HostBits(p, width), |netmask|);
    if Contiguous(netmask) {
      var word, low := ContiguousIsMask(netmask);
      assert low == HostBits(p, width) && word == Mask(p, width);
    }
  }

  lemma {:induction false} AtMostEightPerOctet(octets: seq<byte>)
    ensures LeadingOnesPerOctet(octets) <= 8 * |octets|
  {
    if octets != [] {
      AtMostEightPerOctet(octets[..|octets| - 1]);
    }
  }

  /** A mask with a hole is read as the prefix of another mask. */
  lemma HoleyMaskIsMisread(netmask: Octets4)
    requires netmask == [255, 0, 255, 0]
    ensures PrefixLengthFromNetmask(netmask) == 16
    ensures SubnetMask(PrefixLengthFromNetmask(netmask)) != netmask
  {
    LeadingOnesOfMaskOctet(0);
    LeadingOnesOfMaskOctet(8);
    Pow2Values();
    var three := netmask[..3];
    var two := three[..2];
    var one := two[..1];
    assert three == [255, 0, 255] && two == [255, 0] && one == [255] && one[..0] == [];
    assert LeadingOnesPerOctet(one) == 8 && LeadingOnesPerOctet(two) == 8 && LeadingOnesPerOctet(three) == 16;
    assert netmask[1] != 0xFF && netmask[2] != 0;
    PrefixDescribesContiguousMasks(netmask);
  }
}
