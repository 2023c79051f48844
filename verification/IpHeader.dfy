/** The in-place rewrite snull applies to an outgoing frame: flip the lowest bit of the
    third octet of both IPv4 addresses and rebuild the header checksum. */
module IpHeader {
  import opened Common

  const ETH_HLEN := 14
  const ETH_ZLEN := 60
  const ETH_DATA_LEN := 1500

  /** The Ethernet header and an IP header without options. */
  const HEADERS := ETH_HLEN + 20

  // Offsets in the frame: the IP header starts after the Ethernet header.
  const CHECK := ETH_HLEN + 10
  const SADDR2 := ETH_HLEN + 14
  const DADDR2 := ETH_HLEN + 18

  /** Header length field, in 32-bit words. */
  function Ihl(data: seq<byte>): nat
    requires |data| > ETH_HLEN
  {
    data[ETH_HLEN] % 16
  }

  /** There is a whole IP header, as section 3.1 of RFC 791 lays it out, inside the frame. */
  predicate HeaderFits(data: seq<byte>) {
    && |data| >= HEADERS
    && Ihl(data) >= 5
    && ETH_HLEN + 4 * Ihl(data) <= |data|
  }

  /** A 16-bit checksum field. */
  type Sum = c: nat | c < 0x1_0000

  /** x ^ 1 */
  function Flip(x: byte): (r: byte)
    ensures r != x && r / 2 == x / 2
  {
    if x % 2 == 0 then x + 1 else x - 1
  }

  function Word(hi: byte, lo: byte): nat {
    256 * hi + lo
  }

  /** Sum of the n 16-bit words (network order) that start at offset from. */
  function WordSum(data: seq<byte>, from: nat, n: nat): nat
    requires from + 2 * n <= |data|
  {
    if n == 0 then 0 else WordSum(data, from, n - 1) + Word(data[from + 2 * n - 2], data[from + 2 * n - 1])
  }

  /** End-around-carry addition down to 16 bits (section 1 of RFC 1071). */
  function Fold(x: nat): (r: nat)
    ensures r < 0x1_0000
    ensures r % 0xFFFF == x % 0xFFFF
    ensures r == 0 <==> x == 0
  {
    if x < 0x1_0000 then x else CarryKeepsResidue(x); Fold(x / 0x1_0000 + x % 0x1_0000)
  }

  lemma CarryKeepsResidue(x: nat)
    ensures (x / 0x1_0000 + x % 0x1_0000) % 0xFFFF == x % 0xFFFF
  {
    ModuloShift(x / 0x1_0000 + x % 0x1_0000, x / 0x1_0000);
  }

  lemma ModuloShift(a: nat, k: nat)
    ensures (a + 0xFFFF * k) % 0xFFFF == a % 0xFFFF
  {
  }

  function HeaderSum(data: seq<byte>): nat
    requires HeaderFits(data)
  {
    WordSum(data, ETH_HLEN, 2 * Ihl(data))
  }

  /** A receiver accepts the header (section 3.1 of RFC 791): the sum over all of it is all ones. */
  predicate ChecksumVerifies(data: seq<byte>)
    requires HeaderFits(data)
  {
    Fold(HeaderSum(data)) == 0xFFFF
  }

  function CheckField(data: seq<byte>): nat
    requires |data| >= HEADERS
  {
    Word(data[CHECK], data[CHECK + 1])
  }

  function SetCheck(data: seq<byte>, c: Sum): seq<byte>
    requires |data| >= HEADERS
  {
    data[CHECK := c / 256][CHECK + 1 := c % 256]
  }

  /** What ip_fast_csum returns: the complement of the folded sum. Where the header length field is
      below five words or points past the frame it returns something else, here other. */
  function IpFastCsum(data: seq<byte>, other: Sum): Sum
    requires |data| >= HEADERS
  {
    if HeaderFits(data) then 0xFFFF - Fold(HeaderSum(data)) else other
  }

  /** The checksum computed afresh, with the field taken as zero. */
  function FreshCheck(data: seq<byte>, other: Sum): Sum
    requires |data| >= HEADERS
  {
    IpFastCsum(SetCheck(data, 0), other)
  }

  function FlipAddresses(data: seq<byte>): seq<byte>
    requires |data| >= HEADERS
  {
    data[SADDR2 := Flip(data[SADDR2])][DADDR2 := Flip(data[DADDR2])]
  }

  function Rewrite(data: seq<byte>, other: Sum): seq<byte>
    requires |data| >= HEADERS
  {
    var flipped := FlipAddresses(data);
    SetCheck(flipped, FreshCheck(flipped, other))
  }

  /** The rewrite done on the buffer itself, field by field. */
  method RewriteInPlace(data: array<byte>, other: Sum)
    requires data.Length >= HEADERS
    modifies data
    ensures data[..] == Rewrite(old(data[..]), other)
  {
    data[SADDR2] := Flip(data[SADDR2]);
    data[DADDR2] := Flip(data[DADDR2]);
    assert data[..] == FlipAddresses(old(data[..]));
    data[CHECK], data[CHECK + 1] := 0, 0;
    assert data[..] == SetCheck(FlipAddresses(old(data[..])), 0);
    var c := IpFastCsum(data[..], other);
    data[CHECK], data[CHECK + 1] := c / 256, c % 256;
  }

  // ---------------------------------------------------------------- checksum lemmas

  lemma {:induction false} WordSumUpdate(data: seq<byte>, from: nat, n: nat, k: nat, hi: byte, lo: byte)
    requires from + 2 * n <= |data| && k < n
    ensures WordSum(data[from + 2 * k := hi][from + 2 * k + 1 := lo], from, n)
         == WordSum(data, from, n) - Word(data[from + 2 * k], data[from + 2 * k + 1]) + Word(hi, lo)
  {
    var changed := data[from + 2 * k := hi][from + 2 * k + 1 := lo];
    if k == n - 1 {
      WordSumPrefix(data, changed, from, n - 1);
    } else {
      WordSumUpdate(data, from, n - 1, k, hi, lo);
    }
  }

  lemma {:induction false} WordSumPrefix(a: seq<byte>, b: seq<byte>, from: nat, n: nat)
    requires |a| == |b| && from + 2 * n <= |a|
    requires forall i :: from <= i < from + 2 * n ==> a[i] == b[i]
    ensures WordSum(a, from, n) == WordSum(b, from, n)
  {
    if n == 0 {
    } else {
      WordSumPrefix(a, b, from, n - 1);
    }
  }

  /** Storing c in the checksum field replaces the old field's share of the sum. */
  lemma SetCheckSum(data: seq<byte>, c: Sum)
    requires HeaderFits(data)
    ensures HeaderFits(SetCheck(data, c))
    ensures CheckField(SetCheck(data, c)) == c
    ensures HeaderSum(SetCheck(data, c)) == HeaderSum(data) - CheckField(data) + c
  {
    WordSumUpdate(data, ETH_HLEN, 2 * Ihl(data), 5, c / 256, c % 256);
  }

  lemma HeaderSumPositive(data: seq<byte>)
    requires HeaderFits(data)
    ensures HeaderSum(data) > 0
  {
    WordSumAtLeast(data, ETH_HLEN, 2 * Ihl(data));
    assert data[ETH_HLEN] > 0;
  }

  /** The header length byte alone makes the sum positive. */
  lemma {:induction false} WordSumAtLeast(data: seq<byte>, from: nat, n: nat)
    requires from + 2 * n <= |data| && n > 0
    ensures WordSum(data, from, n) >= Word(data[from], data[from + 1])
  {
    if n == 1 {
    } else {
      WordSumAtLeast(data, from, n - 1);
    }
  }

  lemma ComplementMakesOnes(s: nat)
    ensures Fold(s + (0xFFFF - Fold(s))) == 0xFFFF
  {
    var t := s + (0xFFFF - Fold(s));
    ComplementResidue(s, Fold(s));
    assert Fold(t) % 0xFFFF == 0 && Fold(t) > 0;
  }

  lemma ComplementResidue(s: nat, f: nat)
    requires s % 0xFFFF == f % 0xFFFF
    ensures (s + 0xFFFF - f) % 0xFFFF == 0
  {
    var k := s / 0xFFFF - f / 0xFFFF + 1;
    assert s == 0xFFFF * (s / 0xFFFF) + s % 0xFFFF;
    assert f == 0xFFFF * (f / 0xFFFF) + f % 0xFFFF;
    assert s + 0xFFFF - f == 0xFFFF * k;
  }

  /** A field c that completes a positive sum to all ones is the complement, or 0xFFFF where that is 0. */
  lemma ComplementIsUnique(s: nat, c: nat, t: nat)
    requires s > 0 && c < 0x1_0000 && t == s + c
    requires Fold(t) == 0xFFFF
    ensures c == 0xFFFF - Fold(s) <==> c != 0xFFFF
  {
    assert (s + c) % 0xFFFF == 0;
    SumModulo(s, c);
    TwoComplements(Fold(s), c);
  }

  /** Below 0x10000 a positive sum has one complement, or two if it is itself all ones. */
  lemma TwoComplements(f: nat, c: nat)
    requires 0 < f <= 0xFFFF && c <= 0xFFFF && (f + c) % 0xFFFF == 0
    ensures c == 0xFFFF - f <==> c != 0xFFFF
  {
  }

  lemma SumModulo(s: nat, c: nat)
    requires (s + c) % 0xFFFF == 0
    ensures (Fold(s) + c) % 0xFFFF == 0
  {
    SumsAgree(s, Fold(s), c);
  }

  lemma SumsAgree(s: nat, f: nat, c: nat)
    requires s % 0xFFFF == f % 0xFFFF
    ensures (s + c) % 0xFFFF == (f + c) % 0xFFFF
  {
    var k := f / 0xFFFF - s / 0xFFFF;
    assert f == s + 0xFFFF * k;
    AddMultiple(s + c, f + c, k);
  }

  lemma AddMultiple(a: nat, b: nat, k: int)
    requires b == a + 0xFFFF * k
    ensures a % 0xFFFF == b % 0xFFFF
  {
  }

  lemma VerifiedIsFresh(data: seq<byte>, other: Sum)
    requires HeaderFits(data) && ChecksumVerifies(data)
    ensures CheckField(data) == FreshCheck(data, other) <==> CheckField(data) != 0xFFFF
  {
    var zeroed := SetCheck(data, 0);
    assert HeaderFits(zeroed) && HeaderSum(data) == HeaderSum(zeroed) + CheckField(data) by {
      SetCheckSum(data, 0);
    }
    assert HeaderSum(zeroed) > 0 by { HeaderSumPositive(zeroed); }
    assert Fold(HeaderSum(data)) == 0xFFFF;
    ComplementIsUnique(HeaderSum(zeroed), CheckField(data), HeaderSum(data));
    assert FreshCheck(data, other) == 0xFFFF - Fold(HeaderSum(zeroed));
  }

  // ---------------------------------------------------------------- main results

  /** Every rewritten header passes the receiver's check, whatever the header length
      and whatever the checksum field held before. */
  lemma RewriteVerifies(data: seq<byte>, other: Sum)
    requires |data| >= HEADERS
    ensures HeaderFits(Rewrite(data, other)) <==> HeaderFits(data)
    ensures HeaderFits(data) ==> ChecksumVerifies(Rewrite(data, other))
  {
    var flipped := FlipAddresses(data);
    assert HeaderFits(flipped) <==> HeaderFits(data);
    if HeaderFits(data) {
      FreshCheckVerifies(flipped, other);
    }
  }

  lemma FreshCheckVerifies(data: seq<byte>, other: Sum)
    requires HeaderFits(data)
    ensures HeaderFits(SetCheck(data, FreshCheck(data, other)))
    ensures ChecksumVerifies(SetCheck(data, FreshCheck(data, other)))
  {
    var check := FreshCheck(data, other);
    var zeroed, renewed := SetCheck(data, 0), SetCheck(data, check);
    assert HeaderFits(zeroed) && HeaderFits(renewed) && HeaderSum(renewed) == HeaderSum(zeroed) + check by {
      SetCheckSum(data, 0);
      SetCheckSum(data, check);
    }
    ComplementMakesOnes(HeaderSum(zeroed));
  }

  /** Only four bytes can change: the checksum field, bytes 24 and 25 of the frame, and the third
      octet of each address, bytes 28 and 32, in their lowest bit alone. */
  lemma RewriteTouches(data: seq<byte>, other: Sum, k: nat)
    requires 34 <= |data| && k < |data|
    ensures |Rewrite(data, other)| == |data|
    ensures k !in {24, 25, 28, 32} ==> Rewrite(data, other)[k] == data[k]
    ensures k in {28, 32} ==> Rewrite(data, other)[k] != data[k] && Rewrite(data, other)[k] / 2 == data[k] / 2
  {
  }

  /** Two hops bring back the frame, with the checksum field recomputed from it; so the frame
      comes back unchanged exactly when it carried that checksum. */
  lemma RewriteTwice(data: seq<byte>, other: Sum, other': Sum)
    requires |data| >= HEADERS
    ensures var twice, check := Rewrite(Rewrite(data, other), other'), FreshCheck(data, other');
      twice == SetCheck(data, check) && (twice == data <==> CheckField(data) == check)
  {
    var once, check := Rewrite(data, other), FreshCheck(data, other');
    var flippedBack := FlipAddresses(once);
    assert flippedBack == SetCheck(data, FreshCheck(FlipAddresses(data), other));
    assert SetCheck(flippedBack, 0) == SetCheck(data, 0);
    assert Rewrite(once, other') == SetCheck(data, check);
    SetCheckReads(data, check);
  }

  lemma SetCheckReads(data: seq<byte>, c: Sum)
    requires |data| >= HEADERS
    ensures CheckField(SetCheck(data, c)) == c
    ensures SetCheck(data, c) == data <==> CheckField(data) == c
  {
    var was := CheckField(data);
    assert data[CHECK] == was / 256 && data[CHECK + 1] == was % 256;
    assert SetCheck(data, was) == data;
  }

  /** A header that verified on arrival is restored exactly unless it spelled a zero checksum as all ones. */
  lemma VerifiedIsRestored(data: seq<byte>, other: Sum, other': Sum)
    requires HeaderFits(data) && ChecksumVerifies(data)
    ensures Rewrite(Rewrite(data, other), other') == data <==> CheckField(data) != 0xFFFF
  {
    RewriteTwice(data, other, other');
    VerifiedIsFresh(data, other');
  }

  // ---------------------------------------------------------------- what the check covers

  /** Changing one byte of the header moves its sum, by less than a whole turn. */
  lemma ByteMovesSum(data: seq<byte>, k: nat, b: byte)
    requires HeaderFits(data) && ETH_HLEN <= k < ETH_HLEN + 4 * Ihl(data) && b != data[k]
    requires HeaderFits(data[k := b]) && Ihl(data[k := b]) == Ihl(data)
    ensures HeaderSum(data[k := b]) != HeaderSum(data)
    ensures -0xFFFF < HeaderSum(data[k := b]) - HeaderSum(data) < 0xFFFF
  {
    var i, changed := (k - ETH_HLEN) / 2, data[k := b];
    var hi, lo := changed[ETH_HLEN + 2 * i], changed[ETH_HLEN + 2 * i + 1];
    assert changed == data[ETH_HLEN + 2 * i := hi][ETH_HLEN + 2 * i + 1 := lo];
    WordSumUpdate(data, ETH_HLEN, 2 * Ihl(data), i, hi, lo);
  }

  lemma AllOnesTwice(s: nat, t: nat)
    requires Fold(s) == 0xFFFF && Fold(t) == 0xFFFF && -0xFFFF < t - s < 0xFFFF
    ensures s == t
  {
    assert s % 0xFFFF == 0 && t % 0xFFFF == 0;
    hide Fold;
    assert s == 0xFFFF * (s / 0xFFFF) && t == 0xFFFF * (t / 0xFFFF);
  }

  /** The check covers the header, whose length in words is the low half of byte 14 of the frame, and
      nothing else: of a header that verifies it catches a change in every byte, and it does not see
      changes elsewhere. */
  lemma CheckCoversHeader(data: seq<byte>, k: nat, b: byte)
    requires HeaderFits(data) && ChecksumVerifies(data)
    requires k < |data| && b != data[k] && (k == 14 ==> b % 16 == data[14] % 16)
    ensures HeaderFits(data[k := b])
    ensures ChecksumVerifies(data[k := b]) <==> !(14 <= k < 14 + 4 * (data[14] % 16))
  {
    assert Ihl(data[k := b]) == Ihl(data);
    if 14 <= k < 14 + 4 * Ihl(data) {
      ByteMovesSum(data, k, b);
      if ChecksumVerifies(data[k := b]) {
        AllOnesTwice(HeaderSum(data), HeaderSum(data[k := b]));
      }
    } else {
      WordSumPrefix(data, data[k := b], ETH_HLEN, 2 * Ihl(data));
    }
  }

  lemma OneMoreWord(data: seq<byte>, n: nat, sum: nat, hi: byte, lo: byte)
    requires 14 + 2 * n + 2 <= |data| && WordSum(data, 14, n) == sum
    requires data[14 + 2 * n] == hi && data[14 + 2 * n + 1] == lo
    ensures WordSum(data, 14, n + 1) == sum + 256 * hi + lo
  {
  }

  lemma KnownSum(data: seq<byte>)
    requires |data| >= 34 && data[14] == 0x45 && data[15] == 0 && data[16] == 0 && data[17] == 0x3c
    requires data[18] == 0 && data[19] == 0 && data[20] == 0x40 && data[21] == 0
    requires data[22] == 0x40 && data[23] == 6 && data[24] == 0 && data[25] == 0
    requires data[26] == 0xc0 && data[27] == 0xa8 && data[28] == 1 && data[29] == 1
    requires data[30] == 0xc0 && data[31] == 0xa8 && data[32] == 1 && data[33] == 2
    ensures WordSum(data, 14, 10) == 0x24895
  {
    OneMoreWord(data, 0, 0, 0x45, 0);
    hide WordSum;
    OneMoreWord(data, 1, 0x4500, 0, 0x3c);
    OneMoreWord(data, 2, 0x453c, 0, 0);
    OneMoreWord(data, 3, 0x453c, 0x40, 0);
    OneMoreWord(data, 4, 0x853c, 0x40, 6);
    OneMoreWord(data, 5, 0xc542, 0, 0);
    OneMoreWord(data, 6, 0xc542, 0xc0, 0xa8);
    OneMoreWord(data, 7, 0x185ea, 1, 1);
    OneMoreWord(data, 8, 0x186eb, 0xc0, 0xa8);
    OneMoreWord(data, 9, 0x24793, 1, 2);
  }

  /** A header of five words, 45 00 00 3c 00 00 40 00 40 06 .. .. c0 a8 00 01 c0 a8 00 02: on the other
      network its checksum is b7 68. */
  lemma KnownHeader(data: seq<byte>, other: Sum)
    requires |data| >= 34 && data[14] == 0x45 && data[15] == 0 && data[16] == 0 && data[17] == 0x3c
    requires data[18] == 0 && data[19] == 0 && data[20] == 0x40 && data[21] == 0 && data[22] == 0x40 && data[23] == 6
    requires data[26] == 0xc0 && data[27] == 0xa8 && data[28] == 0 && data[29] == 1
    requires data[30] == 0xc0 && data[31] == 0xa8 && data[32] == 0 && data[33] == 2
    ensures var r := Rewrite(data, other); r[24] == 0xb7 && r[25] == 0x68 && r[28] == 1 && r[32] == 1
  {
    var d := SetCheck(FlipAddresses(data), 0);
    KnownSum(d);
    assert Ihl(d) == 5 && HeaderFits(d) && HeaderSum(d) == 0x24895;
    assert Fold(0x24895) == 0x4897;
  }

  // ---------------------------------------------------------------- padding

  /** Short frames are padded with zeros to the smallest Ethernet length. */
  function Pad(data: seq<byte>): (r: seq<byte>)
    ensures |r| >= ETH_ZLEN && data <= r
    ensures |r| == if |data| < ETH_ZLEN then ETH_ZLEN else |data|
  {
    if |data| < ETH_ZLEN then data + seq(ETH_ZLEN - |data|, _ => 0) else data
  }

  /** What the driver can send: the frame fits a packet buffer. */
  predicate Transmittable(data: seq<byte>) {
    |data| <= ETH_DATA_LEN
  }

  /** The frame that data puts on the wire. */
  function Wire(data: seq<byte>, other: Sum): (r: seq<byte>)
    ensures ETH_ZLEN <= |r| == |Pad(data)|
  {
    Rewrite(Pad(data), other)
  }

  /** What goes on the wire: at least 60 bytes, the data followed by zeros, but for the four bytes
      that the rewrite touches. */
  lemma WirePads(data: seq<byte>, other: Sum)
    ensures |Wire(data, other)| == if |data| < 60 then 60 else |data|
    ensures forall k :: 0 <= k < |Wire(data, other)| && k !in {24, 25, 28, 32} ==>
      Wire(data, other)[k] == if k < |data| then data[k] else 0
  {
  }

  /** The frame a transmission works on: a padded copy of a short one, else the caller's buffer
      itself, rewritten in place. */
  method PrepareFrame(data: array<byte>, other: Sum) returns (frame: array<byte>)
    modifies data
    ensures frame[..] == Wire(old(data[..]), other)
    ensures frame == data || (fresh(frame) && data[..] == old(data[..]))
    ensures frame == data <==> data.Length >= ETH_ZLEN
  {
    frame := data;
    if data.Length < ETH_ZLEN {
      frame := new byte[ETH_ZLEN](_ => 0);
      for k := 0 to data.Length
        invariant frame[..k] == data[..k]
        invariant forall j :: k <= j < ETH_ZLEN ==> frame[j] == 0
        invariant data[..] == old(data[..])
      {
        frame[k] := data[k];
      }
      assert frame[..] == Pad(data[..]);
    }
    RewriteInPlace(frame, other);
  }
}
