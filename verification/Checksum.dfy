/**
  The Internet checksum: the 32-bit summation and folding of the packet code against the
  16-bit one's complement sum of section 1 of RFC 1071, and the checksum fields it fills in.
  Words are read in the byte order of a little-endian host.
 */
module Checksum {
  import opened Common

  function LE16(a: Byte, b: Byte): (r: nat)
    ensures r <= 65535
  {
    a as int + 0x100 * (b as int)
  }

  function BE16(a: Byte, b: Byte): (r: nat)
    ensures r <= 65535
  {
    LE16(b, a)
  }

  function LE32(a: Byte, b: Byte, c: Byte, d: Byte): (r: nat)
    ensures r < TWO32
  {
    LE16(a, b) + 0x1_0000 * LE16(c, d)
  }

  // -------- reference: one's complement addition of 16-bit words --------

  function OnesAdd(a: nat, b: nat): (r: nat)
    requires a <= 65535 && b <= 65535
    ensures r <= 65535
  {
    if a + b > 65535 then a + b - 65535 else a + b
  }

  // The one's complement sum of the 16-bit words of `p` in network order, the last byte
  // padded with zero.
  function OnesSum(p: seq<Byte>): (r: nat)
    ensures r <= 65535
  {
    if |p| == 0 then 0
    else if |p| == 1 then BE16(p[0], 0)
    else OnesAdd(BE16(p[0], p[1]), OnesSum(p[2..]))
  }

  // A 16-bit word whose two bytes in memory are read in the other order.
  function Swap(x: nat): (r: nat)
    requires x <= 65535
    ensures r <= 65535
  {
    256 * (x % 256) + x / 256
  }

  // -------- the code's sums --------

  // The bytes from `i` on, 32 bits at a time, then 16, then 8.
  function LongSum(p: seq<Byte>): (r: nat) {
    if |p| >= 4 then LE32(p[0], p[1], p[2], p[3]) + LongSum(p[4..])
    else if |p| == 3 then LE16(p[0], p[1]) + LE16(p[2], 0)
    else if |p| == 2 then LE16(p[0], p[1])
    else if |p| == 1 then LE16(p[0], 0)
    else 0
  }

  lemma LongSumWord(p: seq<Byte>, i: nat)
    requires i + 4 <= |p|
    ensures LongSum(p[i..]) == LE32(p[i], p[i + 1], p[i + 2], p[i + 3]) + LongSum(p[i + 4..])
  {
    assert p[i..][4..] == p[i + 4..];
  }

  // The running sum is a 64-bit word.
  method IpChecksumPartial(p: seq<Byte>, start: nat) returns (sum: nat)
    requires start < TWO64
    ensures sum == (start + LongSum(p)) % TWO64
  {
    sum := start;
    var i: nat := 0;
    ghost var seen: nat := start;
    while |p| - i >= 4
      invariant Summed(p, start, i, seen, sum)
    {
      var word: nat := LE32(p[i], p[i + 1], p[i + 2], p[i + 3]);
      SummedWord(p, start, i, seen, sum);
      sum := (sum + word) % TWO64;
      seen := seen + word;
      i := i + 4;
    }
    sum := SumTail(p[i..], sum, seen);
  }

  // The bytes before i have been added to the start, without wrapping in `seen` and with in `sum`.
  ghost predicate Summed(p: seq<Byte>, start: nat, i: nat, seen: nat, sum: nat) {
    i <= |p| && start + LongSum(p) == seen + LongSum(p[i..]) && sum == seen % TWO64
  }

  lemma SummedWord(p: seq<Byte>, start: nat, i: nat, seen: nat, sum: nat)
    requires Summed(p, start, i, seen, sum) && i + 4 <= |p|
    ensures var word := LE32(p[i], p[i + 1], p[i + 2], p[i + 3]);
            Summed(p, start, i + 4, seen + word, (sum + word) % TWO64)
  {
    LongSumWord(p, i);
    WrapAdd(seen, LE32(p[i], p[i + 1], p[i + 2], p[i + 3]));
  }

  // The last bytes, fewer than four: a 16-bit word and then a byte on its own.
  method SumTail(p: seq<Byte>, start: nat, ghost seen: nat) returns (sum: nat)
    requires |p| < 4 && start == seen % TWO64
    ensures sum == (seen + LongSum(p)) % TWO64
  {
    sum := start;
    if |p| >= 2 {
      WrapAdd(seen, LE16(p[0], p[1]));
      sum := (sum + LE16(p[0], p[1])) % TWO64;
    }
    if |p| % 2 == 1 {
      ghost var before := if |p| == 3 then seen + LE16(p[0], p[1]) else seen;
      WrapAdd(before, LE16(p[|p| - 1], 0));
      sum := (sum + LE16(p[|p| - 1], 0)) % TWO64;
    }
  }

  lemma WrapAdd(a: nat, b: nat)
    ensures (a % TWO64 + b) % TWO64 == (a + b) % TWO64
  {
  }

  // The representative of `x` modulo 65535 that one's complement addition yields: zero only
  // for zero.
  function Residue(x: nat): (r: nat)
    ensures r <= 65535
  {
    if x == 0 then 0 else (x - 1) % 65535 + 1
  }

  lemma ResidueShift(x: nat, k: nat)
    requires x > 0
    ensures Residue(x + 65535 * k) == Residue(x)
  {
  }

  lemma FoldStep(hi: nat, lo: nat, c: nat)
    ensures Residue(hi * (65535 * c + 1) + lo) == Residue(hi + lo)
  {
    assert hi * (65535 * c + 1) + lo == (hi + lo) + 65535 * (hi * c);
    if hi + lo > 0 {
      ResidueShift(hi + lo, hi * c);
    } else {
      assert hi * c == 0;
    }
  }

  // Folding a 64-bit sum to 16 bits and complementing it.
  method IpChecksumFold(sum: nat) returns (r: nat)
    requires sum < TWO64
    ensures r == 65535 - Residue(sum)
  {
    var s: nat := sum;
    while s / TWO32 != 0
      invariant Residue(s) == Residue(sum)
      decreases s
    {
      FoldStep(s / TWO32, s % TWO32, 65537);
      s := s / TWO32 + s % TWO32;
    }
    while s / 0x1_0000 != 0
      invariant s < TWO32 && Residue(s) == Residue(sum)
      decreases s
    {
      FoldStep(s / 0x1_0000, s % 0x1_0000, 1);
      s := s / 0x1_0000 + s % 0x1_0000;
    }
    return 65535 - s;
  }

  // -------- the fast form computes the reference --------

  // The plain sum of the 16-bit words as the host reads them.
  function WordSum(p: seq<Byte>): (r: nat) {
    if |p| == 0 then 0
    else if |p| == 1 then LE16(p[0], 0)
    else LE16(p[0], p[1]) + WordSum(p[2..])
  }

  // The upper halves of the 32-bit words.
  function UpperSum(p: seq<Byte>): (r: nat) {
    if |p| >= 4 then LE16(p[2], p[3]) + UpperSum(p[4..]) else 0
  }

  lemma {:induction false} LongSumSplits(p: seq<Byte>)
    ensures LongSum(p) == WordSum(p) + 65535 * UpperSum(p)
    ensures UpperSum(p) <= WordSum(p)
    ensures LongSum(p) <= |p| * TWO32
  {
    if |p| >= 4 {
      LongSumSplits(p[4..]);
      assert p[2..][0] == p[2] && p[2..][1] == p[3] && p[2..][2..] == p[4..];
    } else if |p| == 3 {
      assert p[2..] == [p[2]];
    } else if |p| == 2 {
      assert p[2..] == [];
    }
  }

  lemma ResidueAdd(w: nat, x: nat)
    requires w <= 65535
    ensures OnesAdd(w, Residue(x)) == Residue(w + x)
  {
  }

  lemma SwapAdd(a: nat, b: nat)
    requires a <= 65535 && b <= 65535
    ensures Swap(OnesAdd(a, b)) == OnesAdd(Swap(a), Swap(b))
  {
    var ah, al, bh, bl := a / 256, a % 256, b / 256, b % 256;
    assert a == 256 * ah + al && b == 256 * bh + bl;
    SwapOf(ah, al);
    SwapOf(bh, bl);
    var h0, l0 := ah + bh, al + bl;
    // Carries out of either half go into the other.
    var l1 := if l0 >= 256 then l0 - 256 else l0;
    var h1 := if l0 >= 256 then h0 + 1 else h0;
    if a + b > 65535 {
      var h2 := h1 - 256;
      if l1 == 255 {
        SwapOf(h2 + 1, 0);
      } else {
        SwapOf(h2, l1 + 1);
      }
    } else {
      SwapOf(h1, l1);
    }
  }

  lemma SwapOf(h: nat, l: nat)
    requires h < 256 && l < 256
    ensures Swap(256 * h + l) == 256 * l + h
  {
  }

  lemma SwapComplement(x: nat)
    requires x <= 65535
    ensures Swap(65535 - x) == 65535 - Swap(x)
  {
  }

  // Summing in host order gives, bytes swapped, the sum in network order.
  lemma {:induction false} ByteOrderDoesNotMatter(p: seq<Byte>)
    ensures Residue(WordSum(p)) == Swap(OnesSum(p))
  {
    if |p| == 1 {
      SwapOf(p[0], 0);
    } else if |p| >= 2 {
      ByteOrderDoesNotMatter(p[2..]);
      SwapOf(p[0], p[1]);
      WordJoins(BE16(p[0], p[1]), LE16(p[0], p[1]), OnesSum(p[2..]), WordSum(p[2..]));
    }
  }

  lemma WordJoins(net: nat, host: nat, r: nat, x: nat)
    requires net <= 65535 && r <= 65535 && host == Swap(net) && Residue(x) == Swap(r)
    ensures Residue(host + x) == Swap(OnesAdd(net, r))
  {
    SwapAdd(net, r);
    ResidueAdd(host, x);
  }

  // The checksum word the host stores: in memory it is the complement of the one's complement
  // sum, in network order.
  function Stored(p: seq<Byte>): (r: nat)
    ensures r <= 65535
  {
    Swap(65535 - OnesSum(p))
  }

  lemma FoldedIsStored(p: seq<Byte>)
    ensures 65535 - Residue(WordSum(p)) == Stored(p)
  {
    ByteOrderDoesNotMatter(p);
    SwapComplement(OnesSum(p));
  }

  // A 64-bit sum does not wrap for data whose length a 32-bit size can express.
  lemma SumFits(a: seq<Byte>, b: seq<Byte>)
    requires |a| + |b| < TWO32
    ensures LongSum(a) + LongSum(b) < TWO64
  {
    LongSumSplits(a);
    LongSumSplits(b);
    assert |a| * TWO32 + |b| * TWO32 == (|a| + |b|) * TWO32;
  }

  lemma ResidueOfSplit(s: nat, w: nat, k: nat)
    requires s == w + 65535 * k && k <= w
    ensures Residue(s) == Residue(w)
  {
  }

  lemma SumSplits(a: seq<Byte>, b: seq<Byte>) returns (k: nat)
    requires |a| % 2 == 0
    ensures LongSum(a) + LongSum(b) == WordSum(a + b) + 65535 * k && k <= WordSum(a + b)
  {
    LongSumSplits(a);
    LongSumSplits(b);
    WordSumConcat(a, b);
    k := UpperSum(a) + UpperSum(b);
  }

  lemma SumIsStored(a: seq<Byte>, b: seq<Byte>, s: nat)
    requires |a| % 2 == 0 && s == LongSum(a) + LongSum(b)
    ensures 65535 - Residue(s) == Stored(a + b)
  {
    SumResidue(a, b, s, WordSum(a + b));
    FoldedIsStored(a + b);
  }

  lemma SumResidue(a: seq<Byte>, b: seq<Byte>, s: nat, w: nat)
    requires |a| % 2 == 0 && s == LongSum(a) + LongSum(b) && w == WordSum(a + b)
    ensures Residue(s) == Residue(w)
  {
    var k := SumSplits(a, b);
    ResidueOfSplit(s, w, k);
  }

  lemma NoWrap(x: nat)
    requires x < TWO64
    ensures x % TWO64 == x
  {
  }

  // The checksum of a header of any length a 32-bit size can express, odd ones included.
  method Ipv4Checksum(header: seq<Byte>) returns (r: nat)
    requires |header| < TWO32
    ensures r == Stored(header)
  {
    var sum := IpChecksumPartial(header, 0);
    SumFits([], header);
    NoWrap(LongSum(header));
    SumIsStored([], header, sum);
    assert [] + header == header;
    r := IpChecksumFold(sum);
  }

  lemma {:induction false} WordSumConcat(a: seq<Byte>, b: seq<Byte>)
    requires |a| % 2 == 0
    ensures WordSum(a + b) == WordSum(a) + WordSum(b)
  {
    if a == [] {
      assert a + b == b;
    } else {
      assert (a + b)[2..] == a[2..] + b;
      WordSumConcat(a[2..], b);
    }
  }

  // A pseudo-header summed first and a payload added to it give the checksum of the two
  // written one after the other.
  method PseudoHeaderChecksum(pseudo: seq<Byte>, payload: seq<Byte>) returns (r: nat)
    requires |pseudo| % 2 == 0 && |pseudo| + |payload| < TWO32
    ensures r == Stored(pseudo + payload)
  {
    var sum := IpChecksumPartial(pseudo, 0);
    SumFits(pseudo, payload);
    NoWrap(LongSum(pseudo));
    sum := IpChecksumPartial(payload, sum);
    NoWrap(LongSum(pseudo) + LongSum(payload));
    SumIsStored(pseudo, payload, sum);
    r := IpChecksumFold(sum);
  }

  // The pseudo-header of section 3.1 of RFC 793.
  function PseudoV4(src: seq<Byte>, dst: seq<Byte>, protocol: Byte, len: nat): (h: seq<Byte>)
    requires |src| == |dst| == 4 && len < 0x1_0000
    ensures |h| == 12
  {
    src + dst + [0, protocol, len / 256, len % 256]
  }

  // The pseudo-header of section 8.1 of RFC 2460.
  function PseudoV6(src: seq<Byte>, dst: seq<Byte>, nextHeader: Byte, len: nat): (h: seq<Byte>)
    requires |src| == |dst| == 16 && len < TWO32
    ensures |h| == 40
  {
    src + dst + [len / 0x100_0000, len / 0x1_0000 % 256, len / 256 % 256, len % 256, 0, 0, 0, nextHeader]
  }

  // Every field can be read back from its place, numbers high byte first.
  lemma PseudoV4Fields(src: seq<Byte>, dst: seq<Byte>, protocol: Byte, len: nat)
    requires |src| == |dst| == 4 && len < 0x1_0000
    ensures var h := PseudoV4(src, dst, protocol, len);
            && h[..4] == src && h[4..8] == dst && h[8] == 0 && h[9] == protocol
            && BigEndian(h[10..12]) == len
  {
    var h := PseudoV4(src, dst, protocol, len);
    assert h[..4] == src && h[4..8] == dst;
    assert h[10..12] == [len / 256, len % 256];
    BigEndianOfTwo(h[10..12]);
  }

  lemma PseudoV6Fields(src: seq<Byte>, dst: seq<Byte>, nextHeader: Byte, len: nat)
    requires |src| == |dst| == 16 && len < TWO32
    ensures var h := PseudoV6(src, dst, nextHeader, len);
            && h[..16] == src && h[16..32] == dst && BigEndian(h[32..36]) == len
            && h[36..39] == [0, 0, 0] && h[39] == nextHeader
  {
    var h := PseudoV6(src, dst, nextHeader, len);
    assert h[..16] == src && h[16..32] == dst && h[36..39] == [0, 0, 0];
    assert h[32..36] == [len / 0x100_0000, len / 0x1_0000 % 256, len / 256 % 256, len % 256];
    BigEndianOfFour(h[32..36]);
    FourParts(len);
  }

  lemma FourParts(len: nat)
    ensures 256 * (256 * (256 * (len / 0x100_0000) + len / 0x1_0000 % 256) + len / 256 % 256) + len % 256 == len
  {
    var a := len / 256;
    var b := a / 256;
    Quotient(len, 0x1_0000, b, 256 * (a % 256) + len % 256);
    Quotient(len, 0x100_0000, b / 256, 0x1_0000 * (b % 256) + 256 * (a % 256) + len % 256);
  }

  // The number a sequence of bytes stands for, high byte first.
  function BigEndian(s: seq<Byte>): (n: nat) {
    if s == [] then 0 else 256 * BigEndian(s[..|s| - 1]) + s[|s| - 1]
  }

  lemma BigEndianOfTwo(s: seq<Byte>)
    requires |s| == 2
    ensures BigEndian(s) == 256 * s[0] as int + s[1] as int
  {
    assert s[..1][..0] == [];
    assert BigEndian(s[..1]) == 256 * BigEndian(s[..1][..0]) + s[..1][0];
  }

  lemma BigEndianOfFour(s: seq<Byte>)
    requires |s| == 4
    ensures BigEndian(s) == 256 * (256 * (256 * s[0] as int + s[1] as int) + s[2] as int) + s[3] as int
  {
    BigEndianOfTwo(s[..2]);
    assert s[..3][..2] == s[..2];
    assert BigEndian(s[..3]) == 256 * BigEndian(s[..2]) + s[2];
  }

  // -------- filling in a checksum field --------

  function SetField(p: seq<Byte>, i: nat, c: nat): (q: seq<Byte>)
    requires i + 1 < |p| && c <= 65535
    ensures |q| == |p|
  {
    p[i := c % 256][i + 1 := c / 256]
  }

  lemma {:induction false} FieldAdds(p: seq<Byte>, i: nat, c: nat)
    requires i % 2 == 0 && i + 1 < |p| && c <= 65535 && p[i] == 0 && p[i + 1] == 0
    ensures WordSum(SetField(p, i, c)) == WordSum(p) + c
  {
    if i == 0 {
      assert SetField(p, 0, c)[2..] == p[2..];
    } else {
      assert SetField(p, i, c)[2..] == SetField(p[2..], i - 2, c);
      FieldAdds(p[2..], i - 2, c);
    }
  }

  lemma ResidueCompletes(x: nat)
    ensures Residue(x + (65535 - Residue(x))) == 65535
  {
  }

  // Storing the checksum of data whose field is zero makes the checksum of the whole zero:
  // a receiver that recomputes it gets zero.
  lemma StoredVerifies(p: seq<Byte>, i: nat)
    requires i % 2 == 0 && i + 1 < |p| && p[i] == 0 && p[i + 1] == 0
    ensures Stored(SetField(p, i, Stored(p))) == 0
  {
    FoldedIsStored(p);
    FoldedIsStored(SetField(p, i, Stored(p)));
    FieldAdds(p, i, Stored(p));
    ResidueCompletes(WordSum(p));
  }

  // Zeroes a field of the bytes from `lo` to `hi`, sums them after a pseudo-header and stores
  // the result.
  method FillField(packet: array<Byte>, lo: nat, hi: nat, field: nat, pseudo: seq<Byte>)
    requires lo + field + 1 < hi <= packet.Length && field % 2 == 0
    requires |pseudo| % 2 == 0 && |pseudo| + (hi - lo) < TWO32
    modifies packet
    ensures Stored(pseudo + packet[lo..hi]) == 0
    ensures forall k :: 0 <= k < packet.Length && k != lo + field && k != lo + field + 1 ==> packet[k] == old(packet[k])
  {
    var at := lo + field;
    packet[at], packet[at + 1] := 0, 0;
    ghost var p := packet[lo..hi];
    var c := PseudoHeaderChecksum(pseudo, packet[lo..hi]);
    ghost var all := pseudo + p;
    StoredVerifies(all, |pseudo| + field);
    packet[at] := c % 256;
    packet[at + 1] := c / 256;
    assert packet[lo..hi] == SetField(p, field, c);
    assert pseudo + packet[lo..hi] == SetField(all, |pseudo| + field, c);
  }

  // -------- packets --------

  const TCP: Byte := 6
  const UDP: Byte := 17
  const ICMP: Byte := 1
  const ICMPV6: Byte := 58

  function HeaderLen(packet: seq<Byte>): (n: nat)
    requires |packet| >= 20
  {
    packet[0] as int % 16 * 4
  }

  function TotalLen(packet: seq<Byte>): (n: nat)
    requires |packet| >= 20
    ensures n < 0x1_0000
  {
    BE16(packet[2], packet[3])
  }

  // Offset of the checksum in the headers the code knows; the source stops the program on
  // any other protocol.
  function FieldOf(protocol: Byte): (f: nat)
    ensures f % 2 == 0
  {
    if protocol == TCP then 16 else if protocol == UDP then 6 else 2
  }

  // The widths in bytes of the fields of the headers, in order.
  const TCP_FIELDS: seq<nat> := [2, 2, 4, 4, 2, 2, 2, 2]
  const UDP_FIELDS: seq<nat> := [2, 2, 2, 2]
  const ICMP_FIELDS: seq<nat> := [1, 1, 2, 4]

  function OffsetOf(widths: seq<nat>, k: nat): (n: nat)
    requires k <= |widths|
  {
    if k == 0 then 0 else OffsetOf(widths, k - 1) + widths[k - 1]
  }

  const IPV4_FIELDS: seq<nat> := [1, 1, 2, 2, 2, 1, 1, 2, 4, 4]
  const IPV6_FIELDS: seq<nat> := [4, 2, 1, 1, 16, 16]

  function FieldAt(widths: seq<nat>, k: nat, packet: seq<Byte>): (f: seq<Byte>)
    requires k < |widths| && OffsetOf(widths, k + 1) <= |packet|
  {
    packet[OffsetOf(widths, k)..OffsetOf(widths, k + 1)]
  }

  lemma Ipv4Offsets()
    ensures OffsetOf(IPV4_FIELDS, 2) == 2 && OffsetOf(IPV4_FIELDS, 3) == 4 && OffsetOf(IPV4_FIELDS, 6) == 9
    ensures OffsetOf(IPV4_FIELDS, 7) == 10 && OffsetOf(IPV4_FIELDS, 8) == 12 && OffsetOf(IPV4_FIELDS, 9) == 16
    ensures OffsetOf(IPV4_FIELDS, 10) == 20
  {
  }

  lemma Ipv6Offsets()
    ensures OffsetOf(IPV6_FIELDS, 1) == 4 && OffsetOf(IPV6_FIELDS, 2) == 6 && OffsetOf(IPV6_FIELDS, 3) == 7
    ensures OffsetOf(IPV6_FIELDS, 4) == 8 && OffsetOf(IPV6_FIELDS, 5) == 24 && OffsetOf(IPV6_FIELDS, 6) == 40
  {
  }

  // The pseudo-header of an IPv4 packet: the fields of its header, and what its total length leaves
  // after the header words.
  lemma PseudoOfFields(packet: seq<Byte>)
    requires WellFormedV4(packet) && packet[9] != ICMP
    ensures OffsetOf(IPV4_FIELDS, 10) == 20
    ensures var h := PseudoOf(packet);
            && |h| == 12
            && h[..4] == FieldAt(IPV4_FIELDS, 8, packet) && h[4..8] == FieldAt(IPV4_FIELDS, 9, packet) && h[8] == 0
            && [h[9]] == FieldAt(IPV4_FIELDS, 6, packet)
            && BigEndian(h[10..12]) == BigEndian(FieldAt(IPV4_FIELDS, 2, packet)) - 4 * (packet[0] as int % 16)
  {
    Ipv4Offsets();
    PseudoV4Fields(packet[12..16], packet[16..20], packet[9], TotalLen(packet) - HeaderLen(packet));
    BigEndianOfTwo(packet[2..4]);
  }

  lemma PseudoOfV6Fields(packet: seq<Byte>)
    requires WellFormedV6(packet)
    ensures OffsetOf(IPV6_FIELDS, 6) == 40
    ensures var h := PseudoOfV6(packet);
            && h[..16] == FieldAt(IPV6_FIELDS, 4, packet) && h[16..32] == FieldAt(IPV6_FIELDS, 5, packet)
            && BigEndian(h[32..36]) == BigEndian(FieldAt(IPV6_FIELDS, 1, packet))
            && h[36..39] == [0, 0, 0] && [h[39]] == FieldAt(IPV6_FIELDS, 2, packet)
  {
    Ipv6Offsets();
    PseudoV6Fields(packet[8..24], packet[24..40], packet[6], BE16(packet[4], packet[5]));
    BigEndianOfTwo(packet[4..6]);
  }

  // The checksum is the seventh field of TCP, the fourth of UDP and the third of either ICMP.
  lemma FieldOfIsOffset()
    ensures FieldOf(TCP) == OffsetOf(TCP_FIELDS, 6) && TCP_FIELDS[6] == 2
    ensures FieldOf(UDP) == OffsetOf(UDP_FIELDS, 3) && UDP_FIELDS[3] == 2
    ensures FieldOf(ICMP) == FieldOf(ICMPV6) == OffsetOf(ICMP_FIELDS, 2) && ICMP_FIELDS[2] == 2
  {
    assert OffsetOf(TCP_FIELDS, 6) == OffsetOf(TCP_FIELDS, 3) + 4 + 2 + 2;
  }

  // What the source takes for granted of an IPv4 packet: a whole header, a known protocol and
  // a transport header that holds its checksum.
  predicate WellFormedV4(packet: seq<Byte>) {
    && |packet| >= 20 && HeaderLen(packet) >= 20
    && packet[9] in {TCP, UDP, ICMP}
    && HeaderLen(packet) + FieldOf(packet[9]) + 1 < TotalLen(packet) <= |packet|
  }

  function PseudoOf(packet: seq<Byte>): (h: seq<Byte>)
    requires WellFormedV4(packet)
    ensures |h| % 2 == 0 && |h| <= 12
  {
    if packet[9] == ICMP then []
    else PseudoV4(packet[12..16], packet[16..20], packet[9], TotalLen(packet) - HeaderLen(packet))
  }

  predicate IsChecksumByte(field: nat, k: int) {
    k == 10 || k == 11 || k == field || k == field + 1
  }

  // After the call both checksums of the packet verify, and no byte but the two fields has
  // changed.
  method ChecksumIpv4Packet(packet: array<Byte>)
    requires WellFormedV4(packet[..])
    modifies packet
    ensures WellFormedV4(packet[..])
    ensures var hl, tl := HeaderLen(packet[..]), TotalLen(packet[..]);
            && hl == HeaderLen(old(packet[..])) && tl == TotalLen(old(packet[..]))
            && Stored(packet[..hl]) == 0
            && Stored(PseudoOf(packet[..]) + packet[hl..tl]) == 0
            && forall k :: 0 <= k < packet.Length && !IsChecksumByte(hl + FieldOf(packet[9]), k) ==>
                 packet[k] == old(packet[k])
  {
    FillHeaderChecksum(packet);
    ghost var header := packet[..HeaderLen(packet[..])];
    FillPayloadChecksum(packet);
    assert packet[..HeaderLen(packet[..])] == header;
  }

  method FillHeaderChecksum(packet: array<Byte>)
    requires WellFormedV4(packet[..])
    modifies packet
    ensures WellFormedV4(packet[..])
    ensures HeaderLen(packet[..]) == HeaderLen(old(packet[..])) && TotalLen(packet[..]) == TotalLen(old(packet[..]))
    ensures Stored(packet[..HeaderLen(packet[..])]) == 0
    ensures forall k :: 0 <= k < packet.Length && k != 10 && k != 11 ==> packet[k] == old(packet[k])
  {
    var hl := HeaderLen(packet[..]);
    FillField(packet, 0, hl, 10, []);
    assert [] + packet[0..hl] == packet[..hl];
  }

  method FillPayloadChecksum(packet: array<Byte>)
    requires WellFormedV4(packet[..])
    modifies packet
    ensures WellFormedV4(packet[..])
    ensures HeaderLen(packet[..]) == HeaderLen(old(packet[..])) && TotalLen(packet[..]) == TotalLen(old(packet[..]))
    ensures Stored(PseudoOf(packet[..]) + packet[HeaderLen(packet[..])..TotalLen(packet[..])]) == 0
    ensures var at := HeaderLen(packet[..]) + FieldOf(packet[9]);
            forall k :: 0 <= k < packet.Length && k != at && k != at + 1 ==> packet[k] == old(packet[k])
  {
    var hl, tl := HeaderLen(packet[..]), TotalLen(packet[..]);
    var protocol := packet[9];
    var src, dst := packet[12..16], packet[16..20];
    var pseudo := if protocol == ICMP then [] else PseudoV4(src, dst, protocol, tl - hl);
    FillField(packet, hl, tl, FieldOf(protocol), pseudo);
    assert src == packet[..][12..16] && dst == packet[..][16..20];
  }

  predicate WellFormedV6(packet: seq<Byte>) {
    && |packet| >= 40
    && packet[6] in {TCP, UDP, ICMPV6}
    && FieldOf(packet[6]) + 1 < BE16(packet[4], packet[5]) <= |packet| - 40
  }

  function PseudoOfV6(packet: seq<Byte>): (h: seq<Byte>)
    requires WellFormedV6(packet)
    ensures |h| == 40
  {
    PseudoV6(packet[8..24], packet[24..40], packet[6], BE16(packet[4], packet[5]))
  }

  // IPv6 has no header checksum; its ICMP is summed with the pseudo-header as well.
  method ChecksumIpv6Packet(packet: array<Byte>)
    requires WellFormedV6(packet[..])
    modifies packet
    ensures WellFormedV6(packet[..])
    ensures var l4 := BE16(packet[4], packet[5]);
            && Stored(PseudoOfV6(packet[..]) + packet[40..40 + l4]) == 0
            && forall k :: 0 <= k < packet.Length && k != 40 + FieldOf(packet[6]) && k != 41 + FieldOf(packet[6]) ==>
                 packet[k] == old(packet[k])
  {
    var l4 := BE16(packet[4], packet[5]);
    var src, dst := packet[8..24], packet[24..40];
    assert src == packet[..][8..24] && dst == packet[..][24..40];
    FillField(packet, 40, 40 + l4, FieldOf(packet[6]), PseudoV6(src, dst, packet[6], l4));
    assert src == packet[..][8..24] && dst == packet[..][24..40];
  }
}
