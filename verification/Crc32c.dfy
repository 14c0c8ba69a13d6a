/**
  CRC-32C as the packet code computes it, one table look-up for each byte, against division
  one bit at a time by the reflected polynomial of Appendix B of RFC 4960, and what the
  checksum then detects.
 */
module Crc32c {

  // The register after the division of eight more bits, least significant first.
  function ByteStep(c0: bv32): (r: bv32) {
    var c1 := (c0 >> 1) ^ (if c0 & 1 == 1 then 0x82F63B78 else 0);
    var c2 := (c1 >> 1) ^ (if c1 & 1 == 1 then 0x82F63B78 else 0);
    var c3 := (c2 >> 1) ^ (if c2 & 1 == 1 then 0x82F63B78 else 0);
    var c4 := (c3 >> 1) ^ (if c3 & 1 == 1 then 0x82F63B78 else 0);
    var c5 := (c4 >> 1) ^ (if c4 & 1 == 1 then 0x82F63B78 else 0);
    var c6 := (c5 >> 1) ^ (if c5 & 1 == 1 then 0x82F63B78 else 0);
    var c7 := (c6 >> 1) ^ (if c6 & 1 == 1 then 0x82F63B78 else 0);
    (c7 >> 1) ^ (if c7 & 1 == 1 then 0x82F63B78 else 0)
  }

  function Xor(a: bv32, b: bv32): (r: bv32) {
    a ^ b
  }

  function Wide(b: bv8): (r: bv32) {
    b as bv32
  }

  // The register after one more byte.
  function Feed(c: bv32, b: bv8): (r: bv32) {
    ByteStep(c ^ (b as bv32))
  }

  lemma FeedIs(c: bv32, b: bv8)
    ensures Feed(c, b) == ByteStep(Xor(c, Wide(b)))
  {
  }

  // The register after a string of bytes, from the register c.
  function Crc(c: bv32, s: seq<bv8>): (r: bv32)
    decreases |s|
  {
    if s == [] then c else Crc(Feed(c, s[0]), s[1..])
  }

  lemma {:induction false} CrcConcat(c: bv32, s: seq<bv8>, t: seq<bv8>)
    ensures Crc(c, s + t) == Crc(Crc(c, s), t)
    decreases |s|
  {
    if s == [] {
      assert s + t == t;
    } else {
      CrcConcat(Feed(c, s[0]), s[1..], t);
      assert (s + t)[1..] == s[1..] + t;
    }
  }

  // -------- the table, sixteen entries to a row --------

  function Row0(lo: bv32): (r: bv32) {
    if lo == 0 then 0x00000000 else if lo == 1 then 0xF26B8303 else
    if lo == 2 then 0xE13B70F7 else if lo == 3 then 0x1350F3F4 else
    if lo == 4 then 0xC79A971F else if lo == 5 then 0x35F1141C else
    if lo == 6 then 0x26A1E7E8 else if lo == 7 then 0xD4CA64EB else
    if lo == 8 then 0x8AD958CF else if lo == 9 then 0x78B2DBCC else
    if lo == 10 then 0x6BE22838 else if lo == 11 then 0x9989AB3B else
    if lo == 12 then 0x4D43CFD0 else if lo == 13 then 0xBF284CD3 else if lo == 14 then 0xAC78BF27 else 0x5E133C24
  }

  function Row1(lo: bv32): (r: bv32) {
    if lo == 0 then 0x105EC76F else if lo == 1 then 0xE235446C else
    if lo == 2 then 0xF165B798 else if lo == 3 then 0x030E349B else
    if lo == 4 then 0xD7C45070 else if lo == 5 then 0x25AFD373 else
    if lo == 6 then 0x36FF2087 else if lo == 7 then 0xC494A384 else
    if lo == 8 then 0x9A879FA0 else if lo == 9 then 0x68EC1CA3 else
    if lo == 10 then 0x7BBCEF57 else if lo == 11 then 0x89D76C54 else
    if lo == 12 then 0x5D1D08BF else if lo == 13 then 0xAF768BBC else if lo == 14 then 0xBC267848 else 0x4E4DFB4B
  }

  function Row2(lo: bv32): (r: bv32) {
    if lo == 0 then 0x20BD8EDE else if lo == 1 then 0xD2D60DDD else
    if lo == 2 then 0xC186FE29 else if lo == 3 then 0x33ED7D2A else
    if lo == 4 then 0xE72719C1 else if lo == 5 then 0x154C9AC2 else
    if lo == 6 then 0x061C6936 else if lo == 7 then 0xF477EA35 else
    if lo == 8 then 0xAA64D611 else if lo == 9 then 0x580F5512 else
    if lo == 10 then 0x4B5FA6E6 else if lo == 11 then 0xB93425E5 else
    if lo == 12 then 0x6DFE410E else if lo == 13 then 0x9F95C20D else if lo == 14 then 0x8CC531F9 else 0x7EAEB2FA
  }

  function Row3(lo: bv32): (r: bv32) {
    if lo == 0 then 0x30E349B1 else if lo == 1 then 0xC288CAB2 else
    if lo == 2 then 0xD1D83946 else if lo == 3 then 0x23B3BA45 else
    if lo == 4 then 0xF779DEAE else if lo == 5 then 0x05125DAD else
    if lo == 6 then 0x1642AE59 else if lo == 7 then 0xE4292D5A else
    if lo == 8 then 0xBA3A117E else if lo == 9 then 0x4851927D else
    if lo == 10 then 0x5B016189 else if lo == 11 then 0xA96AE28A else
    if lo == 12 then 0x7DA08661 else if lo == 13 then 0x8FCB0562 else if lo == 14 then 0x9C9BF696 else 0x6EF07595
  }

  function Row4(lo: bv32): (r: bv32) {
    if lo == 0 then 0x417B1DBC else if lo == 1 then 0xB3109EBF else
    if lo == 2 then 0xA0406D4B else if lo == 3 then 0x522BEE48 else
    if lo == 4 then 0x86E18AA3 else if lo == 5 then 0x748A09A0 else
    if lo == 6 then 0x67DAFA54 else if lo == 7 then 0x95B17957 else
    if lo == 8 then 0xCBA24573 else if lo == 9 then 0x39C9C670 else
    if lo == 10 then 0x2A993584 else if lo == 11 then 0xD8F2B687 else
    if lo == 12 then 0x0C38D26C else if lo == 13 then 0xFE53516F else if lo == 14 then 0xED03A29B else 0x1F682198
  }

  function Row5(lo: bv32): (r: bv32) {
    if lo == 0 then 0x5125DAD3 else if lo == 1 then 0xA34E59D0 else
    if lo == 2 then 0xB01EAA24 else if lo == 3 then 0x42752927 else
    if lo == 4 then 0x96BF4DCC else if lo == 5 then 0x64D4CECF else
    if lo == 6 then 0x77843D3B else if lo == 7 then 0x85EFBE38 else
    if lo == 8 then 0xDBFC821C else if lo == 9 then 0x2997011F else
    if lo == 10 then 0x3AC7F2EB else if lo == 11 then 0xC8AC71E8 else
    if lo == 12 then 0x1C661503 else if lo == 13 then 0xEE0D9600 else if lo == 14 then 0xFD5D65F4 else 0x0F36E6F7
  }

  function Row6(lo: bv32): (r: bv32) {
    if lo == 0 then 0x61C69362 else if lo == 1 then 0x93AD1061 else
    if lo == 2 then 0x80FDE395 else if lo == 3 then 0x72966096 else
    if lo == 4 then 0xA65C047D else if lo == 5 then 0x5437877E else
    if lo == 6 then 0x4767748A else if lo == 7 then 0xB50CF789 else
    if lo == 8 then 0xEB1FCBAD else if lo == 9 then 0x197448AE else
    if lo == 10 then 0x0A24BB5A else if lo == 11 then 0xF84F3859 else
    if lo == 12 then 0x2C855CB2 else if lo == 13 then 0xDEEEDFB1 else if lo == 14 then 0xCDBE2C45 else 0x3FD5AF46
  }

  function Row7(lo: bv32): (r: bv32) {
    if lo == 0 then 0x7198540D else if lo == 1 then 0x83F3D70E else
    if lo == 2 then 0x90A324FA else if lo == 3 then 0x62C8A7F9 else
    if lo == 4 then 0xB602C312 else if lo == 5 then 0x44694011 else
    if lo == 6 then 0x5739B3E5 else if lo == 7 then 0xA55230E6 else
    if lo == 8 then 0xFB410CC2 else if lo == 9 then 0x092A8FC1 else
    if lo == 10 then 0x1A7A7C35 else if lo == 11 then 0xE811FF36 else
    if lo == 12 then 0x3CDB9BDD else if lo == 13 then 0xCEB018DE else if lo == 14 then 0xDDE0EB2A else 0x2F8B6829
  }

  function Row8(lo: bv32): (r: bv32) {
    if lo == 0 then 0x82F63B78 else if lo == 1 then 0x709DB87B else
    if lo == 2 then 0x63CD4B8F else if lo == 3 then 0x91A6C88C else
    if lo == 4 then 0x456CAC67 else if lo == 5 then 0xB7072F64 else
    if lo == 6 then 0xA457DC90 else if lo == 7 then 0x563C5F93 else
    if lo == 8 then 0x082F63B7 else if lo == 9 then 0xFA44E0B4 else
    if lo == 10 then 0xE9141340 else if lo == 11 then 0x1B7F9043 else
    if lo == 12 then 0xCFB5F4A8 else if lo == 13 then 0x3DDE77AB else if lo == 14 then 0x2E8E845F else 0xDCE5075C
  }

  function Row9(lo: bv32): (r: bv32) {
    if lo == 0 then 0x92A8FC17 else if lo == 1 then 0x60C37F14 else
    if lo == 2 then 0x73938CE0 else if lo == 3 then 0x81F80FE3 else
    if lo == 4 then 0x55326B08 else if lo == 5 then 0xA759E80B else
    if lo == 6 then 0xB4091BFF else if lo == 7 then 0x466298FC else
    if lo == 8 then 0x1871A4D8 else if lo == 9 then 0xEA1A27DB else
    if lo == 10 then 0xF94AD42F else if lo == 11 then 0x0B21572C else
    if lo == 12 then 0xDFEB33C7 else if lo == 13 then 0x2D80B0C4 else if lo == 14 then 0x3ED04330 else 0xCCBBC033
  }

  function Row10(lo: bv32): (r: bv32) {
    if lo == 0 then 0xA24BB5A6 else if lo == 1 then 0x502036A5 else
    if lo == 2 then 0x4370C551 else if lo == 3 then 0xB11B4652 else
    if lo == 4 then 0x65D122B9 else if lo == 5 then 0x97BAA1BA else
    if lo == 6 then 0x84EA524E else if lo == 7 then 0x7681D14D else
    if lo == 8 then 0x2892ED69 else if lo == 9 then 0xDAF96E6A else
    if lo == 10 then 0xC9A99D9E else if lo == 11 then 0x3BC21E9D else
    if lo == 12 then 0xEF087A76 else if lo == 13 then 0x1D63F975 else if lo == 14 then 0x0E330A81 else 0xFC588982
  }

  function Row11(lo: bv32): (r: bv32) {
    if lo == 0 then 0xB21572C9 else if lo == 1 then 0x407EF1CA else
    if lo == 2 then 0x532E023E else if lo == 3 then 0xA145813D else
    if lo == 4 then 0x758FE5D6 else if lo == 5 then 0x87E466D5 else
    if lo == 6 then 0x94B49521 else if lo == 7 then 0x66DF1622 else
    if lo == 8 then 0x38CC2A06 else if lo == 9 then 0xCAA7A905 else
    if lo == 10 then 0xD9F75AF1 else if lo == 11 then 0x2B9CD9F2 else
    if lo == 12 then 0xFF56BD19 else if lo == 13 then 0x0D3D3E1A else if lo == 14 then 0x1E6DCDEE else 0xEC064EED
  }

  function Row12(lo: bv32): (r: bv32) {
    if lo == 0 then 0xC38D26C4 else if lo == 1 then 0x31E6A5C7 else
    if lo == 2 then 0x22B65633 else if lo == 3 then 0xD0DDD530 else
    if lo == 4 then 0x0417B1DB else if lo == 5 then 0xF67C32D8 else
    if lo == 6 then 0xE52CC12C else if lo == 7 then 0x1747422F else
    if lo == 8 then 0x49547E0B else if lo == 9 then 0xBB3FFD08 else
    if lo == 10 then 0xA86F0EFC else if lo == 11 then 0x5A048DFF else
    if lo == 12 then 0x8ECEE914 else if lo == 13 then 0x7CA56A17 else if lo == 14 then 0x6FF599E3 else 0x9D9E1AE0
  }

  function Row13(lo: bv32): (r: bv32) {
    if lo == 0 then 0xD3D3E1AB else if lo == 1 then 0x21B862A8 else
    if lo == 2 then 0x32E8915C else if lo == 3 then 0xC083125F else
    if lo == 4 then 0x144976B4 else if lo == 5 then 0xE622F5B7 else
    if lo == 6 then 0xF5720643 else if lo == 7 then 0x07198540 else
    if lo == 8 then 0x590AB964 else if lo == 9 then 0xAB613A67 else
    if lo == 10 then 0xB831C993 else if lo == 11 then 0x4A5A4A90 else
    if lo == 12 then 0x9E902E7B else if lo == 13 then 0x6CFBAD78 else if lo == 14 then 0x7FAB5E8C else 0x8DC0DD8F
  }

  function Row14(lo: bv32): (r: bv32) {
    if lo == 0 then 0xE330A81A else if lo == 1 then 0x115B2B19 else
    if lo == 2 then 0x020BD8ED else if lo == 3 then 0xF0605BEE else
    if lo == 4 then 0x24AA3F05 else if lo == 5 then 0xD6C1BC06 else
    if lo == 6 then 0xC5914FF2 else if lo == 7 then 0x37FACCF1 else
    if lo == 8 then 0x69E9F0D5 else if lo == 9 then 0x9B8273D6 else
    if lo == 10 then 0x88D28022 else if lo == 11 then 0x7AB90321 else
    if lo == 12 then 0xAE7367CA else if lo == 13 then 0x5C18E4C9 else if lo == 14 then 0x4F48173D else 0xBD23943E
  }

  function Row15(lo: bv32): (r: bv32) {
    if lo == 0 then 0xF36E6F75 else if lo == 1 then 0x0105EC76 else
    if lo == 2 then 0x12551F82 else if lo == 3 then 0xE03E9C81 else
    if lo == 4 then 0x34F4F86A else if lo == 5 then 0xC69F7B69 else
    if lo == 6 then 0xD5CF889D else if lo == 7 then 0x27A40B9E else
    if lo == 8 then 0x79B737BA else if lo == 9 then 0x8BDCB4B9 else
    if lo == 10 then 0x988C474D else if lo == 11 then 0x6AE7C44E else
    if lo == 12 then 0xBE2DA0A5 else if lo == 13 then 0x4C4623A6 else if lo == 14 then 0x5F16D052 else 0xAD7D5351
  }

  function Entry(i: bv32): (r: bv32) {
    var hi, lo := i >> 4, i & 0xF;
    if hi == 0 then Row0(lo) else if hi == 1 then Row1(lo) else
    if hi == 2 then Row2(lo) else if hi == 3 then Row3(lo) else
    if hi == 4 then Row4(lo) else if hi == 5 then Row5(lo) else
    if hi == 6 then Row6(lo) else if hi == 7 then Row7(lo) else
    if hi == 8 then Row8(lo) else if hi == 9 then Row9(lo) else
    if hi == 10 then Row10(lo) else if hi == 11 then Row11(lo) else
    if hi == 12 then Row12(lo) else if hi == 13 then Row13(lo) else if hi == 14 then Row14(lo) else Row15(lo)
  }

  lemma EntryQuarter0(i: bv32)
    requires 0 <= i < 64
    ensures Entry(i) == ByteStep(i)
  {
  }

  lemma EntryQuarter1(i: bv32)
    requires 64 <= i < 128
    ensures Entry(i) == ByteStep(i)
  {
  }

  lemma EntryQuarter2(i: bv32)
    requires 128 <= i < 192
    ensures Entry(i) == ByteStep(i)
  {
  }

  lemma EntryQuarter3(i: bv32)
    requires 192 <= i < 256
    ensures Entry(i) == ByteStep(i)
  {
  }

  // Every entry of the table is its own index divided eight bits further.
  lemma EntryIsSteps(i: bv32)
    requires i < 256
    ensures Entry(i) == ByteStep(i)
  {
    if i < 64 {
      EntryQuarter0(i);
    } else if i < 128 {
      EntryQuarter1(i);
    } else if i < 192 {
      EntryQuarter2(i);
    } else {
      EntryQuarter3(i);
    }
  }

  // The table step of the code.
  function TableFeed(c: bv32, b: bv8): (r: bv32) {
    Xor(c >> 8, Entry((c ^ (b as bv32)) & 0xFF))
  }

  lemma TableFeedSteps(c: bv32, b: bv8)
    ensures TableFeed(c, b) == Xor(c >> 8, ByteStep((c ^ (b as bv32)) & 0xFF))
  {
    EntryIsSteps((c ^ (b as bv32)) & 0xFF);
  }

  lemma FeedSplits(c: bv32, b: bv8)
    ensures Xor(c >> 8, ByteStep((c ^ (b as bv32)) & 0xFF)) == Feed(c, b)
  {
  }

  // What the code does with one byte is eight bits of the division.
  lemma TableStep(c: bv32, b: bv8)
    ensures TableFeed(c, b) == Feed(c, b)
  {
    TableFeedSteps(c, b);
    FeedSplits(c, b);
  }

  // -------- one to one --------

  lemma StepInjective(a: bv32, b: bv32)
    requires ByteStep(a) == ByteStep(b)
    ensures a == b
  {
  }

  lemma XorCancels(a: bv32, b: bv32, x: bv32)
    requires Xor(x, a) == Xor(x, b)
    ensures a == b
  {
  }

  lemma ByteInjective(a: bv32, b: bv32, x: bv32)
    requires ByteStep(a ^ x) == ByteStep(b ^ x)
    ensures a == b
  {
    StepInjective(a ^ x, b ^ x);
    assert (a ^ x) ^ x == a;
    assert (b ^ x) ^ x == b;
  }

  lemma FeedInjective(a: bv32, b: bv32, x: bv8)
    requires Feed(a, x) == Feed(b, x)
    ensures a == b
  {
    ByteInjective(a, b, x as bv32);
  }

  // Different registers stay different over the same bytes.
  lemma {:induction false} CrcInjective(a: bv32, b: bv32, s: seq<bv8>)
    requires Crc(a, s) == Crc(b, s)
    ensures a == b
    decreases |s|
  {
    if s != [] {
      CrcInjective(Feed(a, s[0]), Feed(b, s[0]), s[1..]);
      FeedInjective(a, b, s[0]);
    }
  }

  // -------- up to four bytes are one word --------

  // A word from its low byte and the rest, and back.
  function Joined(x: bv32, w: bv32): (r: bv32) {
    x | (w << 8)
  }

  function Low(w: bv32): (r: bv32) {
    w & 0xFF
  }

  function Rest(w: bv32): (r: bv32) {
    w >> 8
  }

  function WordOf(s: seq<bv8>): (w: bv32) {
    if s == [] then 0 else Joined(Wide(s[0]), WordOf(s[1..]))
  }

  lemma JoinedLow(x: bv8, w: bv32)
    ensures Low(Joined(Wide(x), w)) == Wide(x)
  {
  }

  lemma JoinedRest(x: bv8, w: bv32)
    requires w < 0x1000000
    ensures Rest(Joined(Wide(x), w)) == w
  {
  }

  lemma WordFits(s: seq<bv8>)
    ensures |s| <= 3 ==> WordOf(s) < 0x1000000
    ensures |s| <= 2 ==> WordOf(s) < 0x10000
    ensures |s| <= 1 ==> WordOf(s) < 0x100
  {
  }

  lemma WordParts(s: seq<bv8>)
    requires 0 < |s| <= 4
    ensures Low(WordOf(s)) == Wide(s[0])
    ensures Rest(WordOf(s)) == WordOf(s[1..])
  {
    WordFits(s[1..]);
    JoinedLow(s[0], WordOf(s[1..]));
    JoinedRest(s[0], WordOf(s[1..]));
  }

  lemma WideInjective(x: bv8, y: bv8)
    requires Wide(x) == Wide(y)
    ensures x == y
  {
  }

  lemma {:induction false} WordInjective(s: seq<bv8>, t: seq<bv8>)
    requires |s| == |t| <= 4
    requires WordOf(s) == WordOf(t)
    ensures s == t
  {
    if s != [] {
      WordParts(s);
      WordParts(t);
      WordInjective(s[1..], t[1..]);
      WideInjective(s[0], t[0]);
      assert s == [s[0]] + s[1..] && t == [t[0]] + t[1..];
    }
  }

  function Stepped(v: bv32, n: nat): (r: bv32)
    decreases n
  {
    if n == 0 then v else Stepped(ByteStep(v), n - 1)
  }

  lemma AbsorbsBits(c: bv32, w: bv32)
    ensures Xor(ByteStep(c ^ (w & 0xFF)), w >> 8) == ByteStep(c ^ w)
  {
  }

  lemma AbsorbsLow(c: bv32, w: bv32)
    ensures Xor(ByteStep(Xor(c, Low(w))), Rest(w)) == ByteStep(Xor(c, w))
  {
    AbsorbsBits(c, w);
    assert Xor(c, Low(w)) == c ^ (w & 0xFF);
    assert Xor(c, w) == c ^ w;
  }

  lemma Absorbs(c: bv32, s: seq<bv8>)
    requires 0 < |s| <= 4
    ensures Xor(Feed(c, s[0]), WordOf(s[1..])) == ByteStep(Xor(c, WordOf(s)))
  {
    WordParts(s);
    AbsorbsLow(c, WordOf(s));
    FeedIs(c, s[0]);
  }

  // Taking up to four bytes one at a time is taking them all into the register at once.
  lemma {:induction false} CrcOfWord(c: bv32, s: seq<bv8>)
    requires |s| <= 4
    ensures Crc(c, s) == Stepped(Xor(c, WordOf(s)), |s|)
    decreases |s|
  {
    if s != [] {
      CrcOfWord(Feed(c, s[0]), s[1..]);
      Absorbs(c, s);
    }
  }

  lemma {:induction false} SteppedInjective(a: bv32, b: bv32, n: nat)
    requires Stepped(a, n) == Stepped(b, n)
    ensures a == b
    decreases n
  {
    if n > 0 {
      SteppedInjective(ByteStep(a), ByteStep(b), n - 1);
      StepInjective(a, b);
    }
  }

  lemma WindowInjective(c: bv32, s: seq<bv8>, t: seq<bv8>)
    requires |s| == |t| <= 4
    requires Crc(c, s) == Crc(c, t)
    ensures s == t
  {
    CrcOfWord(c, s);
    CrcOfWord(c, t);
    SteppedInjective(Xor(c, WordOf(s)), Xor(c, WordOf(t)), |s|);
    XorCancels(WordOf(s), WordOf(t), c);
    WordInjective(s, t);
  }

  // Any change confined to four consecutive bytes changes the register.
  lemma BurstDetected(c: bv32, before: seq<bv8>, s: seq<bv8>, t: seq<bv8>, after: seq<bv8>)
    requires |s| == |t| <= 4
    requires s != t
    ensures Crc(c, before + s + after) != Crc(c, before + t + after)
  {
    CrcConcat(c, before + s, after);
    CrcConcat(c, before, s);
    CrcConcat(c, before + t, after);
    CrcConcat(c, before, t);
    if Crc(c, before + s + after) == Crc(c, before + t + after) {
      CrcInjective(Crc(c, before + s), Crc(c, before + t), after);
      WindowInjective(Crc(c, before), s, t);
    }
  }

  // -------- the stored checksum --------

  function LittleEndian(w: bv32): (s: seq<bv8>)
    ensures |s| == 4
  {
    [(w & 0xFF) as bv8, ((w >> 8) & 0xFF) as bv8, ((w >> 16) & 0xFF) as bv8, ((w >> 24) & 0xFF) as bv8]
  }

  // The checksum behind a packet that leaves the register c: its complement, low byte first.
  function StoredFor(c: bv32): (s: seq<bv8>)
    ensures |s| == 4
  {
    LittleEndian(!c)
  }

  // The bytes of a word in network order, which is how htonl leaves them in memory.
  function BigEndian(w: bv32): (s: seq<bv8>)
    ensures |s| == 4
  {
    [((w >> 24) & 0xFF) as bv8, ((w >> 16) & 0xFF) as bv8, ((w >> 8) & 0xFF) as bv8, (w & 0xFF) as bv8]
  }

  lemma OneMoreByte(packet: seq<bv8>, i: nat, crc: bv32)
    requires i < |packet|
    requires crc == Crc(0xFFFFFFFF, packet[..i])
    ensures TableFeed(crc, packet[i]) == Crc(0xFFFFFFFF, packet[..i + 1])
  {
    TableStep(crc, packet[i]);
    CrcConcat(0xFFFFFFFF, packet[..i], [packet[i]]);
    assert packet[..i + 1] == packet[..i] + [packet[i]];
  }

  function Reassembled(w: bv32): (r: bv32)
    ensures BigEndian(r) == LittleEndian(w)
  {
    ((w & 0xFF) << 24) | (((w >> 8) & 0xFF) << 16) | (((w >> 16) & 0xFF) << 8) | ((w >> 24) & 0xFF)
  }

  method SctpCrc32c(packet: seq<bv8>) returns (stored: seq<bv8>)
    ensures stored == StoredFor(Crc(0xFFFFFFFF, packet))
  {
    var crc: bv32 := 0xFFFFFFFF;
    for i := 0 to |packet|
      invariant crc == Crc(0xFFFFFFFF, packet[..i])
    {
      OneMoreByte(packet, i, crc);
      crc := TableFeed(crc, packet[i]);
    }
    assert packet[..|packet|] == packet;
    stored := BigEndian(Reassembled(!crc));
  }

  // The register a correct packet with its checksum behind it always ends in.
  const RESIDUE: bv32 := 0xB798B438

  lemma WordOfFour(a: bv8, b: bv8, c: bv8, d: bv8)
    ensures WordOf([a, b, c, d]) == Joined(Wide(a), Joined(Wide(b), Joined(Wide(c), Joined(Wide(d), 0))))
  {
    assert [a, b, c, d][1..] == [b, c, d];
    assert [b, c, d][1..] == [c, d];
    assert [c, d][1..] == [d];
    assert WordOf([d]) == Joined(Wide(d), 0);
    assert WordOf([c, d]) == Joined(Wide(c), WordOf([d]));
    assert WordOf([b, c, d]) == Joined(Wide(b), WordOf([c, d]));
  }

  lemma WordOfLittleEndian(w: bv32)
    ensures WordOf(LittleEndian(w)) == w
  {
    var s := LittleEndian(w);
    WordOfFour(s[0], s[1], s[2], s[3]);
    assert s == [s[0], s[1], s[2], s[3]];
  }

  lemma Complement(c: bv32)
    ensures Xor(c, !c) == 0xFFFFFFFF
  {
  }

  lemma ResidueIs()
    ensures Stepped(0xFFFFFFFF, 4) == RESIDUE
  {
  }

  lemma StoredEndsInResidue(c: bv32)
    ensures Crc(c, StoredFor(c)) == RESIDUE
  {
    var right := LittleEndian(!c);
    CrcOfWord(c, right);
    WordOfLittleEndian(!c);
    Complement(c);
    ResidueIs();
  }

  lemma OnlyOneTail(c: bv32, tail: seq<bv8>, right: seq<bv8>)
    requires |tail| == |right| == 4
    requires Crc(c, right) == RESIDUE
    ensures Crc(c, tail) == RESIDUE <==> tail == right
  {
    if Crc(c, tail) == RESIDUE {
      WindowInjective(c, tail, right);
    }
  }

  // Four bytes behind a packet bring the register to the residue just when they are its checksum.
  lemma AcceptedIffStored(packet: seq<bv8>, tail: seq<bv8>)
    requires |tail| == 4
    ensures Crc(0xFFFFFFFF, packet + tail) == RESIDUE <==> tail == StoredFor(Crc(0xFFFFFFFF, packet))
  {
    CrcConcat(0xFFFFFFFF, packet, tail);
    StoredEndsInResidue(Crc(0xFFFFFFFF, packet));
    OnlyOneTail(Crc(0xFFFFFFFF, packet), tail, StoredFor(Crc(0xFFFFFFFF, packet)));
  }
}
