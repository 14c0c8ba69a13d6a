/**
  The operations of MD5 on words of 32 bits, pinned bit by bit and byte by byte.
 */
module Word32 {

  const TOP: bv32 := 0x8000_0000

  // Bit j, moved to the top.
  predicate Bit(x: bv32, j: bv32)
    requires j < 32
  {
    x << (31 - j) >= TOP
  }

  // -------- mixing --------

  // The four mixing functions as the code has them.
  function F(x: bv32, y: bv32, z: bv32): (r: bv32) {
    (x & (y ^ z)) ^ z
  }

  function G(x: bv32, y: bv32, z: bv32): (r: bv32) {
    y ^ ((x ^ y) & z)
  }

  function H(x: bv32, y: bv32, z: bv32): (r: bv32) {
    x ^ y ^ z
  }

  function I(x: bv32, y: bv32, z: bv32): (r: bv32) {
    y ^ (x | !z)
  }

  // The two that section 3.4 of RFC 1321 writes differently.
  function RfcF(x: bv32, y: bv32, z: bv32): (r: bv32) {
    (x & y) | (!x & z)
  }

  function RfcG(x: bv32, y: bv32, z: bv32): (r: bv32) {
    (x & z) | (y & !z)
  }

  lemma FIsRfc(x: bv32, y: bv32, z: bv32)
    ensures F(x, y, z) == RfcF(x, y, z)
  {
    assert (x & (y ^ z)) ^ z == (x & y) | (!x & z);
  }

  lemma GIsRfc(x: bv32, y: bv32, z: bv32)
    ensures G(x, y, z) == RfcG(x, y, z)
  {
    assert y ^ ((x ^ y) & z) == (x & z) | (y & !z);
  }

  // The other two in each bit: the parity of the three, and y against x or not z.
  lemma ParityBit(x: bv32, y: bv32, z: bv32, j: bv32)
    requires j < 32
    ensures ((x ^ y ^ z) << (31 - j) >= TOP)
         == (((x << (31 - j) >= TOP) != (y << (31 - j) >= TOP)) != (z << (31 - j) >= TOP))
  {
  }

  lemma HBits(x: bv32, y: bv32, z: bv32, j: bv32)
    requires j < 32
    ensures Bit(H(x, y, z), j) == ((Bit(x, j) != Bit(y, j)) != Bit(z, j))
  {
    ParityBit(x, y, z, j);
  }

  lemma AgainstBit(x: bv32, y: bv32, z: bv32, j: bv32)
    requires j < 32
    ensures ((y ^ (x | !z)) << (31 - j) >= TOP)
         == ((y << (31 - j) >= TOP) != ((x << (31 - j) >= TOP) || !(z << (31 - j) >= TOP)))
  {
  }

  lemma IBits(x: bv32, y: bv32, z: bv32, j: bv32)
    requires j < 32
    ensures Bit(I(x, y, z), j) == (Bit(y, j) != (Bit(x, j) || !Bit(z, j)))
  {
    AgainstBit(x, y, z, j);
  }

  // -------- rotation --------

  type Shift = s: bv32 | 0 < s < 32 witness 1

  function RotateLeft(x: bv32, s: Shift): (r: bv32) {
    (x << s) | (x >> (32 - s))
  }

  lemma MovedUp(x: bv32, s: bv32, j: bv32)
    requires 0 < s < 32 && j < 32 - s
    ensures (((x << s) | (x >> (32 - s))) << (31 - (j + s)) >= TOP) == (x << (31 - j) >= TOP)
  {
  }

  lemma MovedRound(x: bv32, s: bv32, j: bv32)
    requires 0 < s < 32 && 32 - s <= j < 32
    ensures (((x << s) | (x >> (32 - s))) << (31 - (j + s - 32)) >= TOP) == (x << (31 - j) >= TOP)
  {
  }

  // Every bit moves s places up, the top ones round to the bottom.
  lemma RotateLeftBits(x: bv32, s: Shift, j: bv32)
    requires j < 32
    ensures j < 32 - s ==> Bit(RotateLeft(x, s), j + s) == Bit(x, j)
    ensures 32 - s <= j ==> Bit(RotateLeft(x, s), j + s - 32) == Bit(x, j)
  {
    if j < 32 - s {
      MovedUp(x, s, j);
    } else {
      MovedRound(x, s, j);
    }
  }

  // -------- bytes --------

  function FromBytes(x0: bv8, x1: bv8, x2: bv8, x3: bv8): (w: bv32) {
    (x0 as bv32) | ((x1 as bv32) << 8) | ((x2 as bv32) << 16) | ((x3 as bv32) << 24)
  }

  lemma JoinBytes(x: bv8, y: bv8)
    ensures ((x as bv16) | (y as bv16 << 8)) as int == x as int + 256 * (y as int)
  {
  }

  lemma JoinHalves(x: bv16, y: bv16)
    ensures ((x as bv32) | (y as bv32 << 16)) as int == x as int + 65536 * (y as int)
  {
  }

  lemma ByHalves(x0: bv8, x1: bv8, x2: bv8, x3: bv8, low: bv16, high: bv16)
    requires low == (x0 as bv16) | (x1 as bv16 << 8) && high == (x2 as bv16) | (x3 as bv16 << 8)
    ensures FromBytes(x0, x1, x2, x3) == (low as bv32) | (high as bv32 << 16)
  {
  }

  // The number the bytes stand for, low byte first.
  lemma FromBytesValue(x0: bv8, x1: bv8, x2: bv8, x3: bv8)
    ensures FromBytes(x0, x1, x2, x3) as int
         == x0 as int + 256 * (x1 as int) + 65536 * (x2 as int) + 16777216 * (x3 as int)
  {
    var low, high := (x0 as bv16) | (x1 as bv16 << 8), (x2 as bv16) | (x3 as bv16 << 8);
    ByHalves(x0, x1, x2, x3, low, high);
    JoinBytes(x0, x1);
    JoinBytes(x2, x3);
    JoinHalves(low, high);
  }
}
