/**
  The MD5 digest of the file-sharing example: the compression of one block against the
  formulas of RFC 1321, and the buffering of a message that arrives in pieces.
 */
module Md5 {
  import opened Common
  import opened Word32

  const BLOCK := 64

  // -------- one block --------

  // The four registers.
  datatype Registers<T> = Registers(a: T, b: T, c: T, d: T)

  type Words = Registers<bv32>

  const INIT: Words := Registers(0x67452301, 0xefcdab89, 0x98badcfe, 0x10325476)

  // One line of the schedule: the word of the block it takes, the rotation and the constant.
  datatype Line = Line(k: nat, s: Shift, t: bv32)

  function FirstLines(j: nat): (r: Line) {
    if j == 0 then Line(0, 7, 0xd76aa478) else if j == 1 then Line(1, 12, 0xe8c7b756) else
    if j == 2 then Line(2, 17, 0x242070db) else if j == 3 then Line(3, 22, 0xc1bdceee) else
    if j == 4 then Line(4, 7, 0xf57c0faf) else if j == 5 then Line(5, 12, 0x4787c62a) else
    if j == 6 then Line(6, 17, 0xa8304613) else if j == 7 then Line(7, 22, 0xfd469501) else
    if j == 8 then Line(8, 7, 0x698098d8) else if j == 9 then Line(9, 12, 0x8b44f7af) else
    if j == 10 then Line(10, 17, 0xffff5bb1) else if j == 11 then Line(11, 22, 0x895cd7be) else
    if j == 12 then Line(12, 7, 0x6b901122) else if j == 13 then Line(13, 12, 0xfd987193) else
    if j == 14 then Line(14, 17, 0xa679438e) else Line(15, 22, 0x49b40821)
  }

  function SecondLines(j: nat): (r: Line) {
    if j == 0 then Line(1, 5, 0xf61e2562) else if j == 1 then Line(6, 9, 0xc040b340) else
    if j == 2 then Line(11, 14, 0x265e5a51) else if j == 3 then Line(0, 20, 0xe9b6c7aa) else
    if j == 4 then Line(5, 5, 0xd62f105d) else if j == 5 then Line(10, 9, 0x02441453) else
    if j == 6 then Line(15, 14, 0xd8a1e681) else if j == 7 then Line(4, 20, 0xe7d3fbc8) else
    if j == 8 then Line(9, 5, 0x21e1cde6) else if j == 9 then Line(14, 9, 0xc33707d6) else
    if j == 10 then Line(3, 14, 0xf4d50d87) else if j == 11 then Line(8, 20, 0x455a14ed) else
    if j == 12 then Line(13, 5, 0xa9e3e905) else if j == 13 then Line(2, 9, 0xfcefa3f8) else
    if j == 14 then Line(7, 14, 0x676f02d9) else Line(12, 20, 0x8d2a4c8a)
  }

  function ThirdLines(j: nat): (r: Line) {
    if j == 0 then Line(5, 4, 0xfffa3942) else if j == 1 then Line(8, 11, 0x8771f681) else
    if j == 2 then Line(11, 16, 0x6d9d6122) else if j == 3 then Line(14, 23, 0xfde5380c) else
    if j == 4 then Line(1, 4, 0xa4beea44) else if j == 5 then Line(4, 11, 0x4bdecfa9) else
    if j == 6 then Line(7, 16, 0xf6bb4b60) else if j == 7 then Line(10, 23, 0xbebfbc70) else
    if j == 8 then Line(13, 4, 0x289b7ec6) else if j == 9 then Line(0, 11, 0xeaa127fa) else
    if j == 10 then Line(3, 16, 0xd4ef3085) else if j == 11 then Line(6, 23, 0x04881d05) else
    if j == 12 then Line(9, 4, 0xd9d4d039) else if j == 13 then Line(12, 11, 0xe6db99e5) else
    if j == 14 then Line(15, 16, 0x1fa27cf8) else Line(2, 23, 0xc4ac5665)
  }

  function FourthLines(j: nat): (r: Line) {
    if j == 0 then Line(0, 6, 0xf4292244) else if j == 1 then Line(7, 10, 0x432aff97) else
    if j == 2 then Line(14, 15, 0xab9423a7) else if j == 3 then Line(5, 21, 0xfc93a039) else
    if j == 4 then Line(12, 6, 0x655b59c3) else if j == 5 then Line(3, 10, 0x8f0ccc92) else
    if j == 6 then Line(10, 15, 0xffeff47d) else if j == 7 then Line(1, 21, 0x85845dd1) else
    if j == 8 then Line(8, 6, 0x6fa87e4f) else if j == 9 then Line(15, 10, 0xfe2ce6e0) else
    if j == 10 then Line(6, 15, 0xa3014314) else if j == 11 then Line(13, 21, 0x4e0811a1) else
    if j == 12 then Line(4, 6, 0xf7537e82) else if j == 13 then Line(11, 10, 0xbd3af235) else
    if j == 14 then Line(2, 15, 0x2ad7d2bb) else Line(9, 21, 0xeb86d391)
  }

  function Schedule(i: nat): (r: Line)
    requires i < 64
  {
    if i < 16 then FirstLines(i) else if i < 32 then SecondLines(i - 16)
    else if i < 48 then ThirdLines(i - 32) else FourthLines(i - 48)
  }

  // The columns of the schedule follow section 3.4 of RFC 1321.
  function Pick(j: nat, a: Shift, b: Shift, c: Shift, d: Shift): (r: Shift) {
    if j == 0 then a else if j == 1 then b else if j == 2 then c else d
  }

  function WordIndex(i: nat): (k: nat)
    requires i < 64
    ensures k < 16
  {
    if i < 16 then i else if i < 32 then (5 * (i - 16) + 1) % 16
    else if i < 48 then (3 * (i - 32) + 5) % 16 else 7 * (i - 48) % 16
  }

  function Rotation(i: nat): (s: Shift)
    requires i < 64
  {
    if i < 16 then Pick(i % 4, 7, 12, 17, 22) else if i < 32 then Pick((i - 16) % 4, 5, 9, 14, 20)
    else if i < 48 then Pick((i - 32) % 4, 4, 11, 16, 23) else Pick((i - 48) % 4, 6, 10, 15, 21)
  }

  lemma ModuloFour(j: nat)
    requires j < 16
    ensures j % 4 == if j < 4 then j else if j < 8 then j - 4 else if j < 12 then j - 8 else j - 12
  {
  }

  lemma FirstWordsFollowRfc(j: nat)
    requires j < 16
    ensures FirstLines(j).k == j
  {
  }

  lemma FirstShiftsFollowRfc(j: nat)
    requires j < 16
    ensures FirstLines(j).s == Pick(j % 4, 7, 12, 17, 22)
  {
    ModuloFour(j);
  }

  lemma SecondWordsFollowRfc(j: nat)
    requires j < 16
    ensures SecondLines(j).k == (5 * j + 1) % 16
  {
  }

  lemma SecondShiftsFollowRfc(j: nat)
    requires j < 16
    ensures SecondLines(j).s == Pick(j % 4, 5, 9, 14, 20)
  {
    ModuloFour(j);
  }

  lemma ThirdWordsFollowRfc(j: nat)
    requires j < 16
    ensures ThirdLines(j).k == (3 * j + 5) % 16
  {
  }

  lemma ThirdShiftsFollowRfc(j: nat)
    requires j < 16
    ensures ThirdLines(j).s == Pick(j % 4, 4, 11, 16, 23)
  {
    ModuloFour(j);
  }

  lemma FourthWordsFollowRfc(j: nat)
    requires j < 16
    ensures FourthLines(j).k == 7 * j % 16
  {
  }

  lemma FourthShiftsFollowRfc(j: nat)
    requires j < 16
    ensures FourthLines(j).s == Pick(j % 4, 6, 10, 15, 21)
  {
    ModuloFour(j);
  }

  lemma FirstQuarter(i: nat)
    requires 0 <= i < 16
    ensures Schedule(i).k == WordIndex(i) && Schedule(i).s == Rotation(i)
  {
    FirstWordsFollowRfc(i);
    FirstShiftsFollowRfc(i);
  }

  lemma SecondQuarter(i: nat)
    requires 16 <= i < 32
    ensures Schedule(i).k == WordIndex(i) && Schedule(i).s == Rotation(i)
  {
    SecondWordsFollowRfc(i - 16);
    SecondShiftsFollowRfc(i - 16);
  }

  lemma ThirdQuarter(i: nat)
    requires 32 <= i < 48
    ensures Schedule(i).k == WordIndex(i) && Schedule(i).s == Rotation(i)
  {
    ThirdWordsFollowRfc(i - 32);
    ThirdShiftsFollowRfc(i - 32);
  }

  lemma FourthQuarter(i: nat)
    requires 48 <= i < 64
    ensures Schedule(i).k == WordIndex(i) && Schedule(i).s == Rotation(i)
  {
    FourthWordsFollowRfc(i - 48);
    FourthShiftsFollowRfc(i - 48);
  }

  lemma ScheduleFollowsRfc(i: nat)
    requires i < 64
    ensures Schedule(i).k == WordIndex(i) && Schedule(i).s == Rotation(i)
  {
    if i < 16 {
      FirstQuarter(i);
    } else if i < 32 {
      SecondQuarter(i);
    } else if i < 48 {
      ThirdQuarter(i);
    } else {
      FourthQuarter(i);
    }
  }

  // The mixing functions of the four passes, as the code has them and as the RFC writes them.
  function Mix(i: nat, x: bv32, y: bv32, z: bv32): (r: bv32) {
    if i < 16 then F(x, y, z) else if i < 32 then G(x, y, z) else if i < 48 then H(x, y, z) else I(x, y, z)
  }

  function RfcMix(i: nat, x: bv32, y: bv32, z: bv32): (r: bv32) {
    if i < 16 then RfcF(x, y, z) else if i < 32 then RfcG(x, y, z)
    else if i < 48 then H(x, y, z) else I(x, y, z)
  }

  lemma MixIsRfcMix(i: nat, x: bv32, y: bv32, z: bv32)
    ensures Mix(i, x, y, z) == RfcMix(i, x, y, z)
  {
    FIsRfc(x, y, z);
    GIsRfc(x, y, z);
  }

  // -------- rounds --------

  type Mixer = (nat, bv32, bv32, bv32) -> bv32

  type Rotate = (bv32, Shift) -> bv32

  // The new value of a register; the rotation is a parameter.
  function Renewed(rotate: Rotate, a: bv32, b: bv32, mixed: bv32, word: bv32, s: Shift, t: bv32): (r: bv32) {
    b + rotate(a + mixed + word + t, s)
  }

  // The formula of the RFC for the value after those of which q1 is the latest and q4 the oldest.
  function RfcNext(rotate: Rotate, q1: bv32, q4: bv32, mixed: bv32, word: bv32, s: Shift, t: bv32): (r: bv32) {
    q1 + rotate(q4 + mixed + word + t, s)
  }

  lemma RenewedIsRfc(rotate: Rotate, a: bv32, b: bv32, mixed: bv32, word: bv32, s: Shift, t: bv32)
    ensures Renewed(rotate, a, b, mixed, word, s, t) == RfcNext(rotate, b, a, mixed, word, s, t)
  {
  }

  function Turn(rotate: Rotate, mix: Mixer, x: seq<bv32>, i: nat, a: bv32, b: bv32, c: bv32, d: bv32): (r: bv32)
    requires i < 64 && |x| == 16
  {
    ScheduleFollowsRfc(i);
    var l := Schedule(i);
    Renewed(rotate, a, b, mix(i, b, c, d), x[l.k], l.s, l.t)
  }

  function RfcTurn(rotate: Rotate, mix: Mixer, x: seq<bv32>, i: nat, q1: bv32, q2: bv32, q3: bv32, q4: bv32): (r: bv32)
    requires i < 64 && |x| == 16
  {
    RfcNext(rotate, q1, q4, mix(i, q1, q2, q3), x[WordIndex(i)], Rotation(i), Schedule(i).t)
  }

  lemma TurnIsRfc(rotate: Rotate, mix: Mixer, mix': Mixer, x: seq<bv32>, i: nat, a: bv32, b: bv32, c: bv32, d: bv32)
    requires i < 64 && |x| == 16 && mix(i, b, c, d) == mix'(i, b, c, d)
    ensures Turn(rotate, mix, x, i, a, b, c, d) == RfcTurn(rotate, mix', x, i, b, c, d, a)
  {
    ScheduleFollowsRfc(i);
    var l := Schedule(i);
    RenewedIsRfc(rotate, a, b, mix(i, b, c, d), x[l.k], l.s, l.t);
  }

  // What a round makes of the registers in its order.
  type Turner<!T> = (nat, T, T, T, T) -> T

  // One round of the code. The register it rewrites is a, d, c, b in turn, and the others play
  // their parts in the order that follows.
  function Round<T>(turn: Turner<T>, i: nat, w: Registers<T>): (r: Registers<T>) {
    if i % 4 == 0 then w.(a := turn(i, w.a, w.b, w.c, w.d))
    else if i % 4 == 1 then w.(d := turn(i, w.d, w.a, w.b, w.c))
    else if i % 4 == 2 then w.(c := turn(i, w.c, w.d, w.a, w.b))
    else w.(b := turn(i, w.b, w.c, w.d, w.a))
  }

  // The first n rounds.
  function Rounds<T>(turn: Turner<T>, n: nat, w: Registers<T>): (r: Registers<T>) {
    if n == 0 then w else Round(turn, n - 1, Rounds(turn, n - 1, w))
  }

  // The rounds without registers, as the values they compute: the four given ones and then one a
  // round, from the four before it.
  function RfcValues<T>(turn: Turner<T>, n: nat, w: Registers<T>): (q: seq<T>)
    ensures |q| == n + 4
  {
    if n == 0 then [w.a, w.d, w.c, w.b]
    else
      var q := RfcValues(turn, n - 1, w);
      q + [turn(n - 1, q[n + 2], q[n + 1], q[n], q[n - 1])]
  }

  // The registers hold the last four values, each in the place where its turn came.
  ghost predicate Holds<T>(n: nat, v: Registers<T>, q: seq<T>)
    requires |q| == n + 4
  {
    if n % 4 == 0 then [v.a, v.d, v.c, v.b] == q[n..]
    else if n % 4 == 1 then [v.d, v.c, v.b, v.a] == q[n..]
    else if n % 4 == 2 then [v.c, v.b, v.a, v.d] == q[n..]
    else [v.b, v.a, v.d, v.c] == q[n..]
  }

  // The same round, with its operands in the order of the code and in that of their age.
  ghost predicate Agree<T(!new)>(turn: Turner<T>, turn': Turner<T>) {
    forall i, a, b, c, d :: i < 64 ==> turn(i, a, b, c, d) == turn'(i, b, c, d, a)
  }

  lemma RoundHolds<T(!new)>(turn: Turner<T>, turn': Turner<T>, i: nat, v: Registers<T>, q: seq<T>)
    requires Agree(turn, turn') && i < 64 && |q| == i + 4 && Holds(i, v, q)
    ensures Holds(i + 1, Round(turn, i, v), q + [turn'(i, q[i + 3], q[i + 2], q[i + 1], q[i])])
  {
    var q4, q3, q2, q1 := q[i], q[i + 1], q[i + 2], q[i + 3];
    assert q[i..] == [q4, q3, q2, q1];
    var last := turn(i, q4, q1, q2, q3);
    assert (q + [last])[i + 1..] == [q3, q2, q1, last];
  }

  // Register by register, the code computes the values of the RFC.
  lemma {:induction false} RoundsHold<T(!new)>(turn: Turner<T>, turn': Turner<T>, n: nat, w: Registers<T>)
    requires Agree(turn, turn') && n <= 64
    ensures Holds(n, Rounds(turn, n, w), RfcValues(turn', n, w))
  {
    if n > 0 {
      RoundsHold(turn, turn', n - 1, w);
      RoundHolds(turn, turn', n - 1, Rounds(turn, n - 1, w), RfcValues(turn', n - 1, w));
    }
  }

  // -------- bytes --------

  type Block = b: seq<bv8> | |b| == BLOCK witness seq(BLOCK, i => 0)

  // The number a sequence of bytes stands for, low byte first.
  function LittleEndian(s: seq<bv8>): (n: nat) {
    if s == [] then 0 else s[0] as int + 256 * LittleEndian(s[1..])
  }

  function Word(b: Block, k: nat): (w: bv32)
    requires k < 16
  {
    FromBytes(b[4 * k], b[4 * k + 1], b[4 * k + 2], b[4 * k + 3])
  }

  lemma FourBytesValue(s: seq<bv8>)
    requires |s| == 4
    ensures LittleEndian(s) == s[0] as int + 256 * (s[1] as int) + 65536 * (s[2] as int) + 16777216 * (s[3] as int)
  {
    assert s[1..][1..] == s[2..] && s[2..][1..] == s[3..] && s[3..][1..] == [];
    assert LittleEndian(s[2..]) == s[2] as int + 256 * LittleEndian(s[3..]);
  }

  // The words of a block are its bytes by fours, low byte first.
  lemma WordValue(b: Block, k: nat)
    requires k < 16
    ensures Word(b, k) as int == LittleEndian(b[4 * k..4 * k + 4])
  {
    var s := b[4 * k..4 * k + 4];
    FourBytesValue(s);
    FromBytesValue(s[0], s[1], s[2], s[3]);
  }

  // Section 3.3 of RFC 1321 gives the first registers as bytes, low byte first.
  lemma InitIsRfc()
    ensures INIT.a as int == LittleEndian([0x01, 0x23, 0x45, 0x67])
    ensures INIT.b as int == LittleEndian([0x89, 0xab, 0xcd, 0xef])
    ensures INIT.c as int == LittleEndian([0xfe, 0xdc, 0xba, 0x98])
    ensures INIT.d as int == LittleEndian([0x76, 0x54, 0x32, 0x10])
  {
    FourBytesValue([0x01, 0x23, 0x45, 0x67]);
    FourBytesValue([0x89, 0xab, 0xcd, 0xef]);
    FourBytesValue([0xfe, 0xdc, 0xba, 0x98]);
    FourBytesValue([0x76, 0x54, 0x32, 0x10]);
  }

  function WordsOf(b: Block): (x: seq<bv32>)
    ensures |x| == 16
  {
    seq(16, k requires 0 <= k < 16 => Word(b, k))
  }

  // A round of MD5 on the words of a block, as the code and as the RFC has it.
  function BlockTurn(x: seq<bv32>): (turn: Turner<bv32>)
    requires |x| == 16
  {
    (i: nat, a, b, c, d) => if i < 64 then Turn(RotateLeft, Mix, x, i, a, b, c, d) else 0
  }

  function RfcBlockTurn(x: seq<bv32>): (turn: Turner<bv32>)
    requires |x| == 16
  {
    (i: nat, q1, q2, q3, q4) => if i < 64 then RfcTurn(RotateLeft, RfcMix, x, i, q1, q2, q3, q4) else 0
  }

  lemma TurnsAgree(x: seq<bv32>)
    requires |x| == 16
    ensures Agree(BlockTurn(x), RfcBlockTurn(x))
  {
    forall i: nat, a: bv32, b: bv32, c: bv32, d: bv32 | i < 64
      ensures BlockTurn(x)(i, a, b, c, d) == RfcBlockTurn(x)(i, b, c, d, a)
    {
      MixIsRfcMix(i, b, c, d);
      TurnIsRfc(RotateLeft, Mix, RfcMix, x, i, a, b, c, d);
    }
  }

  function Plus(x: bv32, y: bv32): (r: bv32) {
    x + y
  }

  function Sum<T>(plus: (T, T) -> T, v: Registers<T>, w: Registers<T>): (r: Registers<T>) {
    Registers(plus(v.a, w.a), plus(v.b, w.b), plus(v.c, w.c), plus(v.d, w.d))
  }

  // Four passes over the sixteen words of the block, added to what was there.
  function Compress(w: Words, b: Block): (r: Words) {
    var x := WordsOf(b);
    Sum(Plus, w, Rounds(BlockTurn(x), 4 * |x|, w))
  }

  // The last four values, added to the registers they belong to.
  function RfcSum<T>(plus: (T, T) -> T, w: Registers<T>, n: nat, q: seq<T>): (r: Registers<T>)
    requires |q| == n + 4
  {
    Registers(plus(w.a, q[n]), plus(w.b, q[n + 3]), plus(w.c, q[n + 2]), plus(w.d, q[n + 1]))
  }

  function RfcCompress(w: Words, b: Block): (r: Words) {
    var x := seq(16, k requires 0 <= k < 16 => Word(b, k));
    RfcSum((y, z) => y + z, w, 4 * |x|, RfcValues(RfcBlockTurn(x), 4 * |x|, w))
  }

  lemma SumIsRfc<T(!new)>(plus: (T, T) -> T, plus': (T, T) -> T, turn: Turner<T>, turn': Turner<T>, n: nat,
                          w: Registers<T>)
    requires Agree(turn, turn') && n <= 64 && n % 4 == 0 && forall x, y :: plus(x, y) == plus'(x, y)
    ensures Sum(plus, w, Rounds(turn, n, w)) == RfcSum(plus', w, n, RfcValues(turn', n, w))
  {
    RoundsHold(turn, turn', n, w);
    LastFour(n, Rounds(turn, n, w), RfcValues(turn', n, w));
  }

  lemma LastFour<T>(n: nat, v: Registers<T>, q: seq<T>)
    requires n % 4 == 0 && |q| == n + 4 && Holds(n, v, q)
    ensures v == Registers(q[n], q[n + 3], q[n + 2], q[n + 1])
  {
    assert q[n..] == [q[n], q[n + 1], q[n + 2], q[n + 3]];
  }

  lemma CompressIsRfc(w: Words, b: Block)
    ensures Compress(w, b) == RfcCompress(w, b)
  {
    var x := WordsOf(b);
    assert x == seq(16, k requires 0 <= k < 16 => Word(b, k));
    TurnsAgree(x);
    SumIsRfc(Plus, (y, z) => y + z, BlockTurn(x), RfcBlockTurn(x), 4 * |x|, w);
  }
}
