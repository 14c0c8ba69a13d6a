/**
  The digest object: a message arrives in pieces of any length, whole blocks go into the state
  and less than a block waits in a buffer. Hashing in pieces is hashing the whole message, and
  the padding is that of section 3.1 of RFC 1321 except at one length in sixty-four.
 */
module Md5Stream {
  import opened Common
  import opened Md5

  // -------- whole blocks --------

  function Absorbed<W>(step: (W, Block) -> W, w: W, data: seq<bv8>): (r: W)
    decreases |data|
  {
    if |data| < BLOCK then w else Absorbed(step, step(w, data[..BLOCK]), data[BLOCK..])
  }

  lemma {:induction false} AbsorbedConcat<W>(step: (W, Block) -> W, w: W, s: seq<bv8>, t: seq<bv8>)
    requires |s| % BLOCK == 0
    ensures Absorbed(step, w, s + t) == Absorbed(step, Absorbed(step, w, s), t)
    decreases |s|
  {
    if s == [] {
      assert s + t == t;
    } else {
      assert (s + t)[..BLOCK] == s[..BLOCK] && (s + t)[BLOCK..] == s[BLOCK..] + t;
      AbsorbedConcat(step, step(w, s[..BLOCK]), s[BLOCK..], t);
    }
  }

  lemma AbsorbsBlock<W>(step: (W, Block) -> W, w: W, data: seq<bv8>, n: nat)
    requires n + BLOCK <= |data|
    ensures Absorbed(step, w, data[n..]) == Absorbed(step, step(w, data[n..n + BLOCK]), data[n + BLOCK..])
  {
    assert data[n..][..BLOCK] == data[n..n + BLOCK] && data[n..][BLOCK..] == data[n + BLOCK..];
  }

  // The loop of the code over the blocks of data.
  method AbsorbBlocks<W>(step: (W, Block) -> W, w: W, data: seq<bv8>) returns (r: W)
    requires |data| % BLOCK == 0
    ensures r == Absorbed(step, w, data)
  {
    r := w;
    for i := 0 to |data| / BLOCK
      invariant Absorbed(step, r, data[i * BLOCK..]) == Absorbed(step, w, data)
    {
      AbsorbsBlock(step, r, data, i * BLOCK);
      r := step(r, data[i * BLOCK..i * BLOCK + BLOCK]);
    }
  }

  // -------- the end of a message --------

  function Zeros(n: nat): (s: seq<bv8>)
    ensures |s| == n && forall i :: 0 <= i < n ==> s[i] == 0
  {
    seq(n, i => 0)
  }

  function ByteAt(n: nat, i: nat): (b: Byte) {
    if i == 0 then n % 256 else ByteAt(n / 256, i - 1)
  }

  function EightBytes(bits: nat): (s: seq<bv8>)
    ensures |s| == 8
  {
    seq(8, i requires 0 <= i => ByteAt(bits, i) as bv8)
  }

  // The length of the message in bits, low byte first.
  function LengthField(n: nat): (s: seq<bv8>)
    ensures |s| == 8
  {
    EightBytes(8 * n % TWO64)
  }

  // The zero bytes the code puts after the one bit, for a message of n bytes.
  function ZeroCount(n: nat): (z: nat) {
    BLOCK - (n % BLOCK + 9) % BLOCK
  }

  function Padding(n: nat): (s: seq<bv8>)
    ensures |s| == 9 + ZeroCount(n)
  {
    [0x80] + Zeros(ZeroCount(n)) + LengthField(n)
  }

  // Sections 3.1 and 3.2 of RFC 1321: a one bit, as few zero bits as leave 64 bits to fill the
  // block, and there the length of the message in bits, low byte first.
  ghost predicate IsRfcPadding(n: nat, s: seq<bv8>) {
    exists z: nat, digits: seq<Byte> ::
      s == [0x80] + Zeros(z) + Octets(digits) && FewestZeros(n, z) && IsBitCount(n, digits)
  }

  function Octets(digits: seq<Byte>): (s: seq<bv8>)
    ensures |s| == |digits|
  {
    seq(|digits|, i requires 0 <= i < |digits| => digits[i] as bv8)
  }

  // The number with these digits to the base 256, lowest first.
  function Number(digits: seq<Byte>): (n: nat) {
    if digits == [] then 0 else digits[0] + 256 * Number(digits[1..])
  }

  ghost predicate IsBitCount(n: nat, digits: seq<Byte>) {
    |digits| == 8 && Number(digits) == 8 * n % TWO64
  }

  function Pow256(k: nat): (r: nat)
    ensures r > 0
  {
    if k == 0 then 1 else 256 * Pow256(k - 1)
  }

  function Digits(n: nat, k: nat): (digits: seq<Byte>)
    ensures |digits| == k
  {
    seq(k, i requires 0 <= i => ByteAt(n, i))
  }

  // The digits of a number that fits make up the number.
  lemma {:induction false} DigitsMakeNumber(n: nat, k: nat)
    requires n < Pow256(k)
    ensures Number(Digits(n, k)) == n
    decreases k
  {
    if k > 0 {
      DigitsMakeNumber(n / 256, k - 1);
      assert Digits(n, k)[1..] == Digits(n / 256, k - 1);
    }
  }

  lemma LengthFieldCounts(n: nat)
    ensures var digits := Digits(8 * n % TWO64, 8); IsBitCount(n, digits) && LengthField(n) == Octets(digits)
  {
    assert Pow256(4) == 256 * Pow256(3) == 0x1_0000_0000;
    assert Pow256(8) == 256 * Pow256(7) == 0x1_0000 * Pow256(6) == 0x100_0000 * Pow256(5) == TWO64;
    DigitsMakeNumber(8 * n % TWO64, 8);
  }

  // Equally many digits for the same number are the same digits.
  lemma {:induction false} SameNumber(s: seq<Byte>, t: seq<Byte>)
    requires |s| == |t| && Number(s) == Number(t)
    ensures s == t
  {
    if s != [] {
      SameNumber(s[1..], t[1..]);
      assert s == [s[0]] + s[1..] && t == [t[0]] + t[1..];
    }
  }

  lemma SameZeros(n: nat, y: nat, z: nat)
    requires FewestZeros(n, y) && FewestZeros(n, z)
    ensures y == z
  {
  }

  // The RFC leaves no choice.
  lemma RfcPaddingUnique(n: nat, s: seq<bv8>, t: seq<bv8>)
    requires IsRfcPadding(n, s) && IsRfcPadding(n, t)
    ensures s == t
  {
    var y, d := RfcParts(n, s);
    var z, e := RfcParts(n, t);
    SameZeros(n, y, z);
    SameNumber(d, e);
  }

  lemma RfcParts(n: nat, s: seq<bv8>) returns (z: nat, digits: seq<Byte>)
    requires IsRfcPadding(n, s)
    ensures s == [0x80] + Zeros(z) + Octets(digits) && FewestZeros(n, z) && IsBitCount(n, digits)
  {
    var y: nat, d: seq<Byte> :| s == [0x80] + Zeros(y) + Octets(d) && FewestZeros(n, y) && IsBitCount(n, d);
    z, digits := y, d;
  }

  predicate FewestZeros(n: nat, z: nat) {
    (n + 1 + z) % BLOCK == 56 && z < BLOCK
  }

  lemma ZeroCountFills(n: nat)
    ensures (n + 9 + ZeroCount(n)) % BLOCK == 0
    ensures 1 <= ZeroCount(n) <= BLOCK
  {
  }

  lemma PaddingFillsBlocks(n: nat)
    ensures (n + |Padding(n)|) % BLOCK == 0
    ensures 1 <= ZeroCount(n) <= BLOCK
  {
    ZeroCountFills(n);
  }

  // The code pads as the RFC says, unless the message ends just nine bytes short of a block.
  lemma PaddingIsRfc(n: nat)
    ensures IsRfcPadding(n, Padding(n)) <==> n % BLOCK != 55
  {
    ZeroCountFewest(n);
    if n % BLOCK != 55 {
      LengthFieldCounts(n);
    } else if IsRfcPadding(n, Padding(n)) {
      var z, digits := RfcParts(n, Padding(n));
      assert false;
    }
  }

  lemma ZeroCountFewest(n: nat)
    ensures FewestZeros(n, ZeroCount(n)) <==> n % BLOCK != 55
  {
  }

  // There it adds a whole block of zeros more than the RFC.
  lemma PaddingAtFiftyFive(n: nat)
    requires n % BLOCK == 55
    ensures |Padding(n)| == BLOCK + 9
    ensures FewestZeros(n, ZeroCount(n) - BLOCK)
  {
  }

  // The state after a whole message and its padding.
  function Finished<W>(step: (W, Block) -> W, init: W, m: seq<bv8>): (w: W) {
    Absorbed(step, init, m + Padding(|m|))
  }

  // The RFC's way through the blocks: the state after the first n of them.
  function AfterBlocks<W>(step: (W, Block) -> W, init: W, p: seq<bv8>, n: nat): (w: W)
    requires n * BLOCK <= |p|
  {
    if n == 0 then init else step(AfterBlocks(step, init, p, n - 1), p[(n - 1) * BLOCK..(n - 1) * BLOCK + BLOCK])
  }

  lemma OneBlock<W>(step: (W, Block) -> W, w: W, b: Block)
    ensures Absorbed(step, w, b) == step(w, b)
  {
    assert b[..BLOCK] == b && b[BLOCK..] == [];
  }

  lemma {:induction false} AbsorbedAfterBlocks<W(!new)>(step: (W, Block) -> W, step': (W, Block) -> W, init: W,
                                                        p: seq<bv8>, n: nat)
    requires n * BLOCK <= |p| && forall w, b :: step(w, b) == step'(w, b)
    ensures Absorbed(step, init, p[..n * BLOCK]) == AfterBlocks(step', init, p, n)
  {
    if n > 0 {
      var at := (n - 1) * BLOCK;
      var b := p[at..at + BLOCK];
      assert p[..n * BLOCK] == p[..at] + b;
      AbsorbedConcat(step, init, p[..at], b);
      OneBlock(step, Absorbed(step, init, p[..at]), b);
      AbsorbedAfterBlocks(step, step', init, p, n - 1);
    }
  }

  // The digest RFC 1321 gives to a message.
  ghost predicate IsRfcDigest(m: seq<bv8>, w: Words) {
    exists s ::
      IsRfcPadding(|m|, s) && w == AfterBlocks(RfcCompress, INIT, m + s, (|m| + |s|) / BLOCK)
  }

  // Up to the one length in sixty-four, the digest of the code is that of the RFC.
  lemma FinishedIsRfc(m: seq<bv8>)
    requires |m| % BLOCK != 55
    ensures IsRfcDigest(m, Finished(Compress, INIT, m))
  {
    var p := m + Padding(|m|);
    var n := |p| / BLOCK;
    PaddingIsRfc(|m|);
    PaddingFillsBlocks(|m|);
    assert p[..n * BLOCK] == p;
    forall w, b: Block ensures Compress(w, b) == RfcCompress(w, b) {
      CompressIsRfc(w, b);
    }
    AbsorbedAfterBlocks(Compress, RfcCompress, INIT, p, n);
  }

  // -------- the object --------

  class Buffer {
    const data: array<bv8>
    var end: nat

    ghost predicate Valid()
      reads this
    {
      data.Length == 2 * BLOCK && end <= data.Length
    }

    ghost function Contents(): (s: seq<bv8>)
      requires Valid()
      reads this, data
    {
      data[..end]
    }

    constructor ()
      ensures Valid() && Contents() == [] && fresh(data)
    {
      data := new bv8[2 * BLOCK];
      end := 0;
    }

    method Fill(value: bv8, count: nat)
      requires Valid() && end + count <= 2 * BLOCK
      modifies this, data
      ensures Valid()
      ensures |Contents()| == old(end) + count
      ensures Contents()[..old(end)] == old(Contents())
      ensures forall i :: old(end) <= i < end ==> Contents()[i] == value
    {
      for i := 0 to count
        invariant Valid() && end == old(end) + i
        invariant data[..old(end)] == old(data[..end])
        invariant forall k :: old(end) <= k < end ==> data[k] == value
      {
        data[end] := value;
        end := end + 1;
      }
    }

    method PushBack(s: seq<bv8>)
      requires Valid() && end + |s| <= 2 * BLOCK
      modifies this, data
      ensures Valid()
      ensures Contents() == old(Contents()) + s
    {
      ghost var before := Contents();
      for i := 0 to |s|
        invariant Valid() && end == old(end) + i
        invariant Contents() == before + s[..i]
      {
        Fill(s[i], 1);
        assert Contents() == before + s[..i] + [s[i]];
        assert s[..i + 1] == s[..i] + [s[i]];
      }
      assert s[..|s|] == s;
    }

    method Clear()
      requires Valid()
      modifies this, data
      ensures Valid() && Contents() == []
    {
      for i := 0 to data.Length
      {
        data[i] := 0;
      }
      end := 0;
    }

    method Put(i: nat, value: bv8)
      requires Valid() && i < end
      modifies data
      ensures Valid() && Contents() == old(Contents())[i := value]
    {
      data[i] := value;
    }
  }

  // The compression of one block and the first state are given, as the buffering does not
  // depend on them; MD5 gives Compress and INIT.
  class BlockHash<W(!new)> {
    const step: (W, Block) -> W
    const init: W
    const buffer: Buffer
    var sizeCounter: nat
    var state: W
    ghost var message: seq<bv8>

    ghost predicate Sound()
      reads this, buffer, buffer.data
    {
      buffer.Valid() && sizeCounter < TWO64
    }

    // Less than a block waits, and the rest of what has been added is in the state.
    ghost predicate Valid()
      reads this, buffer, buffer.data
    {
      && Sound()
      && buffer.end < BLOCK && buffer.end <= |message|
      && Split(step, init, message, |message| - buffer.end, state, buffer.Contents())
      && sizeCounter == (|message| - buffer.end) % TWO64
    }

    constructor (step: (W, Block) -> W, init: W)
      ensures this.step == step && this.init == init
      ensures Valid() && message == [] && fresh(buffer) && fresh(buffer.data)
    {
      this.step := step;
      this.init := init;
      buffer := new Buffer();
      sizeCounter := 0;
      state := init;
      message := [];
    }

    method Reset()
      requires Sound()
      modifies this, buffer, buffer.data
      ensures Valid() && message == []
    {
      buffer.Clear();
      sizeCounter := 0;
      state := init;
      message := [];
    }

    method AddDataImpl(data: seq<bv8>)
      requires |data| % BLOCK == 0
      modifies this`sizeCounter, this`state
      ensures state == Absorbed(step, old(state), data)
      ensures sizeCounter == (old(sizeCounter) + |data|) % TWO64
    {
      sizeCounter := (sizeCounter + |data|) % TWO64;
      state := AbsorbBlocks(step, state, data);
    }

    method AddData(inData: seq<bv8>)
      requires Valid()
      modifies this, buffer, buffer.data
      ensures Valid()
      ensures message == old(message) + inData
    {
      var data := inData;
      ghost var n := |message| - buffer.end;
      SplitMore(step, init, message, n, state, buffer.Contents(), data);
      message := message + data;
      if buffer.end != 0 {
        var len := if BLOCK - buffer.end < |data| then BLOCK - buffer.end else |data|;
        ghost var waiting := buffer.Contents();
        buffer.PushBack(data[..len]);
        assert waiting + data == buffer.Contents() + data[len..];
        data := data[len..];
        if buffer.end < BLOCK {
          return;
        }
        SplitAbsorb(step, init, message, n, state, buffer.Contents(), data);
        CountMore(n, BLOCK);
        AddDataImpl(buffer.data[..buffer.end]);
        buffer.Clear();
        n := n + BLOCK;
      }
      FinishAdd(data, n);
    }

    // What AddData does once nothing waits in the buffer.
    method FinishAdd(data: seq<bv8>, ghost n: nat)
      requires Sound() && buffer.Contents() == [] && n % BLOCK == 0
      requires Split(step, init, message, n, state, data)
      requires sizeCounter == n % TWO64
      modifies this`sizeCounter, this`state, buffer, buffer.data
      ensures Valid()
    {
      if |data| < BLOCK {
        buffer.PushBack(data);
        return;
      }
      var len := |data| - |data| % BLOCK;
      assert data == data[..len] + data[len..];
      SplitAbsorb(step, init, message, n, state, data[..len], data[len..]);
      CountMore(n, len);
      AddDataImpl(data[..len]);
      if len < |data| {
        buffer.PushBack(data[len..]);
      }
    }

    method Finalize()
      requires Valid()
      modifies this, buffer, buffer.data
      ensures Sound()
      ensures state == Finished(step, init, old(message))
    {
      ghost var m, n := message, |message| - buffer.end;
      ghost var waiting := buffer.Contents();
      CountMore(n, buffer.end);
      RestOfBlock(n, buffer.end);
      sizeCounter := (sizeCounter + buffer.end) % TWO64;
      PadBuffer(|m|);
      FinishedSplits(step, init, m, n, state, waiting);
      AddDataImpl(buffer.data[..buffer.end]);
      buffer.Clear();
    }

    method PadBuffer(ghost n: nat)
      requires Sound() && buffer.end < BLOCK && n % BLOCK == buffer.end && sizeCounter == n % TWO64
      modifies buffer, buffer.data
      ensures Sound()
      ensures buffer.Contents() == old(buffer.Contents()) + Padding(n)
    {
      ghost var waiting := buffer.Contents();
      buffer.Fill(0x80, 1);
      var len := BLOCK - (buffer.end + 8) % BLOCK;
      buffer.Fill(0, len + 8);
      BitsOfCount(n);
      var bits := sizeCounter * 8 % TWO64;
      ghost var before := buffer.Contents();
      assert before[..buffer.end - 8] == waiting + [0x80] + Zeros(len);
      PutLength(bits);
    }

    method PutLength(bits: nat)
      requires Sound() && buffer.end >= 8
      modifies buffer.data
      ensures Sound()
      ensures buffer.Contents() == old(buffer.Contents())[..buffer.end - 8] + EightBytes(bits)
    {
      var low, high := bits % TWO32, bits / TWO32;
      var at := buffer.end - 8;
      ghost var before := buffer.Contents();
      for i := 0 to 4
        invariant Sound()
        invariant buffer.Contents()[..at] == before[..at]
        invariant forall j :: 0 <= j < i || 4 <= j < 4 + i ==> buffer.Contents()[at + j] == ByteAt(bits, j) as bv8
      {
        HalvesOfField(bits, i);
        buffer.Put(at + i, ByteAt(low, i) as bv8);
        buffer.Put(at + 4 + i, ByteAt(high, i) as bv8);
      }
      ghost var s := buffer.Contents();
      assert s[at..] == EightBytes(bits);
      assert s == s[..at] + s[at..];
    }
  }

  // The first n bytes of m are in the state, the rest wait.
  ghost predicate Split<W(!new)>(step: (W, Block) -> W, init: W, m: seq<bv8>, n: nat, w: W, rest: seq<bv8>) {
    n <= |m| && n % BLOCK == 0 && w == Absorbed(step, init, m[..n]) && rest == m[n..]
  }

  lemma SplitMore<W(!new)>(step: (W, Block) -> W, init: W, m: seq<bv8>, n: nat, w: W, rest: seq<bv8>, data: seq<bv8>)
    requires Split(step, init, m, n, w, rest)
    ensures Split(step, init, m + data, n, w, rest + data)
  {
    assert (m + data)[..n] == m[..n] && (m + data)[n..] == m[n..] + data;
  }

  lemma SplitAbsorb<W(!new)>(step: (W, Block) -> W, init: W, m: seq<bv8>, n: nat, w: W, s: seq<bv8>, t: seq<bv8>)
    requires Split(step, init, m, n, w, s + t)
    requires |s| % BLOCK == 0
    ensures Split(step, init, m, n + |s|, Absorbed(step, w, s), t)
  {
    SliceOn(m, n, s, t);
    AbsorbedConcat(step, init, m[..n], s);
  }

  lemma SliceOn(m: seq<bv8>, n: nat, s: seq<bv8>, t: seq<bv8>)
    requires n <= |m| && m[n..] == s + t
    requires n % BLOCK == 0 && |s| % BLOCK == 0
    ensures n + |s| <= |m| && (n + |s|) % BLOCK == 0
    ensures m[..n + |s|] == m[..n] + s && m[n + |s|..] == t
  {
  }

  lemma WholeBlocks(n: nat, k: nat)
    requires n % BLOCK == 0 && (n + k) % BLOCK == 0
    ensures k % BLOCK == 0
  {
  }

  lemma RestOfBlock(n: nat, k: nat)
    requires n % BLOCK == 0 && k < BLOCK
    ensures (n + k) % BLOCK == k
  {
  }

  lemma FinishedSplits<W(!new)>(step: (W, Block) -> W, init: W, m: seq<bv8>, n: nat, w: W, rest: seq<bv8>)
    requires Split(step, init, m, n, w, rest)
    ensures Finished(step, init, m) == Absorbed(step, w, rest + Padding(|m|))
    ensures |rest + Padding(|m|)| % BLOCK == 0
  {
    var padding := Padding(|m|);
    PaddingFillsBlocks(|m|);
    WholeBlocks(n, |rest + padding|);
    assert m + padding == m[..n] + (rest + padding);
    AbsorbedConcat(step, init, m[..n], rest + padding);
  }

  lemma CountMore(n: nat, k: nat)
    ensures (n % TWO64 + k) % TWO64 == (n + k) % TWO64
  {
  }

  lemma BitsOfCount(n: nat)
    ensures n % TWO64 * 8 % TWO64 == 8 * n % TWO64
  {
    assert 8 * n == n % TWO64 * 8 + 8 * (n / TWO64) * TWO64;
  }

  lemma DivideTwice(n: nat, p: nat)
    requires p > 0
    ensures n / (256 * p) == n / 256 / p
    ensures n % (256 * p) == 256 * (n / 256 % p) + n % 256
  {
    var q := n / 256;
    Quotient(n, 256 * p, q / p, 256 * (q % p) + n % 256);
  }

  // The low k bytes of a number, and the rest.
  function LowBytes(n: nat, k: nat): (r: nat) {
    if k == 0 then 0 else 256 * LowBytes(n / 256, k - 1) + n % 256
  }

  function HighBytes(n: nat, k: nat): (r: nat) {
    if k == 0 then n else HighBytes(n / 256, k - 1)
  }

  lemma FourBytes(n: nat)
    ensures LowBytes(n, 4) == n % TWO32 && HighBytes(n, 4) == n / TWO32
  {
    var n1 := n / 256;
    var n2 := n1 / 256;
    DivideTwice(n, 0x100_0000);
    DivideTwice(n1, 0x1_0000);
    DivideTwice(n2, 0x100);
    assert LowBytes(n2, 2) == 256 * LowBytes(n2 / 256, 1) + n2 % 256 == n2 % 0x1_0000;
    assert LowBytes(n1, 3) == 256 * LowBytes(n2, 2) + n1 % 256 == n1 % 0x100_0000;
    assert HighBytes(n1, 3) == HighBytes(n2, 2) == HighBytes(n2 / 256, 1) == n2 / 0x1_0000;
  }

  lemma {:induction false} BytesOfLow(n: nat, k: nat, i: nat)
    requires i < k
    ensures ByteAt(LowBytes(n, k), i) == ByteAt(n, i)
    decreases k
  {
    if i > 0 {
      BytesOfLow(n / 256, k - 1, i - 1);
    }
  }

  lemma {:induction false} BytesOfHigh(n: nat, k: nat, i: nat)
    ensures ByteAt(HighBytes(n, k), i) == ByteAt(n, i + k)
    decreases k
  {
    if k > 0 {
      BytesOfHigh(n / 256, k - 1, i);
    }
  }

  lemma HalvesOfField(bits: nat, i: nat)
    requires i < 4
    ensures ByteAt(bits % TWO32, i) == ByteAt(bits, i)
    ensures ByteAt(bits / TWO32, i) == ByteAt(bits, i + 4)
  {
    FourBytes(bits);
    BytesOfLow(bits, 4, i);
    BytesOfHigh(bits, 4, i);
  }

  // Whatever pieces a message arrives in, its digest is the digest of the whole.
  function Concat(chunks: seq<seq<bv8>>): (m: seq<bv8>) {
    if chunks == [] then [] else Concat(chunks[..|chunks| - 1]) + chunks[|chunks| - 1]
  }

  method HashChunks(chunks: seq<seq<bv8>>) returns (w: Words)
    ensures w == Finished(Compress, INIT, Concat(chunks))
    ensures |Concat(chunks)| % BLOCK != 55 ==> IsRfcDigest(Concat(chunks), w)
  {
    var hash := new BlockHash(Compress, INIT);
    for i := 0 to |chunks|
      invariant hash.step == Compress && hash.init == INIT
      invariant hash.Valid() && hash.message == Concat(chunks[..i])
      invariant fresh(hash) && fresh(hash.buffer) && fresh(hash.buffer.data)
    {
      assert chunks[..i + 1][..i] == chunks[..i];
      hash.AddData(chunks[i]);
    }
    assert chunks[..|chunks|] == chunks;
    hash.Finalize();
    w := hash.state;
    if |Concat(chunks)| % BLOCK != 55 {
      FinishedIsRfc(Concat(chunks));
    }
  }
}
