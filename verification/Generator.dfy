/**
  The generator both ends of a session share: a 64-bit linear congruential step whose
  upper bits name the next dead drop.
 */
module Generator {
  import opened Common
  import opened Ring

  function NextSeed(s: nat): (r: nat)
    ensures r < TWO64
  {
    (s * 214013 + 2531011) % TWO64
  }

  // Bits 16 to 46 of a seed.
  function Output(s: nat): (r: nat)
    ensures r < 0x8000_0000
  {
    (s / 0x1_0000) % 0x8000_0000
  }

  // The seed after `k` steps.
  function SeedAt(s: nat, k: nat): (r: nat) {
    if k == 0 then s else NextSeed(SeedAt(s, k - 1))
  }

  // The `k`-th number drawn from a seed.
  function DrawAt(s: nat, k: nat): (r: nat) {
    Output(SeedAt(s, k + 1))
  }

  // The identifier of the `k`-th dead drop of a session.
  function DropAt(m: nat, seed: nat, k: nat): (id: nat)
    ensures id < Pow2(m)
  {
    DrawAt(seed, k) % Pow2(m)
  }

  // -------- what the step and the output are --------

  function Bit(x: nat, i: nat): (b: nat) {
    if i == 0 then x % 2 else Bit(x / 2, i - 1)
  }

  // A shift down by k places.
  function Shifted(x: nat, k: nat): (r: nat) {
    if k == 0 then x else Shifted(x / 2, k - 1)
  }

  lemma {:induction false} BitOfShifted(x: nat, k: nat, i: nat)
    ensures Bit(Shifted(x, k), i) == Bit(x, i + k)
    decreases k
  {
    if k > 0 {
      BitOfShifted(x / 2, k - 1, i);
    }
  }

  lemma {:induction false} ShiftedDivides(x: nat, k: nat)
    ensures Shifted(x, k) == x / Pow2(k)
  {
    if k > 0 {
      QuotientTwice(x, Pow2(k - 1));
      ShiftedDivides(x / 2, k - 1);
    }
  }

  // The low k bits alone.
  function Masked(x: nat, k: nat): (r: nat) {
    if k == 0 then 0 else 2 * Masked(x / 2, k - 1) + x % 2
  }

  lemma {:induction false} BitOfMasked(x: nat, k: nat, i: nat)
    ensures Bit(Masked(x, k), i) == if i < k then Bit(x, i) else 0
    decreases k
  {
    if k == 0 {
      BitOfZero(i);
    } else if i > 0 {
      BitOfMasked(x / 2, k - 1, i - 1);
    }
  }

  lemma {:induction false} MaskedRemains(x: nat, k: nat)
    ensures Masked(x, k) == x % Pow2(k)
  {
    if k > 0 {
      QuotientTwice(x, Pow2(k - 1));
      MaskedRemains(x / 2, k - 1);
    }
  }

  lemma QuotientTwice(x: nat, p: nat)
    requires p > 0
    ensures x / (2 * p) == x / 2 / p
    ensures x % (2 * p) == 2 * (x / 2 % p) + x % 2
  {
    var h := x / 2;
    Quotient(x, 2 * p, h / p, 2 * (h % p) + x % 2);
  }

  lemma {:induction false} BitOfZero(i: nat)
    ensures Bit(0, i) == 0
  {
    if i > 0 {
      BitOfZero(i - 1);
    }
  }

  lemma Powers()
    ensures Pow2(16) == 0x1_0000 && Pow2(31) == 0x8000_0000
  {
    assert Pow2(2) == 4 && Pow2(4) == 4 * Pow2(2) && Pow2(6) == 4 * Pow2(4) && Pow2(8) == 4 * Pow2(6);
    assert Pow2(10) == 4 * Pow2(8) && Pow2(12) == 4 * Pow2(10) && Pow2(14) == 4 * Pow2(12);
    assert Pow2(16) == 4 * Pow2(14) && Pow2(18) == 4 * Pow2(16) && Pow2(20) == 4 * Pow2(18);
    assert Pow2(22) == 4 * Pow2(20) && Pow2(24) == 4 * Pow2(22) && Pow2(26) == 4 * Pow2(24);
    assert Pow2(28) == 4 * Pow2(26) && Pow2(30) == 4 * Pow2(28);
  }

  // The number drawn is bits 16 to 46 of the new seed.
  lemma OutputBits(s: nat, i: nat)
    ensures Bit(Output(s), i) == if i < 31 then Bit(s, i + 16) else 0
  {
    Powers();
    ShiftedDivides(s, 16);
    MaskedRemains(s / 0x1_0000, 31);
    BitOfMasked(s / 0x1_0000, 31, i);
    BitOfShifted(s, 16, i);
  }

  // The step forgets nothing: it can be undone, so different seeds never fall together.
  const INVERSE: nat := 0x3353_2b79_b9b3_3155

  function LastSeed(r: nat): (s: nat) {
    (r + TWO64 - 2531011) * INVERSE % TWO64
  }

  lemma StepUndone(s: nat)
    requires s < TWO64
    ensures LastSeed(NextSeed(s)) == s
  {
    var q := (s * 214013 + 2531011) / TWO64;
    assert NextSeed(s) == s * 214013 + 2531011 - q * TWO64;
    assert 214013 * INVERSE == 1 + 42907 * TWO64;
    assert (NextSeed(s) + TWO64 - 2531011) * INVERSE == s + (s * 42907 + (1 - q) * INVERSE) * TWO64;
    Wrapped(s, s * 42907 + (1 - q) * INVERSE, (NextSeed(s) + TWO64 - 2531011) * INVERSE);
  }

  lemma Wrapped(s: nat, t: int, x: nat)
    requires s < TWO64 && x == s + t * TWO64
    ensures x % TWO64 == s
  {
  }

  // The k-th draw of a generator depends on its first seed and k alone, so two ends that start
  // from one seed draw the same numbers.
  class RandomGenerator {
    var seed: nat
    ghost var first: nat
    ghost var drawn: nat

    ghost predicate Valid()
      reads this
    {
      seed == SeedAt(first, drawn)
    }

    constructor (s: nat)
      ensures Valid() && seed == s && first == s && drawn == 0
    {
      seed, first, drawn := s, s, 0;
    }

    method Rand() returns (r: nat)
      requires Valid()
      modifies this
      ensures Valid() && first == old(first) && drawn == old(drawn) + 1
      ensures r == DrawAt(first, old(drawn))
      ensures seed == NextSeed(old(seed)) && r == Output(seed)
    {
      seed := (seed * 214013 + 2531011) % TWO64;
      r := (seed / 0x1_0000) % 0x8000_0000;
      drawn := drawn + 1;
    }
  }
}
