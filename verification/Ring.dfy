/**
  Identifier arithmetic of the overlay ring: the range tests of the node class,
  clockwise distance, and what it means to be the first live node at or after a key.
  A ring of `m` bits has `Pow2(m)` identifiers; every function takes that size as `n`.
 */
module Ring {

  // The value a `ring_id_t` takes when the source assigns -1 to it.
  const SENTINEL: nat := 0xFFFF_FFFF_FFFF_FFFF

  function Pow2(k: nat): (r: nat)
    ensures r >= 1
  {
    if k == 0 then 1 else 2 * Pow2(k - 1)
  }

  lemma {:induction false} Pow2Monotone(i: nat, j: nat)
    requires i <= j
    ensures Pow2(i) <= Pow2(j)
    ensures i < j ==> 2 * Pow2(i) <= Pow2(j)
  {
    if i < j {
      Pow2Monotone(i, j - 1);
    }
  }

  // The branches of the source's open-range test, on unsigned values.
  predicate InRange(n: nat, current: nat, dest: nat, val: nat) {
    if current < dest then current < val && val < dest
    else if val > current then val < dest + n
    else val < dest
  }

  predicate RightTightInRange(n: nat, left: nat, right: nat, val: nat) {
    right == val || InRange(n, left, val, right)
  }

  // Steps clockwise from `a` to `b`.
  function Dist(n: nat, a: nat, b: nat): (d: nat)
    requires a < n && b < n
    ensures d < n
  {
    if a <= b then b - a else b + n - a
  }

  // Length of the arc that starts at `a` and next meets `b`: the whole ring when they coincide.
  function Span(n: nat, a: nat, b: nat): (d: nat)
    requires a < n && b < n
    ensures 0 < d <= n
  {
    if a == b then n else Dist(n, a, b)
  }

  // The start of finger `i` of node `id`.
  function Start(m: nat, id: nat, i: nat): (s: nat)
    requires id < Pow2(m) && i < m
    ensures s < Pow2(m) && Dist(Pow2(m), id, s) == Pow2(i)
  {
    Pow2Monotone(i, m);
    if id + Pow2(i) >= Pow2(m) then id + Pow2(i) - Pow2(m) else id + Pow2(i)
  }

  lemma StartIsModulo(m: nat, id: nat, i: nat)
    requires id < Pow2(m) && i < m
    ensures Start(m, id, i) == (id + Pow2(i)) % Pow2(m)
  {
    Pow2Monotone(i, m);
    ModBelowTwice(id + Pow2(i), Pow2(m));
  }

  lemma ModBelowTwice(x: nat, n: nat)
    requires x < 2 * n
    ensures x % n == if x >= n then x - n else x
  {
  }

  // The range test is membership of the open clockwise arc from `current` to `dest`,
  // the whole ring but one point when the two ends coincide.
  lemma InRangeIsArc(n: nat, current: nat, dest: nat, val: nat)
    requires current < n && dest < n && val < n
    ensures InRange(n, current, dest, val) <==> 0 < Dist(n, current, val) < Span(n, current, dest)
  {
  }

  lemma RightTightIsArc(n: nat, left: nat, right: nat, val: nat)
    requires left < n && right < n && val < n && left != right
    ensures RightTightInRange(n, left, right, val)
       <==> Dist(n, left, right) <= Span(n, left, val)
  {
  }

  // The sentinel lies in no range.
  lemma SentinelInNoRange(n: nat, current: nat, dest: nat)
    requires current < n && dest < n && 2 * n <= SENTINEL
    ensures !InRange(n, current, dest, SENTINEL)
  {
  }

  // -------- live nodes --------

  ghost predicate OnRing(n: nat, live: set<nat>) {
    forall x :: x in live ==> x < n
  }

  // `s` is the first live node at or after `key`.
  ghost predicate IsFirst(n: nat, live: set<nat>, key: nat, s: nat)
    requires OnRing(n, live) && key < n
  {
    s in live && forall x {:trigger Dist(n, key, x)} :: x in live ==> Dist(n, key, s) <= Dist(n, key, x)
  }

  // `s` is the first live node strictly after `a` (`a` itself when it is alone).
  ghost predicate IsNext(n: nat, live: set<nat>, a: nat, s: nat)
    requires OnRing(n, live) && a < n
  {
    s in live && forall x {:trigger Span(n, a, x)} :: x in live ==> Span(n, a, s) <= Span(n, a, x)
  }

  lemma {:induction false} FirstExists(n: nat, live: set<nat>, key: nat)
    requires OnRing(n, live) && key < n && live != {}
    ensures exists s :: IsFirst(n, live, key, s)
  {
    var x :| x in live;
    var rest := live - {x};
    if rest == {} {
      assert live == {x};
      assert IsFirst(n, live, key, x);
    } else {
      FirstExists(n, rest, key);
      var t :| IsFirst(n, rest, key, t);
      assert IsFirst(n, live, key, if Dist(n, key, x) < Dist(n, key, t) then x else t);
    }
  }

  lemma FirstUnique(n: nat, live: set<nat>, key: nat, s: nat, t: nat)
    requires OnRing(n, live) && key < n && IsFirst(n, live, key, s) && IsFirst(n, live, key, t)
    ensures s == t
  {
    assert Dist(n, key, s) <= Dist(n, key, t) <= Dist(n, key, s);
  }

  ghost function First(n: nat, live: set<nat>, key: nat): (s: nat)
    requires OnRing(n, live) && key < n && live != {}
    ensures IsFirst(n, live, key, s) && s < n
  {
    FirstExists(n, live, key);
    var s :| IsFirst(n, live, key, s);
    s
  }

  function Plus1(n: nat, a: nat): (b: nat)
    requires a < n
    ensures b < n
  {
    if a + 1 == n then 0 else a + 1
  }

  ghost function Next(n: nat, live: set<nat>, a: nat): (s: nat)
    requires OnRing(n, live) && a < n && live != {}
    ensures IsNext(n, live, a, s) && s < n
  {
    var s := First(n, live, Plus1(n, a));
    assert IsNext(n, live, a, s) by { NextIsFirstAfter(n, live, a, s); }
    s
  }

  lemma NextIsFirstAfter(n: nat, live: set<nat>, a: nat, s: nat)
    requires OnRing(n, live) && a < n
    ensures IsNext(n, live, a, s) <==> IsFirst(n, live, Plus1(n, a), s)
  {
    forall x: nat | x < n ensures Dist(n, Plus1(n, a), x) == Span(n, a, x) - 1 { }
    if s in live {
      assert Dist(n, Plus1(n, a), s) == Span(n, a, s) - 1;
    }
  }

  lemma NextUnique(n: nat, live: set<nat>, a: nat, s: nat, t: nat)
    requires OnRing(n, live) && a < n && IsNext(n, live, a, s) && IsNext(n, live, a, t)
    ensures s == t
  {
    assert Span(n, a, s) <= Span(n, a, t) <= Span(n, a, s);
  }
}
