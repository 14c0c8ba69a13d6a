/**
  The bounded sorted vector of keys near a middle key. Whatever keys have been offered, and in
  whatever order, an even capacity holds exactly the keys nearest to the middle on each side, and
  a side gives up a key only while it holds at least as many as the other.
 */
module OrderedVector {
  import opened Common

  // -------- the two shifting loops --------

  // The loop from index i down: make room by moving keys up, dropping the one at i.
  function SlideUp(s: seq<int>, t: int, i: nat): (r: seq<int>)
    requires i < |s|
    ensures |r| == |s|
    decreases i
  {
    if i == 0 then s[0 := t]
    else if s[i - 1] < t < s[i] then s[i := t]
    else SlideUp(s[i := s[i - 1]], t, i - 1)
  }

  // The loop from index i up: make room by moving keys down, dropping the one at i.
  function SlideDown(s: seq<int>, t: int, i: nat): (r: seq<int>)
    requires i < |s|
    ensures |r| == |s|
    decreases |s| - i
  {
    if i == |s| - 1 then s[i := t]
    else if s[i] < t < s[i + 1] then s[i := t]
    else SlideDown(s[i := s[i + 1]], t, i + 1)
  }

  // The keys before p are below t and those from p on are above it.
  ghost predicate Parts(s: seq<int>, t: int, p: nat) {
    && p <= |s|
    && (forall k :: 0 <= k < p ==> s[k] < t)
    && (forall k :: p <= k < |s| ==> s[k] > t)
  }

  lemma {:induction false} SlideUpInserts(s: seq<int>, t: int, i: nat, p: nat)
    requires p <= i < |s|
    requires forall k :: 0 <= k < p ==> s[k] < t
    requires forall k :: p <= k <= i ==> s[k] > t
    ensures SlideUp(s, t, i) == s[..p] + [t] + s[p..i] + s[i + 1..]
    decreases i
  {
    if i == 0 {
    } else if s[i - 1] < t < s[i] {
      assert p == i;
    } else {
      assert p < i;
      var next := s[i := s[i - 1]];
      SlideUpInserts(next, t, i - 1, p);
      assert next[..p] == s[..p] && next[p..i - 1] == s[p..i - 1] && next[i..] == [s[i - 1]] + s[i + 1..];
      assert s[p..i] == s[p..i - 1] + [s[i - 1]];
    }
  }

  lemma {:induction false} SlideDownInserts(s: seq<int>, t: int, i: nat, p: nat)
    requires i < p <= |s|
    requires Parts(s[i..], t, p - i)
    ensures SlideDown(s, t, i) == s[..i] + s[i + 1..p] + [t] + s[p..]
    decreases |s| - i
  {
    assert s[i] == s[i..][0] < t;
    if i == |s| - 1 {
    } else if s[i] < t < s[i + 1] {
      assert s[i..][1] > t;
      assert p == i + 1;
    } else {
      assert s[i..][1] == s[i + 1];
      assert p > i + 1;
      var next := s[i := s[i + 1]];
      assert next[i + 1..] == s[i + 1..] == s[i..][1..];
      SlideDownInserts(next, t, i + 1, p);
      assert next[..i + 1] == s[..i] + [s[i + 1]] && next[i + 2..p] == s[i + 2..p] && next[p..] == s[p..];
      assert s[i + 1..p] == [s[i + 1]] + s[i + 2..p];
    }
  }

  // -------- the vector --------

  datatype Vec = Vec(keys: seq<int>, cap: nat, less: int, large: int, mid: int)

  // Insertion while there is room.
  function Added(s: seq<int>, t: int): (r: seq<int>)
    ensures |r| == |s| + 1
  {
    if s == [] || s[|s| - 1] < t then s + [t] else SlideUp(s + [s[|s| - 1]], t, |s| - 1)
  }

  function Inserted(v: Vec, t: int): (r: Vec)
    requires |v.keys| <= v.cap && v.cap > 0
    ensures |r.keys| <= r.cap == v.cap && r.mid == v.mid
  {
    if |v.keys| < v.cap then
      v.(keys := Added(v.keys, t),
         less := if t < v.mid then v.less + 1 else v.less,
         large := if t > v.mid then v.large + 1 else v.large)
    else if v.large >= v.less && t > v.keys[v.cap - 1] then v
    else if v.less >= v.large && t < v.keys[0] then v
    else
      var large := if t > v.mid then v.large + 1 else v.large;
      var less := if t > v.mid then v.less else v.less + 1;
      if large > less then v.(keys := SlideUp(v.keys, t, v.cap - 1), less := less, large := large - 1)
      else v.(keys := SlideDown(v.keys, t, 0), less := less - 1, large := large)
  }

  ghost predicate Sorted(s: seq<int>) {
    forall i, j :: 0 <= i < j < |s| ==> s[i] < s[j]
  }

  // The first counter is where the middle falls among the keys.
  ghost predicate Shaped(v: Vec) {
    && 0 < v.cap && |v.keys| <= v.cap
    && Sorted(v.keys)
    && v.less >= 0 && v.large >= 0 && v.less + v.large == |v.keys|
    && Parts(v.keys, v.mid, v.less)
  }

  lemma PartExists(s: seq<int>, t: int)
    requires Sorted(s) && t !in s
    ensures exists p :: Parts(s, t, p)
  {
    if s == [] {
      assert Parts(s, t, 0);
    } else {
      var m := |s| - 1;
      if s[m] < t {
        assert Parts(s, t, |s|);
      } else {
        assert s[..m] + [s[m]] == s;
        assert t !in s[..m];
        PartExists(s[..m], t);
        var p :| Parts(s[..m], t, p);
        assert Parts(s, t, p);
      }
    }
  }

  // -------- one insertion --------

  function Placed(s: seq<int>, t: int, p: nat): (r: seq<int>)
    requires p <= |s|
  {
    s[..p] + [t] + s[p..]
  }

  lemma AddedPlaces(s: seq<int>, t: int, p: nat)
    requires Parts(s, t, p)
    ensures Added(s, t) == Placed(s, t, p)
  {
    if s == [] || s[|s| - 1] < t {
      assert p == |s|;
    } else {
      var m := |s| - 1;
      var wide := s + [s[m]];
      SlideUpInserts(wide, t, m, p);
      assert wide[..p] == s[..p] && wide[p..m] == s[p..m] && wide[m + 1..] == [s[m]];
      assert s[p..] == s[p..m] + [s[m]];
    }
  }

  lemma UpPlaces(s: seq<int>, t: int, p: nat)
    requires Parts(s, t, p) && p < |s|
    ensures SlideUp(s, t, |s| - 1) == Placed(s, t, p)[..|s|]
  {
    SlideUpInserts(s, t, |s| - 1, p);
  }

  lemma DownPlaces(s: seq<int>, t: int, p: nat)
    requires Parts(s, t, p) && 0 < p
    ensures SlideDown(s, t, 0) == Placed(s, t, p)[1..]
  {
    assert s[0..] == s;
    SlideDownInserts(s, t, 0, p);
  }

  lemma PlacedSorted(s: seq<int>, t: int, p: nat)
    requires Sorted(s) && Parts(s, t, p)
    ensures Sorted(Placed(s, t, p))
  {
  }

  lemma PlacedParts(s: seq<int>, t: int, p: nat, mid: int, less: nat)
    requires Parts(s, t, p) && Parts(s, mid, less) && t != mid
    ensures Parts(Placed(s, t, p), mid, if t < mid then less + 1 else less)
  {
    assert less < |s| ==> s[less] > mid;
    assert p < |s| ==> s[p] > t;
  }

  // The one insertion that goes wrong: a full vector holding just one key more above the middle
  // than below it, and a key below all of them.
  predicate Spoils(v: Vec, t: int)
    requires 0 < v.cap && |v.keys| <= v.cap
  {
    |v.keys| == v.cap && v.large == v.less + 1 && t < v.mid && t < v.keys[0]
  }

  datatype Outcome = Kept | Room | DropLast | DropFirst

  // What an insertion does to a sound vector, for a new key with p keys below it.
  function OutcomeOf(v: Vec, t: int): (o: Outcome)
    requires 0 < v.cap && |v.keys| <= v.cap
  {
    if |v.keys| < v.cap then Room
    else if v.large >= v.less && t > v.keys[v.cap - 1] then Kept
    else if v.less >= v.large && t < v.keys[0] then Kept
    else if (if t > v.mid then v.large + 1 > v.less else v.large > v.less + 1) then DropLast
    else DropFirst
  }

  lemma InsertPlaces(v: Vec, t: int, p: nat)
    requires Shaped(v) && t != v.mid && Parts(v.keys, t, p) && !Spoils(v, t)
    ensures var r, o := Inserted(v, t), OutcomeOf(v, t);
      match o
      case Kept => r == v && (if t < v.mid then p == 0 && v.less >= v.large else p == v.cap && v.large >= v.less)
      case Room => r.keys == Placed(v.keys, t, p)
      case DropLast => p < v.cap && v.large > 0 && r.keys == Placed(v.keys, t, p)[..v.cap]
      case DropFirst => p > 0 && v.less > 0 && r.keys == Placed(v.keys, t, p)[1..]
  {
    match OutcomeOf(v, t)
    case Kept =>
    case Room =>
      AddedPlaces(v.keys, t, p);
    case DropLast =>
      UpPlaces(v.keys, t, p);
    case DropFirst =>
      DownPlaces(v.keys, t, p);
  }

  lemma InsertShaped(v: Vec, t: int, p: nat)
    requires Shaped(v) && t != v.mid && Parts(v.keys, t, p) && !Spoils(v, t)
    ensures Shaped(Inserted(v, t))
  {
    InsertPlaces(v, t, p);
    PlacedSorted(v.keys, t, p);
    PlacedParts(v.keys, t, p, v.mid, v.less);
  }

  lemma SpoiledNotShaped(v: Vec, t: int)
    requires Shaped(v) && t != v.mid && Parts(v.keys, t, 0) && Spoils(v, t)
    ensures !Shaped(Inserted(v, t))
  {
    var r := Inserted(v, t);
    SlideDownPushes(v.keys, t, 0);
    assert r.keys == v.keys[1..] + [t] && r.less == v.less;
    if v.cap == 1 {
      assert r.keys[0] == t;
    } else {
      assert r.keys[0] == v.keys[1] && r.keys[v.cap - 1] == t;
    }
  }

  // A key that falls between no two neighbours pushes all the others along.
  lemma {:induction false} SlideUpPushes(s: seq<int>, t: int, i: nat)
    requires i < |s|
    requires forall k :: 0 < k <= i ==> !(s[k - 1] < t < s[k])
    ensures SlideUp(s, t, i) == [t] + s[..i] + s[i + 1..]
    decreases i
  {
    if i > 0 {
      var next := s[i := s[i - 1]];
      SlideUpPushes(next, t, i - 1);
      assert next[..i - 1] == s[..i - 1] && next[i..] == [s[i - 1]] + s[i + 1..];
      assert s[..i] == s[..i - 1] + [s[i - 1]];
    }
  }

  lemma {:induction false} SlideDownPushes(s: seq<int>, t: int, i: nat)
    requires i < |s|
    requires forall k :: i < k < |s| ==> !(s[k - 1] < t < s[k])
    ensures SlideDown(s, t, i) == s[..i] + s[i + 1..] + [t]
    decreases |s| - i
  {
    if i < |s| - 1 {
      var next := s[i := s[i + 1]];
      SlideDownPushes(next, t, i + 1);
      assert next[..i + 1] == s[..i] + [s[i + 1]] && next[i + 2..] == s[i + 2..];
      assert s[i + 1..] == [s[i + 1]] + s[i + 2..];
    }
  }

  lemma BetweenNone(s: seq<int>, t: int, q: nat, k: nat)
    requires Sorted(s) && q < |s| && t == s[q] && 0 < k < |s|
    ensures !(s[k - 1] < t < s[k])
  {
    assert k - 1 < q ==> s[k] <= t;
  }

  lemma RepeatUp(s: seq<int>, t: int, q: nat)
    requires Sorted(s) && q < |s| && t == s[q] && |s| > 1
    ensures !Sorted(SlideUp(s, t, |s| - 1))
  {
    forall k | 0 < k < |s| ensures !(s[k - 1] < t < s[k]) {
      BetweenNone(s, t, q, k);
    }
    SlideUpPushes(s, t, |s| - 1);
    var r := SlideUp(s, t, |s| - 1);
    assert r[0] == t && r[1] == s[0] && s[0] <= t;
  }

  lemma RepeatDown(s: seq<int>, t: int, q: nat)
    requires Sorted(s) && q < |s| && t == s[q] && |s| > 1
    ensures !Sorted(SlideDown(s, t, 0))
  {
    forall k | 0 < k < |s| ensures !(s[k - 1] < t < s[k]) {
      BetweenNone(s, t, q, k);
    }
    SlideDownPushes(s, t, 0);
    var r, last := SlideDown(s, t, 0), |s| - 1;
    assert r[last] == t && r[last - 1] == s[last] && s[last] >= t;
  }

  // A key that is already held, in a vector of more than one, ends up out of order or twice.
  lemma RepeatNotSorted(v: Vec, t: int, q: nat)
    requires Shaped(v) && v.cap > 1 && q < |v.keys| && t == v.keys[q]
    ensures !Sorted(Inserted(v, t).keys)
  {
    var s := v.keys;
    if |s| < v.cap {
      RepeatAdded(s, t, q);
    } else {
      RepeatUp(s, t, q);
      RepeatDown(s, t, q);
    }
  }

  lemma RepeatAdded(s: seq<int>, t: int, q: nat)
    requires Sorted(s) && q < |s| && t == s[q]
    ensures !Sorted(Added(s, t))
  {
    var last := |s| - 1;
    var wide := s + [s[last]];
    forall k | 0 < k <= last ensures !(wide[k - 1] < t < wide[k]) {
      BetweenNone(s, t, q, k);
    }
    SlideUpPushes(wide, t, last);
    assert Added(s, t)[0] == t && Added(s, t)[q + 1] == t;
  }

  // The middle itself is counted on neither side while there is room, and as a key below
  // afterwards.
  lemma MiddleNotShaped(v: Vec)
    requires Shaped(v)
    ensures !Shaped(Inserted(v, v.mid))
  {
    var r := Inserted(v, v.mid);
    assert v.keys != [] ==> v.keys[0] < v.mid || v.large == |v.keys|;
    if |v.keys| < v.cap {
      assert r.less + r.large != |r.keys|;
    } else {
      assert Parts(v.keys, v.mid, v.less);
      if v.large > v.less + 1 {
        SlideUpInserts(v.keys, v.mid, v.cap - 1, v.less);
        assert r.keys[v.less] == v.mid;
      } else if v.less > 0 {
        assert v.keys[0..] == v.keys;
        SlideDownInserts(v.keys, v.mid, 0, v.less);
        assert r.keys[v.less - 1] == v.mid;
      } else {
        SlideDownPushes(v.keys, v.mid, 0);
        assert r.keys[v.cap - 1] == v.mid;
      }
    }
  }

  // Exactly when an insertion leaves the keys sorted and both counters exact, for any key.
  predicate Sits(v: Vec, t: int)
    requires 0 < v.cap && |v.keys| <= v.cap
  {
    t != v.mid && (t in v.keys ==> v.cap == 1) && !Spoils(v, t)
  }

  lemma ShapedIff(v: Vec, t: int)
    requires Shaped(v)
    ensures Shaped(Inserted(v, t)) <==> Sits(v, t)
  {
    if t == v.mid {
      MiddleNotShaped(v);
    } else if t in v.keys {
      if v.cap > 1 {
        var q :| 0 <= q < |v.keys| && t == v.keys[q];
        RepeatNotSorted(v, t, q);
      } else {
        assert v.keys == [t];
      }
    } else {
      PartExists(v.keys, t);
      var p :| Parts(v.keys, t, p);
      if Spoils(v, t) {
        assert p == 0;
        SpoiledNotShaped(v, t);
      } else {
        InsertShaped(v, t, p);
      }
    }
  }

  // That case needs an odd capacity, and one of capacity three shows it.
  lemma SpoilsOnlyWhenOdd(v: Vec, t: int)
    requires Shaped(v) && v.cap % 2 == 0
    ensures !Spoils(v, t)
  {
  }

  lemma OddCapacitySpoils()
    ensures var v := Vec([4, 6, 7], 3, 1, 2, 5); Shaped(v) && !Sorted(Inserted(v, 1).keys)
  {
    var v := Vec([4, 6, 7], 3, 1, 2, 5);
    SlideDownPushes(v.keys, 1, 0);
    var r := Inserted(v, 1).keys;
    assert r == [6, 7, 1];
    assert r[1] > r[2];
  }

  function Apart(v: Vec): (d: int) {
    if v.less < v.large then v.large - v.less else v.less - v.large
  }

  // Once full, the difference of the two sides never grows, and a key on the smaller side shrinks it.
  lemma NeverLessBalanced(v: Vec, t: int)
    requires Shaped(v) && t != v.mid && t !in v.keys && |v.keys| == v.cap && v.cap % 2 == 0
    ensures Apart(Inserted(v, t)) <= Apart(v)
    ensures (if t < v.mid then v.less < v.large else v.large < v.less) ==> Apart(Inserted(v, t)) == Apart(v) - 2
  {
  }

  // -------- the whole history --------

  ghost predicate Below(x: int, s: seq<int>) {
    forall k :: 0 <= k < |s| ==> x < s[k]
  }

  ghost predicate Above(x: int, s: seq<int>) {
    forall k :: 0 <= k < |s| ==> x > s[k]
  }

  // A key that has been offered and is not held lies outside all that are held, on a side that
  // holds at least as many as the other.
  ghost predicate FairlyLeftOut(v: Vec, x: int) {
    if x < v.mid then Below(x, v.keys) && v.less >= v.large else Above(x, v.keys) && v.large >= v.less
  }

  ghost predicate Optimal(v: Vec, offered: set<int>) {
    && Shaped(v)
    && (forall k :: 0 <= k < |v.keys| ==> v.keys[k] in offered)
    && (forall x :: x in offered && x !in v.keys ==> |v.keys| == v.cap && FairlyLeftOut(v, x))
  }

  lemma PlacedMembers(s: seq<int>, t: int, p: nat, x: int)
    requires p <= |s|
    ensures x in Placed(s, t, p) <==> x == t || x in s
    ensures p < |s| ==> Placed(s, t, p)[|s|] == s[|s| - 1] && t in Placed(s, t, p)[..|s|]
    ensures 0 < p ==> Placed(s, t, p)[0] == s[0] && t in Placed(s, t, p)[1..]
  {
    var w := Placed(s, t, p);
    assert s == s[..p] + s[p..];
    assert w[p] == t;
    assert p < |s| ==> w[..|s|][p] == t;
    assert 0 < p ==> w[1..][p - 1] == t;
  }

  lemma LastDropped(s: seq<int>, t: int, p: nat, x: int)
    requires p < |s|
    ensures var r := Placed(s, t, p)[..|s|];
            && t in r && (x in r ==> x == t || x in s) && (x in s && x !in r ==> x == s[|s| - 1])
  {
    var w := Placed(s, t, p);
    PlacedMembers(s, t, p, x);
    assert w == w[..|s|] + [w[|s|]];
  }

  lemma FirstDropped(s: seq<int>, t: int, p: nat, x: int)
    requires 0 < p <= |s|
    ensures var r := Placed(s, t, p)[1..];
            && t in r && (x in r ==> x == t || x in s) && (x in s && x !in r ==> x == s[0])
  {
    var w := Placed(s, t, p);
    PlacedMembers(s, t, p, x);
    assert w == [w[0]] + w[1..];
  }

  // The keys after an insertion that is not refused: what stays, what is new and what goes.
  lemma InsertMembers(v: Vec, t: int, p: nat, x: int)
    requires Shaped(v) && t != v.mid && Parts(v.keys, t, p) && !Spoils(v, t)
    requires OutcomeOf(v, t) != Kept
    ensures x in Inserted(v, t).keys ==> x == t || x in v.keys
    ensures t in Inserted(v, t).keys
    ensures x in v.keys && x !in Inserted(v, t).keys ==>
              match OutcomeOf(v, t)
              case DropLast => x == v.keys[v.cap - 1]
              case DropFirst => x == v.keys[0]
              case _ => false
  {
    InsertPlaces(v, t, p);
    match OutcomeOf(v, t)
    case Room =>
      PlacedMembers(v.keys, t, p, x);
      PlacedMembers(v.keys, t, p, t);
    case DropLast =>
      LastDropped(v.keys, t, p, x);
    case DropFirst =>
      FirstDropped(v.keys, t, p, x);
  }

  // The counters after an insertion that drops a key.
  lemma DropCounts(v: Vec, t: int, p: nat)
    requires Shaped(v) && v.cap % 2 == 0 && t != v.mid && Parts(v.keys, t, p)
    ensures OutcomeOf(v, t) == DropLast ==>
              v.keys[v.cap - 1] > v.mid && Inserted(v, t).large >= Inserted(v, t).less && t < v.keys[v.cap - 1]
    ensures OutcomeOf(v, t) == DropFirst ==>
              v.keys[0] < v.mid && Inserted(v, t).less >= Inserted(v, t).large && t > v.keys[0]
    ensures OutcomeOf(v, t) in {DropLast, DropFirst} && v.less >= v.large ==>
              Inserted(v, t).less >= Inserted(v, t).large && t > v.keys[0]
    ensures OutcomeOf(v, t) in {DropLast, DropFirst} && v.large >= v.less ==>
              Inserted(v, t).large >= Inserted(v, t).less && t < v.keys[v.cap - 1]
  {
  }

  lemma StillLeftOut(v: Vec, t: int, p: nat, x: int)
    requires Shaped(v) && v.cap % 2 == 0 && t != v.mid && Parts(v.keys, t, p)
    requires x != v.mid && |v.keys| == v.cap && FairlyLeftOut(v, x)
    ensures FairlyLeftOut(Inserted(v, t), x)
  {
    if OutcomeOf(v, t) != Kept {
      DropCounts(v, t, p);
      var r := Inserted(v, t).keys;
      forall k | 0 <= k < |r| ensures if x < v.mid then x < r[k] else x > r[k] {
        InsertMembers(v, t, p, r[k]);
      }
    }
  }

  lemma NewlyLeftOut(v: Vec, t: int, p: nat, x: int)
    requires Shaped(v) && v.cap % 2 == 0 && t != v.mid && Parts(v.keys, t, p)
    requires x == t || x in v.keys
    requires x !in Inserted(v, t).keys
    ensures |v.keys| == v.cap && FairlyLeftOut(Inserted(v, t), x)
  {
    InsertPlaces(v, t, p);
    if OutcomeOf(v, t) != Kept {
      DropCounts(v, t, p);
      InsertMembers(v, t, p, x);
      var r := Inserted(v, t).keys;
      forall k | 0 <= k < |r| ensures if x < v.mid then x < r[k] else x > r[k] {
        InsertMembers(v, t, p, r[k]);
      }
    }
  }

  // Every new key keeps the vector the best that the keys offered so far allow.
  lemma InsertOptimal(v: Vec, offered: set<int>, t: int)
    requires Optimal(v, offered) && v.cap % 2 == 0
    requires t != v.mid && v.mid !in offered && t !in v.keys
    ensures Optimal(Inserted(v, t), offered + {t})
  {
    PartExists(v.keys, t);
    var p :| Parts(v.keys, t, p);
    InsertShaped(v, t, p);
    var r := Inserted(v, t);
    forall x | x in offered + {t} && x !in r.keys ensures |r.keys| == r.cap && FairlyLeftOut(r, x) {
      if x == t || x in v.keys {
        NewlyLeftOut(v, t, p, x);
      } else {
        StillLeftOut(v, t, p, x);
      }
    }
    forall k | 0 <= k < |r.keys| ensures r.keys[k] in offered + {t} {
      if OutcomeOf(v, t) != Kept {
        InsertMembers(v, t, p, r.keys[k]);
      }
    }
  }

  function Offered(v: Vec, keys: seq<int>): (r: Vec)
    requires |v.keys| <= v.cap && v.cap > 0
    ensures |r.keys| <= r.cap == v.cap && r.mid == v.mid
  {
    if keys == [] then v else Inserted(Offered(v, keys[..|keys| - 1]), keys[|keys| - 1])
  }

  function Empty(cap: nat, mid: int): (v: Vec) {
    Vec([], cap, 0, 0, mid)
  }

  function Elements(s: seq<int>): (r: set<int>) {
    set x | x in s
  }

  // No key is the middle or is held at the moment it is offered. One that was left out may come
  // again.
  ghost predicate NewWhenOffered(cap: nat, mid: int, keys: seq<int>)
    requires cap > 0
  {
    forall i :: 0 <= i < |keys| ==> NewAt(cap, mid, keys, i)
  }

  predicate NewAt(cap: nat, mid: int, keys: seq<int>, i: nat)
    requires cap > 0 && i < |keys|
  {
    keys[i] != mid && keys[i] !in Offered(Empty(cap, mid), keys[..i]).keys
  }

  lemma NewBefore(cap: nat, mid: int, keys: seq<int>, m: nat)
    requires cap > 0 && NewWhenOffered(cap, mid, keys) && m <= |keys|
    ensures NewWhenOffered(cap, mid, keys[..m])
  {
    forall i | 0 <= i < m ensures NewAt(cap, mid, keys[..m], i) {
      assert keys[..m][..i] == keys[..i];
      assert NewAt(cap, mid, keys, i);
    }
  }

  // Over any such sequence the vector is the best that the keys offered allow.
  lemma {:induction false} HistoryOptimal(cap: nat, mid: int, keys: seq<int>)
    requires cap > 0 && cap % 2 == 0 && NewWhenOffered(cap, mid, keys)
    ensures Optimal(Offered(Empty(cap, mid), keys), Elements(keys)) && mid !in keys
  {
    if keys != [] {
      var m := |keys| - 1;
      var before := keys[..m];
      NewBefore(cap, mid, keys, m);
      HistoryOptimal(cap, mid, before);
      assert keys == before + [keys[m]];
      assert Elements(keys) == Elements(before) + {keys[m]};
      assert NewAt(cap, mid, keys, m);
      InsertOptimal(Offered(Empty(cap, mid), before), Elements(before), keys[m]);
    }
  }

  // And only over such sequences does it stay sorted with exact counters all along.
  lemma SoundIffNew(cap: nat, mid: int, keys: seq<int>)
    requires cap > 0 && cap % 2 == 0
    ensures NewWhenOffered(cap, mid, keys) <==>
              forall i :: 0 <= i <= |keys| ==> Shaped(Offered(Empty(cap, mid), keys[..i]))
  {
    if NewWhenOffered(cap, mid, keys) {
      forall i | 0 <= i <= |keys| ensures Shaped(Offered(Empty(cap, mid), keys[..i])) {
        NewBefore(cap, mid, keys, i);
        HistoryOptimal(cap, mid, keys[..i]);
      }
    }
    if forall i :: 0 <= i <= |keys| ==> Shaped(Offered(Empty(cap, mid), keys[..i])) {
      forall i | 0 <= i < |keys| ensures NewAt(cap, mid, keys, i) {
        var v := Offered(Empty(cap, mid), keys[..i]);
        assert Shaped(v) && Shaped(Offered(Empty(cap, mid), keys[..i + 1]));
        assert keys[..i + 1][..i] == keys[..i];
        ShapedIff(v, keys[i]);
      }
    }
  }

  // -------- the order of the offers does not matter --------

  lemma {:induction false} ElementsSize(s: seq<int>)
    requires Sorted(s)
    ensures |Elements(s)| == |s|
  {
    if s != [] {
      var m := |s| - 1;
      ElementsSize(s[..m]);
      assert s == s[..m] + [s[m]];
      assert Elements(s) == Elements(s[..m]) + {s[m]};
    }
  }

  lemma {:induction false} SortedUnique(s: seq<int>, t: seq<int>)
    requires Sorted(s) && Sorted(t) && Elements(s) == Elements(t)
    ensures s == t
  {
    ElementsSize(s);
    ElementsSize(t);
    if s != [] {
      var m, n := |s| - 1, |t| - 1;
      assert s[m] in Elements(t);
      assert t[n] in Elements(s);
      assert s[m] == t[n];
      assert s == s[..m] + [s[m]] && t == t[..n] + [t[n]];
      forall x ensures x in Elements(s[..m]) <==> x in Elements(t[..n]) {
        assert x in Elements(s) <==> x in Elements(s[..m]) || x == s[m];
        assert x in Elements(t) <==> x in Elements(t[..n]) || x == t[n];
      }
      SortedUnique(s[..m], t[..n]);
    }
  }

  function Low(v: Vec): (r: set<int>)
    requires 0 <= v.less <= |v.keys|
  {
    Elements(v.keys[..v.less])
  }

  function High(v: Vec): (r: set<int>)
    requires 0 <= v.less <= |v.keys|
  {
    Elements(v.keys[v.less..])
  }

  lemma SideMembers(v: Vec, x: int)
    requires Shaped(v)
    ensures x in Low(v) <==> x in v.keys && x < v.mid
    ensures x in High(v) <==> x in v.keys && x > v.mid
    ensures |Low(v)| == v.less && |High(v)| == v.large
  {
    assert v.keys == v.keys[..v.less] + v.keys[v.less..];
    ElementsSize(v.keys[..v.less]);
    ElementsSize(v.keys[v.less..]);
  }

  lemma LowIncludes(u: Vec, v: Vec, offered: set<int>, x: int, y: int)
    requires Optimal(u, offered) && Optimal(v, offered) && u.mid == v.mid
    requires x in Low(u) && x !in Low(v) && y in Low(v)
    ensures y in Low(u)
  {
  }

  lemma HighIncludes(u: Vec, v: Vec, offered: set<int>, x: int, y: int)
    requires Optimal(u, offered) && Optimal(v, offered) && u.mid == v.mid
    requires x in High(u) && x !in High(v) && y in High(v)
    ensures y in High(u)
  {
  }

  // If u holds a key below the middle that v left out, it holds all that v does, and more.
  lemma LowNested(u: Vec, v: Vec, offered: set<int>, x: int)
    requires Optimal(u, offered) && Optimal(v, offered) && u.mid == v.mid
    requires x in Low(u) && x !in Low(v)
    ensures v.less < u.less && v.less >= v.large
  {
    SideMembers(u, x);
    SideMembers(v, x);
    forall y | y in Low(v) ensures y in Low(u) {
      LowIncludes(u, v, offered, x, y);
    }
    assert Low(v) <= Low(u) - {x};
    SubsetSize(Low(v), Low(u) - {x});
  }

  lemma HighNested(u: Vec, v: Vec, offered: set<int>, x: int)
    requires Optimal(u, offered) && Optimal(v, offered) && u.mid == v.mid
    requires x in High(u) && x !in High(v)
    ensures v.large < u.large && v.large >= v.less
  {
    SideMembers(u, x);
    SideMembers(v, x);
    forall y | y in High(v) ensures y in High(u) {
      HighIncludes(u, v, offered, x, y);
    }
    assert High(v) <= High(u) - {x};
    SubsetSize(High(v), High(u) - {x});
  }

  lemma LowIncluded(u: Vec, v: Vec, offered: set<int>)
    requires Optimal(u, offered) && Optimal(v, offered) && u.mid == v.mid
    requires |u.keys| == |v.keys|
    ensures Low(u) <= Low(v)
  {
    if x :| x in Low(u) && x !in Low(v) {
      LowNested(u, v, offered, x);
      SideMembers(u, x);
      SideMembers(v, x);
      if High(v) <= High(u) {
        SubsetSize(High(v), High(u));
      } else {
        var z :| z in High(v) && z !in High(u);
        HighNested(v, u, offered, z);
      }
      assert false;
    }
  }

  lemma HighIncluded(u: Vec, v: Vec, offered: set<int>)
    requires Optimal(u, offered) && Optimal(v, offered) && u.mid == v.mid
    requires u.large == v.large
    ensures High(u) <= High(v)
  {
    forall x | x in High(u) ensures x in High(v) {
      if x !in High(v) {
        HighNested(u, v, offered, x);
      }
    }
  }

  lemma TwoSides(v: Vec)
    requires Shaped(v)
    ensures Elements(v.keys) == Low(v) + High(v)
  {
  }

  lemma SameLow(u: Vec, v: Vec, offered: set<int>)
    requires Optimal(u, offered) && Optimal(v, offered) && u.mid == v.mid
    requires |u.keys| == |v.keys|
    ensures Low(u) == Low(v) && u.less == v.less && u.large == v.large
  {
    LowIncluded(u, v, offered);
    LowIncluded(v, u, offered);
    SideMembers(u, 0);
    SideMembers(v, 0);
    assert Low(u) == Low(v);
  }

  lemma SameKeys(u: Vec, v: Vec, offered: set<int>)
    requires Optimal(u, offered) && Optimal(v, offered) && u.mid == v.mid
    requires |u.keys| == |v.keys|
    ensures u.keys == v.keys && u.less == v.less
  {
    SameLow(u, v, offered);
    HighIncluded(u, v, offered);
    HighIncluded(v, u, offered);
    TwoSides(u);
    TwoSides(v);
    assert Elements(u.keys) == Elements(v.keys);
    SortedUnique(u.keys, v.keys);
  }

  lemma HeldCount(v: Vec, offered: set<int>)
    requires Optimal(v, offered)
    ensures |v.keys| == if |offered| < v.cap then |offered| else v.cap
  {
    ElementsSize(v.keys);
    assert Elements(v.keys) <= offered;
    SubsetSize(Elements(v.keys), offered);
    if |v.keys| < v.cap {
      forall x | x in offered ensures x in Elements(v.keys) {
        assert x in v.keys;
      }
      SubsetSize(offered, Elements(v.keys));
    }
  }

  // The keys offered decide the vector.
  lemma OptimalUnique(u: Vec, v: Vec, offered: set<int>)
    requires Optimal(u, offered) && Optimal(v, offered) && u.mid == v.mid && u.cap == v.cap
    ensures u == v
  {
    HeldCount(u, offered);
    HeldCount(v, offered);
    SameKeys(u, v, offered);
  }

  // Two sequences of the same keys, in any order and with any left-out key repeated, leave the
  // same vector.
  lemma OrderDoesNotMatter(cap: nat, mid: int, a: seq<int>, b: seq<int>)
    requires cap > 0 && cap % 2 == 0 && NewWhenOffered(cap, mid, a) && NewWhenOffered(cap, mid, b)
    requires Elements(a) == Elements(b)
    ensures Offered(Empty(cap, mid), a) == Offered(Empty(cap, mid), b)
  {
    HistoryOptimal(cap, mid, a);
    HistoryOptimal(cap, mid, b);
    OptimalUnique(Offered(Empty(cap, mid), a), Offered(Empty(cap, mid), b), Elements(a));
  }

  // -------- the window of neighbours --------

  // Where near_neighbour takes t to stand among the keys: the number of keys below it, or 1 when
  // it is itself an inner key.
  ghost predicate StandsAt(s: seq<int>, t: int, p: nat) {
    && s != []
    && (t <= s[0] ==> p == 0)
    && (t > s[0] && t >= s[|s| - 1] ==> p == |s|)
    && (s[0] < t < s[|s| - 1] ==> if t in s then p == 1 else Parts(s, t, p))
  }

  lemma PartsOnce(s: seq<int>, t: int, p: nat, q: nat)
    requires Parts(s, t, p) && q < p
    ensures !Parts(s, t, q)
  {
    assert s[q] < t;
  }

  lemma StandsAtUnique(s: seq<int>, t: int, p: nat, q: nat)
    requires Sorted(s) && StandsAt(s, t, p) && StandsAt(s, t, q)
    ensures p == q
  {
    if s[0] < t < s[|s| - 1] && t !in s {
      if q < p {
        PartsOnce(s, t, p, q);
      } else if p < q {
        PartsOnce(s, t, q, p);
      }
    }
  }

  ghost function Place(s: seq<int>, t: int): (p: nat)
    requires Sorted(s) && s != []
    ensures StandsAt(s, t, p) && p <= |s|
  {
    PlaceExists(s, t);
    var p: nat :| StandsAt(s, t, p) && p <= |s|;
    p
  }

  lemma PlaceExists(s: seq<int>, t: int)
    requires Sorted(s) && s != []
    ensures exists p: nat :: StandsAt(s, t, p) && p <= |s|
  {
    if t <= s[0] {
      assert StandsAt(s, t, 0);
    } else if t >= s[|s| - 1] {
      assert StandsAt(s, t, |s|);
    } else if t in s {
      assert StandsAt(s, t, 1);
    } else {
      PartExists(s, t);
      var p :| Parts(s, t, p);
      assert StandsAt(s, t, p);
    }
  }

  function Smaller(a: int, b: int): (r: int) {
    if a < b then a else b
  }

  // The start and the length of the window.
  function Window(n: nat, p: nat, size: nat): (r: (int, nat))
    requires p <= n
  {
    var some := Smaller(size, n);
    if p == 0 then (0, some)
    else if p == n then (n - some, some)
    else if p + size / 2 > n then (n - some, some)
    else if p - size / 2 < 0 then (0, some)
    else (p - size / 2, size)
  }

  // The window lies inside the keys unless an odd size just reaches the end.
  lemma WindowInsideIff(n: nat, p: nat, size: nat)
    requires 0 < n && p <= n
    ensures var (start, length) := Window(n, p, size);
      0 <= start && start + length <= n <==> !Overruns(n, p, size)
  {
  }

  predicate Overruns(n: nat, p: nat, size: nat) {
    size % 2 == 1 && 0 < p < n && p >= size / 2 && p + size / 2 == n
  }

  lemma OddWindowOverruns()
    ensures var (start, length) := Window(2, Place([1, 3], 2), 3); start + length == 3
  {
    assert Parts([1, 3], 2, 1);
    StandsAtUnique([1, 3], 2, Place([1, 3], 2), 1);
  }

  // No key before place p is above t and none from it on is below.
  ghost predicate Divides(s: seq<int>, t: int, p: nat) {
    && p <= |s|
    && (forall k :: 0 <= k < p ==> s[k] <= t)
    && (forall k :: p <= k < |s| ==> s[k] >= t)
  }

  // A held key that is neither of the first two nor the last.
  ghost predicate InnerKey(s: seq<int>, t: int) {
    exists k :: 2 <= k < |s| - 1 && s[k] == t
  }

  // The search finds the place of t exactly when t is not such a key; it takes those to stand
  // after the first key.
  lemma PlaceDividesIff(s: seq<int>, t: int)
    requires Sorted(s) && s != []
    ensures Divides(s, t, Place(s, t)) <==> !InnerKey(s, t)
  {
    var p := Place(s, t);
    if k :| 2 <= k < |s| - 1 && s[k] == t {
      assert p == 1 && s[1] < t;
    } else if s[0] < t < s[|s| - 1] && t in s {
      var k :| 0 <= k < |s| && s[k] == t;
      assert k == 1;
    }
  }

  lemma InnerKeyMisplaced()
    ensures var s := [1, 2, 3, 4, 5, 6]; Window(6, Place(s, 5), 2) == (0, 2) && !(5 in s[0..2])
  {
    var s := [1, 2, 3, 4, 5, 6];
    assert s[4] == 5;
    StandsAtUnique(s, 5, Place(s, 5), 1);
  }

  // A window that does not overrun is as long as it can be and, unless t is an inner key, is
  // centred on t as far as the ends allow: it splits, an odd one with the larger part behind, into
  // parts that are not above and not below t, or it lies at an end with at most half of it on that
  // side of t. One that overruns is centred all the same and ends one key past the last.
  ghost predicate Centred(s: seq<int>, t: int, size: nat, start: int, length: nat)
  {
    || (start >= 0 && Divides(s, t, start + size / 2))
    || (start == 0 && exists p: nat :: p <= size / 2 && Divides(s, t, p))
    || (start + length == |s| && exists p: nat :: p + size / 2 >= |s| && Divides(s, t, p))
  }

  lemma WindowCentred(s: seq<int>, t: int, size: nat)
    requires Sorted(s) && s != []
    ensures var (start, length) := Window(|s|, Place(s, t), size);
      && (!InnerKey(s, t) ==> Centred(s, t, size, start, length))
      && if Overruns(|s|, Place(s, t), size) then length == size && start + length == |s| + 1
         else length == Smaller(size, |s|) && 0 <= start <= |s| - length
  {
    PlaceDividesIff(s, t);
    var p := Place(s, t);
    var (start, length) := Window(|s|, p, size);
    if !InnerKey(s, t) {
      assert Divides(s, t, p);
    }
  }

  // -------- the object --------

  class Vector {
    const arr: array<int>
    const mid: int
    var n: nat
    var cLess: int
    var cLarge: int

    ghost predicate Valid()
      reads this
    {
      n <= arr.Length && arr.Length > 0
    }

    ghost function Value(): (v: Vec)
      requires Valid()
      reads this, arr
    {
      Vec(arr[..n], arr.Length, cLess, cLarge, mid)
    }

    constructor (max: nat, mid: int)
      requires max > 0
      ensures Valid() && fresh(arr) && Value() == Empty(max, mid)
    {
      arr := new int[max];
      this.mid := mid;
      n := 0;
      cLess := 0;
      cLarge := 0;
    }

    method InsertUp(t: int)
      requires Valid() && n == arr.Length
      modifies arr
      ensures arr[..] == SlideUp(old(arr[..]), t, n - 1)
    {
      var i := n - 1;
      while i > 0
        invariant 0 <= i < n
        invariant SlideUp(arr[..], t, i) == SlideUp(old(arr[..]), t, n - 1)
      {
        if arr[i - 1] < t < arr[i] {
          arr[i] := t;
          return;
        }
        ghost var before := arr[..];
        arr[i] := arr[i - 1];
        assert arr[..] == before[i := before[i - 1]];
        i := i - 1;
      }
      arr[0] := t;
    }

    method InsertDown(t: int)
      requires Valid() && n == arr.Length
      modifies arr
      ensures arr[..] == SlideDown(old(arr[..]), t, 0)
    {
      var i := 0;
      while i < n - 1
        invariant 0 <= i < n
        invariant SlideDown(arr[..], t, i) == SlideDown(old(arr[..]), t, 0)
      {
        if arr[i] < t < arr[i + 1] {
          arr[i] := t;
          return;
        }
        ghost var before := arr[..];
        arr[i] := arr[i + 1];
        assert arr[..] == before[i := before[i + 1]];
        i := i + 1;
      }
      arr[n - 1] := t;
    }

    method InsertRoom(t: int)
      requires Valid() && n < arr.Length
      modifies arr
      ensures arr[..n + 1] == Added(old(arr[..n]), t)
    {
      ghost var keys := arr[..n];
      var i := n;
      while i > 0
        invariant 0 <= i <= n
        invariant i == n ==> arr[..n] == keys
        invariant i < n ==> keys[n - 1] >= t && SlideUp(arr[..n + 1], t, i) == Added(keys, t)
      {
        if arr[i - 1] < t && (t < arr[i] || i >= n) {
          ghost var before := arr[..n + 1];
          arr[i] := t;
          assert arr[..n + 1] == before[i := t];
          return;
        }
        ghost var before := arr[..n + 1];
        arr[i] := arr[i - 1];
        assert arr[..n + 1] == before[i := before[i - 1]];
        if i == n {
          assert arr[..n + 1] == keys + [keys[n - 1]];
        }
        i := i - 1;
      }
      ghost var before := arr[..n + 1];
      arr[0] := t;
      assert arr[..n + 1] == before[0 := t];
    }

    method Insert(t: int)
      requires Valid()
      modifies this, arr
      ensures Valid()
      ensures Value() == Inserted(old(Value()), t)
    {
      if n >= arr.Length {
        assert arr[..n] == arr[..];
        if cLarge >= cLess && t > arr[n - 1] {
          return;
        }
        if cLess >= cLarge && t < arr[0] {
          return;
        }
        if t > mid {
          cLarge := cLarge + 1;
        } else {
          cLess := cLess + 1;
        }
        if cLarge > cLess {
          InsertUp(t);
          cLarge := cLarge - 1;
        } else {
          InsertDown(t);
          cLess := cLess - 1;
        }
        assert arr[..n] == arr[..];
      } else {
        InsertRoom(t);
        if t > mid {
          cLarge := cLarge + 1;
        } else if t < mid {
          cLess := cLess + 1;
        }
        n := n + 1;
      }
    }

    method NearNeighbour(t: int, size: nat) returns (start: int, length: nat)
      requires Valid() && n > 0 && Sorted(arr[..n])
      ensures (start, length) == Window(n, Place(arr[..n], t), size)
    {
      ghost var s := arr[..n];
      length := size;
      if t <= arr[0] {
        if length > n {
          length := n;
        }
        start := 0;
        return;
      }
      if t >= arr[n - 1] {
        if length > n {
          length := n;
        }
        start := n - length;
        return;
      }
      var found := 0;
      for i := 0 to n - 1
        invariant 0 <= found <= i
        invariant found == 0 || arr[found] < t < arr[found + 1]
        invariant arr[found] < t < arr[found + 1] || forall k :: 0 <= k < i ==> !(s[k] < t < s[k + 1])
      {
        if arr[i] < t && t < arr[i + 1] {
          found := i;
        }
      }
      FoundStands(s, t, found);
      StandsAtUnique(s, t, Place(s, t), found + 1);
      if found + 1 + length / 2 > n {
        if length > n {
          length := n;
        }
        start := n - length;
      } else if found + 1 - length / 2 < 0 {
        if length > n {
          length := n;
        }
        start := 0;
      } else {
        start := found + 1 - length / 2;
      }
    }
  }

  lemma FoundStands(s: seq<int>, t: int, found: nat)
    requires Sorted(s) && found + 1 < |s| && s[0] < t < s[|s| - 1]
    requires s[found] < t < s[found + 1] || (found == 0 && forall k :: 0 <= k < |s| - 1 ==> !(s[k] < t < s[k + 1]))
    ensures StandsAt(s, t, found + 1)
  {
    if t !in s {
      PartExists(s, t);
      var p :| Parts(s, t, p);
      var k := p - 1;
      assert s[k] < t < s[k + 1];
    }
  }
}
