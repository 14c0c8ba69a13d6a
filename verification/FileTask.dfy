/**
  Reassembly of a file from blocks that arrive in any order. The position of the task, the
  waiting blocks and the end of the download are tied to the set of blocks received, for every
  cutting of the file into non-empty blocks and every order of arrival.
 */
module FileTask {

  // The bytes of a block are only copied and freed, so a block is its place and its size.
  datatype Block = Block(idx: nat, size: nat)

  // The blocks follow each other from a position on.
  ghost predicate Chain(pos: nat, s: seq<Block>)
    decreases |s|
  {
    s == [] || (s[0].idx == pos && Chain(pos + s[0].size, s[1..]))
  }

  function End(pos: nat, s: seq<Block>): (r: nat)
    decreases |s|
  {
    if s == [] then pos else End(pos + s[0].size, s[1..])
  }

  lemma {:induction false} ChainGrows(pos: nat, s: seq<Block>, b: Block)
    requires Chain(pos, s) && b.idx == End(pos, s)
    ensures Chain(pos, s + [b]) && End(pos, s + [b]) == b.idx + b.size
    decreases |s|
  {
    if s == [] {
      assert [b][1..] == [];
    } else {
      assert (s + [b])[1..] == s[1..] + [b];
      ChainGrows(pos + s[0].size, s[1..], b);
    }
  }

  // From position pos, taking these blocks off the queue leads to the position and queue after.
  ghost predicate Drained(pos: nat, queue: multiset<Block>, taken: seq<Block>, pos': nat, queue': multiset<Block>) {
    Chain(pos, taken) && pos' == End(pos, taken) && queue == queue' + multiset(taken)
  }

  lemma DrainsOne(pos: nat, queue: multiset<Block>, taken: seq<Block>, pos': nat, queue': multiset<Block>, b: Block)
    requires Drained(pos, queue, taken, pos', queue')
    requires b in queue' && b.idx == pos'
    ensures Drained(pos, queue, taken + [b], pos' + b.size, queue' - multiset{b})
  {
    ChainGrows(pos, taken, b);
    assert multiset(taken + [b]) == multiset(taken) + multiset{b};
    assert queue' == queue' - multiset{b} + multiset{b};
  }

  // What the arrival of a block does to the position and the queue.
  ghost predicate Appended(pos: nat, queue: multiset<Block>, b: Block, spins: bool, taken: seq<Block>,
                           pos': nat, queue': multiset<Block>) {
    if b.idx != pos then !spins && taken == [] && pos' == pos && queue' == queue + multiset{b}
    else
      && Drained(pos + b.size, queue, taken, pos', queue')
      && (spins <==> exists y :: y in queue' && y.idx < pos')
      && (!spins ==> forall y :: y in queue' ==> y.idx > pos')
  }

  // -------- when the loop does not end, for any non-empty blocks --------

  // Some blocks of the queue follow on from the position and reach past the start of another.
  ghost predicate Clash(pos: nat, queue: multiset<Block>) {
    exists s: seq<Block>, y :: ReachesPast(pos, queue, s, y)
  }

  ghost predicate ReachesPast(pos: nat, queue: multiset<Block>, s: seq<Block>, y: Block) {
    Chain(pos, s) && multiset(s) + multiset{y} <= queue && y.idx < End(pos, s)
  }

  ghost predicate NonEmpty(queue: multiset<Block>) {
    forall b :: b in queue ==> b.size > 0
  }

  lemma {:induction false} ChainAbove(pos: nat, s: seq<Block>, b: Block)
    requires Chain(pos, s) && b in s
    ensures b.idx >= pos
    decreases |s|
  {
    if b != s[0] {
      assert b in s[1..];
      ChainAbove(pos + s[0].size, s[1..], b);
    }
  }

  // If nothing below the end of a chain is left over, nothing clashes with it.
  lemma {:induction false} NoClashLeft(pos: nat, queue: multiset<Block>, taken: seq<Block>, pos': nat,
                                       queue': multiset<Block>, s: seq<Block>, y: Block)
    requires Drained(pos, queue, taken, pos', queue') && NonEmpty(queue)
    requires forall b :: b in queue' ==> b.idx > pos'
    ensures !ReachesPast(pos, queue, s, y)
    decreases |s|
  {
    if ReachesPast(pos, queue, s, y) {
      EndAbove(pos, taken);
      assert y in queue;
      if s == [] {
        if y in taken {
          ChainAbove(pos, taken, y);
        }
      } else {
        var b := s[0];
        assert s == [b] + s[1..];
        assert multiset(s) == multiset{b} + multiset(s[1..]);
        assert b in queue;
        FirstTaken(pos, queue, taken, pos', queue', b);
        NoClashLeft(pos + b.size, queue - multiset{b}, taken[1..], pos', queue', s[1..], y);
      }
    }
  }

  lemma FirstTaken(pos: nat, queue: multiset<Block>, taken: seq<Block>, pos': nat, queue': multiset<Block>, b: Block)
    requires Drained(pos, queue, taken, pos', queue') && NonEmpty(queue) && b in queue && b.idx == pos
    requires forall y :: y in queue' ==> y.idx > pos'
    ensures taken != [] && taken[0] == b
    ensures Drained(pos + b.size, queue - multiset{b}, taken[1..], pos', queue')
  {
    EndAbove(pos, taken);
    assert b in taken;
    assert taken == [taken[0]] + taken[1..];
    assert multiset(taken) == multiset{taken[0]} + multiset(taken[1..]);
    assert taken[0] in queue;
    if b in taken[1..] {
      ChainAbove(pos + taken[0].size, taken[1..], b);
    }
    CancelOne(queue, queue', multiset(taken[1..]), taken[0]);
  }

  // The exact condition, over the position and the queue before the loop.
  lemma SpinsIffClash(pos: nat, queue: multiset<Block>, taken: seq<Block>, pos': nat, queue': multiset<Block>,
                      spins: bool)
    requires Drained(pos, queue, taken, pos', queue') && NonEmpty(queue)
    requires spins <==> exists y :: y in queue' && y.idx < pos'
    requires !spins ==> forall y :: y in queue' ==> y.idx > pos'
    ensures spins <==> Clash(pos, queue)
  {
    if spins {
      var y :| y in queue' && y.idx < pos';
      assert ReachesPast(pos, queue, taken, y);
    } else {
      forall s: seq<Block>, y ensures !ReachesPast(pos, queue, s, y) {
        NoClashLeft(pos, queue, taken, pos', queue', s, y);
      }
    }
  }

  lemma {:induction false} EndAbove(pos: nat, s: seq<Block>)
    ensures End(pos, s) >= pos
    decreases |s|
  {
    if s != [] {
      EndAbove(pos + s[0].size, s[1..]);
    }
  }

  ghost predicate Least(q: multiset<Block>, b: Block) {
    b in q && forall y :: y in q ==> b.idx <= y.idx
  }

  lemma LeastExists(q: multiset<Block>)
    requires q != multiset{}
    ensures exists b :: Least(q, b)
    decreases |q|
  {
    var x :| x in q;
    var rest := q - multiset{x};
    assert q == rest + multiset{x};
    if rest == multiset{} {
      assert Least(q, x);
    } else {
      LeastExists(rest);
      var y :| Least(rest, y);
      assert Least(q, if x.idx <= y.idx then x else y);
    }
  }

  class FileTask {
    const len: nat
    var curSeqId: nat
    var curRecvLen: nat
    var waiting: multiset<Block>

    constructor (len: nat)
      ensures this.len == len && curSeqId == 0 && curRecvLen == 0 && waiting == multiset{}
    {
      this.len := len;
      curSeqId := 0;
      curRecvLen := 0;
      waiting := multiset{};
    }

    // The queue is ordered by place, the lowest at the top.
    method Top() returns (b: Block)
      requires waiting != multiset{}
      ensures Least(waiting, b)
    {
      LeastExists(waiting);
      b :| b in waiting && forall y | y in waiting :: b.idx <= y.idx;
    }

    // A block at the position moves it on and takes every waiting block that then fits. With a
    // waiting block below the position the loop of the code never ends; `spins` stands for that.
    method AppendDataBlock(idx: nat, size: nat) returns (spins: bool, ghost taken: seq<Block>)
      modifies this
      ensures curRecvLen == old(curRecvLen) + size
      ensures Appended(old(curSeqId), old(waiting), Block(idx, size), spins, taken, curSeqId, waiting)
      ensures NonEmpty(old(waiting)) ==>
                (spins <==> idx == old(curSeqId) && Clash(idx + size, old(waiting)))
    {
      curRecvLen := curRecvLen + size;
      spins, taken := false, [];
      if idx != curSeqId {
        waiting := waiting + multiset{Block(idx, size)};
        return;
      }
      curSeqId := curSeqId + size;
      spins, taken := Drain();
      if NonEmpty(old(waiting)) {
        SpinsIffClash(idx + size, old(waiting), taken, curSeqId, waiting, spins);
      }
    }

    method Drain() returns (spins: bool, ghost taken: seq<Block>)
      modifies this`curSeqId, this`waiting
      ensures Drained(old(curSeqId), old(waiting), taken, curSeqId, waiting)
      ensures spins <==> exists y :: y in waiting && y.idx < curSeqId
      ensures !spins ==> forall y :: y in waiting ==> y.idx > curSeqId
    {
      taken := [];
      while waiting != multiset{}
        invariant Drained(old(curSeqId), old(waiting), taken, curSeqId, waiting)
        decreases |waiting|
      {
        var block := Top();
        if block.idx == curSeqId {
          DrainsOne(old(curSeqId), old(waiting), taken, curSeqId, waiting, block);
          curSeqId := curSeqId + block.size;
          taken := taken + [block];
          waiting := waiting - multiset{block};
        } else if block.idx < curSeqId {
          return true, taken;
        } else {
          return false, taken;
        }
      }
      return false, taken;
    }

    // For every cutting of the file, finished means that each part has arrived.
    method CheckFin() returns (fin: bool)
      ensures fin <==> curSeqId == len
      ensures forall cuts, got, j :: Assembled(cuts, got, j, curSeqId, waiting) && len == cuts[|cuts| - 1] ==>
                (fin <==> forall i :: 0 <= i < |cuts| - 1 ==> i in got)
    {
      fin := curSeqId == len;
      forall cuts, got, j | Assembled(cuts, got, j, curSeqId, waiting) && len == cuts[|cuts| - 1]
        ensures fin <==> forall i :: 0 <= i < |cuts| - 1 ==> i in got
      {
        FinishedIffAll(cuts, got, j, curSeqId, waiting);
      }
    }
  }

  // -------- a file cut into blocks --------

  ghost predicate Cuts(cuts: seq<nat>) {
    && cuts != [] && cuts[0] == 0
    && forall i, j :: 0 <= i < j < |cuts| ==> cuts[i] < cuts[j]
  }

  function Part(cuts: seq<nat>, i: nat): (b: Block)
    requires i + 1 < |cuts| && cuts[i] <= cuts[i + 1]
  {
    Block(cuts[i], cuts[i + 1] - cuts[i])
  }

  lemma PartsDiffer(cuts: seq<nat>, i: nat, k: nat)
    requires Cuts(cuts) && i + 1 < |cuts| && k + 1 < |cuts|
    ensures cuts[i] == cuts[k] ==> i == k
    ensures cuts[i] < cuts[k] <==> i < k
  {
  }

  // How many copies of part k wait when the first j parts have each been taken once.
  function Copies(got: multiset<nat>, j: nat, k: nat): (c: int) {
    if k < j then got[k] as int - 1 else got[k]
  }

  // The waiting blocks are the parts received, as often as they were, less those taken.
  ghost predicate Queued(cuts: seq<nat>, got: multiset<nat>, j: nat, waiting: multiset<Block>)
    requires Cuts(cuts)
  {
    && (forall b :: b in waiting ==> exists k :: 0 <= k < |cuts| - 1 && b == Part(cuts, k))
    && (forall k :: 0 <= k < |cuts| - 1 ==> waiting[Part(cuts, k)] == Copies(got, j, k))
  }

  // The first j parts have arrived and the position is behind them.
  ghost predicate Reached(cuts: seq<nat>, got: multiset<nat>, j: nat, pos: nat, waiting: multiset<Block>) {
    && Cuts(cuts) && j < |cuts| && pos == cuts[j]
    && (forall i :: 0 <= i < j ==> i in got)
    && Queued(cuts, got, j, waiting)
  }

  // And part j has not: the position is the longest received prefix.
  ghost predicate Assembled(cuts: seq<nat>, got: multiset<nat>, j: nat, pos: nat, waiting: multiset<Block>) {
    && Reached(cuts, got, j, pos, waiting)
    && j !in got && forall i :: i in got ==> i + 1 < |cuts|
  }

  // The least part from j on that has not arrived.
  function Missing(got: multiset<nat>, j: nat, n: nat): (r: nat)
    requires j <= n
    ensures j <= r <= n && (forall i :: j <= i < r ==> i in got) && (r < n ==> r !in got)
    decreases n - j
  {
    if j == n || j !in got then j else Missing(got, j + 1, n)
  }

  // The arrival that the loop of the code does not survive: the part missing first, when a part
  // of the prefix it completes has come twice.
  ghost predicate Trips(n: nat, got: multiset<nat>, i: nat) {
    i == Missing(got, 0, n) && exists k :: 0 <= k < Missing(got + multiset{i}, 0, n) && got[k] >= 2
  }

  lemma MissingIs(got: multiset<nat>, n: nat, j: nat)
    requires j <= n && (forall i :: 0 <= i < j ==> i in got) && (j < n ==> j !in got)
    ensures Missing(got, 0, n) == j
  {
  }

  // -------- a chain of parts --------

  lemma TakesPart(cuts: seq<nat>, got: multiset<nat>, j: nat, waiting: multiset<Block>, b: Block)
    requires Cuts(cuts) && j < |cuts| && Queued(cuts, got, j, waiting)
    requires b in waiting && b.idx == cuts[j]
    ensures j + 1 < |cuts| && j in got && b == Part(cuts, j)
    ensures Queued(cuts, got, j + 1, waiting - multiset{b})
  {
    var k :| 0 <= k < |cuts| - 1 && b == Part(cuts, k);
    assert k == j;
    forall i | 0 <= i < |cuts| - 1
      ensures (waiting - multiset{b})[Part(cuts, i)] == Copies(got, j + 1, i)
    {
      PartsDiffer(cuts, i, j);
    }
  }

  // Blocks that follow each other from the j-th cut on are the next parts of the file.
  lemma {:induction false} ChainIsParts(cuts: seq<nat>, got: multiset<nat>, j: nat, queue: multiset<Block>,
                                        taken: seq<Block>, rest: multiset<Block>)
    requires j < |cuts| && Reached(cuts, got, j, cuts[j], queue)
    requires Chain(cuts[j], taken) && queue == rest + multiset(taken)
    ensures j + |taken| < |cuts| && End(cuts[j], taken) == cuts[j + |taken|]
    ensures Reached(cuts, got, j + |taken|, cuts[j + |taken|], rest)
    decreases |taken|
  {
    if taken == [] {
      assert rest == queue;
    } else {
      var b := taken[0];
      assert taken == [b] + taken[1..];
      assert multiset(taken) == multiset{b} + multiset(taken[1..]);
      TakesPart(cuts, got, j, queue, b);
      CancelOne(queue, rest, multiset(taken[1..]), b);
      ChainIsParts(cuts, got, j + 1, queue - multiset{b}, taken[1..], rest);
    }
  }

  lemma CancelOne(a: multiset<Block>, r: multiset<Block>, t: multiset<Block>, b: Block)
    requires a == r + (multiset{b} + t)
    ensures a - multiset{b} == r + t
  {
  }

  // -------- an arrival --------

  // A part that is not the one missing first waits.
  lemma OtherPartWaits(cuts: seq<nat>, got: multiset<nat>, j: nat, pos: nat, waiting: multiset<Block>, i: nat)
    requires Assembled(cuts, got, j, pos, waiting) && i + 1 < |cuts| && i != j
    ensures cuts[i] != pos
    ensures Assembled(cuts, got + multiset{i}, j, pos, waiting + multiset{Part(cuts, i)})
  {
    forall k | 0 <= k < |cuts| - 1
      ensures (waiting + multiset{Part(cuts, i)})[Part(cuts, k)] == Copies(got + multiset{i}, j, k)
    {
      PartsDiffer(cuts, i, k);
    }
  }

  // After the part missing first, the position is at a part all before which have come.
  lemma NextPartReaches(cuts: seq<nat>, got: multiset<nat>, j: nat, pos: nat, waiting: multiset<Block>,
                        taken: seq<Block>, pos': nat, waiting': multiset<Block>)
    requires Assembled(cuts, got, j, pos, waiting) && j + 1 < |cuts|
    requires Drained(cuts[j + 1], waiting, taken, pos', waiting')
    ensures Reached(cuts, got + multiset{j}, j + 1 + |taken|, pos', waiting')
  {
    assert Queued(cuts, got + multiset{j}, j + 1, waiting);
    ChainIsParts(cuts, got + multiset{j}, j + 1, waiting, taken, waiting');
  }

  // There a block below the position is left exactly if a part before it has come twice.
  lemma LowIffTwice(cuts: seq<nat>, got: multiset<nat>, j: nat, pos: nat, waiting: multiset<Block>)
    requires Reached(cuts, got, j, pos, waiting)
    ensures (exists y :: y in waiting && y.idx < pos) <==> exists k :: 0 <= k < j && got[k] >= 2
  {
    if y :| y in waiting && y.idx < pos {
      var k :| 0 <= k < |cuts| - 1 && y == Part(cuts, k);
      assert k < j;
      assert got[k] >= 2;
    }
    if k :| 0 <= k < j && got[k] >= 2 {
      assert Part(cuts, k) in waiting && Part(cuts, k).idx < pos;
    }
  }

  // And without one the next part is missing, as it would be waiting at the position.
  lemma ThenMissing(cuts: seq<nat>, got: multiset<nat>, j: nat, pos: nat, waiting: multiset<Block>)
    requires Reached(cuts, got, j, pos, waiting) && forall y :: y in waiting ==> y.idx > pos
    ensures j + 1 < |cuts| ==> j !in got
  {
    if j + 1 < |cuts| {
      assert waiting[Part(cuts, j)] == got[j];
    }
  }

  lemma NextPartKeeps(cuts: seq<nat>, got: multiset<nat>, j: nat, pos: nat, waiting: multiset<Block>,
                      spins: bool, taken: seq<Block>, pos': nat, waiting': multiset<Block>)
    requires Assembled(cuts, got, j, pos, waiting) && j + 1 < |cuts|
    requires Appended(pos, waiting, Part(cuts, j), spins, taken, pos', waiting')
    ensures spins <==> exists k :: 0 <= k < Missing(got + multiset{j}, 0, |cuts| - 1) && got[k] >= 2
    ensures !spins ==>
              Assembled(cuts, got + multiset{j}, Missing(got + multiset{j}, 0, |cuts| - 1), pos', waiting')
  {
    NextPartReaches(cuts, got, j, pos, waiting, taken, pos', waiting');
    StopsOrSpins(cuts, got, j, j + 1 + |taken|, pos', waiting', spins);
  }

  lemma StopsOrSpins(cuts: seq<nat>, got: multiset<nat>, j: nat, j': nat, pos: nat, waiting: multiset<Block>,
                     spins: bool)
    requires j !in got && j < j' && forall i :: i in got ==> i + 1 < |cuts|
    requires Reached(cuts, got + multiset{j}, j', pos, waiting)
    requires spins <==> exists y :: y in waiting && y.idx < pos
    requires !spins ==> forall y :: y in waiting ==> y.idx > pos
    ensures spins <==> exists k :: 0 <= k < Missing(got + multiset{j}, 0, |cuts| - 1) && got[k] >= 2
    ensures !spins ==>
              Assembled(cuts, got + multiset{j}, Missing(got + multiset{j}, 0, |cuts| - 1), pos, waiting)
  {
    var n, now := |cuts| - 1, got + multiset{j};
    LowIffTwice(cuts, now, j', pos, waiting);
    if spins {
      var k :| 0 <= k < j' && now[k] >= 2;
      assert got[k] >= 2 && k < Missing(now, 0, n);
    } else {
      ThenMissing(cuts, now, j', pos, waiting);
      MissingIs(now, n, j');
      forall k | 0 <= k < j' ensures got[k] < 2 {
        assert now[k] < 2;
      }
    }
  }

  // Exactly when the loop of the code fails to end, over everything that has arrived; if it does
  // end, the position is again the longest received prefix and the queue what lies beyond.
  lemma ArrivalKeeps(cuts: seq<nat>, got: multiset<nat>, j: nat, pos: nat, waiting: multiset<Block>, i: nat,
                     spins: bool, taken: seq<Block>, pos': nat, waiting': multiset<Block>)
    requires Assembled(cuts, got, j, pos, waiting) && i + 1 < |cuts|
    requires Appended(pos, waiting, Part(cuts, i), spins, taken, pos', waiting')
    ensures spins <==> Trips(|cuts| - 1, got, i)
    ensures !spins ==>
              Assembled(cuts, got + multiset{i}, Missing(got + multiset{i}, 0, |cuts| - 1), pos', waiting')
  {
    MissingIs(got, |cuts| - 1, j);
    if i != j {
      OtherPartWaits(cuts, got, j, pos, waiting, i);
      MissingIs(got + multiset{i}, |cuts| - 1, j);
    } else {
      NextPartKeeps(cuts, got, j, pos, waiting, spins, taken, pos', waiting');
    }
  }

  // The download is over just when every part has arrived.
  lemma FinishedIffAll(cuts: seq<nat>, got: multiset<nat>, j: nat, pos: nat, waiting: multiset<Block>)
    requires Assembled(cuts, got, j, pos, waiting)
    ensures pos == cuts[|cuts| - 1] <==> forall i :: 0 <= i < |cuts| - 1 ==> i in got
  {
  }

  // -------- whole downloads --------

  ghost predicate TripsAt(n: nat, order: seq<nat>, k: nat)
    requires k < |order|
  {
    Trips(n, multiset(order[..k]), order[k])
  }

  // None of the first m arrivals trips.
  ghost predicate SmoothTo(n: nat, order: seq<nat>, m: nat)
    requires m <= |order|
  {
    forall k :: 0 <= k < m ==> !TripsAt(n, order, k)
  }

  ghost predicate Smooth(n: nat, order: seq<nat>) {
    SmoothTo(n, order, |order|)
  }

  // Parts that come once each never do.
  lemma OnceEachIsSmooth(n: nat, order: seq<nat>)
    requires forall k, l :: 0 <= k < l < |order| ==> order[k] != order[l]
    ensures Smooth(n, order)
  {
    forall k | 0 <= k < |order| ensures !TripsAt(n, order, k) {
      forall x ensures multiset(order[..k])[x] <= 1 {
        OnceEach(order[..k], x);
      }
    }
  }

  lemma {:induction false} OnceEach(s: seq<nat>, x: nat)
    requires forall k, l :: 0 <= k < l < |s| ==> s[k] != s[l]
    ensures multiset(s)[x] <= 1
  {
    if s != [] {
      var last := |s| - 1;
      assert s == s[..last] + [s[last]];
      OnceEach(s[..last], x);
    }
  }

  // The first part, the first part again and then the second.
  lemma RepeatSpins(n: nat)
    requires n >= 2
    ensures !Smooth(n, [0, 0, 1])
  {
    var order: seq<nat> := [0, 0, 1];
    assert order[..2] == [0, 0];
    MissingIs(multiset{0, 0}, n, 1);
    assert Missing(multiset{0, 0} + multiset{1}, 0, n) >= 1;
    assert TripsAt(n, order, 2);
  }

  lemma NothingYet(cuts: seq<nat>)
    requires Cuts(cuts)
    ensures Assembled(cuts, multiset{}, 0, 0, multiset{})
  {
  }

  lemma FirstArrives(cuts: seq<nat>, spins: bool, taken: seq<Block>, pos: nat, queue: multiset<Block>)
    requires Cuts(cuts) && |cuts| >= 3
    requires Appended(0, multiset{}, Part(cuts, 0), spins, taken, pos, queue)
    ensures !spins && Assembled(cuts, multiset{0}, 1, pos, queue)
  {
    NothingYet(cuts);
    ArrivalKeeps(cuts, multiset{}, 0, 0, multiset{}, 0, spins, taken, pos, queue);
    assert multiset{} + multiset{0} == multiset{0};
    MissingIs(multiset{0}, |cuts| - 1, 1);
  }

  lemma FirstAgain(cuts: seq<nat>, pos: nat, queue: multiset<Block>, spins: bool, taken: seq<Block>,
                   pos': nat, queue': multiset<Block>)
    requires |cuts| >= 3 && Assembled(cuts, multiset{0}, 1, pos, queue)
    requires Appended(pos, queue, Part(cuts, 0), spins, taken, pos', queue')
    ensures !spins && Assembled(cuts, multiset{0, 0}, 1, pos', queue')
  {
    OtherPartWaits(cuts, multiset{0}, 1, pos, queue, 0);
    assert multiset{0} + multiset{0} == multiset{0, 0};
  }

  lemma SecondTrips(cuts: seq<nat>, pos: nat, queue: multiset<Block>, spins: bool, taken: seq<Block>,
                    pos': nat, queue': multiset<Block>)
    requires |cuts| >= 3 && Assembled(cuts, multiset{0, 0}, 1, pos, queue)
    requires Appended(pos, queue, Part(cuts, 1), spins, taken, pos', queue')
    ensures spins
  {
    NextPartKeeps(cuts, multiset{0, 0}, 1, pos, queue, spins, taken, pos', queue');
    assert multiset{0, 0}[0] == 2;
  }

  // In the code's own steps: from the start, the first part, the first part again and then the
  // second, and the third call does not come back.
  lemma RepeatRunSpins(cuts: seq<nat>, spins: seq<bool>, taken: seq<seq<Block>>, pos: seq<nat>,
                       queue: seq<multiset<Block>>)
    requires Cuts(cuts) && |cuts| >= 3
    requires |spins| == |taken| == |pos| == |queue| == 3
    requires Appended(0, multiset{}, Part(cuts, 0), spins[0], taken[0], pos[0], queue[0])
    requires Appended(pos[0], queue[0], Part(cuts, 0), spins[1], taken[1], pos[1], queue[1])
    requires Appended(pos[1], queue[1], Part(cuts, 1), spins[2], taken[2], pos[2], queue[2])
    ensures !spins[0] && !spins[1] && spins[2]
  {
    FirstArrives(cuts, spins[0], taken[0], pos[0], queue[0]);
    FirstAgain(cuts, pos[0], queue[0], spins[1], taken[1], pos[1], queue[1]);
    SecondTrips(cuts, pos[1], queue[1], spins[2], taken[2], pos[2], queue[2]);
  }

  // One part arrives at a task.
  method Deliver(task: FileTask, cuts: seq<nat>, i: nat, ghost got: multiset<nat>, ghost j: nat)
    returns (spun: bool)
    requires Assembled(cuts, got, j, task.curSeqId, task.waiting) && i + 1 < |cuts|
    modifies task
    ensures spun <==> Trips(|cuts| - 1, got, i)
    ensures !spun ==> Assembled(cuts, got + multiset{i}, Missing(got + multiset{i}, 0, |cuts| - 1),
                                task.curSeqId, task.waiting)
  {
    ghost var was, queue, taken := task.curSeqId, task.waiting, [];
    spun, taken := task.AppendDataBlock(cuts[i], cuts[i + 1] - cuts[i]);
    ArrivalKeeps(cuts, got, j, was, queue, i, spun, taken, task.curSeqId, task.waiting);
  }

  // A task to which the first k parts of an order have come, none of them tripping.
  ghost predicate OnTrack(cuts: seq<nat>, order: seq<nat>, k: nat, pos: nat, waiting: multiset<Block>)
    requires k <= |order|
  {
    && Cuts(cuts) && SmoothTo(|cuts| - 1, order, k)
    && Assembled(cuts, multiset(order[..k]), Missing(multiset(order[..k]), 0, |cuts| - 1), pos, waiting)
  }

  lemma StartsOnTrack(cuts: seq<nat>, order: seq<nat>)
    requires Cuts(cuts)
    ensures OnTrack(cuts, order, 0, 0, multiset{})
  {
    NothingYet(cuts);
    assert multiset(order[..0]) == multiset{};
  }

  lemma EndsOnTrack(cuts: seq<nat>, order: seq<nat>, pos: nat, waiting: multiset<Block>)
    requires OnTrack(cuts, order, |order|, pos, waiting)
    ensures Smooth(|cuts| - 1, order)
    ensures Assembled(cuts, multiset(order), Missing(multiset(order), 0, |cuts| - 1), pos, waiting)
    ensures pos == cuts[|cuts| - 1] <==> forall i :: 0 <= i < |cuts| - 1 ==> i in multiset(order)
  {
    assert order[..|order|] == order;
    FinishedIffAll(cuts, multiset(order), Missing(multiset(order), 0, |cuts| - 1), pos, waiting);
  }

  method DeliverNext(task: FileTask, cuts: seq<nat>, order: seq<nat>, k: nat) returns (spun: bool)
    requires k < |order| && order[k] + 1 < |cuts| && OnTrack(cuts, order, k, task.curSeqId, task.waiting)
    modifies task
    ensures spun ==> !Smooth(|cuts| - 1, order)
    ensures !spun ==> OnTrack(cuts, order, k + 1, task.curSeqId, task.waiting)
  {
    ghost var got := multiset(order[..k]);
    assert order[..k + 1] == order[..k] + [order[k]];
    spun := Deliver(task, cuts, order[k], got, Missing(got, 0, |cuts| - 1));
    assert spun <==> TripsAt(|cuts| - 1, order, k);
  }

  // Any parts in any order, some perhaps more than once: the download hangs exactly if some
  // arrival trips, and otherwise ends as it should.
  method Download(cuts: seq<nat>, order: seq<nat>)
    returns (spun: bool, pos: nat, fin: bool, ghost waiting: multiset<Block>)
    requires Cuts(cuts)
    requires forall k :: 0 <= k < |order| ==> order[k] + 1 < |cuts|
    ensures spun <==> !Smooth(|cuts| - 1, order)
    ensures !spun ==> Assembled(cuts, multiset(order), Missing(multiset(order), 0, |cuts| - 1), pos, waiting)
    ensures !spun ==> (fin <==> forall i :: 0 <= i < |cuts| - 1 ==> i in multiset(order))
  {
    var task := new FileTask(cuts[|cuts| - 1]);
    spun, pos, fin, waiting := false, 0, false, multiset{};
    StartsOnTrack(cuts, order);
    for k := 0 to |order|
      invariant fresh(task) && task.len == cuts[|cuts| - 1] && !spun
      invariant OnTrack(cuts, order, k, task.curSeqId, task.waiting)
    {
      spun := DeliverNext(task, cuts, order, k);
      if spun {
        return;
      }
    }
    EndsOnTrack(cuts, order, task.curSeqId, task.waiting);
    pos, waiting := task.curSeqId, task.waiting;
    fin := task.CheckFin();
  }
}
