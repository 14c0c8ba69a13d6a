/**
  The shuffle pool of a relay: one queue per finger, emptied in batches that send one packet
  per finger, real or dummy.
 */
module ShufflePool {
  import opened Ring
  import opened Routing
  import opened Protocol
  import opened Common
  import opened DeadDrop

  // -------- the random queue --------

  // Removal of one element by moving the last one into its place.
  function Removed<T>(s: seq<T>, i: nat): (r: seq<T>)
    requires i < |s|
    ensures |r| == |s| - 1
  {
    if i == |s| - 1 then s[..i] else s[..|s| - 1][i := s[|s| - 1]]
  }

  // Removal takes exactly one element out, whatever place the last one moves to.
  lemma RemovedKeepsRest<T>(s: seq<T>, i: nat)
    requires i < |s|
    ensures multiset(s) == multiset(Removed(s, i)) + multiset{s[i]}
  {
    var last := |s| - 1;
    assert s == s[..last] + [s[last]];
    if i < last {
      var front := s[..last];
      assert front == front[..i] + [s[i]] + front[i + 1..];
      assert Removed(s, i) == front[..i] + [s[last]] + front[i + 1..];
    }
  }

  class RandomQueue<T> {
    const arr: array<T>
    var n: nat

    ghost predicate Valid()
      reads this
    {
      n <= arr.Length
    }

    ghost function Contents(): (s: seq<T>)
      requires Valid()
      reads this, arr
    {
      arr[..n]
    }

    constructor (storage: array<T>)
      ensures Valid() && Contents() == [] && arr == storage
    {
      arr, n := storage, 0;
    }

    // The source does not look at the capacity; it is the caller's to respect.
    method Push(t: T)
      requires Valid() && n < arr.Length
      modifies this`n, arr
      ensures Valid() && Contents() == old(Contents()) + [t]
    {
      arr[n] := t;
      n := n + 1;
    }

    // `draw` is the random word drawn by the call.
    method PopRandom(minPool: nat, draw: nat) returns (r: Option<T>)
      requires Valid()
      modifies this`n, arr
      ensures Valid()
      ensures var s := old(Contents());
              var bound := if minPool == 0 || |s| >= minPool then |s| else minPool;
              if bound == 0 || draw % bound >= |s| then r == None && Contents() == s
              else r == Some(s[draw % bound]) && Contents() == Removed(s, draw % bound)
    {
      var idx := 0;
      if minPool == 0 {
        if n == 0 {
          return None;
        }
        idx := draw % n;
      } else {
        var poolMax := if n >= minPool then n else minPool;
        idx := draw % poolMax;
        if idx >= n {
          return None;
        }
      }
      ghost var s := Contents();
      r := Some(arr[idx]);
      if idx != n - 1 {
        arr[idx] := arr[n - 1];
      }
      n := n - 1;
      assert Contents() == Removed(s, idx);
    }

    // `r` is the number drawn for the chance `p`, `draw` the one that picks the element.
    method PopWithChance(p: real, r: nat, draw: nat) returns (t: Option<T>)
      requires Valid() && r <= RAND_MAX
      modifies this`n, arr
      ensures Valid()
      ensures var popped := PopWithP(old(Contents()), Draw(Accepts(p, r), draw));
              Contents() == popped.queue && t == popped.packet
    {
      if r as real <= p * RAND_MAX as real {
        t := PopRandom(0, draw);
      } else {
        t := None;
      }
    }
  }

  const RAND_MAX: nat := 0x7FFF_FFFF

  // The comparison of the drawn number with the chance.
  predicate Accepts(p: real, r: nat) {
    r as real <= p * RAND_MAX as real
  }

  // Every draw is accepted exactly from the chance 1 on, and none exactly below 0.
  lemma CertainChance(p: real)
    ensures (forall r: nat :: r <= RAND_MAX ==> Accepts(p, r)) <==> p >= 1.0
    ensures (forall r: nat :: r <= RAND_MAX ==> !Accepts(p, r)) <==> p < 0.0
  {
    assert Accepts(p, RAND_MAX) <==> p >= 1.0;
    assert Accepts(p, 0) <==> p >= 0.0;
  }

  // The random choices of one queue in one batch: whether to pop, and which element.
  datatype Draw = Draw(accept: bool, index: nat)

  datatype Popped<T> = Popped(queue: seq<T>, packet: Option<T>)

  function PopWithP<T>(q: seq<T>, d: Draw): (r: Popped<T>) {
    if d.accept && |q| > 0 then Popped(Removed(q, d.index % |q|), Some(q[d.index % |q|])) else Popped(q, None)
  }

  // -------- queueing --------

  // Where a packet handed to the pool goes.
  datatype Disposal = Queued(i: nat) | Direct | Lost

  function FirstMatch(fingers: seq<Peer>, dest: Peer, i: nat): (r: nat)
    requires i <= |fingers|
    ensures i <= r <= |fingers|
    ensures r < |fingers| ==> SameAddress(dest, fingers[r])
    ensures forall j :: i <= j < r ==> !SameAddress(dest, fingers[j])
    decreases |fingers| - i
  {
    if i == |fingers| || SameAddress(dest, fingers[i]) then i else FirstMatch(fingers, dest, i + 1)
  }

  function Dispose(fingers: seq<Peer>, self: Peer, dest: Peer): (d: Disposal) {
    var i := FirstMatch(fingers, dest, 0);
    if i < |fingers| then Queued(i) else if SameAddress(dest, self) then Direct else Lost
  }

  // A packet made by routing always has a queue, unless it is for the node itself.
  lemma RoutedPacketHasQueue(m: nat, t: Table, o: Outgoing)
    requires |t.fingers| > 0
    ensures var d := Dispose(t.fingers, t.self, Route(m, t, o).dest);
            d.Queued? || (d.Direct? && SameAddress(Route(m, t, o).dest, t.self))
  {
  }

  // -------- batches --------

  type Pool = seq<seq<Packet>>

  function DummyFor(finger: Peer): (p: Packet) {
    Packet(Dummy, 0, "", finger, Peer(0, "", 0), Peer(0, "", 0), 0, false, 0, seq(132, i => 0))
  }

  // What one queue adds to a batch.
  function Contribution(finger: Peer, q: seq<Packet>, d: Draw, dummies: bool): (ps: seq<Packet>)
    ensures |ps| <= 1
  {
    var r := PopWithP(q, d);
    if r.packet.Some? then [r.packet.value] else if dummies then [DummyFor(finger)] else []
  }

  datatype Batch = Batch(pool: Pool, sent: seq<Packet>)

  // One queue's turn in a batch.
  function Turned(b: Batch, i: nat, finger: Peer, d: Draw, dummies: bool): (r: Batch)
    requires i < |b.pool|
    ensures |r.pool| == |b.pool| && (forall j :: 0 <= j < |b.pool| && j != i ==> r.pool[j] == b.pool[j])
  {
    Batch(b.pool[i := PopWithP(b.pool[i], d).queue], b.sent + Contribution(finger, b.pool[i], d, dummies))
  }

  // The batch of the first `k` queues.
  function BatchOf(fingers: seq<Peer>, pool: Pool, draws: seq<Draw>, dummies: bool, k: nat): (b: Batch)
    requires |fingers| == |pool| == |draws| && k <= |pool|
    ensures |b.pool| == |pool| && (forall j :: k <= j < |pool| ==> b.pool[j] == pool[j])
  {
    if k == 0 then Batch(pool, [])
    else Turned(BatchOf(fingers, pool, draws, dummies, k - 1), k - 1, fingers[k - 1], draws[k - 1], dummies)
  }

  // What the empty batch has and every turn keeps, every batch has.
  lemma {:induction false} BatchInduction(fingers: seq<Peer>, pool: Pool, draws: seq<Draw>, dummies: bool, k: nat,
                                          keeps: (Batch, nat) -> bool)
    requires |fingers| == |pool| == |draws| && k <= |pool|
    requires keeps(Batch(pool, []), 0)
    requires forall b: Batch, i: nat :: i < |b.pool| == |pool| && keeps(b, i) ==>
               keeps(Turned(b, i, fingers[i], draws[i], dummies), i + 1)
    ensures keeps(BatchOf(fingers, pool, draws, dummies, k), k)
  {
    if k > 0 {
      BatchInduction(fingers, pool, draws, dummies, k - 1, keeps);
    }
  }

  // Every waiting packet is addressed to the finger of its queue.
  ghost predicate Addressed(fingers: seq<Peer>, pool: Pool) {
    && |fingers| == |pool|
    && forall i, j :: 0 <= i < |pool| && 0 <= j < |pool[i]| ==> SameAddress(pool[i][j].dest, fingers[i])
  }

  lemma PopAddressed(finger: Peer, q: seq<Packet>, d: Draw)
    requires forall j :: 0 <= j < |q| ==> SameAddress(q[j].dest, finger)
    ensures var r := PopWithP(q, d);
            && (forall j :: 0 <= j < |r.queue| ==> SameAddress(r.queue[j].dest, finger))
            && (r.packet.Some? ==> SameAddress(r.packet.value.dest, finger))
  {
  }

  // The packets sent so far go to the fingers in order, and the waiting ones stay addressed.
  ghost predicate InOrder(fingers: seq<Peer>, b: Batch, k: nat) {
    && |b.sent| == k <= |fingers|
    && (forall i :: 0 <= i < k ==> SameAddress(b.sent[i].dest, fingers[i]))
    && Addressed(fingers, b.pool)
  }

  lemma TurnShape(fingers: seq<Peer>, b: Batch, i: nat, q: seq<Packet>, ps: seq<Packet>)
    requires InOrder(fingers, b, i) && i < |fingers|
    requires forall j :: 0 <= j < |q| ==> SameAddress(q[j].dest, fingers[i])
    requires |ps| == 1 && SameAddress(ps[0].dest, fingers[i])
    ensures InOrder(fingers, Batch(b.pool[i := q], b.sent + ps), i + 1)
  {
  }

  // With dummies on, a batch sends one packet per finger, in finger order and to the
  // fingers' own addresses.
  lemma {:induction false} BatchShape(fingers: seq<Peer>, pool: Pool, draws: seq<Draw>, k: nat)
    requires Addressed(fingers, pool) && |draws| == |pool| && k <= |pool|
    ensures InOrder(fingers, BatchOf(fingers, pool, draws, true, k), k)
  {
    if k > 0 {
      var b := BatchOf(fingers, pool, draws, true, k - 1);
      BatchShape(fingers, pool, draws, k - 1);
      PopAddressed(fingers[k - 1], b.pool[k - 1], draws[k - 1]);
      TurnShape(fingers, b, k - 1, PopWithP(b.pool[k - 1], draws[k - 1]).queue,
                Contribution(fingers[k - 1], b.pool[k - 1], draws[k - 1], true));
    }
  }

  // A queue with an accepting draw and something waiting.
  predicate Serves(q: seq<Packet>, d: Draw) {
    d.accept && q != []
  }

  // What a finished batch did with the queue that was `q`: it lost exactly the drawn packet, which
  // was sent, or, when the draw was not accepted or nothing was waiting, it did not change.
  ghost predicate Served(q: seq<Packet>, d: Draw, q': seq<Packet>, sent: seq<Packet>) {
    if Serves(q, d) then
      q[d.index % |q|] in sent && multiset(q) == multiset(q') + multiset{q[d.index % |q|]}
    else
      q' == q
  }

  // Every queue is served in every batch.
  lemma {:induction false} BatchServes(fingers: seq<Peer>, pool: Pool, draws: seq<Draw>, dummies: bool, k: nat, i: nat)
    requires |fingers| == |pool| == |draws| && i < k <= |pool|
    ensures var b := BatchOf(fingers, pool, draws, dummies, k);
            Served(pool[i], draws[i], b.pool[i], b.sent)
  {
    if i < k - 1 {
      BatchServes(fingers, pool, draws, dummies, k - 1, i);
    } else {
      var q, d := pool[i], draws[i];
      var b := BatchOf(fingers, pool, draws, dummies, i);
      assert b.pool[i] == q;
      if Serves(q, d) {
        RemovedKeepsRest(q, d.index % |q|);
        var ps := Contribution(fingers[i], q, d, dummies);
        assert (b.sent + ps)[|b.sent|] == q[d.index % |q|];
      }
    }
  }

  // With dummies on, the packet in a queue's place is the drawn one or a dummy for its finger.
  lemma {:induction false} BatchPlaces(fingers: seq<Peer>, pool: Pool, draws: seq<Draw>, k: nat, i: nat)
    requires |fingers| == |pool| == |draws| && i < k <= |pool|
    ensures var sent := BatchOf(fingers, pool, draws, true, k).sent;
            && i < |sent|
            && sent[i] == if Serves(pool[i], draws[i]) then pool[i][draws[i].index % |pool[i]|]
                          else DummyFor(fingers[i])
  {
    BatchSize(fingers, pool, draws, k - 1);
    if i < k - 1 {
      BatchPlaces(fingers, pool, draws, k - 1, i);
    }
  }

  // -------- runs --------

  function Waiting(pool: Pool): (r: multiset<Packet>) {
    if pool == [] then multiset{} else Waiting(pool[..|pool| - 1]) + multiset(pool[|pool| - 1])
  }

  function Real(ps: seq<Packet>): (r: multiset<Packet>) {
    if ps == [] then multiset{}
    else Real(ps[..|ps| - 1]) + if ps[|ps| - 1].kind == Dummy then multiset{} else multiset{ps[|ps| - 1]}
  }

  lemma {:induction false} WaitingUpdate(pool: Pool, i: nat, q: seq<Packet>)
    requires i < |pool|
    ensures Waiting(pool[i := q]) + multiset(pool[i]) == Waiting(pool) + multiset(q)
  {
    var last := |pool| - 1;
    if i == last {
      assert pool[i := q][..last] == pool[..last];
    } else {
      var front := pool[..last];
      assert pool[i := q][..last] == front[i := q];
      WaitingUpdate(front, i, q);
      assert Waiting(pool[i := q]) == Waiting(front[i := q]) + multiset(pool[last]);
      assert Waiting(pool) == Waiting(front) + multiset(pool[last]);
      forall x ensures (Waiting(pool[i := q]) + multiset(pool[i]))[x] == (Waiting(pool) + multiset(q))[x] {
        assert (Waiting(front[i := q]) + multiset(front[i]))[x] == (Waiting(front) + multiset(q))[x];
      }
    }
  }

  lemma {:induction false} RealConcat(a: seq<Packet>, b: seq<Packet>)
    ensures Real(a + b) == Real(a) + Real(b)
  {
    if b == [] {
      assert a + b == a;
    } else {
      assert (a + b)[..|a + b| - 1] == a + b[..|b| - 1];
      RealConcat(a, b[..|b| - 1]);
    }
  }

  predicate NoDummies(pool: Pool) {
    forall i, j :: 0 <= i < |pool| && 0 <= j < |pool[i]| ==> pool[i][j].kind != Dummy
  }

  lemma PopKeeps(q: seq<Packet>, d: Draw)
    requires forall j :: 0 <= j < |q| ==> q[j].kind != Dummy
    ensures var r := PopWithP(q, d);
            && multiset(q) == multiset(r.queue) + (if r.packet.Some? then multiset{r.packet.value} else multiset{})
            && (r.packet.Some? ==> r.packet.value.kind != Dummy)
            && (forall j :: 0 <= j < |r.queue| ==> r.queue[j].kind != Dummy)
  {
    if d.accept && |q| > 0 {
      RemovedKeepsRest(q, d.index % |q|);
    }
  }

  lemma ContributionKeeps(finger: Peer, q: seq<Packet>, d: Draw, dummies: bool)
    requires forall j :: 0 <= j < |q| ==> q[j].kind != Dummy
    ensures multiset(q) == multiset(PopWithP(q, d).queue) + Real(Contribution(finger, q, d, dummies))
    ensures forall j :: 0 <= j < |PopWithP(q, d).queue| ==> PopWithP(q, d).queue[j].kind != Dummy
  {
    PopKeeps(q, d);
    RealOne(Contribution(finger, q, d, dummies));
  }

  predicate KeptBy(pool: Pool, b: Batch) {
    NoDummies(b.pool) && Waiting(pool) == Waiting(b.pool) + Real(b.sent)
  }

  lemma TurnKeeps(pool: Pool, b: Batch, i: nat, q: seq<Packet>, ps: seq<Packet>)
    requires KeptBy(pool, b) && i < |b.pool|
    requires multiset(b.pool[i]) == multiset(q) + Real(ps) && forall j :: 0 <= j < |q| ==> q[j].kind != Dummy
    ensures KeptBy(pool, Batch(b.pool[i := q], b.sent + ps))
  {
    WaitingUpdate(b.pool, i, q);
    RealConcat(b.sent, ps);
    Balance(Waiting(pool), Waiting(b.pool), Waiting(b.pool[i := q]), multiset(b.pool[i]), multiset(q), Real(ps),
            Real(b.sent));
  }

  lemma OneQueueKeeps(pool: Pool, b: Batch, i: nat, finger: Peer, d: Draw, dummies: bool)
    requires KeptBy(pool, b) && i < |b.pool|
    ensures KeptBy(pool, Turned(b, i, finger, d, dummies))
  {
    ContributionKeeps(finger, b.pool[i], d, dummies);
    TurnKeeps(pool, b, i, PopWithP(b.pool[i], d).queue, Contribution(finger, b.pool[i], d, dummies));
  }

  // One batch neither loses nor invents a real packet.
  lemma {:induction false} BatchKeeps(fingers: seq<Peer>, pool: Pool, draws: seq<Draw>, dummies: bool, k: nat)
    requires |fingers| == |pool| == |draws| && k <= |pool| && NoDummies(pool)
    ensures KeptBy(pool, BatchOf(fingers, pool, draws, dummies, k))
  {
    var keeps := (b: Batch, i: nat) => KeptBy(pool, b);
    assert KeptBy(pool, Batch(pool, []));
    forall b: Batch, i: nat | i < |b.pool| == |pool| && keeps(b, i)
      ensures keeps(Turned(b, i, fingers[i], draws[i], dummies), i + 1)
    {
      OneQueueKeeps(pool, b, i, fingers[i], draws[i], dummies);
    }
    BatchInduction(fingers, pool, draws, dummies, k, keeps);
  }

  lemma RealOne(ps: seq<Packet>)
    requires |ps| <= 1
    ensures Real(ps) == if |ps| == 1 && ps[0].kind != Dummy then multiset{ps[0]} else multiset{}
  {
  }

  lemma Balance(all: multiset<Packet>, before: multiset<Packet>, after: multiset<Packet>, q: multiset<Packet>,
                q': multiset<Packet>,
                taken: multiset<Packet>, sent: multiset<Packet>)
    requires all == before + sent && after + q == before + q' && q == q' + taken
    ensures all == after + (sent + taken)
  {
    forall x ensures all[x] == (after + (sent + taken))[x] {
      assert (after + q)[x] == (before + q')[x];
    }
  }

  // The finger table is the node's own and may change from one event to the next.
  datatype Event =
    | Offer(fingers: seq<Peer>, p: Packet)
    | Flush(fingers: seq<Peer>, draws: seq<Draw>)

  // A pool with the packets it has taken into a queue and everything its batches have sent.
  datatype History = History(pool: Pool, queued: multiset<Packet>, sent: seq<Packet>)

  // Events for a pool of m queues.
  ghost predicate Events(m: nat, es: seq<Event>) {
    forall i :: 0 <= i < |es| ==> |es[i].fingers| == m && (es[i].Flush? ==> |es[i].draws| == m)
  }

  ghost predicate RealOffers(es: seq<Event>) {
    forall i :: 0 <= i < |es| && es[i].Offer? ==> es[i].p.kind != Dummy
  }

  function Happened(h: History, self: Peer, dummies: bool, e: Event): (h': History)
    requires |e.fingers| == |h.pool| && (e.Flush? ==> |e.draws| == |h.pool|)
    ensures |h'.pool| == |h.pool|
  {
    match e
    case Offer(fingers, p) =>
      var d := Dispose(fingers, self, p.dest);
      if d.Queued? then h.(pool := h.pool[d.i := h.pool[d.i] + [p]], queued := h.queued + multiset{p}) else h
    case Flush(fingers, draws) =>
      var b := BatchOf(fingers, h.pool, draws, dummies, |fingers|);
      h.(pool := b.pool, sent := h.sent + b.sent)
  }

  ghost function Run(m: nat, self: Peer, dummies: bool, es: seq<Event>): (h: History)
    requires Events(m, es)
    ensures |h.pool| == m
  {
    if es == [] then History(seq(m, i => []), multiset{}, [])
    else Happened(Run(m, self, dummies, es[..|es| - 1]), self, dummies, es[|es| - 1])
  }

  lemma {:induction false} EmptyPool(k: nat)
    ensures Waiting(seq(k, i => [])) == multiset{}
  {
    if k > 0 {
      var s: Pool := seq(k, i => []);
      assert s[..k - 1] == seq(k - 1, i => []);
      EmptyPool(k - 1);
    }
  }

  lemma OfferKeeps(pool: Pool, i: nat, p: Packet)
    requires NoDummies(pool) && i < |pool| && p.kind != Dummy
    ensures var pool' := pool[i := pool[i] + [p]];
            NoDummies(pool') && Waiting(pool') == Waiting(pool) + multiset{p}
  {
    var q, pool' := pool[i], pool[i := pool[i] + [p]];
    WaitingUpdate(pool, i, q + [p]);
    assert multiset(q + [p]) == multiset(q) + multiset{p};
    forall x ensures Waiting(pool')[x] == (Waiting(pool) + multiset{p})[x] {
      assert (Waiting(pool') + multiset(q))[x] == (Waiting(pool) + multiset(q + [p]))[x];
    }
  }

  ghost predicate Balanced(h: History) {
    NoDummies(h.pool) && h.queued == Waiting(h.pool) + Real(h.sent)
  }

  lemma EventKeeps(h: History, self: Peer, dummies: bool, e: Event)
    requires |e.fingers| == |h.pool| && (e.Flush? ==> |e.draws| == |h.pool|)
    requires Balanced(h) && (e.Offer? ==> e.p.kind != Dummy)
    ensures Balanced(Happened(h, self, dummies, e))
  {
    match e
    case Offer(fingers, p) =>
      var d := Dispose(fingers, self, p.dest);
      if d.Queued? {
        OfferKeeps(h.pool, d.i, p);
      }
    case Flush(fingers, draws) =>
      var b := BatchOf(fingers, h.pool, draws, dummies, |fingers|);
      BatchKeeps(fingers, h.pool, draws, dummies, |fingers|);
      RealConcat(h.sent, b.sent);
  }

  // Over every run, with dummies or without and however the finger table changes: every packet
  // taken into a queue is still waiting or has been sent, as often as it was taken.
  lemma {:induction false} RunKeeps(m: nat, self: Peer, dummies: bool, es: seq<Event>)
    requires Events(m, es) && RealOffers(es)
    ensures Balanced(Run(m, self, dummies, es))
  {
    if es == [] {
      EmptyPool(m);
    } else {
      var front := es[..|es| - 1];
      RunKeeps(m, self, dummies, front);
      EventKeeps(Run(m, self, dummies, front), self, dummies, es[|es| - 1]);
    }
  }

  // -------- draining --------

  // How many batches had an accepting draw for queue i.
  function Accepting(es: seq<Event>, i: nat): (c: nat)
    requires forall j :: 0 <= j < |es| && es[j].Flush? ==> i < |es[j].draws|
  {
    if es == [] then 0
    else
      var e := es[|es| - 1];
      Accepting(es[..|es| - 1], i) + if e.Flush? && e.draws[i].accept then 1 else 0
  }

  ghost predicate OnlyFlushes(es: seq<Event>) {
    forall j :: 0 <= j < |es| ==> es[j].Flush?
  }

  // While nothing is offered, every batch with an accepting draw makes a queue one shorter until
  // it is empty.
  lemma {:induction false} QueueDrains(m: nat, self: Peer, dummies: bool, before: seq<Event>, es: seq<Event>, i: nat)
    requires Events(m, before) && Events(m, es) && OnlyFlushes(es) && i < m
    ensures Events(m, before + es)
    ensures var n, c := |Run(m, self, dummies, before).pool[i]|, Accepting(es, i);
            |Run(m, self, dummies, before + es).pool[i]| == if c <= n then n - c else 0
    ensures Run(m, self, dummies, before + es).queued == Run(m, self, dummies, before).queued
  {
    if es == [] {
      assert before + es == before;
    } else {
      var front := es[..|es| - 1];
      QueueDrains(m, self, dummies, before, front, i);
      assert (before + es)[..|before + es| - 1] == before + front;
      FlushDrains(Run(m, self, dummies, before + front), self, dummies, es[|es| - 1], i);
    }
  }

  lemma FlushDrains(h: History, self: Peer, dummies: bool, e: Event, i: nat)
    requires e.Flush? && |e.fingers| == |h.pool| == |e.draws| && i < |h.pool|
    ensures var h', n := Happened(h, self, dummies, e), |h.pool[i]|;
            h'.queued == h.queued && |h'.pool[i]| == if e.draws[i].accept && n > 0 then n - 1 else n
  {
    var b := BatchOf(e.fingers, h.pool, e.draws, dummies, |h.pool|);
    BatchServes(e.fingers, h.pool, e.draws, dummies, |h.pool|, i);
    ServedLength(h.pool[i], e.draws[i], b.pool[i], b.sent);
  }

  lemma ServedLength(q: seq<Packet>, d: Draw, q': seq<Packet>, sent: seq<Packet>)
    requires Served(q, d, q', sent)
    ensures |q'| == if Serves(q, d) then |q| - 1 else |q|
  {
    if Serves(q, d) {
      assert |multiset(q)| == |multiset(q') + multiset{q[d.index % |q|]}|;
    }
  }

  ghost predicate Enough(m: nat, pool: Pool, es: seq<Event>)
    requires |pool| == m && Events(m, es)
  {
    forall i :: 0 <= i < m ==> Accepting(es, i) >= |pool[i]|
  }

  // Nothing is left waiting exactly when every queue was given as many accepting draws as it had
  // packets; then everything the pool ever took has been sent, as often as it was taken.
  lemma PoolDrains(m: nat, self: Peer, dummies: bool, before: seq<Event>, es: seq<Event>)
    requires Events(m, before) && RealOffers(before) && Events(m, es) && OnlyFlushes(es)
    ensures Events(m, before + es)
    ensures var h, h' := Run(m, self, dummies, before), Run(m, self, dummies, before + es);
            && (Enough(m, h.pool, es) <==> forall i :: 0 <= i < m ==> h'.pool[i] == [])
            && (Enough(m, h.pool, es) ==> Real(h'.sent) == h.queued)
  {
    var h := Run(m, self, dummies, before);
    assert Events(m, before + es);
    var h' := Run(m, self, dummies, before + es);
    forall i | 0 <= i < m ensures Accepting(es, i) >= |h.pool[i]| <==> h'.pool[i] == [] {
      QueueDrains(m, self, dummies, before, es, i);
    }
    RunKeeps(m, self, dummies, before + es);
    if Enough(m, h.pool, es) {
      assert h'.pool == seq(m, i => []);
      EmptyPool(m);
      if m > 0 {
        QueueDrains(m, self, dummies, before, es, 0);
      } else {
        NothingQueued(self, dummies, before);
        NothingQueued(self, dummies, before + es);
      }
    }
  }

  lemma {:induction false} NothingQueued(self: Peer, dummies: bool, es: seq<Event>)
    requires Events(0, es)
    ensures Run(0, self, dummies, es).queued == multiset{}
  {
    if es != [] {
      NothingQueued(self, dummies, es[..|es| - 1]);
    }
  }

  // Over every run with one table every waiting packet is addressed to the finger of its queue.
  lemma {:induction false} RunAddressed(fingers: seq<Peer>, self: Peer, dummies: bool, es: seq<Event>)
    requires Events(|fingers|, es) && OneTable(fingers, es)
    ensures Addressed(fingers, Run(|fingers|, self, dummies, es).pool)
  {
    if es != [] {
      var front, e := es[..|es| - 1], es[|es| - 1];
      RunAddressed(fingers, self, dummies, front);
      if e.Flush? {
        BatchAddressed(fingers, Run(|fingers|, self, dummies, front).pool, e.draws, dummies, |fingers|);
      }
    }
  }

  lemma {:induction false} BatchAddressed(fingers: seq<Peer>, pool: Pool, draws: seq<Draw>, dummies: bool, k: nat)
    requires Addressed(fingers, pool) && |draws| == |pool| && k <= |pool|
    ensures Addressed(fingers, BatchOf(fingers, pool, draws, dummies, k).pool)
  {
    if k > 0 {
      BatchAddressed(fingers, pool, draws, dummies, k - 1);
      PopAddressed(fingers[k - 1], pool[k - 1], draws[k - 1]);
    }
  }

  // -------- what an observer sees --------

  function Flushes(es: seq<Event>): (k: nat) {
    if es == [] then 0 else Flushes(es[..|es| - 1]) + if es[|es| - 1].Flush? then 1 else 0
  }

  // The finger table over and over.
  function Pattern(fingers: seq<Peer>, k: nat): (r: seq<Peer>) {
    if k == 0 then [] else Pattern(fingers, k - 1) + fingers
  }

  ghost predicate SentTo(ps: seq<Packet>, to: seq<Peer>) {
    |ps| == |to| && forall i :: 0 <= i < |ps| ==> SameAddress(ps[i].dest, to[i])
  }

  lemma SentToConcat(a: seq<Packet>, x: seq<Peer>, b: seq<Packet>, y: seq<Peer>)
    requires SentTo(a, x) && SentTo(b, y)
    ensures SentTo(a + b, x + y)
  {
  }

  ghost predicate OneTable(fingers: seq<Peer>, es: seq<Event>) {
    forall i :: 0 <= i < |es| ==> es[i].fingers == fingers
  }

  lemma {:induction false} BatchSize(fingers: seq<Peer>, pool: Pool, draws: seq<Draw>, k: nat)
    requires |fingers| == |pool| == |draws| && k <= |pool|
    ensures |BatchOf(fingers, pool, draws, true, k).sent| == k
  {
    if k > 0 {
      BatchSize(fingers, pool, draws, k - 1);
    }
  }

  function Times(m: nat, k: nat): (r: nat)
    ensures r == m * k
  {
    if k == 0 then 0 else Times(m, k - 1) + m
  }

  // With dummies on, the number of packets sent tells nothing but the number of batches, however
  // the table changes.
  lemma {:induction false} VolumeHidden(m: nat, self: Peer, es: seq<Event>)
    requires Events(m, es)
    ensures |Run(m, self, true, es).sent| == Times(m, Flushes(es))
  {
    if es != [] {
      var front, e := es[..|es| - 1], es[|es| - 1];
      VolumeHidden(m, self, front);
      if e.Flush? {
        BatchSize(e.fingers, Run(m, self, true, front).pool, e.draws, m);
      }
    }
  }

  // With dummies on, the addresses a pool sends to over a whole run are fixed by its finger
  // table and the number of batches: two runs with the same fingers and equally many batches
  // cannot be told apart by them, whatever traffic either carries.
  lemma {:induction false} TrafficHidden(fingers: seq<Peer>, self: Peer, es: seq<Event>)
    requires Events(|fingers|, es) && OneTable(fingers, es)
    ensures SentTo(Run(|fingers|, self, true, es).sent, Pattern(fingers, Flushes(es)))
  {
    if es != [] {
      var front, e := es[..|es| - 1], es[|es| - 1];
      TrafficHidden(fingers, self, front);
      RunAddressed(fingers, self, true, front);
      var h := Run(|fingers|, self, true, front);
      if e.Flush? {
        BatchShape(fingers, h.pool, e.draws, |fingers|);
        SentToConcat(h.sent, Pattern(fingers, Flushes(front)),
                     BatchOf(fingers, h.pool, e.draws, true, |fingers|).sent, fingers);
      }
    }
  }

  // -------- the pool object --------

  // How many of the first k queues a batch takes a packet from.
  function Taken(pool: Pool, draws: seq<Draw>, k: nat): (c: nat)
    requires |pool| == |draws| && k <= |pool|
    ensures c <= k
  {
    if k == 0 then 0
    else Taken(pool, draws, k - 1) + if PopWithP(pool[k - 1], draws[k - 1]).packet.Some? then 1 else 0
  }

  // The finger table is the node's, which changes it between calls.
  class ShufflePoolObject {
    var fingers: seq<Peer>
    const self: Peer
    const sendDummy: bool
    var packagePool: Pool
    var totalMsg: nat
    var realForwardMsg: nat
    var dummyCnt: nat

    ghost predicate Valid()
      reads this
    {
      |packagePool| == |fingers|
    }

    constructor (table: seq<Peer>, own: Peer, dummies: bool)
      ensures Valid() && packagePool == seq(|table|, i => []) && fingers == table && self == own && sendDummy == dummies
      ensures totalMsg == realForwardMsg == dummyCnt == 0
    {
      fingers, self, sendDummy := table, own, dummies;
      packagePool := seq(|table|, i => []);
      totalMsg, realForwardMsg, dummyCnt := 0, 0, 0;
    }

    method Send(p: Packet) returns (direct: seq<Packet>)
      requires Valid()
      modifies this`packagePool
      ensures Valid()
      ensures match Dispose(fingers, self, p.dest)
              case Queued(i) => direct == [] && packagePool == old(packagePool)[i := old(packagePool)[i] + [p]]
              case Direct => direct == [p] && packagePool == old(packagePool)
              case Lost => direct == [] && packagePool == old(packagePool)
    {
      var i := 0;
      while i < |fingers|
        invariant 0 <= i <= |fingers| && packagePool == old(packagePool)
        invariant FirstMatch(fingers, p.dest, 0) == FirstMatch(fingers, p.dest, i)
      {
        if p.dest.ip == fingers[i].ip && p.dest.port == fingers[i].port {
          packagePool := packagePool[i := packagePool[i] + [p]];
          return [];
        }
        i := i + 1;
      }
      direct := if p.dest.ip == self.ip && p.dest.port == self.port then [p] else [];
    }

    method TakeTurn(cur: nat, draw: Draw, before: seq<Packet>) returns (sent: seq<Packet>)
      requires Valid() && cur < |fingers|
      modifies this`packagePool, this`totalMsg, this`realForwardMsg, this`dummyCnt
      ensures Valid()
      ensures Batch(packagePool, sent) == Turned(Batch(old(packagePool), before), cur, fingers[cur], draw, sendDummy)
      ensures var some := if PopWithP(old(packagePool)[cur], draw).packet.Some? then 1 else 0;
              && totalMsg == old(totalMsg) + 1 && realForwardMsg == old(realForwardMsg) + some
              && dummyCnt == old(dummyCnt) + if sendDummy then 1 - some else 0
    {
      sent := before;
      totalMsg := totalMsg + 1;
      var r := PopWithP(packagePool[cur], draw);
      packagePool := packagePool[cur := r.queue];
      if r.packet.None? {
        if sendDummy {
          sent := sent + [DummyFor(fingers[cur])];
          dummyCnt := dummyCnt + 1;
        }
      } else {
        realForwardMsg := realForwardMsg + 1;
        sent := sent + [r.packet.value];
      }
    }

    method SendBatch(draws: seq<Draw>) returns (sent: seq<Packet>)
      requires Valid() && |draws| == |fingers|
      modifies this`packagePool, this`totalMsg, this`realForwardMsg, this`dummyCnt
      ensures Valid() && Batch(packagePool, sent) == BatchOf(fingers, old(packagePool), draws, sendDummy, |fingers|)
      ensures totalMsg == old(totalMsg) + |fingers|
      ensures var some := Taken(old(packagePool), draws, |fingers|);
              && realForwardMsg == old(realForwardMsg) + some
              && dummyCnt == old(dummyCnt) + if sendDummy then |fingers| - some else 0
    {
      ghost var pool := packagePool;
      sent := [];
      var cur := 0;
      while cur < |packagePool|
        invariant 0 <= cur <= |fingers| && Valid()
        invariant Batch(packagePool, sent) == BatchOf(fingers, pool, draws, sendDummy, cur)
        invariant totalMsg == old(totalMsg) + cur
        invariant realForwardMsg == old(realForwardMsg) + Taken(pool, draws, cur)
        invariant dummyCnt == old(dummyCnt) + if sendDummy then cur - Taken(pool, draws, cur) else 0
      {
        sent := TakeTurn(cur, draws[cur], sent);
        cur := cur + 1;
      }
    }
  }
}
