/**
  Finger repair over whole runs: from any ring with true neighbours, quiet steps alone lead to
  a ring in which every finger of every node is exact, and any quiet run that brings a node the
  answers for its entries in turn makes its table exact.
 */
module Convergence {
  import opened Ring
  import opened Routing
  import opened Protocol
  import opened Network
  import opened Settled
  import opened Repair
  import opened Paths

  // -------- quiet paths --------

  ghost predicate QuietStep(m: nat, w: World, e: Event, w': World) {
    Shaped(m, w) && Enabled(m, w, e) && Quiet(w, e) && w' == After(m, w, e)
  }

  ghost function Quietly(m: nat): (moves: (World, Event, World) -> bool) {
    (w, e, w') => QuietStep(m, w, e, w')
  }

  lemma QuietInto(m: nat, w: World, e: Event, goal: World -> bool)
    requires Shaped(m, w) && Enabled(m, w, e) && Quiet(w, e) && goal(After(m, w, e))
    ensures CanReach(Quietly(m), w, goal)
  {
    ReachedAlready(Quietly(m), After(m, w, e), goal);
    ReachByStep(Quietly(m), w, e, After(m, w, e), goal);
  }

  lemma QuietThen(m: nat, w: World, e: Event, goal: World -> bool)
    requires Shaped(m, w) && Enabled(m, w, e) && Quiet(w, e) && CanReach(Quietly(m), After(m, w, e), goal)
    ensures CanReach(Quietly(m), w, goal)
  {
    ReachByStep(Quietly(m), w, e, After(m, w, e), goal);
  }

  lemma SettledShaped(m: nat, peers: map<nat, Peer>, k: map<nat, nat>, w: World)
    requires WorldSettled(m, peers, k, w)
    ensures Shaped(m, w)
  {
    forall v | v in w.nodes ensures w.nodes[v].self.id == v && v < Pow2(m) && |w.nodes[v].fingers| == m {
      assert v in peers && NodeSettled(m, peers, k[v], v, w.nodes[v]);
    }
  }

  // -------- a lookup reaches its answer --------

  // Delivering a lookup sends it on, strictly closer to its key, or answers it.
  lemma LookupMoves(m: nat, peers: map<nat, Peer>, k: map<nat, nat>, w: World, v: nat, i: nat, p: Packet)
    returns (q: Packet)
    requires WorldSettled(m, peers, k, w) && v in peers && i < m && p in w.net
    requires AsksFor(m, peers, v, i, p) && p.kind == JoinFind
    ensures Shaped(m, w) && Enabled(m, w, Deliver(p, p.dest.id))
    ensures q in After(m, w, Deliver(p, p.dest.id)).net && AsksFor(m, peers, v, i, q)
    ensures q.kind == JoinFind ==>
              Dist(Pow2(m), q.dest.id, Start(m, v, i)) < Dist(Pow2(m), p.dest.id, Start(m, v, i))
  {
    SettledShaped(m, peers, k, w);
    var u, key := p.dest.id, Start(m, v, i);
    var n := w.nodes[u];
    assert NodeSettled(m, peers, k[u], u, n) && k[u] >= 1;
    assert Real(m, peers, n.self);
    q := FindAnswer(m, n, p.reply.ip, p.reply.port, i, key);
    StepSettled(m, peers, k, w, Deliver(p, u));
    assert Receive(m, n, p).sent == [q];
    assert q in Sent([q]);
    AnswerAsks(m, peers, v, i, u, n, p.reply.ip, p.reply.port);
    MovesCloser(m, peers, u, n, key);
  }

  lemma MovesCloser(m: nat, peers: map<nat, Peer>, u: nat, n: Node, key: nat)
    requires Population(m, peers) && u in peers && NodeSettled(m, peers, 1, u, n) && key < Pow2(m)
    ensures var d := Decide(Pow2(m), n.View(), key);
      d.Forward? ==> d.peer.id < Pow2(m) && Dist(Pow2(m), d.peer.id, key) < Dist(Pow2(m), u, key)
  {
    assert ExactFinger(m, peers.Keys, u, 0, n.fingers[0].id);
    ExactFirstIsNext(m, peers.Keys, u, n.fingers[0].id);
    forall j | 0 <= j < |n.fingers| ensures n.fingers[j].id in peers {
      assert Real(m, peers, n.fingers[j]);
    }
    DecisionOfNode(m, peers.Keys, n.View(), key);
  }

  ghost function SettledAt(m: nat, peers: map<nat, Peer>, k: map<nat, nat>): (goal: World -> bool) {
    w => WorldSettled(m, peers, k, w)
  }

  // A settled world in which the answer to the lookup of v for its entry i is on the way.
  ghost predicate HasAnswer(m: nat, peers: map<nat, Peer>, k: map<nat, nat>, v: nat, i: nat, w: World) {
    && WorldSettled(m, peers, k, w) && v in peers && i < m
    && exists q :: q in w.net && AsksFor(m, peers, v, i, q) && q.kind == ReplyFind
  }

  ghost function AnswerComing(m: nat, peers: map<nat, Peer>, k: map<nat, nat>, v: nat, i: nat): (goal: World -> bool) {
    w => HasAnswer(m, peers, k, v, i, w)
  }

  // So deliveries alone bring the answer.
  lemma {:induction false} LookupAnswered(m: nat, peers: map<nat, Peer>, k: map<nat, nat>, w: World, v: nat, i: nat,
                                          p: Packet)
    requires WorldSettled(m, peers, k, w) && v in peers && i < m && p in w.net && AsksFor(m, peers, v, i, p)
    requires p.kind == JoinFind ==> p.dest.id < Pow2(m)
    ensures CanReach(Quietly(m), w, AnswerComing(m, peers, k, v, i))
    decreases if p.kind == JoinFind then 1 + Dist(Pow2(m), p.dest.id, Start(m, v, i)) else 0
  {
    if p.kind == ReplyFind {
      ReachedAlready(Quietly(m), w, AnswerComing(m, peers, k, v, i));
    } else {
      var q := LookupMoves(m, peers, k, w, v, i, p);
      var e := Deliver(p, p.dest.id);
      StepSettled(m, peers, k, w, e);
      LookupAnswered(m, peers, k, After(m, w, e), v, i, q);
      QuietThen(m, w, e, AnswerComing(m, peers, k, v, i));
    }
  }

  // -------- one entry more --------

  // One entry of one table gained, and nothing else lost.
  lemma GainOne(m: nat, peers: map<nat, Peer>, k: map<nat, nat>, w: World, v: nat, r: Effect)
    requires WorldSettled(m, peers, k, w) && v in peers && k[v] < m
    requires NodeSettled(m, peers, k[v] + 1, v, r.node) && AllSettled(m, peers, r.sent)
    ensures WorldSettled(m, peers, k[v := k[v] + 1], World(w.nodes[v := r.node], w.registry, w.net + Sent(r.sent)))
  {
    forall p | p in w.net + Sent(r.sent) ensures PacketSettled(m, peers, p) {
      if p !in w.net {
        var j :| 0 <= j < |r.sent| && r.sent[j] == p;
      }
    }
    var k', nodes' := k[v := k[v] + 1], w.nodes[v := r.node];
    forall u | u in peers ensures NodeSettled(m, peers, k'[u], u, nodes'[u]) && k'[u] >= 1 {
      assert NodeSettled(m, peers, k[u], u, w.nodes[u]);
    }
  }

  // A repair pass gains an entry at once, or puts its lookup on the way.
  lemma PassGains(m: nat, peers: map<nat, Peer>, k: map<nat, nat>, w: World, v: nat)
    requires WorldSettled(m, peers, k, w) && v in peers && k[v] < m
    ensures Shaped(m, w) && Enabled(m, w, RunFixFingers(v)) && Quiet(w, RunFixFingers(v))
    ensures var w' := After(m, w, RunFixFingers(v));
      || WorldSettled(m, peers, k[v := k[v] + 1], w')
      || (WorldSettled(m, peers, k, w') && exists p :: p in w'.net && AsksFor(m, peers, v, k[v], p))
  {
    SettledShaped(m, peers, k, w);
    var n, e := w.nodes[v], RunFixFingers(v);
    assert NodeSettled(m, peers, k[v], v, n) && k[v] >= 1;
    StepSettled(m, peers, k, w, e);
    LocalSettled(m, peers, k[v], w, v, e);
    PassOutcome(m, peers, k[v], v, n);
    if NodeSettled(m, peers, k[v] + 1, v, FixFingers(m, n).node) {
      GainOne(m, peers, k, w, v, FixFingers(m, n));
    }
  }

  lemma PassOutcome(m: nat, peers: map<nat, Peer>, k: nat, v: nat, n: Node)
    requires Population(m, peers) && v in peers && 0 < k < m && NodeSettled(m, peers, k, v, n)
    ensures var r := FixFingers(m, n);
      NodeSettled(m, peers, k + 1, v, r.node) || exists p :: p in Sent(r.sent) && AsksFor(m, peers, v, k, p)
  {
    PassExtends(m, peers, k, v, n, 0);
    var first := FindAnswer(m, n, n.self.ip, n.self.port, 0, Start(m, v, 0));
    FurtheredLater(m, peers, k, v, first, FixFrom(m, n, 0));
    AskedIsSent(m, peers, v, k, FixFingers(m, n).sent);
  }

  lemma AskedIsSent(m: nat, peers: map<nat, Peer>, v: nat, k: nat, ps: seq<Packet>)
    requires Population(m, peers) && v in peers && k < m
    ensures Asked(m, peers, v, k, ps) ==> exists p :: p in Sent(ps) && AsksFor(m, peers, v, k, p)
  {
    if j :| 0 <= j < |ps| && AsksFor(m, peers, v, k, ps[j]) {
      assert ps[j] in Sent(ps);
    }
  }

  // The answer for the first entry not yet exact gains it.
  lemma AnswerGains(m: nat, peers: map<nat, Peer>, k: map<nat, nat>, w: World, v: nat, q: Packet)
    requires WorldSettled(m, peers, k, w) && v in peers && k[v] < m && q in w.net
    requires AsksFor(m, peers, v, k[v], q) && q.kind == ReplyFind
    ensures Shaped(m, w) && Enabled(m, w, Deliver(q, v)) && Quiet(w, Deliver(q, v))
    ensures WorldSettled(m, peers, k[v := k[v] + 1], After(m, w, Deliver(q, v)))
  {
    SettledShaped(m, peers, k, w);
    var n := w.nodes[v];
    assert NodeSettled(m, peers, k[v], v, n) && Real(m, peers, n.self);
    AnswerExtends(m, peers, k[v], v, n, q);
    GainOne(m, peers, k, w, v, Receive(m, n, q));
  }

  lemma AnswerReaches(m: nat, peers: map<nat, Peer>, k: map<nat, nat>, w: World, v: nat)
    requires v in peers && v in k && k[v] < m && HasAnswer(m, peers, k, v, k[v], w)
    ensures CanReach(Quietly(m), w, SettledAt(m, peers, k[v := k[v] + 1]))
  {
    var q :| q in w.net && AsksFor(m, peers, v, k[v], q) && q.kind == ReplyFind;
    AnswerGains(m, peers, k, w, v, q);
    QuietInto(m, w, Deliver(q, v), SettledAt(m, peers, k[v := k[v] + 1]));
  }

  lemma AskedReaches(m: nat, peers: map<nat, Peer>, k: map<nat, nat>, w: World, v: nat, p: Packet)
    requires WorldSettled(m, peers, k, w) && v in peers && k[v] < m && p in w.net && AsksFor(m, peers, v, k[v], p)
    ensures CanReach(Quietly(m), w, SettledAt(m, peers, k[v := k[v] + 1]))
  {
    LookupAnswered(m, peers, k, w, v, k[v], p);
    forall u | HasAnswer(m, peers, k, v, k[v], u)
      ensures CanReach(Quietly(m), u, SettledAt(m, peers, k[v := k[v] + 1]))
    {
      AnswerReaches(m, peers, k, u, v);
    }
    ReachThen(Quietly(m), w, AnswerComing(m, peers, k, v, k[v]), SettledAt(m, peers, k[v := k[v] + 1]));
  }

  lemma EntryGained(m: nat, peers: map<nat, Peer>, k: map<nat, nat>, w: World, v: nat)
    requires WorldSettled(m, peers, k, w) && v in peers && k[v] < m
    ensures CanReach(Quietly(m), w, SettledAt(m, peers, k[v := k[v] + 1]))
  {
    var e := RunFixFingers(v);
    PassGains(m, peers, k, w, v);
    var w' := After(m, w, e);
    if WorldSettled(m, peers, k[v := k[v] + 1], w') {
      QuietInto(m, w, e, SettledAt(m, peers, k[v := k[v] + 1]));
    } else {
      var p :| p in w'.net && AsksFor(m, peers, v, k[v], p);
      AskedReaches(m, peers, k, w', v, p);
      QuietThen(m, w, e, SettledAt(m, peers, k[v := k[v] + 1]));
    }
  }

  // -------- every entry of every node --------

  lemma EntryThen(m: nat, peers: map<nat, Peer>, k: map<nat, nat>, w: World, v: nat, goal: World -> bool)
    requires WorldSettled(m, peers, k, w) && v in peers && k[v] < m
    requires forall u :: SettledAt(m, peers, k[v := k[v] + 1])(u) ==> CanReach(Quietly(m), u, goal)
    ensures CanReach(Quietly(m), w, goal)
  {
    EntryGained(m, peers, k, w, v);
    ReachThen(Quietly(m), w, SettledAt(m, peers, k[v := k[v] + 1]), goal);
  }

  lemma {:induction false} NodeRepaired(m: nat, peers: map<nat, Peer>, k: map<nat, nat>, w: World, v: nat)
    requires WorldSettled(m, peers, k, w) && v in peers && k[v] <= m
    ensures CanReach(Quietly(m), w, SettledAt(m, peers, k[v := m]))
    decreases m - k[v]
  {
    if k[v] == m {
      assert k[v := m] == k;
      ReachedAlready(Quietly(m), w, SettledAt(m, peers, k[v := m]));
    } else {
      var more := k[v := k[v] + 1];
      assert more[v := m] == k[v := m];
      forall u | SettledAt(m, peers, more)(u) ensures CanReach(Quietly(m), u, SettledAt(m, peers, k[v := m])) {
        NodeRepaired(m, peers, more, u, v);
      }
      EntryThen(m, peers, k, w, v, SettledAt(m, peers, k[v := m]));
    }
  }

  ghost predicate TableExact(m: nat, peers: map<nat, Peer>, v: nat, w: World)
    requires Population(m, peers) && v in peers
  {
    v in w.nodes && |w.nodes[v].fingers| == m && ExactPrefix(m, peers.Keys, v, m, w.nodes[v].fingers)
  }

  lemma KnownIsExact(m: nat, peers: map<nat, Peer>, k: map<nat, nat>, v: nat, w: World)
    requires WorldSettled(m, peers, k, w) && v in peers && k[v] >= m
    ensures TableExact(m, peers, v, w)
  {
    assert NodeSettled(m, peers, k[v], v, w.nodes[v]);
  }

  ghost predicate AllExact(m: nat, peers: map<nat, Peer>, w: World)
    requires Population(m, peers)
  {
    forall v :: v in peers ==> TableExact(m, peers, v, w)
  }

  ghost function RepairedRing(m: nat, peers: map<nat, Peer>): (goal: World -> bool)
    requires Population(m, peers)
  {
    w => AllExact(m, peers, w)
  }

  lemma SettledIsExact(m: nat, peers: map<nat, Peer>, k: map<nat, nat>, w: World)
    requires WorldSettled(m, peers, k, w) && forall v :: v in k ==> k[v] == m
    ensures AllExact(m, peers, w)
  {
    forall v | v in peers ensures TableExact(m, peers, v, w) {
      KnownIsExact(m, peers, k, v, w);
    }
  }

  // The entries known to be exact are some of those there are, and all but for the nodes left.
  ghost predicate Left(m: nat, peers: map<nat, Peer>, k: map<nat, nat>, left: set<nat>) {
    && k.Keys == peers.Keys && left <= peers.Keys
    && (forall v :: v in k ==> k[v] <= m)
    && (forall v :: v in k && v !in left ==> k[v] == m)
  }

  lemma NodeThen(m: nat, peers: map<nat, Peer>, k: map<nat, nat>, w: World, v: nat, goal: World -> bool)
    requires WorldSettled(m, peers, k, w) && v in peers && k[v] <= m
    requires forall u :: SettledAt(m, peers, k[v := m])(u) ==> CanReach(Quietly(m), u, goal)
    ensures CanReach(Quietly(m), w, goal)
  {
    NodeRepaired(m, peers, k, w, v);
    ReachThen(Quietly(m), w, SettledAt(m, peers, k[v := m]), goal);
  }

  // Every entry of every table.
  function Full(m: nat, peers: map<nat, Peer>): (k: map<nat, nat>) {
    map v | v in peers :: m
  }

  lemma AllRepaired(m: nat, peers: map<nat, Peer>, k: map<nat, nat>, w: World)
    requires WorldSettled(m, peers, k, w) && Left(m, peers, k, {})
    ensures CanReach(Quietly(m), w, SettledAt(m, peers, Full(m, peers)))
  {
    assert k == Full(m, peers);
    ReachedAlready(Quietly(m), w, SettledAt(m, peers, k));
  }

  lemma LeftWithout(m: nat, peers: map<nat, Peer>, k: map<nat, nat>, left: set<nat>, v: nat)
    requires Left(m, peers, k, left) && v in left
    ensures Left(m, peers, k[v := m], left - {v}) && v in k && k[v] <= m
  {
  }

  lemma {:induction false} NodesRepaired(m: nat, peers: map<nat, Peer>, k: map<nat, nat>, w: World, left: set<nat>)
    requires WorldSettled(m, peers, k, w) && Left(m, peers, k, left)
    ensures CanReach(Quietly(m), w, SettledAt(m, peers, Full(m, peers)))
    decreases |left|
  {
    if left == {} {
      AllRepaired(m, peers, k, w);
    } else {
      var v :| v in left;
      LeftWithout(m, peers, k, left, v);
      forall u | SettledAt(m, peers, k[v := m])(u)
        ensures CanReach(Quietly(m), u, SettledAt(m, peers, Full(m, peers)))
      {
        NodesRepaired(m, peers, k[v := m], u, left - {v});
      }
      NodeThen(m, peers, k, w, v, SettledAt(m, peers, Full(m, peers)));
    }
  }

  // From any ring with true neighbours and truthful messages, whatever the other fingers hold,
  // quiet steps lead to one in which every finger of every node is exact.
  lemma RingRepaired(m: nat, peers: map<nat, Peer>, k: map<nat, nat>, w: World)
    requires WorldSettled(m, peers, k, w) && forall v :: v in k ==> k[v] <= m
    ensures CanReach(Quietly(m), w, SettledAt(m, peers, Full(m, peers)))
    ensures CanReach(Quietly(m), w, RepairedRing(m, peers))
  {
    NodesRepaired(m, peers, k, w, peers.Keys);
    forall u | SettledAt(m, peers, Full(m, peers))(u) ensures RepairedRing(m, peers)(u) {
      SettledIsExact(m, peers, Full(m, peers), u);
    }
    ReachWeaker(Quietly(m), w, SettledAt(m, peers, Full(m, peers)), RepairedRing(m, peers));
  }

  // -------- predecessors --------

  lemma PrevIsNext(n: nat, live: set<nat>, p: nat, v: nat)
    requires OnRing(n, live) && v in live && IsPrev(n, live, v, p)
    ensures IsNext(n, live, p, v)
  {
    forall x | x in live ensures Span(n, p, v) <= Span(n, p, x) {
      assert Span(n, p, v) <= Span(n, x, v);
    }
  }

  lemma OtherExists(live: set<nat>, v: nat)
    requires v in live && |live| >= 2
    ensures exists x :: x in live && x != v
  {
    assert |live - {v}| >= 1;
    var x :| x in live - {v};
  }

  // In a ring of two or more the node before v is another one.
  lemma Before(m: nat, peers: map<nat, Peer>, v: nat) returns (p: nat)
    requires Population(m, peers) && v in peers && |peers| >= 2
    ensures p in peers && p != v && IsNext(Pow2(m), peers.Keys, p, v)
  {
    assert |peers.Keys| == |peers|;
    OtherExists(peers.Keys, v);
    var x :| x in peers && x != v;
    PrevExists(Pow2(m), peers.Keys, v);
    p :| IsPrev(Pow2(m), peers.Keys, v, p);
    assert Span(Pow2(m), p, v) <= Span(Pow2(m), x, v);
    PrevIsNext(Pow2(m), peers.Keys, p, v);
  }

  // A settled ring in which the nodes of `done` know their predecessors, which then are the true ones.
  ghost predicate PredsKnown(m: nat, peers: map<nat, Peer>, k: map<nat, nat>, done: set<nat>, w: World) {
    WorldSettled(m, peers, k, w) && forall v :: v in done && v in peers ==> w.nodes[v].pred.id != SENTINEL
  }

  ghost function KnownTo(m: nat, peers: map<nat, Peer>, k: map<nat, nat>, done: set<nat>): (goal: World -> bool) {
    w => PredsKnown(m, peers, k, done, w)
  }

  // The node before v stabilises: nothing changes but a notification of v is on the way.
  lemma Announced(m: nat, peers: map<nat, Peer>, k: map<nat, nat>, w: World, p: nat, v: nat) returns (q: Packet)
    requires WorldSettled(m, peers, k, w) && p in peers && v in peers && p != v
    requires IsNext(Pow2(m), peers.Keys, p, v)
    ensures Shaped(m, w) && Enabled(m, w, RunStabilize(p)) && Quiet(w, RunStabilize(p))
    ensures var w' := After(m, w, RunStabilize(p));
            WorldSettled(m, peers, k, w') && w'.nodes == w.nodes && q in w'.net && Announces(peers[p], peers[v], q)
  {
    SettledShaped(m, peers, k, w);
    var n, e := w.nodes[p], RunStabilize(p);
    assert NodeSettled(m, peers, k[p], p, n) && k[p] >= 1;
    StepSettled(m, peers, k, w, e);
    StabilizeSettled(m, peers, k[p], p, n);
    SettledSuccessor(m, peers, k[p], p, n);
    NextUnique(Pow2(m), peers.Keys, p, v, Next(Pow2(m), peers.Keys, p));
    StabilizeTakes(m, n);
    assert Real(m, peers, n.self);
    q := Stabilize(m, n).sent[1];
    assert q in Sent(Stabilize(m, n).sent);
    assert w.nodes[p := n] == w.nodes;
  }

  // The notification makes the predecessor known.
  lemma Heard(m: nat, peers: map<nat, Peer>, k: map<nat, nat>, w: World, p: nat, v: nat, q: Packet)
    requires WorldSettled(m, peers, k, w) && p in peers && v in peers && q in w.net && Announces(peers[p], peers[v], q)
    ensures Shaped(m, w) && Enabled(m, w, Deliver(q, v)) && Quiet(w, Deliver(q, v))
    ensures var w' := After(m, w, Deliver(q, v));
            && WorldSettled(m, peers, k, w') && w'.nodes == w.nodes[v := w'.nodes[v]]
            && w'.nodes[v].pred.id != SENTINEL
  {
    SettledShaped(m, peers, k, w);
    var n := w.nodes[v];
    assert NodeSettled(m, peers, k[v], v, n) && Real(m, peers, n.self);
    StepSettled(m, peers, k, w, Deliver(q, v));
    NotifyTakes(m, n, peers[p]);
  }

  lemma PredecessorLearnt(m: nat, peers: map<nat, Peer>, k: map<nat, nat>, w: World, done: set<nat>, v: nat)
    requires PredsKnown(m, peers, k, done, w) && v in peers && |peers| >= 2
    ensures CanReach(Quietly(m), w, KnownTo(m, peers, k, done + {v}))
  {
    var p := Before(m, peers, v);
    var q := Announced(m, peers, k, w, p, v);
    var u := After(m, w, RunStabilize(p));
    Heard(m, peers, k, u, p, v, q);
    QuietInto(m, u, Deliver(q, v), KnownTo(m, peers, k, done + {v}));
    QuietThen(m, w, RunStabilize(p), KnownTo(m, peers, k, done + {v}));
  }

  ghost function KnownStages(m: nat, peers: map<nat, Peer>, k: map<nat, nat>): (stage: set<nat> -> World -> bool) {
    done => KnownTo(m, peers, k, done)
  }

  // From any settled ring of two or more nodes quiet steps lead to one in which every node knows
  // its predecessor, and what was known of the fingers is still known.
  lemma PredecessorsLearnt(m: nat, peers: map<nat, Peer>, k: map<nat, nat>, w: World)
    requires WorldSettled(m, peers, k, w) && |peers| >= 2
    ensures CanReach(Quietly(m), w, KnownTo(m, peers, k, peers.Keys))
  {
    forall v, done, u | v in peers.Keys && KnownStages(m, peers, k)(done)(u)
      ensures CanReach(Quietly(m), u, KnownStages(m, peers, k)(done + {v}))
    {
      PredecessorLearnt(m, peers, k, u, done, v);
    }
    ReachAll(Quietly(m), w, KnownStages(m, peers, k), {}, peers.Keys);
    assert {} + peers.Keys == peers.Keys;
  }

  // And those are the nodes just before them.
  lemma KnownIsTrue(m: nat, peers: map<nat, Peer>, k: map<nat, nat>, w: World, v: nat)
    requires PredsKnown(m, peers, k, peers.Keys, w) && v in peers
    ensures var p := w.nodes[v].pred;
            p.id in peers && peers[p.id] == p && IsNext(Pow2(m), peers.Keys, p.id, v)
  {
    assert NodeSettled(m, peers, k[v], v, w.nodes[v]);
  }

  // -------- any run with the answers --------

  // The event brings v the answer for entry i.
  predicate Brings(e: Event, v: nat, i: nat) {
    e.Deliver? && e.v == v && e.p.kind == ReplyFind && e.p.index == i
  }

  // How many entries of v from the given one on the first i events bring the answers for, in turn.
  function Brought(es: seq<Event>, v: nat, entry: nat, i: nat): (c: nat)
    requires i <= |es|
  {
    if i == 0 then 0
    else
      var c := Brought(es, v, entry, i - 1);
      if Brings(es[i - 1], v, entry + c) then c + 1 else c
  }

  lemma DeliveredGains(m: nat, peers: map<nat, Peer>, k: map<nat, nat>, w: World, v: nat, e: Event)
    requires WorldSettled(m, peers, k, w) && v in peers && Shaped(m, w) && Enabled(m, w, e)
    requires Brings(e, v, k[v])
    ensures k[v] < m && WorldSettled(m, peers, k[v := k[v] + 1], After(m, w, e))
  {
    assert NodeSettled(m, peers, k[v], v, w.nodes[v]) && Real(m, peers, w.nodes[v].self);
    assert PacketSettled(m, peers, e.p);
    AnswerGains(m, peers, k, w, v, e.p);
  }

  // One more event, with or without the answer for the next entry.
  lemma EventGains(m: nat, peers: map<nat, Peer>, k: map<nat, nat>, w: World, v: nat, e: Event, k': map<nat, nat>)
    requires WorldSettled(m, peers, k, w) && v in peers && Shaped(m, w) && Enabled(m, w, e) && Quiet(w, e)
    requires k' == if Brings(e, v, k[v]) then k[v := k[v] + 1] else k
    ensures WorldSettled(m, peers, k', After(m, w, e))
  {
    if Brings(e, v, k[v]) {
      DeliveredGains(m, peers, k, w, v, e);
    } else {
      StepSettled(m, peers, k, w, e);
    }
  }

  // What is known of the tables after i events.
  function Learnt(k: map<nat, nat>, es: seq<Event>, v: nat, i: nat): (k': map<nat, nat>)
    requires v in k && i <= |es|
    ensures v in k'
  {
    k[v := k[v] + Brought(es, v, k[v], i)]
  }

  lemma LearntFirst(k: map<nat, nat>, es: seq<Event>, v: nat)
    requires v in k
    ensures Learnt(k, es, v, 0) == k
  {
    assert k[v := k[v]] == k;
  }

  lemma LearntStep(k: map<nat, nat>, es: seq<Event>, v: nat, i: nat)
    requires v in k && i < |es|
    ensures var k' := Learnt(k, es, v, i);
      Learnt(k, es, v, i + 1) == if Brings(es[i], v, k'[v]) then k'[v := k'[v] + 1] else k'
  {
  }

  lemma RunSteps(m: nat, ws: seq<World>, es: seq<Event>, i: nat)
    requires IsRun(m, ws, es) && i < |es| && Quiet(ws[i], es[i])
    ensures QuietStep(m, ws[i], es[i], ws[i + 1])
  {
    RunStep(m, ws, es, i);
  }

  lemma LearntGains(m: nat, peers: map<nat, Peer>, k: map<nat, nat>, w: World, es: seq<Event>, v: nat, i: nat,
                    w': World)
    requires v in peers && v in k && i < |es| && WorldSettled(m, peers, Learnt(k, es, v, i), w)
    requires QuietStep(m, w, es[i], w')
    ensures WorldSettled(m, peers, Learnt(k, es, v, i + 1), w')
  {
    LearntStep(k, es, v, i);
    EventGains(m, peers, Learnt(k, es, v, i), w, v, es[i], Learnt(k, es, v, i + 1));
  }

  // In any quiet run, whatever else happens in between, each answer that arrives for the first
  // entry of v not yet known to be exact makes that entry exact for good.
  lemma {:induction false} AnsweredInTurn(m: nat, peers: map<nat, Peer>, k: map<nat, nat>, ws: seq<World>,
                                          es: seq<Event>, v: nat, i: nat)
    requires IsRun(m, ws, es) && i < |ws| && WorldSettled(m, peers, k, ws[0]) && v in peers
    requires forall j :: 0 <= j < |es| ==> Quiet(ws[j], es[j])
    ensures WorldSettled(m, peers, Learnt(k, es, v, i), ws[i])
  {
    if i == 0 {
      LearntFirst(k, es, v);
    } else {
      AnsweredInTurn(m, peers, k, ws, es, v, i - 1);
      AnsweredOnce(m, peers, k, ws, es, v, i - 1);
    }
  }

  lemma AnsweredOnce(m: nat, peers: map<nat, Peer>, k: map<nat, nat>, ws: seq<World>, es: seq<Event>, v: nat, i: nat)
    requires IsRun(m, ws, es) && i < |es| && v in peers && v in k && Quiet(ws[i], es[i])
    requires WorldSettled(m, peers, Learnt(k, es, v, i), ws[i])
    ensures WorldSettled(m, peers, Learnt(k, es, v, i + 1), ws[i + 1])
  {
    RunSteps(m, ws, es, i);
    LearntGains(m, peers, k, ws[i], es, v, i, ws[i + 1]);
  }

  // So a run that brings the answers for all the entries leaves the whole table of v exact.
  lemma AllAnswered(m: nat, peers: map<nat, Peer>, k: map<nat, nat>, ws: seq<World>, es: seq<Event>, v: nat)
    requires IsRun(m, ws, es) && WorldSettled(m, peers, k, ws[0]) && v in peers
    requires forall j :: 0 <= j < |es| ==> Quiet(ws[j], es[j])
    requires k[v] + Brought(es, v, k[v], |es|) >= m
    ensures TableExact(m, peers, v, ws[|es|])
  {
    AnsweredInTurn(m, peers, k, ws, es, v, |es|);
    KnownIsExact(m, peers, Learnt(k, es, v, |es|), v, ws[|es|]);
  }
}
