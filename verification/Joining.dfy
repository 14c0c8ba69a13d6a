/**
  Joins. A node that joins a settled ring finds its successor, makes itself known to it, and is
  found by the node before it, after which the ring is settled with the new node in it. So the
  protocol can build every ring, from nothing, with true neighbours and exact fingers.
 */
module Joining {
  import opened Ring
  import opened Routing
  import opened Protocol
  import opened Network
  import opened Settled
  import opened Repair
  import opened Paths
  import opened Convergence

  // -------- one more on the ring --------

  // Node x comes between p and s.
  ghost predicate Gap(n: nat, live: set<nat>, x: nat, p: nat, s: nat) {
    && OnRing(n, live) && x < n && x !in live && p in live && s in live
    && IsNext(n, live + {x}, p, x) && IsNext(n, live + {x}, x, s)
  }

  lemma GapExists(n: nat, live: set<nat>, x: nat) returns (p: nat, s: nat)
    requires OnRing(n, live) && live != {} && x < n && x !in live
    ensures Gap(n, live, x, p, s)
  {
    FirstExists(n, live, x);
    s :| IsFirst(n, live, x, s);
    FirstIsAfter(n, live, x, s);
    PrevExists(n, live, x);
    p :| IsPrev(n, live, x, p);
    forall y | y in live + {x} ensures Span(n, p, x) <= Span(n, p, y) {
      if y != x {
        assert Span(n, p, x) <= Span(n, y, x);
      }
    }
  }

  // What a lookup of the own id finds before the node is linked is what comes after it.
  lemma FirstIsAfter(n: nat, live: set<nat>, x: nat, s: nat)
    requires OnRing(n, live) && x < n && x !in live && IsFirst(n, live, x, s)
    ensures IsNext(n, live + {x}, x, s)
  {
    forall y | y in live + {x} ensures Span(n, x, s) <= Span(n, x, y) {
      if y != x {
        assert Dist(n, x, s) <= Dist(n, x, y);
      }
    }
  }

  // Without x, s comes after p, and after p alone.
  lemma GapCloses(n: nat, live: set<nat>, x: nat, p: nat, s: nat, a: nat)
    requires Gap(n, live, x, p, s) && a in live
    ensures IsNext(n, live, a, s) <==> a == p
  {
    forall y | y in live ensures Span(n, p, s) <= Span(n, p, y) {
      assert Span(n, p, x) <= Span(n, p, y) && Span(n, x, s) <= Span(n, x, y);
    }
    var there, back := Span(n, a, p), Span(n, p, a);
  }

  // For every other node the next one stays the same.
  lemma GapElsewhere(n: nat, live: set<nat>, x: nat, p: nat, s: nat, a: nat, f: nat)
    requires Gap(n, live, x, p, s) && a in live && a != p && IsNext(n, live, a, f)
    ensures IsNext(n, live + {x}, a, f)
  {
    assert Span(n, a, f) <= Span(n, a, p);
    assert Span(n, p, x) <= Span(n, p, a);
    forall y | y in live + {x} ensures Span(n, a, f) <= Span(n, a, y) {
    }
  }

  // -------- a node half linked --------

  ghost predicate Newcomer(m: nat, peers: map<nat, Peer>, self: Peer, p: nat, s: nat) {
    && Population(m, peers) && Population(m, peers[self.id := self])
    && Gap(Pow2(m), peers.Keys, self.id, p, s)
  }

  // While the newcomer is being linked: the node before it may or may not have found it, the one
  // after it may or may not have heard of it, and all other neighbours are those of before.
  ghost predicate HalfLinked(m: nat, peers: map<nat, Peer>, self: Peer, p: nat, s: nat, v: nat, n: Node)
    requires Newcomer(m, peers, self, p, s) && v in peers[self.id := self]
  {
    && NodeSafe(m, peers[self.id := self], v, n)
    && (if v == self.id then n.fingers[0].id == s && (n.pred.id == SENTINEL || n.pred.id == p)
        else
          && (IsNext(Pow2(m), peers.Keys, v, n.fingers[0].id) || (v == p && n.fingers[0].id == self.id))
          && (n.pred.id == SENTINEL || (v == s && n.pred.id == self.id)
              || (n.pred.id in peers && IsNext(Pow2(m), peers.Keys, n.pred.id, v))))
  }

  ghost predicate Linking(m: nat, peers: map<nat, Peer>, self: Peer, p: nat, s: nat, w: World) {
    && Newcomer(m, peers, self, p, s) && w.nodes.Keys == peers[self.id := self].Keys
    && forall v {:trigger HalfLinked(m, peers, self, p, s, v, w.nodes[v])} ::
         v in peers[self.id := self] ==> HalfLinked(m, peers, self, p, s, v, w.nodes[v])
  }

  lemma LinkingShaped(m: nat, peers: map<nat, Peer>, self: Peer, p: nat, s: nat, w: World)
    requires Linking(m, peers, self, p, s, w)
    ensures Shaped(m, w)
  {
    forall v | v in w.nodes ensures w.nodes[v].self.id == v && v < Pow2(m) && |w.nodes[v].fingers| == m {
      assert HalfLinked(m, peers, self, p, s, v, w.nodes[v]);
    }
  }

  lemma PutLinking(m: nat, peers: map<nat, Peer>, self: Peer, p: nat, s: nat, w: World, v: nat, r: Effect)
    requires Linking(m, peers, self, p, s, w) && v in peers[self.id := self]
    requires HalfLinked(m, peers, self, p, s, v, r.node)
    ensures Linking(m, peers, self, p, s, World(w.nodes[v := r.node], w.registry, w.net + Sent(r.sent)))
  {
    var nodes' := w.nodes[v := r.node];
    forall u | u in peers[self.id := self] ensures HalfLinked(m, peers, self, p, s, u, nodes'[u]) {
      assert HalfLinked(m, peers, self, p, s, u, w.nodes[u]);
    }
  }

  // The newcomer stabilises: nothing lies nearer than its successor, which it tells of itself.
  lemma NewcomerAnnounces(m: nat, peers: map<nat, Peer>, self: Peer, p: nat, s: nat, n: Node)
    requires Newcomer(m, peers, self, p, s) && HalfLinked(m, peers, self, p, s, self.id, n)
    ensures var e := Stabilize(m, n);
            e.node == n && |e.sent| == 2 && Announces(self, peers[s], e.sent[1])
  {
    var live := peers.Keys + {self.id};
    assert Real(m, peers[self.id := self], n.fingers[0]) && Real(m, peers[self.id := self], n.self);
    StabilizeTakes(m, n);
    assert n.predOfSucc.id in live ==>
        Span(Pow2(m), self.id, s) <= Span(Pow2(m), self.id, n.predOfSucc.id);
  }

  // The node after it takes it as predecessor.
  lemma SuccessorHears(m: nat, peers: map<nat, Peer>, self: Peer, p: nat, s: nat, n: Node)
    requires Newcomer(m, peers, self, p, s) && HalfLinked(m, peers, self, p, s, s, n)
    ensures Notified(m, n, self) == n.(pred := self)
    ensures HalfLinked(m, peers, self, p, s, s, Notified(m, n, self))
  {
    NotifyTakes(m, n, self);
    if n.pred.id != SENTINEL && n.pred.id != self.id {
      GapCloses(Pow2(m), peers.Keys, self.id, p, s, n.pred.id);
      assert Span(Pow2(m), p, self.id) <= Span(Pow2(m), p, s);
    }
  }

  // Between p and s there is the newcomer alone.
  lemma OnlyNewcomer(n: nat, live: set<nat>, x: nat, p: nat, s: nat, y: nat)
    requires Gap(n, live, x, p, s) && y in live + {x}
    ensures 0 < Dist(n, p, y) < Span(n, p, s) <==> y == x
  {
    GapCloses(n, live, x, p, s, p);
    assert Span(n, p, x) <= Span(n, p, s) && Span(n, x, s) <= Span(n, x, p);
    if y in live {
      assert Span(n, p, s) <= Span(n, p, y);
    }
  }

  // The node before it has the node after it as successor, or the newcomer already.
  lemma SuccessorOfP(m: nat, peers: map<nat, Peer>, self: Peer, p: nat, s: nat, n: Node)
    requires Newcomer(m, peers, self, p, s) && HalfLinked(m, peers, self, p, s, p, n)
    ensures n.fingers[0] == self || n.fingers[0] == peers[s]
    ensures n.self == peers[p]
  {
    var all := peers[self.id := self];
    assert Real(m, all, n.fingers[0]) && Real(m, all, n.self);
    GapCloses(Pow2(m), peers.Keys, self.id, p, s, p);
    if n.fingers[0].id != self.id {
      NextUnique(Pow2(m), peers.Keys, p, n.fingers[0].id, s);
    }
  }

  // It takes the newcomer exactly when the node after it has reported it.
  lemma NearerIsNewcomer(m: nat, peers: map<nat, Peer>, self: Peer, p: nat, s: nat, n: Node)
    requires Newcomer(m, peers, self, p, s) && HalfLinked(m, peers, self, p, s, p, n)
    ensures ReportedNearer(m, n) <==> n.fingers[0] == peers[s] && n.predOfSucc == self
  {
    var N, live := Pow2(m), peers.Keys + {self.id};
    SuccessorOfP(m, peers, self, p, s, n);
    if n.predOfSucc.id != SENTINEL {
      assert Real(m, peers[self.id := self], n.predOfSucc);
      OnlyNewcomer(N, peers.Keys, self.id, p, s, n.predOfSucc.id);
      assert Span(N, p, self.id) <= Span(N, p, n.predOfSucc.id);
    }
  }

  // The node before it either finds it, and tells it so, or asks the node after it.
  lemma PredecessorStabilizes(m: nat, peers: map<nat, Peer>, self: Peer, p: nat, s: nat, n: Node)
    requires Newcomer(m, peers, self, p, s) && HalfLinked(m, peers, self, p, s, p, n)
    ensures var e := Stabilize(m, n);
            && HalfLinked(m, peers, self, p, s, p, e.node) && e.node == n.(fingers := e.node.fingers) && |e.sent| >= 1
            && (e.node.fingers[0] == self <==> n.fingers[0] == self || n.predOfSucc == self)
            && (e.node.fingers[0] == self ==> |e.sent| == 2 && Announces(peers[p], self, e.sent[1]))
            && (e.node.fingers[0] != self ==>
                  e.sent[0].kind == FindPred && e.sent[0].dest == peers[s] && e.sent[0].reply == peers[p])
  {
    SuccessorOfP(m, peers, self, p, s, n);
    NearerIsNewcomer(m, peers, self, p, s, n);
    StabilizeTakes(m, n);
  }

  // The newcomer hears of the node before it.
  lemma NewcomerHears(m: nat, peers: map<nat, Peer>, self: Peer, p: nat, s: nat, n: Node)
    requires Newcomer(m, peers, self, p, s) && HalfLinked(m, peers, self, p, s, self.id, n)
    ensures Notified(m, n, peers[p]) == n.(pred := peers[p])
    ensures HalfLinked(m, peers, self, p, s, self.id, Notified(m, n, peers[p]))
  {
    NotifyTakes(m, n, peers[p]);
  }

  // -------- linked --------

  function Ones(peers: map<nat, Peer>): (k: map<nat, nat>) {
    map v | v in peers :: 1
  }

  // Settled but for what is still in flight.
  ghost predicate NodesSettled(m: nat, peers: map<nat, Peer>, k: map<nat, nat>, w: World) {
    WorldSettled(m, peers, k, w.(net := {}))
  }

  ghost predicate AllLinked(m: nat, peers: map<nat, Peer>, self: Peer, p: nat, s: nat, w: World) {
    && Linking(m, peers, self, p, s, w) && w.nodes[s].pred == self
    && |w.nodes[p].fingers| > 0 && w.nodes[p].fingers[0] == self && w.nodes[self.id].pred == peers[p]
  }

  lemma LinkedNode(m: nat, peers: map<nat, Peer>, self: Peer, p: nat, s: nat, v: nat, n: Node)
    requires Newcomer(m, peers, self, p, s) && v in peers[self.id := self]
    requires HalfLinked(m, peers, self, p, s, v, n)
    requires v == p ==> n.fingers[0].id == self.id
    requires v == s ==> n.pred.id == self.id
    requires v == self.id ==> n.pred.id == p
    ensures NodeSettled(m, peers[self.id := self], 1, v, n)
  {
    var N, live, x := Pow2(m), peers.Keys, self.id;
    assert peers[x := self].Keys == live + {x};
    if v != x && v != p {
      GapElsewhere(N, live, x, p, s, v, n.fingers[0].id);
    }
    if v != x && v != s && n.pred.id != SENTINEL {
      if n.pred.id == p {
        GapCloses(N, live, x, p, s, p);
        NextUnique(N, live, p, v, s);
        assert false;
      }
      GapElsewhere(N, live, x, p, s, n.pred.id, v);
    }
    ExactFirstIsNext(m, live + {x}, v, n.fingers[0].id);
  }

  lemma LinkedIsSettled(m: nat, peers: map<nat, Peer>, self: Peer, p: nat, s: nat, w: World)
    requires AllLinked(m, peers, self, p, s, w)
    ensures NodesSettled(m, peers[self.id := self], Ones(peers[self.id := self]), w)
  {
    var all := peers[self.id := self];
    forall v | v in all ensures NodeSettled(m, all, Ones(all)[v], v, w.nodes[v]) {
      assert HalfLinked(m, peers, self, p, s, v, w.nodes[v]);
      LinkedNode(m, peers, self, p, s, v, w.nodes[v]);
    }
  }

  // -------- the steps that link it --------

  // The ring with all of these peers, settled but for packets in flight.
  ghost function RingOf(m: nat, peers: map<nat, Peer>, k: map<nat, nat>, reg: map<nat, Peer>): (goal: World -> bool) {
    w => NodesSettled(m, peers, k, w) && w.registry == reg
  }

  ghost function Goal(m: nat, peers: map<nat, Peer>, self: Peer, reg: map<nat, Peer>): (goal: World -> bool) {
    RingOf(m, peers[self.id := self], Ones(peers[self.id := self]), reg)
  }

  // A step at node v that leaves it half linked.
  lemma LinkStep(m: nat, peers: map<nat, Peer>, self: Peer, p: nat, s: nat, w: World, e: Event, r: Effect)
    requires Linking(m, peers, self, p, s, w) && !e.Join? && !e.Crash? && e.v in w.nodes
    requires Shaped(m, w) && Enabled(m, w, e) && r == Local(m, w.nodes[e.v], e)
    requires HalfLinked(m, peers, self, p, s, e.v, r.node)
    ensures var w' := After(m, w, e);
            && Linking(m, peers, self, p, s, w') && w'.nodes == w.nodes[e.v := r.node] && w'.registry == w.registry
            && w'.net == w.net + Sent(r.sent)
  {
    PutLinking(m, peers, self, p, s, w, e.v, r);
  }

  // The packet of index i that an effect sends is in flight afterwards.
  lemma IsSent(ps: seq<Packet>, i: nat)
    requires i < |ps|
    ensures ps[i] in Sent(ps)
  {
  }

  // At the end the newcomer hears of the node before it.
  lemma LastStage(m: nat, peers: map<nat, Peer>, self: Peer, p: nat, s: nat, w: World, q: Packet)
    requires Linking(m, peers, self, p, s, w) && w.nodes[s].pred == self
    requires |w.nodes[p].fingers| > 0 && w.nodes[p].fingers[0] == self
    requires q in w.net && Announces(peers[p], self, q)
    ensures CanReach(Quietly(m), w, Goal(m, peers, self, w.registry))
  {
    LinkingShaped(m, peers, self, p, s, w);
    var x, n := self.id, w.nodes[self.id];
    assert HalfLinked(m, peers, self, p, s, x, n) && Real(m, peers[x := self], n.self);
    NewcomerHears(m, peers, self, p, s, n);
    var e := Deliver(q, x);
    LinkStep(m, peers, self, p, s, w, e, Receive(m, n, q));
    LinkedIsSettled(m, peers, self, p, s, After(m, w, e));
    QuietInto(m, w, e, Goal(m, peers, self, w.registry));
  }

  // The node before it stabilises. If it has found the newcomer by then, the last stage follows.
  lemma PredecessorStage(m: nat, peers: map<nat, Peer>, self: Peer, p: nat, s: nat, w: World)
    requires Linking(m, peers, self, p, s, w) && w.nodes[s].pred == self
    ensures Shaped(m, w) && Enabled(m, w, RunStabilize(p)) && Quiet(w, RunStabilize(p))
    ensures var w' := After(m, w, RunStabilize(p));
            && Linking(m, peers, self, p, s, w') && w'.nodes[s].pred == self && w'.registry == w.registry
            && (CanReach(Quietly(m), w', Goal(m, peers, self, w.registry))
                || exists f :: f in w'.net && f.kind == FindPred && f.dest == peers[s] && f.reply == peers[p])
    ensures |w.nodes[p].fingers| > 0
    ensures w.nodes[p].fingers[0] == self || w.nodes[p].predOfSucc == self ==>
              CanReach(Quietly(m), After(m, w, RunStabilize(p)), Goal(m, peers, self, w.registry))
  {
    LinkingShaped(m, peers, self, p, s, w);
    var n, e := w.nodes[p], RunStabilize(p);
    assert HalfLinked(m, peers, self, p, s, p, n);
    PredecessorStabilizes(m, peers, self, p, s, n);
    var r := Stabilize(m, n);
    LinkStep(m, peers, self, p, s, w, e, r);
    if r.node.fingers[0] == self {
      IsSent(r.sent, 1);
      LastStage(m, peers, self, p, s, After(m, w, e), r.sent[1]);
    } else {
      IsSent(r.sent, 0);
    }
  }

  // The node after the newcomer answers with it, and the node before it gets the answer.
  lemma ReportStage(m: nat, peers: map<nat, Peer>, self: Peer, p: nat, s: nat, w: World, f: Packet) returns (r: Packet)
    requires Linking(m, peers, self, p, s, w) && w.nodes[s].pred == self
    requires f in w.net && f.kind == FindPred && f.dest == peers[s] && f.reply == peers[p]
    ensures Shaped(m, w) && Enabled(m, w, Deliver(f, s)) && Quiet(w, Deliver(f, s))
    ensures var w' := After(m, w, Deliver(f, s));
            && Linking(m, peers, self, p, s, w') && w'.nodes == w.nodes && w'.registry == w.registry
            && r in w'.net && r.kind == ReplyPred && SameAddress(r.dest, peers[p]) && r.key == self
  {
    LinkingShaped(m, peers, self, p, s, w);
    var n := w.nodes[s];
    assert HalfLinked(m, peers, self, p, s, s, n) && Real(m, peers[self.id := self], n.self);
    var e := Receive(m, n, f);
    LinkStep(m, peers, self, p, s, w, Deliver(f, s), e);
    IsSent(e.sent, 0);
    r := e.sent[0];
    assert w.nodes[s := n] == w.nodes;
  }

  lemma LearnStage(m: nat, peers: map<nat, Peer>, self: Peer, p: nat, s: nat, w: World, r: Packet)
    requires Linking(m, peers, self, p, s, w) && w.nodes[s].pred == self
    requires r in w.net && r.kind == ReplyPred && SameAddress(r.dest, peers[p]) && r.key == self
    ensures CanReach(Quietly(m), w, Goal(m, peers, self, w.registry))
  {
    LinkingShaped(m, peers, self, p, s, w);
    var n, e := w.nodes[p], Deliver(r, p);
    assert HalfLinked(m, peers, self, p, s, p, n) && Real(m, peers[self.id := self], n.self);
    LinkStep(m, peers, self, p, s, w, e, Receive(m, n, r));
    var w' := After(m, w, e);
    PredecessorStage(m, peers, self, p, s, w');
    QuietThen(m, w', RunStabilize(p), Goal(m, peers, self, w.registry));
    QuietThen(m, w, e, Goal(m, peers, self, w.registry));
  }

  lemma FoundStage(m: nat, peers: map<nat, Peer>, self: Peer, p: nat, s: nat, w: World)
    requires Linking(m, peers, self, p, s, w) && w.nodes[s].pred == self
    ensures CanReach(Quietly(m), w, Goal(m, peers, self, w.registry))
  {
    PredecessorStage(m, peers, self, p, s, w);
    var w' := After(m, w, RunStabilize(p));
    if !CanReach(Quietly(m), w', Goal(m, peers, self, w.registry)) {
      var f :| f in w'.net && f.kind == FindPred && f.dest == peers[s] && f.reply == peers[p];
      var r := ReportStage(m, peers, self, p, s, w', f);
      LearnStage(m, peers, self, p, s, After(m, w', Deliver(f, s)), r);
      QuietThen(m, w', Deliver(f, s), Goal(m, peers, self, w.registry));
    }
    QuietThen(m, w, RunStabilize(p), Goal(m, peers, self, w.registry));
  }

  // A node that knows the node after it gets linked by stabilise steps and deliveries.
  lemma NewcomerLinked(m: nat, peers: map<nat, Peer>, self: Peer, p: nat, s: nat, w: World)
    requires Linking(m, peers, self, p, s, w)
    ensures CanReach(Quietly(m), w, Goal(m, peers, self, w.registry))
  {
    LinkingShaped(m, peers, self, p, s, w);
    var x, n, e := self.id, w.nodes[self.id], RunStabilize(self.id);
    assert HalfLinked(m, peers, self, p, s, x, n);
    NewcomerAnnounces(m, peers, self, p, s, n);
    var r := Stabilize(m, n);
    LinkStep(m, peers, self, p, s, w, e, r);
    IsSent(r.sent, 1);
    HeardStage(m, peers, self, p, s, After(m, w, e), r.sent[1]);
    QuietThen(m, w, e, Goal(m, peers, self, w.registry));
  }

  lemma HeardStage(m: nat, peers: map<nat, Peer>, self: Peer, p: nat, s: nat, w: World, q: Packet)
    requires Linking(m, peers, self, p, s, w) && q in w.net && Announces(self, peers[s], q)
    ensures CanReach(Quietly(m), w, Goal(m, peers, self, w.registry))
  {
    LinkingShaped(m, peers, self, p, s, w);
    var n, e := w.nodes[s], Deliver(q, s);
    assert HalfLinked(m, peers, self, p, s, s, n) && Real(m, peers[self.id := self], n.self);
    SuccessorHears(m, peers, self, p, s, n);
    LinkStep(m, peers, self, p, s, w, e, Receive(m, n, q));
    FoundStage(m, peers, self, p, s, After(m, w, e));
    QuietThen(m, w, e, Goal(m, peers, self, w.registry));
  }

  // -------- finding the place --------

  lemma AnyThen(m: nat, w: World, e: Event, goal: World -> bool)
    requires Shaped(m, w) && Enabled(m, w, e) && CanReach(Anyhow(m), After(m, w, e), goal)
    ensures CanReach(Anyhow(m), w, goal)
  {
    ReachByStep(Anyhow(m), w, e, After(m, w, e), goal);
  }

  lemma QuietIsAny(m: nat, w: World, goal: World -> bool)
    requires CanReach(Quietly(m), w, goal)
    ensures CanReach(Anyhow(m), w, goal)
  {
    ReachMoreWays(Quietly(m), Anyhow(m), w, goal);
  }

  // The newcomer runs, as created, beside a ring settled without it.
  ghost predicate Seeking(m: nat, peers: map<nat, Peer>, self: Peer, w: World) {
    && Population(m, peers) && Population(m, peers[self.id := self]) && self.id !in peers
    && w.nodes.Keys == peers[self.id := self].Keys && w.nodes[self.id] == Created(m, self)
    && forall v {:trigger NodeSettled(m, peers, 1, v, w.nodes[v])} ::
         v in peers ==> NodeSettled(m, peers, 1, v, w.nodes[v])
  }

  lemma SeekingShaped(m: nat, peers: map<nat, Peer>, self: Peer, w: World)
    requires Seeking(m, peers, self, w)
    ensures Shaped(m, w)
  {
    forall v | v in w.nodes ensures w.nodes[v].self.id == v && v < Pow2(m) && |w.nodes[v].fingers| == m {
      if v != self.id {
        assert NodeSettled(m, peers, 1, v, w.nodes[v]);
      }
    }
  }

  // A lookup for the newcomer's own id that will be answered to the newcomer, for entry 0.
  ghost predicate Seeks(m: nat, peers: map<nat, Peer>, self: Peer, q: Packet) {
    && q.index == 0 && Population(m, peers) && self.id < Pow2(m)
    && match q.kind
       case JoinFind =>
         q.key.id == self.id && SameAddress(q.reply, self) && q.dest.id in peers && q.dest == peers[q.dest.id]
       case ReplyFind =>
         SameAddress(q.dest, self) && IsFirst(Pow2(m), peers.Keys, self.id, q.key.id) && q.key == peers[q.key.id]
       case _ => false
  }

  // One node of the ring passes the lookup on, closer, or answers it.
  lemma SeekAnswer(m: nat, peers: map<nat, Peer>, self: Peer, u: nat, n: Node)
    requires Population(m, peers) && self.id < Pow2(m) && self.id !in peers
    requires u in peers && NodeSettled(m, peers, 1, u, n)
    ensures var q := FindAnswer(m, n, self.ip, self.port, 0, self.id);
            && Seeks(m, peers, self, q)
            && (q.kind == JoinFind ==>
                  Dist(Pow2(m), q.dest.id, self.id) < Dist(Pow2(m), u, self.id))
  {
    MovesCloser(m, peers, u, n, self.id);
    assert ExactFinger(m, peers.Keys, u, 0, n.fingers[0].id);
    ExactFirstIsNext(m, peers.Keys, u, n.fingers[0].id);
    forall j | 0 <= j < |n.fingers| ensures n.fingers[j].id in peers && n.fingers[j] == peers[n.fingers[j].id] {
      assert Real(m, peers, n.fingers[j]);
    }
    DecisionOfNode(m, peers.Keys, n.View(), self.id);
  }

  lemma SeekStep(m: nat, peers: map<nat, Peer>, self: Peer, w: World, q: Packet) returns (r: Packet)
    requires Seeking(m, peers, self, w) && q in w.net && Seeks(m, peers, self, q) && q.kind == JoinFind
    ensures Shaped(m, w) && Enabled(m, w, Deliver(q, q.dest.id))
    ensures var w' := After(m, w, Deliver(q, q.dest.id));
            && Seeking(m, peers, self, w') && w'.registry == w.registry && r in w'.net && Seeks(m, peers, self, r)
            && (r.kind == JoinFind ==> Dist(Pow2(m), r.dest.id, self.id) < Dist(Pow2(m), q.dest.id, self.id))
  {
    SeekingShaped(m, peers, self, w);
    var u := q.dest.id;
    var n := w.nodes[u];
    assert NodeSettled(m, peers, 1, u, n) && Real(m, peers, n.self);
    SeekAnswer(m, peers, self, u, n);
    r := FindAnswer(m, n, self.ip, self.port, 0, self.id);
    assert Receive(m, n, q) == Effect(n, [r]);
    IsSent([r], 0);
    assert w.nodes[u := n] == w.nodes;
    var w' := After(m, w, Deliver(q, u));
    assert w'.nodes == w.nodes;
  }

  // Once it has learnt the node after it, it is ready to be linked.
  lemma ReadyNode(m: nat, peers: map<nat, Peer>, self: Peer, p: nat, s: nat, v: nat, n: Node)
    requires Newcomer(m, peers, self, p, s) && v in peers && NodeSettled(m, peers, 1, v, n)
    ensures HalfLinked(m, peers, self, p, s, v, n)
  {
    RegistryGrows(m, peers, peers[self.id := self], v, n, JoinFindPacket(self, self, 0, 0));
    assert ExactFinger(m, peers.Keys, v, 0, n.fingers[0].id);
    ExactFirstIsNext(m, peers.Keys, v, n.fingers[0].id);
    assert RealOrSentinel(m, peers, n.pred);
  }

  lemma ReadyNewcomer(m: nat, peers: map<nat, Peer>, self: Peer, p: nat, s: nat)
    requires Newcomer(m, peers, self, p, s)
    ensures var n := Created(m, self);
            HalfLinked(m, peers, self, p, s, self.id, n.(fingers := n.fingers[0 := peers[s]]))
  {
  }

  lemma SeekEnds(m: nat, peers: map<nat, Peer>, self: Peer, w: World, q: Packet)
    requires Seeking(m, peers, self, w) && q in w.net && Seeks(m, peers, self, q) && q.kind == ReplyFind
    ensures CanReach(Anyhow(m), w, Goal(m, peers, self, w.registry))
  {
    SeekingShaped(m, peers, self, w);
    var x, e := self.id, Deliver(q, self.id);
    var p, s := GapExists(Pow2(m), peers.Keys, x);
    FirstIsAfter(Pow2(m), peers.Keys, x, q.key.id);
    NextUnique(Pow2(m), peers.Keys + {x}, x, s, q.key.id);
    assert peers[x := self].Keys == peers.Keys + {x};
    var w' := After(m, w, e);
    ReadyNewcomer(m, peers, self, p, s);
    forall v | v in peers[x := self] ensures HalfLinked(m, peers, self, p, s, v, w'.nodes[v]) {
      if v != x {
        assert NodeSettled(m, peers, 1, v, w.nodes[v]);
        ReadyNode(m, peers, self, p, s, v, w.nodes[v]);
      }
    }
    NewcomerLinked(m, peers, self, p, s, w');
    QuietIsAny(m, w', Goal(m, peers, self, w.registry));
    AnyThen(m, w, e, Goal(m, peers, self, w.registry));
  }

  lemma {:induction false} SeekReaches(m: nat, peers: map<nat, Peer>, self: Peer, w: World, q: Packet)
    requires Seeking(m, peers, self, w) && q in w.net && Seeks(m, peers, self, q)
    ensures CanReach(Anyhow(m), w, Goal(m, peers, self, w.registry))
    decreases if q.kind == JoinFind && q.dest.id < Pow2(m) then 1 + Dist(Pow2(m), q.dest.id, self.id) else 0
  {
    if q.kind == ReplyFind {
      SeekEnds(m, peers, self, w, q);
    } else {
      var r := SeekStep(m, peers, self, w, q);
      SeekReaches(m, peers, self, After(m, w, Deliver(q, q.dest.id)), r);
      AnyThen(m, w, Deliver(q, q.dest.id), Goal(m, peers, self, w.registry));
    }
  }

  // -------- a whole join --------

  lemma SettledAtLeastOnce(m: nat, peers: map<nat, Peer>, k: map<nat, nat>, w: World, v: nat)
    requires WorldSettled(m, peers, k, w) && v in peers
    ensures NodeSettled(m, peers, 1, v, w.nodes[v])
  {
    assert NodeSettled(m, peers, k[v], v, w.nodes[v]) && k[v] >= 1;
  }

  lemma JoinStarts(m: nat, peers: map<nat, Peer>, k: map<nat, nat>, self: Peer, w: World)
    requires NodesSettled(m, peers, k, w) && self.id !in peers && Population(m, peers[self.id := self])
    requires self.id in w.registry ==> w.registry[self.id] == self
    ensures Shaped(m, w) && Enabled(m, w, Network.Join(self))
    ensures Seeking(m, peers, self, After(m, w, Network.Join(self)))
  {
    SettledShaped(m, peers, k, w.(net := {}));
    assert self.id in peers[self.id := self].Keys;
    var w' := After(m, w, Network.Join(self));
    forall v | v in peers ensures NodeSettled(m, peers, 1, v, w'.nodes[v]) {
      SettledAtLeastOnce(m, peers, k, w.(net := {}), v);
    }
  }

  // A node that joins a settled ring through any of its nodes gets into it: its lookup of its own
  // id, stabilise steps and deliveries lead to the ring settled with it.
  lemma JoinCompletes(m: nat, peers: map<nat, Peer>, k: map<nat, nat>, self: Peer, helper: nat, w: World)
    requires NodesSettled(m, peers, k, w) && helper in peers
    requires self.id !in peers && Population(m, peers[self.id := self])
    requires self.id in w.registry ==> w.registry[self.id] == self
    ensures CanReach(Anyhow(m), w, Goal(m, peers, self, w.registry[self.id := self]))
  {
    JoinStarts(m, peers, k, self, w);
    var u := After(m, w, Network.Join(self));
    AskReaches(m, peers, self, helper, u);
    AnyThen(m, w, Network.Join(self), Goal(m, peers, self, u.registry));
  }

  lemma AskReaches(m: nat, peers: map<nat, Peer>, self: Peer, helper: nat, w: World)
    requires Seeking(m, peers, self, w) && helper in peers
    ensures CanReach(Anyhow(m), w, Goal(m, peers, self, w.registry))
  {
    SeekingShaped(m, peers, self, w);
    var e := AskJoin(self.id, peers[helper]);
    var q := JoinFindPacket(peers[helper], self, 0, self.id);
    var w' := After(m, w, e);
    IsSent([q], 0);
    assert w'.nodes == w.nodes;
    SeekReaches(m, peers, self, w', q);
    AnyThen(m, w, e, Goal(m, peers, self, w.registry));
  }

  // -------- whatever else is in flight --------

  // More packets in flight take no step away.
  lemma {:induction false} MorePackets(m: nat, w: World, es: seq<Event>, w': World, u: World) returns (u': World)
    requires Path(Quietly(m), w, es, w')
    requires u.nodes == w.nodes && u.registry == w.registry && w.net <= u.net
    ensures Path(Quietly(m), u, es, u')
    ensures u'.nodes == w'.nodes && u'.registry == u.registry && w'.net <= u'.net
    decreases |es|
  {
    if es == [] {
      u' := u;
    } else {
      var x :| Quietly(m)(w, es[0], x) && Path(Quietly(m), x, es[1..], w');
      var y := SameStep(m, w, es[0], x, u);
      u' := MorePackets(m, x, es[1..], w', y);
      PathOfOne(Quietly(m), u, es[0], y);
      PathConcat(Quietly(m), u, [es[0]], y, es[1..], u');
      assert [es[0]] + es[1..] == es;
    }
  }

  lemma SameStep(m: nat, w: World, e: Event, w': World, u: World) returns (u': World)
    requires QuietStep(m, w, e, w') && u.nodes == w.nodes && u.registry == w.registry && w.net <= u.net
    ensures QuietStep(m, u, e, u') && u'.nodes == w'.nodes && w'.net <= u'.net
    ensures u'.registry == u.registry == w'.registry
  {
    u' := After(m, u, e);
  }

  // What quiet steps reach with nothing in flight, they reach with anything in flight.
  lemma ReachAnyway(m: nat, w: World, bare: World -> bool, goal: World -> bool)
    requires CanReach(Quietly(m), w.(net := {}), bare)
    requires forall a: World, b: World :: bare(a) && b.nodes == a.nodes && b.registry == w.registry ==> goal(b)
    ensures CanReach(Quietly(m), w, goal)
  {
    var es: seq<Event>, a :| Path(Quietly(m), w.(net := {}), es, a) && bare(a);
    var b := MorePackets(m, w.(net := {}), es, a, w);
  }

  lemma WithoutPackets(m: nat, peers: map<nat, Peer>, k: map<nat, nat>, a: World, b: World)
    requires WorldSettled(m, peers, k, a) && b.nodes == a.nodes
    ensures NodesSettled(m, peers, k, b)
  {
    forall v | v in peers ensures NodeSettled(m, peers, k[v], v, b.nodes[v]) && k[v] >= 1 {
      assert NodeSettled(m, peers, k[v], v, a.nodes[v]);
    }
  }

  // -------- whole rings --------

  // Every finger of every node exact and every predecessor known and true, whatever is in flight.
  ghost predicate PerfectRing(m: nat, peers: map<nat, Peer>, w: World) {
    && Population(m, peers) && AllExact(m, peers, w)
    && forall v {:trigger TruePredecessor(m, peers, v, w)} :: v in peers ==> TruePredecessor(m, peers, v, w)
  }

  ghost predicate TruePredecessor(m: nat, peers: map<nat, Peer>, v: nat, w: World)
    requires Population(m, peers) && v in peers
  {
    && v in w.nodes
    && var p := w.nodes[v].pred;
       p.id in peers && p == peers[p.id] && IsNext(Pow2(m), peers.Keys, p.id, v)
  }

  ghost function Perfect(m: nat, peers: map<nat, Peer>): (goal: World -> bool) {
    w => PerfectRing(m, peers, w)
  }

  lemma KnownIsPerfect(m: nat, peers: map<nat, Peer>, a: World, b: World)
    requires PredsKnown(m, peers, Full(m, peers), peers.Keys, a) && b.nodes == a.nodes
    ensures PerfectRing(m, peers, b)
  {
    SettledIsExact(m, peers, Full(m, peers), a);
    forall v | v in peers ensures TableExact(m, peers, v, b) && TruePredecessor(m, peers, v, b) {
      assert TableExact(m, peers, v, a);
      KnownIsTrue(m, peers, Full(m, peers), a, v);
    }
  }

  lemma PredecessorsPerfect(m: nat, peers: map<nat, Peer>, w: World)
    requires NodesSettled(m, peers, Full(m, peers), w) && |peers| >= 2
    ensures CanReach(Quietly(m), w, Perfect(m, peers))
  {
    PredecessorsLearnt(m, peers, Full(m, peers), w.(net := {}));
    forall a: World, b: World
      | KnownTo(m, peers, Full(m, peers), peers.Keys)(a) && b.nodes == a.nodes && b.registry == w.registry
      ensures Perfect(m, peers)(b)
    {
      KnownIsPerfect(m, peers, a, b);
    }
    ReachAnyway(m, w, KnownTo(m, peers, Full(m, peers), peers.Keys), Perfect(m, peers));
  }

  // From any settled ring of two or more, with anything in flight, quiet steps lead to the perfect one.
  lemma SettledBecomesPerfect(m: nat, peers: map<nat, Peer>, k: map<nat, nat>, w: World)
    requires NodesSettled(m, peers, k, w) && |peers| >= 2 && forall v :: v in k ==> k[v] <= m
    ensures CanReach(Quietly(m), w, Perfect(m, peers))
  {
    var half := RingOf(m, peers, Full(m, peers), w.registry);
    RingRepaired(m, peers, k, w.(net := {}));
    forall a: World, b: World | SettledAt(m, peers, Full(m, peers))(a) && b.nodes == a.nodes && b.registry == w.registry
      ensures half(b)
    {
      WithoutPackets(m, peers, Full(m, peers), a, b);
    }
    ReachAnyway(m, w, SettledAt(m, peers, Full(m, peers)), half);
    forall u | half(u) ensures CanReach(Quietly(m), u, Perfect(m, peers)) {
      PredecessorsPerfect(m, peers, u);
    }
    ReachThen(Quietly(m), w, half, Perfect(m, peers));
  }

  const NOTHING: World := World(map[], map[], {})

  lemma FirstNode(m: nat, peers: map<nat, Peer>, self: Peer)
    requires Population(m, peers) && peers == map[self.id := self]
    ensures CanReach(Anyhow(m), NOTHING, RingOf(m, peers, Ones(peers), peers))
  {
    assert self.id in peers.Keys;
    var w := After(m, NOTHING, Network.Join(self));
    assert w.registry == peers && w.nodes.Keys == peers.Keys;
    AloneIsSettled(m, self);
    assert NodesSettled(m, peers, Ones(peers), w);
    ReachedAlready(Anyhow(m), w, RingOf(m, peers, Ones(peers), peers));
    AnyThen(m, NOTHING, Network.Join(self), RingOf(m, peers, Ones(peers), peers));
  }

  lemma AloneIsSettled(m: nat, self: Peer)
    requires Population(m, map[self.id := self])
    ensures NodeSettled(m, map[self.id := self], 1, self.id, Created(m, self))
  {
    assert self.id in map[self.id := self].Keys;
    ExactFirstIsNext(m, map[self.id := self].Keys, self.id, self.id);
  }

  lemma FewerPeers(m: nat, peers: map<nat, Peer>, v: nat)
    requires Population(m, peers) && v in peers
    ensures Population(m, peers - {v}) && (peers - {v})[v := peers[v]] == peers
  {
  }

  // The protocol can build every ring from nothing, one join after the other.
  lemma {:induction false} RingBuilt(m: nat, peers: map<nat, Peer>)
    requires Population(m, peers) && |peers| >= 1
    ensures CanReach(Anyhow(m), NOTHING, RingOf(m, peers, Ones(peers), peers))
    decreases |peers|
  {
    assert peers.Keys != {};
    var v :| v in peers;
    var rest := peers - {v};
    FewerPeers(m, peers, v);
    if rest == map[] {
      assert peers == map[v := peers[v]];
      FirstNode(m, peers, peers[v]);
    } else {
      RingBuilt(m, rest);
      forall u | RingOf(m, rest, Ones(rest), rest)(u)
        ensures CanReach(Anyhow(m), u, RingOf(m, peers, Ones(peers), peers))
      {
        assert rest.Keys != {};
        var helper :| helper in rest;
        JoinCompletes(m, rest, Ones(rest), peers[v], helper, u);
      }
      ReachThen(Anyhow(m), NOTHING, RingOf(m, rest, Ones(rest), rest), RingOf(m, peers, Ones(peers), peers));
    }
  }

  // And any ring of two or more comes out perfect.
  lemma PerfectRingBuilt(m: nat, peers: map<nat, Peer>)
    requires Population(m, peers) && |peers| >= 2
    ensures CanReach(Anyhow(m), NOTHING, Perfect(m, peers))
  {
    RingBuilt(m, peers);
    forall u | RingOf(m, peers, Ones(peers), peers)(u) ensures CanReach(Anyhow(m), u, Perfect(m, peers)) {
      SettledBecomesPerfect(m, peers, Ones(peers), u);
      QuietIsAny(m, u, Perfect(m, peers));
    }
    ReachThen(Anyhow(m), NOTHING, RingOf(m, peers, Ones(peers), peers), Perfect(m, peers));
  }
}
