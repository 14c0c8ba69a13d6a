/**
  Stabilisation. Accepted changes move pointers strictly closer to the true neighbour and
  never past it; a ring whose neighbours are right, with truthful packets in flight, stays
  right under every step without joins and failures, and keeps the part of each finger
  table that is already exact.
 */
module Settled {
  import opened Ring
  import opened Routing
  import opened Protocol
  import opened Network

  // -------- when a pointer changes --------

  // The predecessor that the successor has reported lies between a node and its successor.
  predicate ReportedNearer(m: nat, n: Node)
    requires |n.fingers| > 0 && n.self.id < Pow2(m) && n.fingers[0].id < Pow2(m)
  {
    n.predOfSucc.id < Pow2(m)
    && 0 < Dist(Pow2(m), n.self.id, n.predOfSucc.id) < Span(Pow2(m), n.self.id, n.fingers[0].id)
  }

  // Stabilise takes the reported peer as successor exactly when it lies between, changes nothing
  // else, asks the old successor and tells the new one, unless that is the node itself.
  lemma StabilizeTakes(m: nat, n: Node)
    requires |n.fingers| > 0 && n.self.id < Pow2(m) && n.fingers[0].id < Pow2(m)
    requires n.predOfSucc.id < Pow2(m) || (n.predOfSucc.id == SENTINEL && 2 * Pow2(m) <= SENTINEL)
    ensures var e, near := Stabilize(m, n), ReportedNearer(m, n);
            && e.node == (if near then n.(fingers := n.fingers[0 := n.predOfSucc]) else n)
            && |e.sent| == (if e.node.fingers[0].id != n.self.id then 2 else 1)
            && e.sent[0].kind == FindPred && e.sent[0].dest == n.fingers[0] && e.sent[0].reply == n.self
            && (|e.sent| == 2 ==> Announces(n.self, e.node.fingers[0], e.sent[1]))
  {
    if n.predOfSucc.id < Pow2(m) {
      InRangeIsArc(Pow2(m), n.self.id, n.fingers[0].id, n.predOfSucc.id);
    } else {
      SentinelInNoRange(Pow2(m), n.self.id, n.fingers[0].id);
    }
  }

  // A notification that reaches the target and names the sender with its own address.
  predicate Announces(self: Peer, target: Peer, p: Packet) {
    p.kind == Notify && p.dest == target && Peer(p.key.id, p.relayIp, p.key.port) == self
  }

  // A notified node without a predecessor takes the candidate; one that has a predecessor takes
  // it exactly when it is strictly nearer.
  lemma NotifyTakes(m: nat, n: Node, candidate: Peer)
    requires n.self.id < Pow2(m) && candidate.id < Pow2(m)
    requires n.pred.id == SENTINEL || n.pred.id < Pow2(m)
    ensures n.pred.id == SENTINEL ==> Notified(m, n, candidate) == n.(pred := candidate)
    ensures n.pred.id != SENTINEL ==>
              Notified(m, n, candidate) ==
              if Span(Pow2(m), candidate.id, n.self.id) < Span(Pow2(m), n.pred.id, n.self.id)
              then n.(pred := candidate) else n
  {
    if n.pred.id != SENTINEL {
      InRangeIsArc(Pow2(m), n.pred.id, n.self.id, candidate.id);
    }
  }

  // A stabilise step that changes the successor brings it strictly closer, and not past the
  // first live node after the node.
  lemma StabilizeShrinks(m: nat, live: set<nat>, n: Node)
    requires OnRing(Pow2(m), live) && 2 * Pow2(m) <= SENTINEL && n.self.id in live
    requires |n.fingers| > 0 && n.fingers[0].id in live && (n.predOfSucc.id == SENTINEL || n.predOfSucc.id in live)
    ensures var s, s' := n.fingers[0].id, Stabilize(m, n).node.fingers[0].id;
            && s' in live
            && (Stabilize(m, n).node != n ==> Span(Pow2(m), n.self.id, s') < Span(Pow2(m), n.self.id, s))
            && Span(Pow2(m), n.self.id, Next(Pow2(m), live, n.self.id)) <= Span(Pow2(m), n.self.id, s')
  {
  }

  // An accepted notification brings a known predecessor strictly closer, and not past the
  // last live node before the node.
  lemma NotifyShrinks(m: nat, live: set<nat>, n: Node, candidate: Peer, p: nat)
    requires OnRing(Pow2(m), live) && n.self.id in live && n.pred.id in live && candidate.id in live
    requires n.pred.id != SENTINEL && IsPrev(Pow2(m), live, n.self.id, p)
    ensures var q := Notified(m, n, candidate).pred.id;
            && q in live
            && (Notified(m, n, candidate) != n ==> Span(Pow2(m), q, n.self.id) < Span(Pow2(m), n.pred.id, n.self.id))
            && Span(Pow2(m), p, n.self.id) <= Span(Pow2(m), q, n.self.id)
  {
  }

  // -------- settled worlds --------

  ghost predicate Population(m: nat, peers: map<nat, Peer>) {
    && m > 0 && 2 * Pow2(m) <= SENTINEL && OnRing(Pow2(m), peers.Keys)
    && (forall a :: a in peers ==> peers[a].id == a)
    && (forall a, b :: a in peers && b in peers && SameAddress(peers[a], peers[b]) ==> a == b)
  }

  // The first `k` fingers of `v` are exact.
  ghost predicate ExactPrefix(m: nat, live: set<nat>, v: nat, k: nat, fingers: seq<Peer>)
    requires OnRing(Pow2(m), live) && v < Pow2(m) && |fingers| == m
  {
    forall i :: 0 <= i < k && i < m ==> ExactFinger(m, live, v, i, fingers[i].id)
  }

  lemma ExactPrefixUpdate(m: nat, live: set<nat>, v: nat, k: nat, fingers: seq<Peer>, j: nat, p: Peer)
    requires OnRing(Pow2(m), live) && v < Pow2(m) && |fingers| == m && j < m
    requires ExactPrefix(m, live, v, k, fingers) && (j < k ==> ExactFinger(m, live, v, j, p.id))
    ensures ExactPrefix(m, live, v, k, fingers[j := p])
  {
  }

  ghost predicate NodeSettled(m: nat, peers: map<nat, Peer>, k: nat, v: nat, n: Node)
    requires Population(m, peers) && v in peers
  {
    && NodeSafe(m, peers, v, n)
    && (n.pred.id != SENTINEL ==> IsNext(Pow2(m), peers.Keys, n.pred.id, v))
    && ExactPrefix(m, peers.Keys, v, k, n.fingers)
  }

  ghost predicate PacketSettled(m: nat, peers: map<nat, Peer>, p: Packet)
    requires Population(m, peers)
  {
    && PacketSafe(m, peers, p)
    && (p.kind == JoinFind ==>
          forall a :: a in peers && SameAddress(peers[a], p.reply) ==> p.key.id == Start(m, a, p.index))
    && (p.kind == ReplyFind ==>
          forall a :: a in peers && SameAddress(peers[a], p.dest) ==> ExactFinger(m, peers.Keys, a, p.index, p.key.id))
    && (p.kind == Notify ==>
          forall a :: a in peers && SameAddress(peers[a], p.dest) ==> IsNext(Pow2(m), peers.Keys, p.key.id, a))
  }

  ghost predicate AllSettled(m: nat, peers: map<nat, Peer>, ps: seq<Packet>)
    requires Population(m, peers)
  {
    forall j :: 0 <= j < |ps| ==> PacketSettled(m, peers, ps[j])
  }

  lemma PrependSettled(m: nat, peers: map<nat, Peer>, p: Packet, ps: seq<Packet>)
    requires Population(m, peers) && PacketSettled(m, peers, p) && AllSettled(m, peers, ps)
    ensures AllSettled(m, peers, [p] + ps)
  {
  }

  // `k[v]` is the length of the part of `v`'s finger table known to be exact.
  ghost predicate WorldSettled(m: nat, peers: map<nat, Peer>, k: map<nat, nat>, w: World) {
    && Population(m, peers)
    && w.nodes.Keys == peers.Keys == k.Keys
    && (forall v {:trigger NodeSettled(m, peers, k[v], v, w.nodes[v])} ::
          v in peers ==> k[v] >= 1 && NodeSettled(m, peers, k[v], v, w.nodes[v]))
    && (forall p :: p in w.net ==> PacketSettled(m, peers, p))
  }

  // Steps without joins and failures: no node comes or goes, none asks to join again and no
  // live successor is taken for dead. A predecessor may be.
  ghost predicate Quiet(w: World, e: Event) {
    match e
    case Join(_) => false
    case Crash(_) => false
    case AskJoin(_, _) => false
    case EndCheckSucc(v) => v in w.nodes && w.nodes[v].succStatus
    case _ => true
  }

  lemma ExactFirstIsNext(m: nat, live: set<nat>, a: nat, f: nat)
    requires m > 0 && OnRing(Pow2(m), live) && a < Pow2(m)
    ensures ExactFinger(m, live, a, 0, f) <==> IsNext(Pow2(m), live, a, f)
  {
    NextIsFirstAfter(Pow2(m), live, a, f);
    assert Pow2(0) == 1;
    assert Start(m, a, 0) == Plus1(Pow2(m), a);
  }

  // The copy shortcut: when the next start still lies before an exact finger, that finger is
  // exact for the next entry too, also when it has wrapped round to the node itself.
  lemma CopyIsExact(m: nat, live: set<nat>, a: nat, i: nat, f: nat)
    requires OnRing(Pow2(m), live) && a in live && i + 1 < m && ExactFinger(m, live, a, i, f)
    requires InRange(Pow2(m), a, f, Start(m, a, i + 1))
    ensures ExactFinger(m, live, a, i + 1, f)
  {
    var n, s, t := Pow2(m), Start(m, a, i), Start(m, a, i + 1);
    InRangeIsArc(n, a, f, t);
    ExactFingerReaches(m, live, a, i, f);
    assert Pow2(i + 1) == 2 * Pow2(i);
    forall x | x in live ensures Dist(n, t, f) <= Dist(n, t, x) {
      assert Dist(n, s, f) <= Dist(n, s, x);
    }
  }

  lemma FindAnswerSettled(m: nat, peers: map<nat, Peer>, k: nat, v: nat, n: Node, ip: string, port: int, index: nat,
                          key: nat)
    requires Population(m, peers) && v in peers && k >= 1 && NodeSettled(m, peers, k, v, n)
    requires index < m && key < Pow2(m)
    requires forall a :: a in peers && peers[a].ip == ip && peers[a].port == port ==> key == Start(m, a, index)
    ensures PacketSettled(m, peers, FindAnswer(m, n, ip, port, index, key))
  {
    assert ExactFinger(m, peers.Keys, v, 0, n.fingers[0].id);
    ExactFirstIsNext(m, peers.Keys, v, n.fingers[0].id);
    FindAnswerSafe(m, peers, v, n, ip, port, index, key);
    DecisionOfNode(m, peers.Keys, n.View(), key);
  }

  lemma CopySettled(m: nat, peers: map<nat, Peer>, k: nat, v: nat, n: Node, i: nat)
    requires Population(m, peers) && v in peers && NodeSettled(m, peers, k, v, n) && i + 1 < m
    requires InRange(Pow2(m), v, n.fingers[i].id, Start(m, v, i + 1))
    ensures NodeSettled(m, peers, k, v, n.(fingers := n.fingers[i + 1 := n.fingers[i]]))
  {
    if i + 1 < k {
      assert ExactFinger(m, peers.Keys, v, i, n.fingers[i].id);
      CopyIsExact(m, peers.Keys, v, i, n.fingers[i].id);
    }
    ExactPrefixUpdate(m, peers.Keys, v, k, n.fingers, i + 1, n.fingers[i]);
    assert Real(m, peers, n.fingers[i]);
  }

  // A lookup a node starts for one of its own entries.
  lemma OwnLookupSettled(m: nat, peers: map<nat, Peer>, k: nat, v: nat, n: Node, i: nat)
    requires Population(m, peers) && v in peers && k >= 1 && NodeSettled(m, peers, k, v, n) && i < m
    ensures PacketSettled(m, peers, FindAnswer(m, n, n.self.ip, n.self.port, i, Start(m, v, i)))
  {
    forall a | a in peers && peers[a].ip == n.self.ip && peers[a].port == n.self.port
      ensures Start(m, v, i) == Start(m, a, i)
    {
      assert SameAddress(peers[a], peers[v]);
    }
    FindAnswerSettled(m, peers, k, v, n, n.self.ip, n.self.port, i, Start(m, v, i));
  }

  lemma {:induction false} FixFromSettled(m: nat, peers: map<nat, Peer>, k: nat, v: nat, n: Node, i: nat)
    requires Population(m, peers) && v in peers && k >= 1 && NodeSettled(m, peers, k, v, n)
    ensures NodeSettled(m, peers, k, v, FixFrom(m, n, i).node)
    ensures AllSettled(m, peers, FixFrom(m, n, i).sent)
    decreases m - i
  {
    if i + 1 < m {
      if InRange(Pow2(m), v, n.fingers[i].id, Start(m, v, i + 1)) {
        CopySettled(m, peers, k, v, n, i);
        FixFromSettled(m, peers, k, v, n.(fingers := n.fingers[i + 1 := n.fingers[i]]), i + 1);
      } else {
        FixFromSettled(m, peers, k, v, n, i + 1);
        OwnLookupSettled(m, peers, k, v, n, i + 1);
        PrependSettled(m, peers, FindAnswer(m, n, n.self.ip, n.self.port, i + 1, Start(m, v, i + 1)),
                       FixFrom(m, n, i + 1).sent);
      }
    }
  }

  lemma StabilizeSettled(m: nat, peers: map<nat, Peer>, k: nat, v: nat, n: Node)
    requires Population(m, peers) && v in peers && k >= 1 && NodeSettled(m, peers, k, v, n)
    ensures Stabilize(m, n).node == n
    ensures AllSettled(m, peers, Stabilize(m, n).sent)
  {
    var s := n.fingers[0].id;
    assert ExactFinger(m, peers.Keys, v, 0, s);
    ExactFirstIsNext(m, peers.Keys, v, s);
    SentinelInNoRange(Pow2(m), v, s);
    if n.predOfSucc.id != SENTINEL {
      InRangeIsArc(Pow2(m), v, s, n.predOfSucc.id);
      assert Span(Pow2(m), v, s) <= Span(Pow2(m), v, n.predOfSucc.id);
    }
    StabilizeSafe(m, peers, v, n);
  }

  lemma NotifiedSettled(m: nat, peers: map<nat, Peer>, k: nat, v: nat, n: Node, candidate: Peer)
    requires Population(m, peers) && v in peers && NodeSettled(m, peers, k, v, n)
    requires Real(m, peers, candidate) && IsNext(Pow2(m), peers.Keys, candidate.id, v)
    ensures NodeSettled(m, peers, k, v, Notified(m, n, candidate))
  {
  }

  lemma ReplySettled(m: nat, peers: map<nat, Peer>, k: nat, v: nat, n: Node, p: Packet)
    requires Population(m, peers) && v in peers && NodeSettled(m, peers, k, v, n)
    requires p.kind == ReplyFind && PacketSettled(m, peers, p) && SameAddress(peers[v], p.dest)
    ensures NodeSettled(m, peers, k, v, n.(fingers := n.fingers[p.index := p.key]))
  {
  }

  // Messages that touch neither the fingers nor the predecessor.
  lemma OtherSettled(m: nat, peers: map<nat, Peer>, k: nat, v: nat, n: Node, p: Packet)
    requires Population(m, peers) && v in peers && NodeSettled(m, peers, k, v, n) && PacketSafe(m, peers, p)
    requires p.kind != JoinFind && p.kind != ReplyFind && p.kind != Notify
    ensures NodeSettled(m, peers, k, v, Receive(m, n, p).node)
    ensures AllSettled(m, peers, Receive(m, n, p).sent)
  {
    ReceiveSafe(m, peers, v, n, p);
    var e := Receive(m, n, p);
    assert e.node.fingers == n.fingers && e.node.pred == n.pred;
    forall j | 0 <= j < |e.sent| ensures PacketSettled(m, peers, e.sent[j]) {
      assert e.sent[j] in e.sent;
    }
  }

  lemma ReceiveSettled(m: nat, peers: map<nat, Peer>, k: nat, v: nat, n: Node, p: Packet)
    requires Population(m, peers) && v in peers && k >= 1 && NodeSettled(m, peers, k, v, n)
    requires PacketSettled(m, peers, p) && SameAddress(peers[v], p.dest)
    ensures NodeSettled(m, peers, k, v, Receive(m, n, p).node)
    ensures AllSettled(m, peers, Receive(m, n, p).sent)
  {
    if p.kind == JoinFind {
      forall a | a in peers && peers[a].ip == p.reply.ip && peers[a].port == p.reply.port
        ensures p.key.id == Start(m, a, p.index)
      {
        assert SameAddress(peers[a], p.reply);
      }
      FindAnswerSettled(m, peers, k, v, n, p.reply.ip, p.reply.port, p.index, p.key.id);
    } else if p.kind == ReplyFind {
      ReplySettled(m, peers, k, v, n, p);
    } else if p.kind == Notify {
      NotifiedSettled(m, peers, k, v, n, Peer(p.key.id, p.relayIp, p.key.port));
    } else {
      OtherSettled(m, peers, k, v, n, p);
    }
  }

  lemma LocalSettled(m: nat, peers: map<nat, Peer>, k: nat, w: World, v: nat, e: Event)
    requires Population(m, peers) && v in peers && v in w.nodes && k >= 1
    requires NodeSettled(m, peers, k, v, w.nodes[v])
    requires !e.Join? && e.v == v && Enabled(m, w, e) && Quiet(w, e)
    requires e.Deliver? ==> PacketSettled(m, peers, e.p)
    ensures NodeSettled(m, peers, k, v, Local(m, w.nodes[v], e).node)
    ensures AllSettled(m, peers, Local(m, w.nodes[v], e).sent)
  {
    var n := w.nodes[v];
    match e
    case Deliver(p, _) => ReceiveSettled(m, peers, k, v, n, p);
    case RunStabilize(_) => StabilizeSettled(m, peers, k, v, n);
    case RunFixFingers(_) =>
      FixFromSettled(m, peers, k, v, n, 0);
      OwnLookupSettled(m, peers, k, v, n, 0);
      PrependSettled(m, peers, FindAnswer(m, n, n.self.ip, n.self.port, 0, Start(m, v, 0)), FixFrom(m, n, 0).sent);
    case _ =>
  }

  lemma MergeSettled(m: nat, peers: map<nat, Peer>, k: map<nat, nat>, w: World, v: nat, r: Effect)
    requires WorldSettled(m, peers, k, w) && v in peers
    requires NodeSettled(m, peers, k[v], v, r.node) && AllSettled(m, peers, r.sent)
    ensures WorldSettled(m, peers, k, World(w.nodes[v := r.node], w.registry, w.net + Sent(r.sent)))
  {
    forall p | p in w.net + Sent(r.sent) ensures PacketSettled(m, peers, p) {
      if p !in w.net {
        var j :| 0 <= j < |r.sent| && r.sent[j] == p;
      }
    }
    var nodes' := w.nodes[v := r.node];
    forall u | u in peers ensures NodeSettled(m, peers, k[u], u, nodes'[u]) && k[u] >= 1 {
      assert NodeSettled(m, peers, k[u], u, w.nodes[u]);
    }
  }

  lemma StepSettled(m: nat, peers: map<nat, Peer>, k: map<nat, nat>, w: World, e: Event)
    requires WorldSettled(m, peers, k, w) && Shaped(m, w) && Enabled(m, w, e) && Quiet(w, e)
    ensures WorldSettled(m, peers, k, After(m, w, e))
  {
    assert e.v in peers && NodeSettled(m, peers, k[e.v], e.v, w.nodes[e.v]) && k[e.v] >= 1;
    LocalSettled(m, peers, k[e.v], w, e.v, e);
    MergeSettled(m, peers, k, w, e.v, Local(m, w.nodes[e.v], e));
  }

  // Every successor is the first live node after its node, and every predecessor that is
  // known has its node as first live node after it.
  ghost predicate TrueNeighbours(m: nat, peers: map<nat, Peer>, w: World)
    requires Population(m, peers)
  {
    forall v :: v in peers ==> Neighbours(m, peers, v, w)
  }

  ghost predicate Neighbours(m: nat, peers: map<nat, Peer>, v: nat, w: World)
    requires Population(m, peers) && v in peers
  {
    && v in w.nodes && |w.nodes[v].fingers| == m && m > 0
    && w.nodes[v].fingers[0] == peers[Next(Pow2(m), peers.Keys, v)]
    && (w.nodes[v].pred.id == SENTINEL
        || (w.nodes[v].pred.id in peers && IsNext(Pow2(m), peers.Keys, w.nodes[v].pred.id, v)))
  }

  lemma SettledSuccessor(m: nat, peers: map<nat, Peer>, k: nat, v: nat, n: Node)
    requires Population(m, peers) && v in peers && k >= 1 && NodeSettled(m, peers, k, v, n)
    ensures |n.fingers| == m && n.fingers[0] == peers[Next(Pow2(m), peers.Keys, v)]
  {
    var f := n.fingers[0].id;
    assert ExactFinger(m, peers.Keys, v, 0, f);
    ExactFirstIsNext(m, peers.Keys, v, f);
    NextUnique(Pow2(m), peers.Keys, v, f, Next(Pow2(m), peers.Keys, v));
    assert Real(m, peers, n.fingers[0]);
  }

  lemma SettledNeighbours(m: nat, peers: map<nat, Peer>, k: map<nat, nat>, w: World)
    requires WorldSettled(m, peers, k, w)
    ensures TrueNeighbours(m, peers, w)
  {
    forall v | v in peers ensures Neighbours(m, peers, v, w) {
      assert NodeSettled(m, peers, k[v], v, w.nodes[v]) && k[v] >= 1;
      SettledSuccessor(m, peers, k[v], v, w.nodes[v]);
    }
  }

  lemma NotifyKeeps(m: nat, peers: map<nat, Peer>, n: Node, v: nat, candidate: Peer)
    requires Population(m, peers) && v in peers && n.self.id == v && n.pred.id in peers && candidate.id in peers
    requires IsNext(Pow2(m), peers.Keys, n.pred.id, v)
    ensures Notified(m, n, candidate) == n
  {
    InRangeIsArc(Pow2(m), n.pred.id, v, candidate.id);
    assert Span(Pow2(m), n.pred.id, v) <= Span(Pow2(m), n.pred.id, candidate.id);
  }

  // A predecessor that is known stays as it is unless it is taken for dead.
  lemma StepKeepsPredecessor(m: nat, peers: map<nat, Peer>, k: nat, n: Node, e: Event, v: nat)
    requires Population(m, peers) && v in peers && NodeSettled(m, peers, k, v, n) && n.pred.id != SENTINEL
    requires e.EndCheckPred? ==> n.predStatus
    requires e.Deliver? ==> PacketSafe(m, peers, e.p)
    ensures Local(m, n, e).node.pred == n.pred
  {
    if e.Deliver? {
      if e.p.kind == Notify {
        NotifyKeeps(m, peers, n, v, Peer(e.p.key.id, e.p.relayIp, e.p.key.port));
      }
    }
  }

  // True neighbours and exact finger prefixes survive every run of quiet steps.
  lemma {:induction false} RunSettled(m: nat, peers: map<nat, Peer>, k: map<nat, nat>, ws: seq<World>, es: seq<Event>,
                                      i: nat)
    requires IsRun(m, ws, es) && i < |ws| && WorldSettled(m, peers, k, ws[0])
    requires forall j :: 0 <= j < |es| ==> Quiet(ws[j], es[j])
    ensures WorldSettled(m, peers, k, ws[i])
    ensures TrueNeighbours(m, peers, ws[i])
  {
    if i > 0 {
      RunSettled(m, peers, k, ws, es, i - 1);
      RunStep(m, ws, es, i - 1);
      StepSettled(m, peers, k, ws[i - 1], es[i - 1]);
    }
    SettledNeighbours(m, peers, k, ws[i]);
  }
}
