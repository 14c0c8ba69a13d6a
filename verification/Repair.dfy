/**
  Finger repair. One pass whose lookups are answered before the next entry is looked at
  leaves the whole table exact; when answers arrive late, every pass still extends the
  exact part of the table.
 */
module Repair {
  import opened Ring
  import opened Routing
  import opened Protocol
  import opened Network
  import opened Settled

  function Views(nodes: map<nat, Node>): (t: map<nat, Table>)
    ensures t.Keys == nodes.Keys
  {
    map v | v in nodes :: nodes[v].View()
  }

  // The packet that finally answers a lookup, followed through every node that forwards it.
  ghost function Answered(m: nat, nodes: map<nat, Node>, at: nat, ip: string, port: int, index: int,
                          key: nat): (p: Packet)
    requires TrueSuccessors(m, Views(nodes)) && at in nodes && key < Pow2(m)
    decreases Dist(Pow2(m), at, key)
  {
    DecisionSound(m, Views(nodes), at, key);
    var p := FindAnswer(m, nodes[at], ip, port, index, key);
    if p.kind == ReplyFind then p
    else Answered(m, nodes, p.dest.id, p.reply.ip, p.reply.port, p.index, p.key.id)
  }

  // The answer comes back to the asker's address, for the entry asked about, with the first
  // node at or after the key.
  lemma {:induction false} AnsweredIsFirst(m: nat, nodes: map<nat, Node>, at: nat, ip: string, port: int, index: int,
                                           key: nat)
    requires TrueSuccessors(m, Views(nodes)) && at in nodes && key < Pow2(m)
    ensures var p := Answered(m, nodes, at, ip, port, index, key);
            && p.kind == ReplyFind && p.index == index && p.dest.ip == ip && p.dest.port == port
            && Known(Views(nodes), p.key) && IsFirst(Pow2(m), nodes.Keys, key, p.key.id)
    decreases Dist(Pow2(m), at, key)
  {
    DecisionSound(m, Views(nodes), at, key);
    var p := FindAnswer(m, nodes[at], ip, port, index, key);
    if p.kind != ReplyFind {
      AnsweredIsFirst(m, nodes, p.dest.id, p.reply.ip, p.reply.port, p.index, p.key.id);
    }
  }

  function SetFinger(n: Node, i: nat, p: Peer): (n': Node)
    requires i < |n.fingers|
    ensures |n'.fingers| == |n.fingers|
  {
    n.(fingers := n.fingers[i := p])
  }

  // Writing a live peer over an entry keeps the ring's successors right, provided entry 0
  // only ever receives the true successor.
  lemma SetFingerKeeps(m: nat, nodes: map<nat, Node>, v: nat, i: nat, p: Peer)
    requires TrueSuccessors(m, Views(nodes)) && v in nodes && i < m && Known(Views(nodes), p)
    requires i == 0 ==> IsNext(Pow2(m), nodes.Keys, v, p.id)
    ensures TruthfulTable(m, Views(nodes), v)
    ensures TrueSuccessors(m, Views(nodes[v := SetFinger(nodes[v], i, p)]))
  {
    var t := Views(nodes);
    assert TruthfulTable(m, t, v) && HasTrueSuccessor(m, t, v);
    var t' := Views(nodes[v := SetFinger(nodes[v], i, p)]);
    assert t'.Keys == t.Keys;
    forall q: Peer | Known(t, q) ensures Known(t', q) { }
    forall a | a in t' ensures TruthfulTable(m, t', a) {
      assert TruthfulTable(m, t, a);
      forall j | 0 <= j < m ensures Known(t', t'[a].fingers[j]) {
        assert Known(t, if a == v && j == i then p else t[a].fingers[j]);
      }
    }
    forall a | a in t' ensures HasTrueSuccessor(m, t', a) {
      assert HasTrueSuccessor(m, t, a);
    }
  }

  // Node `v` after one turn of the finger-repair loop, with the answer, if one is asked for,
  // delivered before the loop goes on.
  ghost function Turn(m: nat, nodes: map<nat, Node>, v: nat, i: nat): (n': Node)
    requires TrueSuccessors(m, Views(nodes)) && v in nodes && i + 1 < m
  {
    assert TruthfulTable(m, Views(nodes), v);
    var n, s := nodes[v], Start(m, v, i + 1);
    if InRange(Pow2(m), v, n.fingers[i].id, s) then SetFinger(n, i + 1, n.fingers[i])
    else Receive(m, n, Answered(m, nodes, v, n.self.ip, n.self.port, i + 1, s)).node
  }

  // A turn writes entry `i + 1` alone, with a live peer, and with the exact one when entry
  // `i` is exact.
  lemma TurnWrites(m: nat, nodes: map<nat, Node>, v: nat, i: nat) returns (p: Peer)
    requires TrueSuccessors(m, Views(nodes)) && v in nodes && i + 1 < m
    ensures TruthfulTable(m, Views(nodes), v)
    ensures Turn(m, nodes, v, i) == SetFinger(nodes[v], i + 1, p) && Known(Views(nodes), p)
    ensures ExactFinger(m, nodes.Keys, v, i, nodes[v].fingers[i].id) ==> ExactFinger(m, nodes.Keys, v, i + 1, p.id)
  {
    assert TruthfulTable(m, Views(nodes), v);
    var n, s := nodes[v], Start(m, v, i + 1);
    if InRange(Pow2(m), v, n.fingers[i].id, s) {
      p := n.fingers[i];
      assert Known(Views(nodes), n.fingers[i]);
      if ExactFinger(m, nodes.Keys, v, i, p.id) {
        CopyIsExact(m, nodes.Keys, v, i, p.id);
      }
    } else {
      AnsweredIsFirst(m, nodes, v, n.self.ip, n.self.port, i + 1, s);
      p := Answered(m, nodes, v, n.self.ip, n.self.port, i + 1, s).key;
    }
  }

  lemma TurnKeeps(m: nat, nodes: map<nat, Node>, v: nat, i: nat)
    requires TrueSuccessors(m, Views(nodes)) && v in nodes && i + 1 < m
    ensures TrueSuccessors(m, Views(nodes[v := Turn(m, nodes, v, i)]))
  {
    var p := TurnWrites(m, nodes, v, i);
    SetFingerKeeps(m, nodes, v, i + 1, p);
  }

  // Node `v` after turns `i` onwards.
  ghost function PassFrom(m: nat, nodes: map<nat, Node>, v: nat, i: nat): (n': Node)
    requires TrueSuccessors(m, Views(nodes)) && v in nodes
    decreases m - i
  {
    if i + 1 >= m then nodes[v]
    else
      TurnKeeps(m, nodes, v, i);
      PassFrom(m, nodes[v := Turn(m, nodes, v, i)], v, i + 1)
  }

  // Node `v` after its lookup for entry 0 is answered.
  ghost function FirstTurn(m: nat, nodes: map<nat, Node>, v: nat): (n': Node)
    requires TrueSuccessors(m, Views(nodes)) && v in nodes
    ensures TrueSuccessors(m, Views(nodes[v := n']))
  {
    assert TruthfulTable(m, Views(nodes), v);
    var n, s := nodes[v], Start(m, v, 0);
    var p := Answered(m, nodes, v, n.self.ip, n.self.port, 0, s);
    AnsweredIsFirst(m, nodes, v, n.self.ip, n.self.port, 0, s);
    ExactFirstIsNext(m, nodes.Keys, v, p.key.id);
    SetFingerKeeps(m, nodes, v, 0, p.key);
    Receive(m, n, p).node
  }

  ghost function Pass(m: nat, nodes: map<nat, Node>, v: nat): (n': Node)
    requires TrueSuccessors(m, Views(nodes)) && v in nodes
  {
    PassFrom(m, nodes[v := FirstTurn(m, nodes, v)], v, 0)
  }

  // One turn after an exact prefix makes it one entry longer.
  lemma TurnExtends(m: nat, nodes: map<nat, Node>, v: nat, i: nat)
    requires TrueSuccessors(m, Views(nodes)) && v in nodes && i + 1 < m && |nodes[v].fingers| == m
    requires ExactPrefix(m, nodes.Keys, v, i + 1, nodes[v].fingers)
    ensures TrueSuccessors(m, Views(nodes[v := Turn(m, nodes, v, i)]))
    ensures var n := Turn(m, nodes, v, i);
            && |n.fingers| == m && n == nodes[v].(fingers := n.fingers)
            && ExactPrefix(m, nodes.Keys, v, i + 2, n.fingers)
  {
    TurnKeeps(m, nodes, v, i);
    var p := TurnWrites(m, nodes, v, i);
    assert ExactFinger(m, nodes.Keys, v, i, nodes[v].fingers[i].id);
    Extends(m, nodes.Keys, v, nodes[v].fingers, i + 1, p);
  }

  // The table is exact and nothing else has changed.
  ghost predicate Repaired(m: nat, live: set<nat>, v: nat, n: Node, n': Node)
    requires OnRing(Pow2(m), live) && v < Pow2(m)
  {
    |n'.fingers| == m && ExactPrefix(m, live, v, m, n'.fingers) && n' == n.(fingers := n'.fingers)
  }

  lemma NextTurn(m: nat, live: set<nat>, nodes: map<nat, Node>, v: nat, i: nat) returns (nodes': map<nat, Node>)
    requires TrueSuccessors(m, Views(nodes)) && v in nodes && i + 1 < m && |nodes[v].fingers| == m
    requires live == nodes.Keys && ExactPrefix(m, live, v, i + 1, nodes[v].fingers)
    ensures TrueSuccessors(m, Views(nodes')) && nodes'.Keys == live
    ensures |nodes'[v].fingers| == m && ExactPrefix(m, live, v, i + 2, nodes'[v].fingers)
    ensures nodes'[v] == nodes[v].(fingers := nodes'[v].fingers)
    ensures PassFrom(m, nodes, v, i) == PassFrom(m, nodes', v, i + 1)
  {
    TurnKeeps(m, nodes, v, i);
    TurnExtends(m, nodes, v, i);
    nodes' := nodes[v := Turn(m, nodes, v, i)];
  }

  lemma {:induction false} PassFromExact(m: nat, live: set<nat>, nodes: map<nat, Node>, v: nat, i: nat)
    requires TrueSuccessors(m, Views(nodes)) && v in nodes && i < m && |nodes[v].fingers| == m
    requires live == nodes.Keys && ExactPrefix(m, live, v, i + 1, nodes[v].fingers)
    ensures Repaired(m, live, v, nodes[v], PassFrom(m, nodes, v, i))
    decreases m - i
  {
    if i + 1 < m {
      var nodes' := NextTurn(m, live, nodes, v, i);
      PassFromExact(m, live, nodes', v, i + 1);
      RepairedSince(m, live, v, nodes[v], nodes'[v], PassFrom(m, nodes', v, i + 1));
    } else {
      assert PassFrom(m, nodes, v, i) == nodes[v];
    }
  }

  lemma RepairedSince(m: nat, live: set<nat>, v: nat, n: Node, n': Node, n'': Node)
    requires OnRing(Pow2(m), live) && v < Pow2(m) && n' == n.(fingers := n'.fingers) && Repaired(m, live, v, n', n'')
    ensures Repaired(m, live, v, n, n'')
  {
  }

  lemma Extends(m: nat, live: set<nat>, v: nat, fingers: seq<Peer>, j: nat, p: Peer)
    requires OnRing(Pow2(m), live) && v < Pow2(m) && |fingers| == m && j < m
    requires ExactPrefix(m, live, v, j, fingers) && ExactFinger(m, live, v, j, p.id)
    ensures ExactPrefix(m, live, v, j + 1, fingers[j := p])
  {
  }

  // One pass with answers delivered in step leaves every entry of the table exact and
  // changes nothing else, whatever live nodes the entries held before.
  lemma PassExact(m: nat, nodes: map<nat, Node>, v: nat)
    requires TrueSuccessors(m, Views(nodes)) && v in nodes
    ensures var n' := Pass(m, nodes, v);
            && |n'.fingers| == m && n' == nodes[v].(fingers := n'.fingers)
            && forall i :: 0 <= i < m ==> ExactFinger(m, nodes.Keys, v, i, n'.fingers[i].id)
  {
    assert TruthfulTable(m, Views(nodes), v);
    var n, s := nodes[v], Start(m, v, 0);
    var p := Answered(m, nodes, v, n.self.ip, n.self.port, 0, s);
    AnsweredIsFirst(m, nodes, v, n.self.ip, n.self.port, 0, s);
    Extends(m, nodes.Keys, v, n.fingers, 0, p.key);
    var nodes' := nodes[v := FirstTurn(m, nodes, v)];
    assert nodes'.Keys == nodes.Keys;
    PassFromExact(m, nodes.Keys, nodes', v, 0);
  }

  // -------- late answers --------

  // An answer for the first entry not yet known to be exact makes it exact.
  lemma AnswerExtends(m: nat, peers: map<nat, Peer>, k: nat, v: nat, n: Node, p: Packet)
    requires Population(m, peers) && v in peers && NodeSettled(m, peers, k, v, n) && k < m
    requires p.kind == ReplyFind && p.index == k && PacketSettled(m, peers, p) && SameAddress(peers[v], p.dest)
    ensures NodeSettled(m, peers, k + 1, v, Receive(m, n, p).node)
  {
  }

  // A lookup of `v` for its entry `k` on its way to a live node, or the answer to one.
  ghost predicate AsksFor(m: nat, peers: map<nat, Peer>, v: nat, k: nat, p: Packet)
    requires Population(m, peers) && v in peers && k < m
  {
    && p.index == k && PacketSettled(m, peers, p)
    && match p.kind
       case JoinFind => Real(m, peers, p.dest) && SameAddress(peers[v], p.reply) && p.key.id == Start(m, v, k)
       case ReplyFind => SameAddress(peers[v], p.dest)
       case _ => false
  }

  ghost predicate Asked(m: nat, peers: map<nat, Peer>, v: nat, k: nat, ps: seq<Packet>)
    requires Population(m, peers) && v in peers && k < m
  {
    exists j :: 0 <= j < |ps| && AsksFor(m, peers, v, k, ps[j])
  }

  lemma AskedLater(m: nat, peers: map<nat, Peer>, v: nat, k: nat, p: Packet, ps: seq<Packet>)
    requires Population(m, peers) && v in peers && k < m
    ensures Asked(m, peers, v, k, ps) ==> Asked(m, peers, v, k, [p] + ps)
    ensures AsksFor(m, peers, v, k, p) ==> Asked(m, peers, v, k, [p] + ps)
  {
    assert ([p] + ps)[0] == p;
    if Asked(m, peers, v, k, ps) {
      var j :| 0 <= j < |ps| && AsksFor(m, peers, v, k, ps[j]);
      assert ([p] + ps)[j + 1] == ps[j];
    }
  }

  // What any node of the ring sends on for a lookup is that lookup or its answer.
  lemma AnswerAsks(m: nat, peers: map<nat, Peer>, v: nat, k: nat, u: nat, n: Node, ip: string, port: int)
    requires Population(m, peers) && v in peers && u in peers && k < m && NodeSafe(m, peers, u, n)
    requires peers[v].ip == ip && peers[v].port == port
    requires PacketSettled(m, peers, FindAnswer(m, n, ip, port, k, Start(m, v, k)))
    ensures AsksFor(m, peers, v, k, FindAnswer(m, n, ip, port, k, Start(m, v, k)))
  {
    var d := Decide(Pow2(m), n.View(), Start(m, v, k));
    assert d.peer == n.self || exists i :: 0 <= i < |n.fingers| && d.peer == n.fingers[i];
  }

  // The turn that copies into entry `k` makes it exact.
  lemma CopyExtends(m: nat, peers: map<nat, Peer>, k: nat, v: nat, n: Node)
    requires Population(m, peers) && v in peers && NodeSettled(m, peers, k, v, n) && 0 < k < m
    requires InRange(Pow2(m), v, n.fingers[k - 1].id, Start(m, v, k))
    ensures NodeSettled(m, peers, k + 1, v, n.(fingers := n.fingers[k := n.fingers[k - 1]]))
  {
    var i, n' := k - 1, n.(fingers := n.fingers[k := n.fingers[k - 1]]);
    assert n.(fingers := n.fingers[i + 1 := n.fingers[i]]) == n';
    CopySettled(m, peers, k, v, n, i);
    SettledFinger(m, peers, k, v, n, i);
    CopyPrefix(m, peers.Keys, v, k, n.fingers);
    LongerPrefix(m, peers, k, v, n');
  }

  lemma SettledFinger(m: nat, peers: map<nat, Peer>, k: nat, v: nat, n: Node, i: nat)
    requires Population(m, peers) && v in peers && NodeSettled(m, peers, k, v, n) && i < m
    ensures |n.fingers| == m && n.fingers[i].id < Pow2(m)
  {
    assert Real(m, peers, n.fingers[i]);
  }

  lemma CopyPrefix(m: nat, live: set<nat>, v: nat, k: nat, fingers: seq<Peer>)
    requires OnRing(Pow2(m), live) && v in live && |fingers| == m && 0 < k < m && fingers[k - 1].id < Pow2(m)
    requires ExactPrefix(m, live, v, k, fingers) && InRange(Pow2(m), v, fingers[k - 1].id, Start(m, v, k))
    ensures ExactPrefix(m, live, v, k + 1, fingers[k := fingers[k - 1]])
  {
    assert ExactFinger(m, live, v, k - 1, fingers[k - 1].id);
    CopyIsExact(m, live, v, k - 1, fingers[k - 1].id);
    Extends(m, live, v, fingers, k, fingers[k - 1]);
  }

  lemma LongerPrefix(m: nat, peers: map<nat, Peer>, k: nat, v: nat, n: Node)
    requires Population(m, peers) && v in peers && NodeSettled(m, peers, k, v, n)
    requires ExactPrefix(m, peers.Keys, v, k + 1, n.fingers)
    ensures NodeSettled(m, peers, k + 1, v, n)
  {
  }

  // The first entry not yet exact has become exact, or its lookup is among the messages sent.
  ghost predicate Furthered(m: nat, peers: map<nat, Peer>, k: nat, v: nat, e: Effect)
    requires Population(m, peers) && v in peers && k < m
  {
    NodeSettled(m, peers, k + 1, v, e.node) || Asked(m, peers, v, k, e.sent)
  }

  lemma FurtheredLater(m: nat, peers: map<nat, Peer>, k: nat, v: nat, p: Packet, e: Effect)
    requires Population(m, peers) && v in peers && k < m
    requires Furthered(m, peers, k, v, e) || AsksFor(m, peers, v, k, p)
    ensures Furthered(m, peers, k, v, Effect(e.node, [p] + e.sent))
  {
    AskedLater(m, peers, v, k, p, e.sent);
  }

  // A pass over a table whose first `k` entries are exact makes entry `k` exact by copying,
  // or sends a truthful lookup for it.
  lemma {:induction false} PassExtends(m: nat, peers: map<nat, Peer>, k: nat, v: nat, n: Node, i: nat)
    requires Population(m, peers) && v in peers && NodeSettled(m, peers, k, v, n) && i < k < m
    ensures Furthered(m, peers, k, v, FixFrom(m, n, i))
    decreases m - i
  {
    if InRange(Pow2(m), v, n.fingers[i].id, Start(m, v, i + 1)) {
      var n' := n.(fingers := n.fingers[i + 1 := n.fingers[i]]);
      if i + 1 < k {
        CopySettled(m, peers, k, v, n, i);
        PassExtends(m, peers, k, v, n', i + 1);
      } else {
        CopyExtends(m, peers, k, v, n);
        FixFromSettled(m, peers, k + 1, v, n', i + 1);
      }
    } else {
      var p := FindAnswer(m, n, n.self.ip, n.self.port, i + 1, Start(m, v, i + 1));
      if i + 1 < k {
        PassExtends(m, peers, k, v, n, i + 1);
      } else {
        OwnLookupSettled(m, peers, k, v, n, k);
        AnswerAsks(m, peers, v, k, v, n, n.self.ip, n.self.port);
      }
      FurtheredLater(m, peers, k, v, p, FixFrom(m, n, i + 1));
    }
  }

  // -------- what a pass does to any table --------

  // Entry j was looked up, or it is a copy of the entry before it, which reaches its start.
  ghost predicate Seen(m: nat, n: Node, e: Effect, j: nat)
    requires n.self.id < Pow2(m) && |e.node.fingers| == m && j < m
  {
    || (exists p :: p in e.sent && LooksFor(m, n.self, p, j))
    || (j > 0 && e.node.fingers[j] == e.node.fingers[j - 1]
        && InRange(Pow2(m), n.self.id, e.node.fingers[j - 1].id, Start(m, n.self.id, j)))
  }

  // A packet that brings the answer for entry j to the node, or looks for it on the node's behalf.
  predicate LooksFor(m: nat, self: Peer, p: Packet, j: nat)
    requires self.id < Pow2(m) && j < m
  {
    && p.index == j
    && if p.kind == ReplyFind then SameAddress(p.dest, self)
       else p.kind == JoinFind && p.key.id == Start(m, self.id, j) && SameAddress(p.reply, self)
  }

  lemma {:induction false} PassKeepsFirst(m: nat, n: Node, i: nat)
    requires |n.fingers| == m && m > 0 && n.self.id < Pow2(m) && i < m
    ensures FixFrom(m, n, i).node.fingers[..i + 1] == n.fingers[..i + 1]
    decreases m - i
  {
    if i + 1 < m {
      if InRange(Pow2(m), n.self.id, n.fingers[i].id, Start(m, n.self.id, i + 1)) {
        var n' := n.(fingers := n.fingers[i + 1 := n.fingers[i]]);
        PassKeepsFirst(m, n', i + 1);
        assert n'.fingers[..i + 2][..i + 1] == n.fingers[..i + 1];
      } else {
        PassKeepsFirst(m, n, i + 1);
        assert n.fingers[..i + 2][..i + 1] == n.fingers[..i + 1];
      }
      var f := FixFrom(m, n, i).node.fingers;
      assert f[..i + 2][..i + 1] == f[..i + 1];
    }
  }

  lemma {:induction false} PassSeesFrom(m: nat, n: Node, i: nat, j: nat)
    requires |n.fingers| == m && m > 0 && n.self.id < Pow2(m) && i < j < m
    ensures Seen(m, n, FixFrom(m, n, i), j)
    decreases m - i
  {
    if InRange(Pow2(m), n.self.id, n.fingers[i].id, Start(m, n.self.id, i + 1)) {
      var n' := n.(fingers := n.fingers[i + 1 := n.fingers[i]]);
      if j > i + 1 {
        PassSeesFrom(m, n', i + 1, j);
      } else {
        PassKeepsFirst(m, n', i + 1);
        var f := FixFrom(m, n', i + 1).node.fingers;
        assert f[i] == f[..i + 2][i] == n'.fingers[..i + 2][i];
        assert f[i + 1] == f[..i + 2][i + 1] == n'.fingers[..i + 2][i + 1];
      }
    } else {
      var p := FindAnswer(m, n, n.self.ip, n.self.port, i + 1, Start(m, n.self.id, i + 1));
      var rest := FixFrom(m, n, i + 1);
      SeenLater(m, n, p, rest, j);
      if j > i + 1 {
        PassSeesFrom(m, n, i + 1, j);
      } else {
        assert p in [p] + rest.sent && LooksFor(m, n.self, p, j);
      }
    }
  }

  lemma SeenLater(m: nat, n: Node, p: Packet, e: Effect, j: nat)
    requires n.self.id < Pow2(m) && |e.node.fingers| == m && j < m
    ensures Seen(m, n, e, j) ==> Seen(m, n, Effect(e.node, [p] + e.sent), j)
  {
  }

  // Every pass sees to every entry of the table, whatever it holds.
  lemma PassSeesAll(m: nat, n: Node, j: nat)
    requires |n.fingers| == m && m > 0 && n.self.id < Pow2(m) && j < m
    ensures Seen(m, n, FixFingers(m, n), j)
  {
    var p := FindAnswer(m, n, n.self.ip, n.self.port, 0, Start(m, n.self.id, 0));
    var rest := FixFrom(m, n, 0);
    SeenLater(m, n, p, rest, j);
    if j > 0 {
      PassSeesFrom(m, n, 0, j);
    } else {
      assert p in [p] + rest.sent && LooksFor(m, n.self, p, 0);
    }
  }
}
