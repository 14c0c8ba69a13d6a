/**
  Backup successors: one fetch round fills the successor list with the second to seventh
  successors whatever it held before, and consecutive failures walk along that list.
 */
module Backup {
  import opened Common
  import opened Ring
  import opened Routing
  import opened Protocol

  // The `j`-th live node after `a`.
  ghost function NthNext(n: nat, live: set<nat>, a: nat, j: nat): (s: nat)
    requires OnRing(n, live) && a in live
    ensures s in live
  {
    if j == 0 then a else Next(n, live, NthNext(n, live, a, j - 1))
  }

  lemma {:induction false} NthNextShift(n: nat, live: set<nat>, a: nat, j: nat)
    requires OnRing(n, live) && a in live
    ensures NthNext(n, live, Next(n, live, a), j) == NthNext(n, live, a, j + 1)
  {
    if j > 0 {
      NthNextShift(n, live, a, j - 1);
    }
  }

  ghost function Visited(n: nat, live: set<nat>, a: nat, j: nat): (s: set<nat>)
    requires OnRing(n, live) && a in live
    ensures |s| <= j + 1
  {
    if j == 0 then {a} else Visited(n, live, a, j - 1) + {NthNext(n, live, a, j)}
  }

  // Walking round the ring meets every node before it comes back to where it began.
  lemma {:induction false} NoReturn(n: nat, live: set<nat>, a: nat, j: nat)
    requires OnRing(n, live) && a in live && j < |live|
    ensures j > 0 ==> NthNext(n, live, a, j) != a
    ensures forall x :: x in live && Dist(n, a, x) <= Dist(n, a, NthNext(n, live, a, j)) ==> x in Visited(n, live, a, j)
  {
    if j > 0 {
      NoReturn(n, live, a, j - 1);
      var p, s := NthNext(n, live, a, j - 1), NthNext(n, live, a, j);
      if s == a {
        forall x | x in live ensures x in Visited(n, live, a, j - 1) {
          Between(n, live, a, p, s, x);
        }
        SubsetSize(live, Visited(n, live, a, j - 1));
      } else {
        forall x | x in live && Dist(n, a, x) <= Dist(n, a, s) ensures x in Visited(n, live, a, j) {
          Between(n, live, a, p, s, x);
        }
      }
    }
  }

  // Seen from `a`, no live node lies between `p` and the next node `s`.
  lemma Between(n: nat, live: set<nat>, a: nat, p: nat, s: nat, x: nat)
    requires OnRing(n, live) && a in live && p in live && x in live && IsNext(n, live, p, s)
    ensures s == a ==> Dist(n, a, x) <= Dist(n, a, p)
    ensures s != a && Dist(n, a, x) <= Dist(n, a, s) ==> x == s || Dist(n, a, x) <= Dist(n, a, p)
  {
    assert Span(n, p, s) <= Span(n, p, x);
    assert Span(n, p, s) <= Span(n, p, a);
  }

  // -------- one fetch round --------

  ghost predicate TrueNode(m: nat, nodes: map<nat, Node>, v: nat)
    requires OnRing(Pow2(m), nodes.Keys) && v in nodes
  {
    && nodes[v].self.id == v && |nodes[v].fingers| > 0
    && nodes[v].fingers[0] == nodes[Next(Pow2(m), nodes.Keys, v)].self
  }

  // The `j`-th peer after `v` on the ring.
  ghost function PeerAfter(m: nat, nodes: map<nat, Node>, v: nat, j: nat): (p: Peer)
    requires OnRing(Pow2(m), nodes.Keys) && v in nodes
  {
    nodes[NthNext(Pow2(m), nodes.Keys, v, j)].self
  }

  // Every node's first finger is the next live node, under its own address.
  ghost predicate TrueRing(m: nat, nodes: map<nat, Node>) {
    && OnRing(Pow2(m), nodes.Keys)
    && forall v {:trigger TrueNode(m, nodes, v)} :: v in nodes ==> TrueNode(m, nodes, v)
  }

  lemma FirstFinger(m: nat, nodes: map<nat, Node>, v: nat)
    requires TrueRing(m, nodes) && v in nodes
    ensures |nodes[v].fingers| > 0 && nodes[v].self.id == v
    ensures nodes[v].fingers[0] == PeerAfter(m, nodes, v, 1) && nodes[v].fingers[0].id in nodes
    ensures nodes[v].fingers[0].id == Next(Pow2(m), nodes.Keys, v)
    ensures forall j: nat {:trigger PeerAfter(m, nodes, nodes[v].fingers[0].id, j)} ::
              PeerAfter(m, nodes, nodes[v].fingers[0].id, j) == PeerAfter(m, nodes, v, j + 1)
  {
    var n, live := Pow2(m), nodes.Keys;
    assert TrueNode(m, nodes, v);
    var s := Next(n, live, v);
    assert TrueNode(m, nodes, s);
    assert NthNext(n, live, v, 1) == Next(n, live, NthNext(n, live, v, 0));
    forall j: nat ensures PeerAfter(m, nodes, s, j) == PeerAfter(m, nodes, v, j + 1) {
      NthNextShift(n, live, v, j);
    }
  }

  // The replies sent by the nodes a fetch request visits, in the order they are sent.
  ghost function Round(m: nat, nodes: map<nat, Node>, at: nat, counter: nat, ip: string, port: int): (ps: seq<Packet>)
    requires TrueRing(m, nodes) && at in nodes
    decreases counter
  {
    FirstFinger(m, nodes, at);
    var ps := HandleFetch(nodes[at], counter, ip, port);
    if |ps| == 1 then ps
    else [ps[0]] + Round(m, nodes, nodes[at].fingers[0].id, ps[1].index, ps[1].reply.ip, ps[1].reply.port)
  }

  ghost predicate RoundReply(p: Packet, counter: int, ip: string, port: int, key: Peer) {
    p.kind == ReplyFetch && p.index == counter && p.dest.ip == ip && p.dest.port == port && p.key == key
  }

  // A request with counter `c` draws `c + 1` replies; the `j`-th names the `(j + 1)`-th
  // successor of the node first asked, and its counter says how many are still to come.
  lemma {:induction false} RoundReplies(m: nat, nodes: map<nat, Node>, at: nat, c: nat, ip: string, port: int)
    requires TrueRing(m, nodes) && at in nodes
    ensures var ps := Round(m, nodes, at, c, ip, port);
            && |ps| == c + 1
            && forall j :: 0 <= j <= c ==> RoundReply(ps[j], c - j, ip, port, PeerAfter(m, nodes, at, j + 1))
    decreases c
  {
    FirstFinger(m, nodes, at);
    if c > 0 {
      var next := nodes[at].fingers[0].id;
      RoundReplies(m, nodes, next, c - 1, ip, port);
      var ps, rest := Round(m, nodes, at, c, ip, port), Round(m, nodes, next, c - 1, ip, port);
      forall j | 0 <= j <= c ensures RoundReply(ps[j], c - j, ip, port, PeerAfter(m, nodes, at, j + 1)) {
        if j > 0 {
          assert ps[j] == rest[j - 1];
          assert PeerAfter(m, nodes, next, j) == PeerAfter(m, nodes, at, j + 1);
        }
      }
    }
  }

  function ReceiveAll(m: nat, n: Node, ps: seq<Packet>): (n': Node)
    requires |n.fingers| == m && m > 0
    ensures |n'.fingers| == m
  {
    if ps == [] then n else Receive(m, ReceiveAll(m, n, ps[..|ps| - 1]), ps[|ps| - 1]).node
  }

  ghost function Successors(m: nat, nodes: map<nat, Node>, v: nat, k: nat): (l: seq<Peer>)
    requires TrueRing(m, nodes) && v in nodes
    ensures |l| == k
  {
    seq(k, i requires 0 <= i => PeerAfter(m, nodes, v, i + 2))
  }

  // The list left by the last of `j` replies that arrive in order.
  lemma ReplyAppends(m: nat, n: Node, l: seq<Peer>, p: Packet, j: nat)
    requires |n.fingers| == m && m > 0 && p.kind == ReplyFetch && p.index == 6 - j
    requires 1 <= j <= 6 && p.key.id != n.self.id && (j == 1 || |n.succList| == j - 1)
    requires l == if j == 1 then [p.key] else n.succList + [p.key]
    ensures Receive(m, n, p).node == n.(succList := l)
  {
  }

  lemma SuccessorsGrow(m: nat, nodes: map<nat, Node>, v: nat, j: nat)
    requires TrueRing(m, nodes) && v in nodes && j > 0
    ensures Successors(m, nodes, v, j) == Successors(m, nodes, v, j - 1) + [PeerAfter(m, nodes, v, j + 1)]
  {
  }

  // After the first `j` replies the list is the second to `(j + 1)`-th successor.
  lemma {:induction false} PrefixReceived(m: nat, nodes: map<nat, Node>, v: nat, ps: seq<Packet>, j: nat)
    requires m > 0 && TrueRing(m, nodes) && v in nodes && |nodes[v].fingers| == m && |nodes| >= 8
    requires |ps| == 6
    requires forall i :: 0 <= i < 6 ==>
               RoundReply(ps[i], 5 - i, nodes[v].self.ip, nodes[v].self.port, PeerAfter(m, nodes, v, i + 2))
    requires 1 <= j <= 6
    ensures ReceiveAll(m, nodes[v], ps[..j]) == nodes[v].(succList := Successors(m, nodes, v, j))
  {
    NotSelf(m, nodes, v, j + 1);
    assert TrueNode(m, nodes, v);
    var p := ps[j - 1];
    assert RoundReply(p, 6 - j, nodes[v].self.ip, nodes[v].self.port, PeerAfter(m, nodes, v, j + 1));
    assert ps[..j][..j - 1] == ps[..j - 1] && ps[..j][j - 1] == p;
    var before := ReceiveAll(m, nodes[v], ps[..j - 1]);
    if j > 1 {
      PrefixReceived(m, nodes, v, ps, j - 1);
    }
    SuccessorsGrow(m, nodes, v, j);
    ReplyAppends(m, before, Successors(m, nodes, v, j), p, j);
  }

  // In a true ring of at least eight nodes one round draws exactly six replies, and
  // receiving them in order leaves exactly the second to seventh successors.
  lemma FetchFills(m: nat, nodes: map<nat, Node>, v: nat)
    requires m > 0 && TrueRing(m, nodes) && v in nodes && |nodes[v].fingers| == m && |nodes| >= 8
    ensures nodes[v].fingers[0].id in nodes
    ensures var f := FetchList(nodes[v]);
            var ps := Round(m, nodes, nodes[v].fingers[0].id, f.index, f.reply.ip, f.reply.port);
            && |ps| == 6
            && ReceiveAll(m, nodes[v], ps) == nodes[v].(succList := Successors(m, nodes, v, 6))
  {
    FirstFinger(m, nodes, v);
    var next := nodes[v].fingers[0].id;
    var ps := Round(m, nodes, next, 5, nodes[v].self.ip, nodes[v].self.port);
    RoundReplies(m, nodes, next, 5, nodes[v].self.ip, nodes[v].self.port);
    forall i | 0 <= i < 6
      ensures RoundReply(ps[i], 5 - i, nodes[v].self.ip, nodes[v].self.port, PeerAfter(m, nodes, v, i + 2))
    {
      assert PeerAfter(m, nodes, next, i + 1) == PeerAfter(m, nodes, v, i + 2);
    }
    assert ps[..6] == ps;
    PrefixReceived(m, nodes, v, ps, 6);
  }

  lemma NotSelf(m: nat, nodes: map<nat, Node>, v: nat, j: nat)
    requires TrueRing(m, nodes) && v in nodes && 1 <= j < |nodes|
    ensures PeerAfter(m, nodes, v, j).id != v
  {
    NoReturn(Pow2(m), nodes.Keys, v, j);
    assert |nodes.Keys| == |nodes|;
    assert TrueNode(m, nodes, NthNext(Pow2(m), nodes.Keys, v, j));
  }

  // -------- failover --------

  // `k` checks of the successor in a row, none of them answered.
  function FailTimes(n: Node, k: nat): (n': Node)
    requires |n.fingers| > 0
    ensures |n'.fingers| == |n.fingers|
  {
    if k == 0 then n else SuccTimeout(CheckSuccessor(FailTimes(n, k - 1)))
  }

  // The node after `k` unanswered checks.
  predicate Walked(n: Node, n': Node, k: nat)
    requires |n.fingers| > 0 && |n.succList| > 0
  {
    var l := n.succList;
    && !n'.succChecking && n'.self == n.self
    && n'.fingers == (if k == 0 then n.fingers else n.fingers[0 := l[(if k <= |l| then k else |l|) - 1]])
    && n'.succList == (if k == 0 then l else if k <= |l| then l[k - 1..] else [])
  }

  lemma WalkStep(n: Node, a: Node, b: Node, k: nat)
    requires |n.fingers| > 0 && |n.succList| > 0 && k > 0 && n.succList[0].id != n.fingers[0].id
    requires n.fingers[0].id != n.self.id && forall i :: 0 <= i < |n.succList| ==> n.succList[i].id != n.self.id
    requires Walked(n, a, k - 1) && b == SuccTimeout(CheckSuccessor(a))
    ensures Walked(n, b, k)
  {
  }

  // The successor after `k` unanswered checks: the `k`-th list entry, and the last one for ever
  // once the list is used up.
  lemma {:induction false} FailoverWalks(n: Node, k: nat)
    requires |n.fingers| > 0 && |n.succList| > 0 && !n.succChecking && n.fingers[0].id != n.self.id
    requires n.succList[0].id != n.fingers[0].id
    requires forall i :: 0 <= i < |n.succList| ==> n.succList[i].id != n.self.id
    ensures Walked(n, FailTimes(n, k), k)
  {
    if k > 0 {
      FailoverWalks(n, k - 1);
      WalkStep(n, FailTimes(n, k - 1), FailTimes(n, k), k);
    }
  }

  // After a fetch round, `k` failures in a row leave the successor pointer at the
  // `(k + 1)`-th successor, for every `k` up to six.
  lemma FailoverAfterFetch(m: nat, nodes: map<nat, Node>, v: nat, n: Node, k: nat)
    requires m > 0 && TrueRing(m, nodes) && v in nodes && |nodes| >= 8 && 1 <= k <= 6
    requires n == nodes[v].(succList := Successors(m, nodes, v, 6)) && !n.succChecking
    ensures |n.fingers| > 0 && FailTimes(n, k).fingers[0] == PeerAfter(m, nodes, v, k + 1)
  {
    FirstFinger(m, nodes, v);
    NotSelf(m, nodes, v, 1);
    forall i | 0 <= i < 6 ensures n.succList[i].id != v {
      NotSelf(m, nodes, v, i + 2);
    }
    var s := n.fingers[0].id;
    NotSelf(m, nodes, s, 1);
    assert PeerAfter(m, nodes, s, 1) == PeerAfter(m, nodes, v, 2) == n.succList[0];
    FailoverWalks(n, k);
  }
}
