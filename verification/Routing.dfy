/**
  Greedy routing over finger tables: the decision every node takes for a key, and what
  a chain of such decisions reaches in a ring whose successors are right.
 */
module Routing {
  import opened Ring

  datatype Peer = Peer(id: nat, ip: string, port: int)

  predicate SameAddress(a: Peer, b: Peer) {
    a.ip == b.ip && a.port == b.port
  }

  // What routing reads of a node: its own identity and the peers of its finger table.
  datatype Table = Table(self: Peer, fingers: seq<Peer>)

  // Index of the last of the first `k` fingers strictly between the node and the key, or -1.
  function ClosestIndex(n: nat, self: nat, fingers: seq<Peer>, key: nat, k: nat): (r: int)
    requires k <= |fingers|
    ensures -1 <= r < k
    ensures r >= 0 ==> InRange(n, self, key, fingers[r].id)
    ensures forall j :: 0 <= j < k && r < j ==> !InRange(n, self, key, fingers[j].id)
  {
    if k == 0 then -1
    else if InRange(n, self, key, fingers[k - 1].id) then k - 1
    else ClosestIndex(n, self, fingers, key, k - 1)
  }

  function ClosestPreceding(n: nat, t: Table, key: nat): (p: Peer)
    ensures p == t.self || p in t.fingers
  {
    var i := ClosestIndex(n, t.self.id, t.fingers, key, |t.fingers|);
    if i < 0 then t.self else t.fingers[i]
  }

  /** Outcome of one routing decision. `Fallback` is the branch taken when the closest
      preceding node turns out to be the node itself. */
  datatype Decision = Own(peer: Peer) | Successor(peer: Peer) | Fallback(peer: Peer) | Forward(peer: Peer)

  function Decide(n: nat, t: Table, key: nat): (d: Decision)
    requires |t.fingers| > 0
    ensures d.peer == t.self || d.peer in t.fingers
  {
    if t.self.id == key then Own(t.self)
    else if RightTightInRange(n, t.self.id, key, t.fingers[0].id) then Successor(t.fingers[0])
    else
      var p := ClosestPreceding(n, t, key);
      if p.id == t.self.id then Fallback(t.fingers[0]) else Forward(p)
  }

  // -------- rings --------

  // The peer is a live node under its own address.
  ghost predicate Known(tables: map<nat, Table>, p: Peer) {
    p.id in tables && tables[p.id].self == p
  }

  ghost predicate TruthfulTable(m: nat, tables: map<nat, Table>, a: nat)
    requires a in tables
  {
    && tables[a].self.id == a
    && |tables[a].fingers| == m
    && forall i :: 0 <= i < m ==> Known(tables, tables[a].fingers[i])
  }

  // Every table names its own node and points only at live nodes, under their own addresses.
  ghost predicate Truthful(m: nat, tables: map<nat, Table>) {
    && m > 0
    && OnRing(Pow2(m), tables.Keys)
    && forall a {:trigger TruthfulTable(m, tables, a)} :: a in tables ==> TruthfulTable(m, tables, a)
  }

  ghost predicate HasTrueSuccessor(m: nat, tables: map<nat, Table>, a: nat)
    requires Truthful(m, tables) && a in tables
  {
    assert TruthfulTable(m, tables, a);
    IsNext(Pow2(m), tables.Keys, a, tables[a].fingers[0].id)
  }

  ghost predicate TrueSuccessors(m: nat, tables: map<nat, Table>) {
    && Truthful(m, tables)
    && forall a {:trigger HasTrueSuccessor(m, tables, a)} :: a in tables ==> HasTrueSuccessor(m, tables, a)
  }

  ghost predicate ExactFinger(m: nat, live: set<nat>, a: nat, i: nat, f: nat)
    requires OnRing(Pow2(m), live) && a < Pow2(m) && i < m
  {
    IsFirst(Pow2(m), live, Start(m, a, i), f)
  }

  ghost predicate HasExactFingers(m: nat, tables: map<nat, Table>, a: nat)
    requires Truthful(m, tables) && a in tables
  {
    assert TruthfulTable(m, tables, a);
    forall i :: 0 <= i < m ==> ExactFinger(m, tables.Keys, a, i, tables[a].fingers[i].id)
  }

  ghost predicate ExactFingers(m: nat, tables: map<nat, Table>)
    requires Truthful(m, tables)
  {
    forall a {:trigger HasExactFingers(m, tables, a)} :: a in tables ==> HasExactFingers(m, tables, a)
  }

  // What the right-tight test says of a true successor `s` of `a`.
  lemma TrueSuccessorTest(n: nat, live: set<nat>, a: nat, s: nat, key: nat)
    requires OnRing(n, live) && a in live && key < n && a != key && IsNext(n, live, a, s)
    ensures RightTightInRange(n, a, key, s) <==> IsFirst(n, live, key, s)
    ensures !RightTightInRange(n, a, key, s) ==> InRange(n, a, key, s)
  {
    RightTightIsArc(n, a, key, s);
    InRangeIsArc(n, a, key, s);
    if RightTightInRange(n, a, key, s) {
      forall x | x in live ensures Dist(n, key, s) <= Dist(n, key, x) {
        assert Span(n, a, s) <= Span(n, a, x);
      }
    } else {
      assert Dist(n, key, a) < Dist(n, key, s);
    }
  }

  // One decision of a node whose successor is right and whose other fingers are live nodes:
  // it answers with the first node at or after the key, or moves to a live node strictly
  // closer to the key; it never falls back.
  lemma DecisionOfNode(m: nat, live: set<nat>, t: Table, key: nat)
    requires OnRing(Pow2(m), live) && key < Pow2(m) && t.self.id in live
    requires |t.fingers| > 0 && forall i :: 0 <= i < |t.fingers| ==> t.fingers[i].id in live
    requires IsNext(Pow2(m), live, t.self.id, t.fingers[0].id)
    ensures var n, d := Pow2(m), Decide(Pow2(m), t, key);
            && !d.Fallback?
            && d.peer.id in live
            && (!d.Forward? ==> IsFirst(n, live, key, d.peer.id))
            && (d.Forward? ==> 0 < Dist(n, t.self.id, d.peer.id) < Dist(n, t.self.id, key))
  {
    var n, a, s := Pow2(m), t.self.id, t.fingers[0].id;
    if a == key {
      assert Dist(n, a, a) == 0;
    } else {
      TrueSuccessorTest(n, live, a, s, key);
      if !RightTightInRange(n, a, key, s) {
        var i := ClosestIndex(n, a, t.fingers, key, |t.fingers|);
        assert i >= 0;
        InRangeIsArc(n, a, key, t.fingers[i].id);
      }
    }
  }

  lemma DecisionSound(m: nat, tables: map<nat, Table>, a: nat, key: nat)
    requires TrueSuccessors(m, tables) && a in tables && key < Pow2(m)
    ensures TruthfulTable(m, tables, a)
    ensures var n, d := Pow2(m), Decide(Pow2(m), tables[a], key);
            && !d.Fallback?
            && Known(tables, d.peer)
            && (!d.Forward? ==> IsFirst(n, tables.Keys, key, d.peer.id))
            && (d.Forward? ==> 0 < Dist(n, a, d.peer.id) < Dist(n, a, key))
  {
    var t := tables[a];
    assert TruthfulTable(m, tables, a) && HasTrueSuccessor(m, tables, a);
    forall i | 0 <= i < m ensures t.fingers[i].id in tables {
      assert Known(tables, t.fingers[i]);
    }
    DecisionOfNode(m, tables.Keys, t, key);
    var d := Decide(Pow2(m), t, key);
    if d.peer != t.self {
      var i :| 0 <= i < m && t.fingers[i] == d.peer;
      assert Known(tables, t.fingers[i]);
    }
  }

  datatype Outcome = Outcome(answer: Peer, hops: nat)

  // A lookup followed from node to node until some node answers it.
  ghost function Lookup(m: nat, tables: map<nat, Table>, at: nat, key: nat): (r: Outcome)
    requires TrueSuccessors(m, tables) && at in tables && key < Pow2(m)
    decreases Dist(Pow2(m), at, key)
  {
    DecisionSound(m, tables, at, key);
    assert TruthfulTable(m, tables, at);
    var d := Decide(Pow2(m), tables[at], key);
    if d.Forward? then
      var r := Lookup(m, tables, d.peer.id, key);
      r.(hops := r.hops + 1)
    else
      Outcome(d.peer, 0)
  }

  // Every lookup from every live node answers with the first live node at or after the key,
  // under that node's own address.
  lemma {:induction false} LookupCorrect(m: nat, tables: map<nat, Table>, at: nat, key: nat)
    requires TrueSuccessors(m, tables) && at in tables && key < Pow2(m)
    ensures var r := Lookup(m, tables, at, key);
            && Known(tables, r.answer)
            && IsFirst(Pow2(m), tables.Keys, key, r.answer.id)
    decreases Dist(Pow2(m), at, key)
  {
    DecisionSound(m, tables, at, key);
    assert TruthfulTable(m, tables, at);
    var d := Decide(Pow2(m), tables[at], key);
    if d.Forward? {
      LookupCorrect(m, tables, d.peer.id, key);
    }
  }

  // A lookup for the identifier of a node that is already linked returns that node itself,
  // so a join lookup answered late makes a node its own successor.
  lemma LookupOfMember(m: nat, tables: map<nat, Table>, at: nat, key: nat)
    requires TrueSuccessors(m, tables) && at in tables && key in tables
    ensures Lookup(m, tables, at, key).answer == tables[key].self
  {
    LookupCorrect(m, tables, at, key);
    assert Dist(Pow2(m), key, key) == 0;
  }

  // -------- hop bound --------

  // `p` is the last live node strictly before `key` (the whole ring away when it is the key itself).
  ghost predicate IsPrev(n: nat, live: set<nat>, key: nat, p: nat)
    requires OnRing(n, live) && key < n
  {
    p in live && forall x {:trigger Span(n, x, key)} :: x in live ==> Span(n, p, key) <= Span(n, x, key)
  }

  lemma {:induction false} PrevExists(n: nat, live: set<nat>, key: nat)
    requires OnRing(n, live) && key < n && live != {}
    ensures exists p :: IsPrev(n, live, key, p)
  {
    var x :| x in live;
    var rest := live - {x};
    if rest == {} {
      assert live == {x};
      assert IsPrev(n, live, key, x);
    } else {
      PrevExists(n, rest, key);
      var t :| IsPrev(n, rest, key, t);
      assert IsPrev(n, live, key, if Span(n, x, key) < Span(n, t, key) then x else t);
    }
  }

  // The bit length of a positive distance.
  lemma {:induction false} BitLength(d: nat, k: nat) returns (i: nat)
    requires 1 <= d < Pow2(k)
    ensures i < k && Pow2(i) <= d < 2 * Pow2(i)
  {
    if d >= Pow2(k - 1) {
      i := k - 1;
    } else {
      i := BitLength(d, k - 1);
    }
  }

  // An exact finger is at least its offset away from the node, unless it wraps to the node itself.
  lemma ExactFingerReaches(m: nat, live: set<nat>, a: nat, i: nat, f: nat)
    requires OnRing(Pow2(m), live) && a in live && i < m && ExactFinger(m, live, a, i, f)
    ensures f == a || Dist(Pow2(m), a, f) >= Pow2(i)
    ensures forall x :: x in live && Dist(Pow2(m), a, x) >= Pow2(i) ==>
              f != a && Dist(Pow2(m), a, f) <= Dist(Pow2(m), a, x)
  {
    var n, s := Pow2(m), Start(m, a, i);
    assert Dist(n, a, s) == Pow2(i);
    assert Dist(n, s, f) <= Dist(n, s, a);
    forall x | x in live && Dist(n, a, x) >= Pow2(i)
      ensures f != a && Dist(n, a, f) <= Dist(n, a, x)
    {
      assert Dist(n, s, f) <= Dist(n, s, x);
    }
  }

  // No live node lies strictly between the key's predecessor and the key.
  lemma BehindPrev(n: nat, live: set<nat>, a: nat, key: nat, p: nat, x: nat)
    requires OnRing(n, live) && key < n && a in live && x in live && IsPrev(n, live, key, p)
    requires a != key && a != p && Dist(n, a, x) < Dist(n, a, key)
    ensures Dist(n, a, x) <= Dist(n, a, p) < Dist(n, a, key)
    ensures Dist(n, x, p) == Dist(n, a, p) - Dist(n, a, x)
  {
    assert Span(n, p, key) <= Span(n, a, key);
    assert Span(n, p, key) <= Span(n, x, key);
  }

  // One hop halves the distance that is left to the key's predecessor.
  lemma HopHalves(m: nat, tables: map<nat, Table>, a: nat, key: nat, p: nat, i: nat)
    requires TrueSuccessors(m, tables) && ExactFingers(m, tables) && a in tables && key < Pow2(m)
    requires IsPrev(Pow2(m), tables.Keys, key, p) && a != p && a != key
    requires i < m && Pow2(i) <= Dist(Pow2(m), a, p) < 2 * Pow2(i)
    ensures TruthfulTable(m, tables, a)
    ensures var j := ClosestIndex(Pow2(m), a, tables[a].fingers, key, m);
            j >= 0 && Known(tables, tables[a].fingers[j]) && Dist(Pow2(m), tables[a].fingers[j].id, p) < Pow2(i)
  {
    var n, t, live := Pow2(m), tables[a], tables.Keys;
    assert TruthfulTable(m, tables, a) && HasExactFingers(m, tables, a);
    BehindPrev(n, live, a, key, p, a);
    var f := t.fingers[i].id;
    assert ExactFinger(m, live, a, i, f);
    ExactFingerReaches(m, live, a, i, f);
    assert Known(tables, t.fingers[i]);
    InRangeIsArc(n, a, key, f);
    var j := ClosestIndex(n, a, t.fingers, key, m);
    var g := t.fingers[j].id;
    assert Known(tables, t.fingers[j]);
    InRangeIsArc(n, a, key, g);
    assert ExactFinger(m, live, a, j, g);
    ExactFingerReaches(m, live, a, j, g);
    Pow2Monotone(i, j);
    BehindPrev(n, live, a, key, p, g);
  }

  // The key's predecessor answers and does not forward.
  lemma PrevAnswers(m: nat, tables: map<nat, Table>, p: nat, key: nat)
    requires TrueSuccessors(m, tables) && key < Pow2(m) && IsPrev(Pow2(m), tables.Keys, key, p)
    ensures TruthfulTable(m, tables, p)
    ensures !Decide(Pow2(m), tables[p], key).Forward?
  {
    var n := Pow2(m);
    assert TruthfulTable(m, tables, p) && HasTrueSuccessor(m, tables, p);
    var s := tables[p].fingers[0];
    assert Known(tables, s);
    if p != key {
      RightTightIsArc(n, p, key, s.id);
      assert Span(n, p, key) <= Span(n, s.id, key);
    }
  }

  lemma {:induction false} HopsWithin(m: nat, tables: map<nat, Table>, at: nat, key: nat, p: nat, k: nat)
    requires TrueSuccessors(m, tables) && ExactFingers(m, tables) && at in tables && key < Pow2(m)
    requires IsPrev(Pow2(m), tables.Keys, key, p) && Dist(Pow2(m), at, p) < Pow2(k) && k <= m
    ensures Lookup(m, tables, at, key).hops <= k
    decreases k
  {
    var n := Pow2(m);
    DecisionSound(m, tables, at, key);
    var d := Decide(n, tables[at], key);
    assert TruthfulTable(m, tables, at);
    if d.Forward? {
      PrevAnswers(m, tables, p, key);
      var i := BitLength(Dist(n, at, p), k);
      HopHalves(m, tables, at, key, p, i);
      HopsWithin(m, tables, d.peer.id, key, p, i);
    }
  }

  // With exact fingers every lookup is forwarded at most `m` times.
  lemma HopBound(m: nat, tables: map<nat, Table>, at: nat, key: nat)
    requires TrueSuccessors(m, tables) && ExactFingers(m, tables) && at in tables && key < Pow2(m)
    ensures Lookup(m, tables, at, key).hops <= m
  {
    PrevExists(Pow2(m), tables.Keys, key);
    var p :| IsPrev(Pow2(m), tables.Keys, key, p);
    HopsWithin(m, tables, at, key, p, m);
  }
}
