/**
  The dead drop kept by a node: packets of one (session, sequence number) are swapped in
  pairs. Over any interleaving of slots, each slot's history alone decides what the slot
  holds and what replies it has produced.
 */
module DeadDrop {
  import opened Ring
  import opened Routing
  import opened Protocol

  type Slot = (int, int)
  type Payload = seq<bv8>

  function SlotOf(p: Packet): (s: Slot) {
    (p.session, p.index)
  }

  // A message handed to the overlay for routing.
  datatype Outgoing = Outgoing(session: int, seqNo: int, kind: Kind, destId: nat, clientKey: nat, payload: Payload)

  // How a node passes an outgoing message on: to the node that is to keep it, marked as
  // such, or one hop closer.
  function Route(m: nat, t: Table, o: Outgoing): (p: Packet)
    requires |t.fingers| > 0
    ensures p.kind == o.kind && p.session == o.session && p.index == o.seqNo && p.payload == o.payload
    ensures p.key.id == o.destId && p.reply.id == o.clientKey
  {
    var d := Decide(Pow2(m), t, o.destId);
    ExternalPacket(t.self, !d.Forward?, o.session, o.seqNo, d.peer, o.kind, o.destId, o.clientKey, o.payload)
  }

  // What a node that is not the destination hands on.
  function Onward(p: Packet): (o: Outgoing) {
    Outgoing(p.session, p.index, p.kind, p.key.id, p.reply.id, p.payload)
  }

  // The packets a message causes, node by node, up to the one marked for its destination.
  ghost function Trip(m: nat, tables: map<nat, Table>, at: nat, o: Outgoing): (ps: seq<Packet>)
    requires TrueSuccessors(m, tables) && at in tables && o.destId < Pow2(m)
    ensures |ps| > 0
    decreases Dist(Pow2(m), at, o.destId)
  {
    DecisionSound(m, tables, at, o.destId);
    assert TruthfulTable(m, tables, at);
    var p := Route(m, tables[at], o);
    if p.isDest then [p] else [p] + Trip(m, tables, p.dest.id, Onward(p))
  }

  // The message travels as a lookup does: it is forwarded as often, and ends, unchanged, at the
  // first node at or after its key.
  lemma {:induction false} TripIsLookup(m: nat, tables: map<nat, Table>, at: nat, o: Outgoing)
    requires TrueSuccessors(m, tables) && at in tables && o.destId < Pow2(m)
    ensures var ps, r := Trip(m, tables, at, o), Lookup(m, tables, at, o.destId);
            && |ps| == r.hops + 1 && ps[r.hops].isDest && ps[r.hops].dest == r.answer
            && (forall i :: 0 <= i < r.hops ==> !ps[i].isDest)
            && (forall i :: 0 <= i < |ps| ==> Onward(ps[i]) == o)
    decreases Dist(Pow2(m), at, o.destId)
  {
    DecisionSound(m, tables, at, o.destId);
    assert TruthfulTable(m, tables, at);
    var p := Route(m, tables[at], o);
    if !p.isDest {
      assert Onward(p) == o;
      TripIsLookup(m, tables, p.dest.id, o);
    }
  }

  // With exact fingers every external message is forwarded at most m times.
  lemma TripBound(m: nat, tables: map<nat, Table>, at: nat, o: Outgoing)
    requires TrueSuccessors(m, tables) && ExactFingers(m, tables) && at in tables && o.destId < Pow2(m)
    ensures var ps := Trip(m, tables, at, o);
            && |ps| <= m + 1 && ps[|ps| - 1].isDest
            && IsFirst(Pow2(m), tables.Keys, o.destId, ps[|ps| - 1].dest.id)
  {
    TripIsLookup(m, tables, at, o);
    HopBound(m, tables, at, o.destId);
    LookupCorrect(m, tables, at, o.destId);
  }

  datatype Swapped = Swapped(drops: map<Slot, Packet>, out: seq<Outgoing>)

  function ReplyTo(p: Packet, client: nat, payload: Payload): (o: Outgoing) {
    Outgoing(p.session, p.index, ReplyDrop, client, p.key.id, payload)
  }

  // The two replies when `y` finds `x` waiting: each client gets the other's payload.
  function PairFor(x: Packet, y: Packet): (r: seq<Outgoing>) {
    [ReplyTo(y, y.reply.id, x.payload), ReplyTo(y, x.reply.id, y.payload)]
  }

  // Arrival of a packet at its dead drop.
  function Arrive(drops: map<Slot, Packet>, p: Packet): (r: Swapped) {
    var s := SlotOf(p);
    if s in drops then
      Swapped(drops - {s}, PairFor(drops[s], p))
    else
      Swapped(drops[s := p], [])
  }

  function ArriveAll(ps: seq<Packet>): (r: Swapped) {
    if ps == [] then Swapped(map[], [])
    else
      var r := ArriveAll(ps[..|ps| - 1]);
      var r' := Arrive(r.drops, ps[|ps| - 1]);
      Swapped(r'.drops, r.out + r'.out)
  }

  // -------- one slot on its own --------

  function ArrivalsAt(ps: seq<Packet>, s: Slot): (r: seq<Packet>)
    ensures |r| <= |ps|
  {
    if ps == [] then []
    else ArrivalsAt(ps[..|ps| - 1], s) + (if SlotOf(ps[|ps| - 1]) == s then [ps[|ps| - 1]] else [])
  }

  function RepliesAt(os: seq<Outgoing>, s: Slot): (r: seq<Outgoing>) {
    if os == [] then []
    else RepliesAt(os[..|os| - 1], s) +
         (if (os[|os| - 1].session, os[|os| - 1].seqNo) == s then [os[|os| - 1]] else [])
  }

  // The replies a single slot owes for its arrivals: pair after pair, each crossed.
  function Crossed(a: seq<Packet>): (r: seq<Outgoing>)
    ensures |r| == |a| - |a| % 2
  {
    if a == [] then []
    else Crossed(a[..|a| - 1]) + if |a| % 2 == 0 then PairFor(a[|a| - 2], a[|a| - 1]) else []
  }

  // One more arrival completes a pair exactly when the slot was occupied.
  lemma CrossedStep(a: seq<Packet>, p: Packet)
    ensures Crossed(a + [p]) == Crossed(a) + if |a| % 2 == 1 then PairFor(a[|a| - 1], p) else []
  {
  }

  lemma {:induction false} RepliesAtConcat(a: seq<Outgoing>, b: seq<Outgoing>, s: Slot)
    ensures RepliesAt(a + b, s) == RepliesAt(a, s) + RepliesAt(b, s)
  {
    if b == [] {
      assert a + b == a;
    } else {
      assert (a + b)[..|a + b| - 1] == a + b[..|b| - 1];
      RepliesAtConcat(a, b[..|b| - 1], s);
    }
  }

  lemma RepliesOfPair(o1: Outgoing, o2: Outgoing, s: Slot)
    requires (o1.session, o1.seqNo) == (o2.session, o2.seqNo)
    ensures RepliesAt([o1, o2], s) == if (o1.session, o1.seqNo) == s then [o1, o2] else []
  {
    assert [o1, o2][..1] == [o1] && [o1][..0] == [];
    assert RepliesAt([o1], s) == if (o1.session, o1.seqNo) == s then [o1] else [];
  }

  // Whatever else arrives in between, a slot is occupied exactly when an odd number of its
  // packets have arrived, it then holds the last of them, and its replies are exactly its
  // arrivals paired off and crossed.
  lemma {:induction false} SlotAlone(ps: seq<Packet>, s: Slot)
    ensures var r, a := ArriveAll(ps), ArrivalsAt(ps, s);
            && (s in r.drops <==> |a| % 2 == 1)
            && (s in r.drops ==> r.drops[s] == a[|a| - 1])
            && RepliesAt(r.out, s) == Crossed(a)
  {
    if ps != [] {
      var q, p := ps[..|ps| - 1], ps[|ps| - 1];
      SlotAlone(q, s);
      var r, a := ArriveAll(q), ArrivalsAt(q, s);
      var out := Arrive(r.drops, p).out;
      RepliesAtConcat(r.out, out, s);
      if SlotOf(p) in r.drops {
        RepliesOfPair(out[0], out[1], s);
      }
      if SlotOf(p) == s {
        CrossedStep(a, p);
      } else {
        assert ArrivalsAt(ps, s) == a;
      }
    }
  }

  function Payloads(a: seq<Packet>): (r: multiset<Payload>) {
    if a == [] then multiset{} else Payloads(a[..|a| - 1]) + multiset{a[|a| - 1].payload}
  }

  function Replied(os: seq<Outgoing>): (r: multiset<Payload>) {
    if os == [] then multiset{} else Replied(os[..|os| - 1]) + multiset{os[|os| - 1].payload}
  }

  // What an occupied slot still holds.
  function Waiting(a: seq<Packet>): (r: multiset<Payload>) {
    if |a| % 2 == 1 then multiset{a[|a| - 1].payload} else multiset{}
  }

  // No payload is lost or made up: what has arrived at a slot is what was replied, plus what
  // an occupied slot still holds.
  lemma {:induction false} PayloadsKept(a: seq<Packet>)
    ensures Payloads(a) == Replied(Crossed(a)) + Waiting(a)
  {
    if a != [] {
      var b, p := a[..|a| - 1], a[|a| - 1];
      PayloadsKept(b);
      assert a == b + [p];
      RepliedStep(b, p);
    }
  }

  lemma RepliedStep(b: seq<Packet>, p: Packet)
    ensures Replied(Crossed(b + [p])) + Waiting(b + [p]) == Replied(Crossed(b)) + Waiting(b) + multiset{p.payload}
  {
    CrossedStep(b, p);
    if |b| % 2 == 1 {
      RepliedPair(Crossed(b), b[|b| - 1], p);
    } else {
      assert Crossed(b) + [] == Crossed(b);
    }
  }

  lemma RepliedPair(c: seq<Outgoing>, x: Packet, y: Packet)
    ensures Replied(c + PairFor(x, y)) == Replied(c) + multiset{x.payload, y.payload}
  {
    var o := PairFor(x, y);
    assert (c + o)[..|c| + 1] == c + [o[0]] && (c + [o[0]])[..|c|] == c;
    assert Replied(c + [o[0]]) == Replied(c) + multiset{x.payload};
  }
}
