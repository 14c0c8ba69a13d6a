/**
  The two objects an end of a session talks to: the relay socket that keeps the dead drop
  and the receive queue of a node, and the session socket that picks dead drops.
 */
module Relay {
  import opened Ring
  import opened Routing
  import opened Protocol
  import opened DeadDrop
  import opened Generator
  import opened Rendezvous
  import opened NodeObject

  class RelaySocket {
    const node: DAENode
    var drops: map<Slot, Packet>
    var inbox: seq<Packet>

    constructor (n: DAENode)
      ensures node == n && Kept() == Host(map[], [])
    {
      node, drops, inbox := n, map[], [];
    }

    ghost function Kept(): (h: Host)
      reads this
    {
      Host(drops, inbox)
    }

    // A packet has reached its dead drop.
    method Swap(p: Packet) returns (sent: seq<Packet>)
      requires node.Valid() && p.kind == DropMsg && p.isDest
      modifies this`drops
      ensures Result(Kept(), sent) == Process(node.m, node.State().View(), old(Kept()), p)
    {
      sent := [];
      if (p.session, p.index) in drops {
        var first := drops[(p.session, p.index)];
        drops := drops - {(p.session, p.index)};
        var q0 := node.HandleExternalMessaging(
          Outgoing(p.session, p.index, ReplyDrop, p.reply.id, p.key.id, first.payload));
        var q1 := node.HandleExternalMessaging(
          Outgoing(p.session, p.index, ReplyDrop, first.reply.id, p.key.id, p.payload));
        sent := [q0, q1];
      } else {
        drops := drops[(p.session, p.index) := p];
      }
    }

    // Forwarding, storing, swapping and receiving of dead-drop messages.
    method ProcessExternalMessage(p: Packet) returns (sent: seq<Packet>)
      requires node.Valid() && (p.kind == DropMsg || p.kind == ReplyDrop)
      modifies this
      ensures Result(Kept(), sent) == Process(node.m, node.State().View(), old(Kept()), p)
    {
      sent := [];
      if p.kind == DropMsg && p.isDest {
        sent := Swap(p);
      } else if p.isDest {
        inbox := inbox + [p];
      } else {
        var q := node.HandleExternalMessaging(Onward(p));
        sent := [q];
      }
    }
  }

  class DAESocket {
    const node: DAENode
    const random: RandomGenerator
    const session: int
    const key: nat
    const maxId: nat
    var seqNo: int

    ghost predicate Valid()
      reads this, node, node.fingerTable, random
    {
      node.Valid() && random.Valid() && key == node.id && maxId == Pow2(node.m)
    }

    constructor (n: DAENode, sessionId: int, seed: nat)
      requires n.Valid()
      ensures Valid() && node == n && session == sessionId && seqNo == 0 && random.seed == seed
      ensures fresh(random)
    {
      node, session, key, maxId, seqNo := n, sessionId, n.id, Pow2(n.m), 0;
      random := new RandomGenerator(seed);
    }

    // The next payload goes to the dead drop the generator names next, under the next
    // sequence number.
    method Send(payload: Payload) returns (p: Packet)
      requires Valid()
      modifies this`seqNo, random
      ensures Valid() && random.seed == NextSeed(old(random.seed)) && seqNo == old(seqNo) + 1
      ensures p.key.id == DropAt(node.m, random.first, old(random.drawn))
      ensures random.first == old(random.first) && random.drawn == old(random.drawn) + 1
      ensures p == Route(node.m, node.State().View(),
                         Offered(node.m, End(session, true), node.id, Sock(old(random.seed), old(seqNo), []), payload))
    {
      var r := random.Rand();
      var drop := r % maxId;
      p := node.HandleExternalMessaging(Outgoing(session, seqNo, DropMsg, drop, key, payload));
      seqNo := seqNo + 1;
    }
  }
}
