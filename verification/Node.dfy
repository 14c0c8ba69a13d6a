/**
  The node object: its fields, its finger array and its handlers as they update them in
  place, each proved to take the abstract state where the protocol functions take it and
  to send the packets they send.
 */
module NodeObject {
  import opened Ring
  import opened Routing
  import opened Protocol
  import opened DeadDrop

  datatype ChordFinger = ChordFinger(start: nat, to: nat, successor: nat, ip: string, port: int)
  {
    function Target(): (p: Peer) {
      Peer(successor, ip, port)
    }
  }

  // The entry the constructor writes; the source's remainder is the finger's start.
  function NewFinger(m: nat, self: Peer, i: nat): (f: ChordFinger)
    requires self.id < Pow2(m) && i < m
    ensures f.start == Start(m, self.id, i) && f.Target() == self
  {
    StartIsModulo(m, self.id, i);
    ChordFinger((self.id + Pow2(i)) % Pow2(m), (self.id + Pow2(i + 1)) % Pow2(m), self.id, self.ip, self.port)
  }

  lemma Regroup<T>(a: seq<T>, b: seq<T>, c: seq<T>)
    ensures a + (b + c) == (a + b) + c
  {
  }

  class DAENode {
    const m: nat
    const id: nat
    const ip: string
    const port: int
    const fingerTable: array<ChordFinger>

    var predecessor: nat
    var predecessorIp: string
    var predecessorPort: int
    var predecessorOfSuccessor: nat
    var predecessorOfSuccessorIp: string
    var predecessorOfSuccessorPort: int
    var successorList: seq<Peer>
    var successorStatus: bool
    var successorOnChecking: bool
    var predecessorStatus: bool
    var predecessorOnChecking: bool

    ghost predicate Valid()
      reads this, fingerTable
    {
      && m > 0 && fingerTable.Length == m && id < Pow2(m)
      && forall i :: 0 <= i < m ==> fingerTable[i].start == Start(m, id, i)
    }

    function Self(): (p: Peer) {
      Peer(id, ip, port)
    }

    ghost function Fingers(): (fs: seq<Peer>)
      reads this, fingerTable
      ensures |fs| == fingerTable.Length
    {
      seq(fingerTable.Length, i requires 0 <= i < fingerTable.Length reads this, fingerTable => fingerTable[i].Target())
    }

    // The abstract state of the node.
    ghost function State(): (n: Node)
      reads this, fingerTable
    {
      Node(Self(), Fingers(),
           Peer(predecessor, predecessorIp, predecessorPort),
           Peer(predecessorOfSuccessor, predecessorOfSuccessorIp, predecessorOfSuccessorPort),
           successorList, successorStatus, successorOnChecking, predecessorStatus, predecessorOnChecking)
    }

    constructor (bits: nat, self: Peer)
      requires bits > 0 && self.id < Pow2(bits)
      ensures Valid() && State() == Created(bits, self) && m == bits
      ensures fresh(fingerTable)
    {
      m, id, ip, port := bits, self.id, self.ip, self.port;
      predecessor, predecessorIp, predecessorPort := SENTINEL, self.ip, self.port;
      // The source leaves these two uninitialised; they are read only once a reply has set them.
      predecessorOfSuccessor, predecessorOfSuccessorIp, predecessorOfSuccessorPort := SENTINEL, self.ip, self.port;
      successorList := [];
      predecessorStatus, successorStatus := false, false;
      predecessorOnChecking, successorOnChecking := false, false;
      var blank := ChordFinger(0, 0, 0, "", 0);
      fingerTable := new ChordFinger[bits](_ => blank);
      new;
      var i := 0;
      while i < m
        modifies fingerTable
        invariant 0 <= i <= m
        invariant forall j :: 0 <= j < i ==>
                    fingerTable[j].start == Start(m, id, j) && fingerTable[j].Target() == self
      {
        fingerTable[i] := NewFinger(m, self, i);
        i := i + 1;
      }
      assert Fingers() == seq(m, j => self);
    }

    method UpdateSuccessor(k: nat, p: Peer)
      requires Valid() && k < m
      modifies fingerTable
      ensures Valid() && State() == old(State()).(fingers := old(State()).fingers[k := p])
    {
      fingerTable[k] := fingerTable[k].(successor := p.id);
      fingerTable[k] := fingerTable[k].(ip := p.ip);
      fingerTable[k] := fingerTable[k].(port := p.port);
      assert Fingers() == old(Fingers())[k := p];
    }

    method FindClosestPrecedingNode(destId: nat) returns (r: nat)
      requires Valid()
      ensures r == ClosestPreceding(Pow2(m), State().View(), destId).id
    {
      var i := m;
      while i > 0
        invariant 0 <= i <= m
        invariant ClosestIndex(Pow2(m), id, Fingers(), destId, m) == ClosestIndex(Pow2(m), id, Fingers(), destId, i)
      {
        i := i - 1;
        if InRange(Pow2(m), id, destId, fingerTable[i].successor) {
          return fingerTable[i].successor;
        }
      }
      return id;
    }

    method FindClosestPrecedingNodeIp(destId: nat) returns (r: string)
      requires Valid()
      ensures r == ClosestPreceding(Pow2(m), State().View(), destId).ip
    {
      var i := m;
      while i > 0
        invariant 0 <= i <= m
        invariant ClosestIndex(Pow2(m), id, Fingers(), destId, m) == ClosestIndex(Pow2(m), id, Fingers(), destId, i)
      {
        i := i - 1;
        if InRange(Pow2(m), id, destId, fingerTable[i].successor) {
          return fingerTable[i].ip;
        }
      }
      return ip;
    }

    method FindClosestPrecedingNodePort(destId: nat) returns (r: int)
      requires Valid()
      ensures r == ClosestPreceding(Pow2(m), State().View(), destId).port
    {
      var i := m;
      while i > 0
        invariant 0 <= i <= m
        invariant ClosestIndex(Pow2(m), id, Fingers(), destId, m) == ClosestIndex(Pow2(m), id, Fingers(), destId, i)
      {
        i := i - 1;
        if InRange(Pow2(m), id, destId, fingerTable[i].successor) {
          return fingerTable[i].port;
        }
      }
      return port;
    }

    // The three scans agree on one finger, so identifier, address and port that are put
    // together from them belong together.
    method HandleFindSuccessor(srcIp: string, srcPort: int, index: int, destId: nat) returns (sent: Packet)
      requires Valid()
      ensures sent == FindAnswer(m, State(), srcIp, srcPort, index, destId)
    {
      var first := fingerTable[0].Target();
      assert first == State().fingers[0];
      if id == destId {
        sent := ReplyFindPacket(Self(), srcIp, srcPort, destId, index, Self());
      } else if RightTightInRange(Pow2(m), id, destId, first.id) {
        sent := ReplyFindPacket(Self(), srcIp, srcPort, destId, index, first);
      } else {
        var node := FindClosestPrecedingNode(destId);
        var addr := FindClosestPrecedingNodeIp(destId);
        var p := FindClosestPrecedingNodePort(destId);
        if node == id {
          sent := ReplyFindPacket(Self(), srcIp, srcPort, destId, index, first);
        } else {
          sent := JoinFindPacket(Peer(node, addr, p), Peer(SENTINEL, srcIp, srcPort), index, destId);
        }
      }
    }

    method HandleExternalMessaging(o: Outgoing) returns (sent: Packet)
      requires Valid()
      ensures sent == Route(m, State().View(), o)
    {
      var first := fingerTable[0].Target();
      assert first == State().fingers[0];
      if id == o.destId {
        sent := ExternalPacket(Self(), true, o.session, o.seqNo, Self(), o.kind, o.destId, o.clientKey, o.payload);
      } else if RightTightInRange(Pow2(m), id, o.destId, first.id) {
        sent := ExternalPacket(Self(), true, o.session, o.seqNo, first, o.kind, o.destId, o.clientKey, o.payload);
      } else {
        var node := FindClosestPrecedingNode(o.destId);
        var addr := FindClosestPrecedingNodeIp(o.destId);
        var p := FindClosestPrecedingNodePort(o.destId);
        if node == id {
          sent := ExternalPacket(Self(), true, o.session, o.seqNo, first, o.kind, o.destId, o.clientKey, o.payload);
        } else {
          sent := ExternalPacket(Self(), false, o.session, o.seqNo, Peer(node, addr, p), o.kind,
                                 o.destId, o.clientKey, o.payload);
        }
      }
    }

    method Stabilize() returns (sent: seq<Packet>)
      requires Valid()
      modifies fingerTable
      ensures Valid() && Effect(State(), sent) == Protocol.Stabilize(m, old(State()))
    {
      assert State().fingers[0] == fingerTable[0].Target();
      sent := [FindPredPacket(fingerTable[0].Target(), Self())];
      if InRange(Pow2(m), id, fingerTable[0].successor, predecessorOfSuccessor) {
        UpdateSuccessor(0, Peer(predecessorOfSuccessor, predecessorOfSuccessorIp, predecessorOfSuccessorPort));
        assert State().fingers[0] == fingerTable[0].Target();
      }
      if fingerTable[0].successor != id {
        sent := sent + [NotifyPacket(Self(), fingerTable[0].Target(), id)];
      }
    }

    method Notify(candidate: Peer)
      requires Valid()
      modifies this`predecessor, this`predecessorIp, this`predecessorPort
      ensures Valid() && State() == Notified(m, old(State()), candidate)
    {
      if predecessor == SENTINEL || InRange(Pow2(m), predecessor, id, candidate.id) {
        predecessor := candidate.id;
        predecessorIp := candidate.ip;
        predecessorPort := candidate.port;
      }
      assert Fingers() == old(Fingers());
    }

    // One turn of the repair loop.
    method FixEntry(i: nat) returns (sent: seq<Packet>)
      requires Valid() && i + 1 < m
      modifies fingerTable
      ensures Valid()
      ensures var rest := FixFrom(m, State(), i + 1);
              FixFrom(m, old(State()), i) == Effect(rest.node, sent + rest.sent)
    {
      ghost var before := State();
      assert before.fingers[i] == fingerTable[i].Target();
      if InRange(Pow2(m), id, fingerTable[i].successor, fingerTable[i + 1].start) {
        UpdateSuccessor(i + 1, fingerTable[i].Target());
        sent := [];
        assert FixFrom(m, before, i) == FixFrom(m, State(), i + 1);
      } else {
        var q := HandleFindSuccessor(ip, port, i + 1, fingerTable[i + 1].start);
        sent := [q];
        assert State() == before;
      }
    }

    method FixFingers() returns (sent: seq<Packet>)
      requires Valid()
      modifies fingerTable
      ensures Valid() && Effect(State(), sent) == Protocol.FixFingers(m, old(State()))
    {
      var p := HandleFindSuccessor(ip, port, 0, fingerTable[0].start);
      sent := [p];
      ghost var goal := Protocol.FixFingers(m, State());
      var i := 0;
      while i < m - 1
        invariant 0 <= i <= m - 1 && Valid()
        invariant goal.node == FixFrom(m, State(), i).node
        invariant goal.sent == sent + FixFrom(m, State(), i).sent
      {
        ghost var done := sent;
        var more := FixEntry(i);
        sent := sent + more;
        i := i + 1;
        Regroup(done, more, FixFrom(m, State(), i).sent);
      }
    }

    method FetchSuccessorList() returns (sent: Packet)
      requires Valid()
      ensures sent == FetchList(State())
    {
      assert State().fingers[0] == fingerTable[0].Target();
      sent := FetchPacket(Self(), 6 - 1, fingerTable[0].Target(), Self());
    }

    method HandleFetchSuccessorList(counter: int, srcIp: string, srcPort: int) returns (sent: seq<Packet>)
      requires Valid()
      ensures sent == HandleFetch(State(), counter, srcIp, srcPort)
    {
      assert State().fingers[0] == fingerTable[0].Target();
      sent := [ReplyFetchPacket(Self(), counter, srcIp, srcPort, fingerTable[0].Target())];
      if counter > 0 {
        sent := sent + [FetchPacket(Self(), counter - 1, fingerTable[0].Target(), Peer(SENTINEL, srcIp, srcPort))];
      }
    }

    // Drops entries from the front, one at a time, while there are more than the bound.
    method TrimList(bound: nat)
      modifies this`successorList
      ensures successorList == LastOf(old(successorList), bound)
    {
      ghost var all, gone := successorList, 0;
      while |successorList| > bound
        invariant gone <= |all| && successorList == all[gone..]
        invariant gone == 0 || |all| - gone >= bound
        decreases |successorList|
      {
        assert all[gone..][1..] == all[gone + 1..];
        successorList := successorList[1..];
        gone := gone + 1;
      }
    }

    method AddBackup(su: Peer, counter: int)
      requires Valid()
      modifies this`successorList
      ensures Valid() && State() == ListReplied(old(State()), su, counter)
    {
      if su.id != id {
        successorList := successorList + [su];
        if counter <= 6 {
          TrimList(6 - counter);
        }
      }
      assert Fingers() == old(Fingers());
    }

    method StartCheckSuccessor()
      requires Valid()
      modifies this`successorOnChecking, this`successorStatus
      ensures Valid() && State() == CheckSuccessor(old(State()))
    {
      assert State().fingers[0] == fingerTable[0].Target();
      if !successorOnChecking && fingerTable[0].successor != id {
        successorOnChecking := true;
        successorStatus := false;
      }
      assert Fingers() == old(Fingers());
    }

    method EndCheckSuccessor()
      requires Valid()
      modifies this`successorOnChecking, this`successorList, fingerTable
      ensures Valid() && State() == SuccTimeout(old(State()))
    {
      assert State().fingers[0] == fingerTable[0].Target();
      if !successorStatus {
        if |successorList| == 0 {
          successorOnChecking := false;
          assert Fingers() == old(Fingers());
          return;
        }
        if successorList[0].id == fingerTable[0].successor {
          successorList := successorList[1..];
        }
        if |successorList| == 0 {
          successorOnChecking := false;
          assert Fingers() == old(Fingers());
          return;
        }
        assert Fingers() == old(Fingers());
        UpdateSuccessor(0, successorList[0]);
      }
      successorOnChecking := false;
      assert successorStatus ==> Fingers() == old(Fingers());
    }

    method StartCheckPredecessor()
      requires Valid()
      modifies this`predecessorOnChecking, this`predecessorStatus
      ensures Valid() && State() == CheckPredecessor(old(State()))
    {
      if !predecessorOnChecking && predecessor != SENTINEL {
        predecessorOnChecking := true;
        predecessorStatus := false;
      }
      assert Fingers() == old(Fingers());
    }

    method EndCheckPredecessor()
      requires Valid()
      modifies this`predecessorOnChecking, this`predecessor
      ensures Valid() && State() == PredTimeout(old(State()))
    {
      if !predecessorStatus {
        predecessor := SENTINEL;
      }
      predecessorOnChecking := false;
      assert Fingers() == old(Fingers());
    }

    // The dispatch of every internal message. The one demand of the source is that an answered
    // lookup names an entry of the table; every packet of every run meets it.
    method ProcessInternalMessage(p: Packet) returns (sent: seq<Packet>)
      requires Valid() && (p.kind == ReplyFind ==> 0 <= p.index < m)
      modifies this, fingerTable
      ensures Valid() && Effect(State(), sent) == Receive(m, old(State()), p)
    {
      sent := [];
      ghost var was := State();
      match p.kind {
        case JoinFind =>
          var q := HandleFindSuccessor(p.reply.ip, p.reply.port, p.index, p.key.id);
          sent := [q];
        case ReplyFind => UpdateSuccessor(p.index, p.key);
        case FindPred =>
          var pred := Peer(predecessor, predecessorIp, predecessorPort);
          sent := [ReplyPredPacket(Self(), p.reply.ip, p.reply.port, pred)];
        case ReplyPred =>
          predecessorOfSuccessor := p.key.id;
          predecessorOfSuccessorIp := p.key.ip;
          predecessorOfSuccessorPort := p.key.port;
          assert Fingers() == was.fingers;
        case Notify => Notify(Peer(p.key.id, p.relayIp, p.key.port));
        case Fetch => sent := HandleFetchSuccessorList(p.index, p.reply.ip, p.reply.port);
        case ReplyFetch => AddBackup(p.key, p.index);
        case CheckPred => sent := [ReplyCheckPacket(ReplyCheckPred, Self(), p.reply.ip, p.reply.port)];
        case ReplyCheckPred =>
          if p.key.id == predecessor {
            predecessorStatus := true;
          }
          assert Fingers() == was.fingers;
        case CheckSucc => sent := [ReplyCheckPacket(ReplyCheckSucc, Self(), p.reply.ip, p.reply.port)];
        case ReplyCheckSucc =>
          assert was.fingers[0] == fingerTable[0].Target();
          if p.key.id == fingerTable[0].successor && p.key.id != id {
            successorStatus := true;
          }
          assert Fingers() == was.fingers;
        case Dummy =>
        case DropMsg =>
        case ReplyDrop =>
      }
    }
  }
}
