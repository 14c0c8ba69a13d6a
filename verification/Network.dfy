/**
  The whole overlay as a state machine. A world holds the running nodes, the address under
  which every node that ever ran is known, and every packet ever sent: a packet may be
  delivered never, once or many times, in any order. Each timer callback, each handler call,
  each join and each crash is one atomic step.
 */
module Network {
  import opened Ring
  import opened Routing
  import opened Protocol

  datatype World = World(nodes: map<nat, Node>, registry: map<nat, Peer>, net: set<Packet>)

  datatype Event =
    | Deliver(p: Packet, v: nat)
    | RunStabilize(v: nat)
    | RunFixFingers(v: nat)
    | RunFetchList(v: nat)
    | StartCheckPred(v: nat) | ProbePred(v: nat) | EndCheckPred(v: nat)
    | StartCheckSucc(v: nat) | ProbeSucc(v: nat) | EndCheckSucc(v: nat)
    | Join(self: Peer)
    | AskJoin(v: nat, helper: Peer)
    | Crash(v: nat)

  ghost predicate Enabled(m: nat, w: World, e: Event) {
    match e
    case Join(self) =>
      && self.id < Pow2(m) && self.id !in w.nodes
      && (self.id in w.registry ==> w.registry[self.id] == self)
    case Deliver(p, v) =>
      && v in w.nodes && p in w.net
      && p.dest.ip == w.nodes[v].self.ip && p.dest.port == w.nodes[v].self.port
    case EndCheckPred(v) => v in w.nodes && w.nodes[v].predChecking
    case EndCheckSucc(v) => v in w.nodes && w.nodes[v].succChecking
    case _ => e.v in w.nodes
  }

  // What the step does to the node it happens at.
  function Local(m: nat, n: Node, e: Event): (r: Effect)
    requires |n.fingers| == m && m > 0 && n.self.id < Pow2(m)
  {
    match e
    case Deliver(p, _) => Receive(m, n, p)
    case RunStabilize(_) => Stabilize(m, n)
    case RunFixFingers(_) => FixFingers(m, n)
    case RunFetchList(_) => Effect(n, [FetchList(n)])
    case StartCheckPred(_) => Effect(CheckPredecessor(n), [])
    case ProbePred(_) => Effect(n, [CheckPacket(CheckPred, n.self, n.pred)])
    case EndCheckPred(_) => Effect(PredTimeout(n), [])
    case StartCheckSucc(_) => Effect(CheckSuccessor(n), [])
    case ProbeSucc(_) => Effect(n, [CheckPacket(CheckSucc, n.self, n.fingers[0])])
    case EndCheckSucc(_) => Effect(SuccTimeout(n), [])
    case AskJoin(_, helper) => Effect(n, [JoinFindPacket(helper, n.self, 0, n.self.id)])
    case Join(_) => Effect(n, [])
    case Crash(_) => Effect(n, [])
  }

  ghost predicate Shaped(m: nat, w: World) {
    && m > 0 && 2 * Pow2(m) <= SENTINEL
    && forall v :: v in w.nodes ==>
         w.nodes[v].self.id == v && v < Pow2(m) && |w.nodes[v].fingers| == m
  }

  function Sent(ps: seq<Packet>): (s: set<Packet>) {
    set p | p in ps
  }

  ghost function After(m: nat, w: World, e: Event): (w': World)
    requires Shaped(m, w) && Enabled(m, w, e)
  {
    match e
    case Join(self) =>
      World(w.nodes[self.id := Created(m, self)], w.registry[self.id := self], w.net)
    case Crash(v) => w.(nodes := w.nodes - {v})
    case _ =>
      var r := Local(m, w.nodes[e.v], e);
      World(w.nodes[e.v := r.node], w.registry, w.net + Sent(r.sent))
  }

  // -------- pointer safety --------

  // The peer is a node that really ran, under the address it ran at.
  ghost predicate Real(m: nat, registry: map<nat, Peer>, p: Peer) {
    p.id in registry && registry[p.id] == p && p.id < Pow2(m)
  }

  ghost predicate RealOrSentinel(m: nat, registry: map<nat, Peer>, p: Peer) {
    p.id == SENTINEL || Real(m, registry, p)
  }

  ghost predicate AllReal(m: nat, registry: map<nat, Peer>, ps: seq<Peer>) {
    forall i :: 0 <= i < |ps| ==> Real(m, registry, ps[i])
  }

  ghost predicate NodeSafe(m: nat, registry: map<nat, Peer>, v: nat, n: Node) {
    && n.self.id == v && |n.fingers| == m
    && Real(m, registry, n.self)
    && AllReal(m, registry, n.fingers)
    && RealOrSentinel(m, registry, n.pred)
    && RealOrSentinel(m, registry, n.predOfSucc)
    && AllReal(m, registry, n.succList)
    && (forall i :: 0 <= i < |n.succList| ==> n.succList[i].id != v)
  }

  ghost predicate PacketSafe(m: nat, registry: map<nat, Peer>, p: Packet) {
    match p.kind
    case JoinFind => 0 <= p.index < m && p.key.id < Pow2(m)
    case ReplyFind => 0 <= p.index < m && Real(m, registry, p.key)
    case ReplyPred => RealOrSentinel(m, registry, p.key)
    case Notify => Real(m, registry, Peer(p.key.id, p.relayIp, p.key.port))
    case Fetch => 0 <= p.index < BACKUPS
    case ReplyFetch => 0 <= p.index < BACKUPS && Real(m, registry, p.key)
    case ReplyCheckPred => p.key.id == p.relayId && p.key.id in registry
    case ReplyCheckSucc => p.key.id == p.relayId && p.key.id in registry
    case _ => true
  }

  ghost predicate Safe(m: nat, w: World) {
    && m > 0 && 2 * Pow2(m) <= SENTINEL
    && (forall v :: v in w.nodes ==> NodeSafe(m, w.registry, v, w.nodes[v]))
    && (forall p :: p in w.net ==> PacketSafe(m, w.registry, p))
  }

  lemma FindAnswerSafe(m: nat, reg: map<nat, Peer>, v: nat, n: Node, ip: string, port: int, index: int, key: nat)
    requires m > 0 && NodeSafe(m, reg, v, n) && 0 <= index < m && key < Pow2(m)
    ensures PacketSafe(m, reg, FindAnswer(m, n, ip, port, index, key))
  {
  }

  lemma {:induction false} FixFromSafe(m: nat, reg: map<nat, Peer>, v: nat, n: Node, i: nat)
    requires m > 0 && NodeSafe(m, reg, v, n)
    ensures var e := FixFrom(m, n, i);
            NodeSafe(m, reg, v, e.node) && forall p :: p in e.sent ==> PacketSafe(m, reg, p)
    decreases m - i
  {
    if i + 1 < m {
      if InRange(Pow2(m), n.self.id, n.fingers[i].id, Start(m, n.self.id, i + 1)) {
        FixFromSafe(m, reg, v, n.(fingers := n.fingers[i + 1 := n.fingers[i]]), i + 1);
      } else {
        FixFromSafe(m, reg, v, n, i + 1);
        FindAnswerSafe(m, reg, v, n, n.self.ip, n.self.port, i + 1, Start(m, n.self.id, i + 1));
      }
    }
  }

  lemma StabilizeSafe(m: nat, reg: map<nat, Peer>, v: nat, n: Node)
    requires m > 0 && 2 * Pow2(m) <= SENTINEL && NodeSafe(m, reg, v, n)
    ensures NodeSafe(m, reg, v, Stabilize(m, n).node)
    ensures forall p :: p in Stabilize(m, n).sent ==> PacketSafe(m, reg, p)
  {
  }

  lemma ReceiveSafe(m: nat, reg: map<nat, Peer>, v: nat, n: Node, p: Packet)
    requires m > 0 && NodeSafe(m, reg, v, n) && PacketSafe(m, reg, p)
    ensures NodeSafe(m, reg, v, Receive(m, n, p).node)
    ensures forall q :: q in Receive(m, n, p).sent ==> PacketSafe(m, reg, q)
  {
    if p.kind == JoinFind {
      FindAnswerSafe(m, reg, v, n, p.reply.ip, p.reply.port, p.index, p.key.id);
    } else if p.kind == ReplyFetch {
      ListRepliedSafe(m, reg, v, n, p.key, p.index);
    }
  }

  lemma ListRepliedSafe(m: nat, reg: map<nat, Peer>, v: nat, n: Node, successor: Peer, counter: int)
    requires NodeSafe(m, reg, v, n) && Real(m, reg, successor)
    ensures NodeSafe(m, reg, v, ListReplied(n, successor, counter))
  {
    var l := ListReplied(n, successor, counter).succList;
    forall i | 0 <= i < |l| ensures Real(m, reg, l[i]) && l[i].id != v {
      assert l[i] in n.succList + [successor] || l == n.succList;
    }
  }

  lemma LocalSafe(m: nat, reg: map<nat, Peer>, v: nat, n: Node, e: Event)
    requires m > 0 && 2 * Pow2(m) <= SENTINEL && NodeSafe(m, reg, v, n)
    requires e.Deliver? ==> PacketSafe(m, reg, e.p)
    ensures NodeSafe(m, reg, v, Local(m, n, e).node)
    ensures forall q :: q in Local(m, n, e).sent ==> PacketSafe(m, reg, q)
  {
    match e
    case Deliver(p, _) => ReceiveSafe(m, reg, v, n, p);
    case RunStabilize(_) => StabilizeSafe(m, reg, v, n);
    case RunFixFingers(_) =>
      FixFromSafe(m, reg, v, n, 0);
      FindAnswerSafe(m, reg, v, n, n.self.ip, n.self.port, 0, Start(m, v, 0));
    case _ =>
  }

  // A node that joins leaves every pointer of the others as real as it was.
  lemma RegistryGrows(m: nat, reg: map<nat, Peer>, reg': map<nat, Peer>, v: nat, n: Node, p: Packet)
    requires forall x :: x in reg ==> x in reg' && reg'[x] == reg[x]
    ensures NodeSafe(m, reg, v, n) ==> NodeSafe(m, reg', v, n)
    ensures PacketSafe(m, reg, p) ==> PacketSafe(m, reg', p)
  {
  }

  lemma JoinSafe(m: nat, w: World, self: Peer)
    requires Safe(m, w) && Enabled(m, w, Join(self))
    ensures Safe(m, After(m, w, Join(self)))
  {
    var w' := After(m, w, Join(self));
    forall v | v in w'.nodes ensures NodeSafe(m, w'.registry, v, w'.nodes[v]) {
      if v != self.id {
        RegistryGrows(m, w.registry, w'.registry, v, w.nodes[v], JoinFindPacket(self, self, 0, 0));
      }
    }
    forall p | p in w'.net ensures PacketSafe(m, w'.registry, p) {
      RegistryGrows(m, w.registry, w'.registry, 0, Created(m, self), p);
    }
  }

  lemma MergeSafe(m: nat, w: World, v: nat, r: Effect)
    requires Safe(m, w) && NodeSafe(m, w.registry, v, r.node)
    requires forall p :: p in r.sent ==> PacketSafe(m, w.registry, p)
    ensures Safe(m, World(w.nodes[v := r.node], w.registry, w.net + Sent(r.sent)))
  {
  }

  lemma StepSafe(m: nat, w: World, e: Event)
    requires Safe(m, w) && Enabled(m, w, e)
    ensures Safe(m, After(m, w, e))
  {
    match e {
      case Join(self) => JoinSafe(m, w, self);
      case Crash(_) =>
      case _ =>
        assert NodeSafe(m, w.registry, e.v, w.nodes[e.v]);
        LocalSafe(m, w.registry, e.v, w.nodes[e.v], e);
        MergeSafe(m, w, e.v, Local(m, w.nodes[e.v], e));
    }
  }

  ghost predicate AnyStep(m: nat, w: World, e: Event, w': World) {
    Shaped(m, w) && Enabled(m, w, e) && w' == After(m, w, e)
  }

  ghost function Anyhow(m: nat): (moves: (World, Event, World) -> bool) {
    (w, e, w') => AnyStep(m, w, e, w')
  }

  // A run: each world follows from the one before it by an enabled step.
  ghost predicate IsRun(m: nat, ws: seq<World>, es: seq<Event>) {
    && |ws| == |es| + 1
    && forall i {:trigger AnyStep(m, ws[i], es[i], ws[i + 1])} :: 0 <= i < |es| ==> AnyStep(m, ws[i], es[i], ws[i + 1])
  }

  lemma RunStep(m: nat, ws: seq<World>, es: seq<Event>, i: nat)
    requires IsRun(m, ws, es) && i < |es|
    ensures Shaped(m, ws[i]) && Enabled(m, ws[i], es[i]) && ws[i + 1] == After(m, ws[i], es[i])
  {
    assert AnyStep(m, ws[i], es[i], ws[i + 1]);
  }

  // In every world of every run that starts from an empty network, every finger, every
  // successor-list entry, every predecessor that is not the sentinel and every reply in
  // flight pairs the identifier of a node with that node's own address; indices stay inside
  // the finger table and the sentinel enters none, no successor list names its own node, and
  // the answer to a check names the node that sent it.
  lemma {:induction false} RunSafe(m: nat, ws: seq<World>, es: seq<Event>, i: nat)
    requires m > 0 && 2 * Pow2(m) <= SENTINEL
    requires IsRun(m, ws, es) && ws[0] == World(map[], map[], {}) && i < |ws|
    ensures Safe(m, ws[i])
  {
    if i > 0 {
      RunSafe(m, ws, es, i - 1);
      RunStep(m, ws, es, i - 1);
      StepSafe(m, ws[i - 1], es[i - 1]);
    }
  }
}
