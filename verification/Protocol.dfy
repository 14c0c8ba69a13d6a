/**
  The overlay protocol of one node, as functions from a node state to its next state and
  the packets it sends: the packet builders of the service, the timer callbacks of the
  node and the handler of every internal message.
 */
module Protocol {
  import opened Ring
  import opened Routing

  datatype Kind =
    | JoinFind | ReplyFind | FindPred | ReplyPred | Notify | Fetch | ReplyFetch
    | CheckPred | ReplyCheckPred | CheckSucc | ReplyCheckSucc
    | Dummy | DropMsg | ReplyDrop

  /** The packet header, field by field, with the payload. The sender's port is not carried. */
  datatype Packet = Packet(
    kind: Kind, relayId: nat, relayIp: string,
    dest: Peer, reply: Peer, key: Peer,
    index: int, isDest: bool, session: int, payload: seq<bv8>)

  // -------- packet builders; `self` is the sending service --------

  function Internal(kind: Kind, relay: Peer, dest: Peer, reply: Peer, key: Peer, index: int): (p: Packet) {
    Packet(kind, relay.id, relay.ip, dest, reply, key, index, false, 0, [])
  }

  function JoinFindPacket(finder: Peer, src: Peer, index: int, destId: nat): (p: Packet) {
    Internal(JoinFind, src, finder, src, Peer(destId, src.ip, src.port), index)
  }

  function ReplyFindPacket(self: Peer, ip: string, port: int, destId: nat, index: int, successor: Peer): (p: Packet) {
    Internal(ReplyFind, self, Peer(destId, ip, port), Peer(SENTINEL, ip, successor.port), successor, index)
  }

  function FindPredPacket(successor: Peer, src: Peer): (p: Packet) {
    Internal(FindPred, src, successor, src, Peer(SENTINEL, successor.ip, src.port), -1)
  }

  function ReplyPredPacket(self: Peer, ip: string, port: int, pred: Peer): (p: Packet) {
    Internal(ReplyPred, self, Peer(SENTINEL, ip, port), Peer(SENTINEL, ip, port), pred, -1)
  }

  function NotifyPacket(self: Peer, successor: Peer, id: nat): (p: Packet) {
    Internal(Notify, self, successor, Peer(SENTINEL, successor.ip, successor.port),
             Peer(id, successor.ip, self.port), -1)
  }

  function FetchPacket(self: Peer, total: int, successor: Peer, src: Peer): (p: Packet) {
    Internal(Fetch, self, successor.(id := SENTINEL), src, src, total)
  }

  function ReplyFetchPacket(self: Peer, counter: int, ip: string, port: int, successor: Peer): (p: Packet) {
    Internal(ReplyFetch, self, Peer(SENTINEL, ip, port), Peer(SENTINEL, ip, port), successor, counter)
  }

  function CheckPacket(kind: Kind, self: Peer, target: Peer): (p: Packet) {
    Internal(kind, self, target.(id := SENTINEL), self.(id := SENTINEL), self.(id := SENTINEL), -1)
  }

  function ReplyCheckPacket(kind: Kind, self: Peer, ip: string, port: int): (p: Packet) {
    Internal(kind, self, Peer(SENTINEL, ip, port), Peer(SENTINEL, ip, port), Peer(self.id, ip, port), -1)
  }

  function ExternalPacket(self: Peer, isDest: bool, session: int, seqNo: int, next: Peer, kind: Kind,
                          destId: nat, clientKey: nat, payload: seq<bv8>): (p: Packet) {
    Packet(kind, self.id, self.ip, next, next.(id := clientKey), next.(id := destId), seqNo, isDest, session, payload)
  }

  // -------- node state --------

  datatype Node = Node(
    self: Peer, fingers: seq<Peer>, pred: Peer, predOfSucc: Peer, succList: seq<Peer>,
    succStatus: bool, succChecking: bool, predStatus: bool, predChecking: bool)
  {
    function View(): (t: Table) {
      Table(self, fingers)
    }
  }

  datatype Effect = Effect(node: Node, sent: seq<Packet>)

  // The state built by the node constructor.
  function Created(m: nat, self: Peer): (n: Node)
    ensures |n.fingers| == m
  {
    Node(self, seq(m, i => self), self.(id := SENTINEL), self.(id := SENTINEL), [], false, false, false, false)
  }

  // The single packet sent in answer to a find-successor request.
  function FindAnswer(m: nat, n: Node, ip: string, port: int, index: int, key: nat): (p: Packet)
    requires |n.fingers| > 0
    ensures p.kind == ReplyFind || p.kind == JoinFind
    ensures p.index == index
  {
    var d := Decide(Pow2(m), n.View(), key);
    if d.Forward? then JoinFindPacket(d.peer, Peer(SENTINEL, ip, port), index, key)
    else ReplyFindPacket(n.self, ip, port, key, index, d.peer)
  }

  function Stabilize(m: nat, n: Node): (e: Effect)
    requires |n.fingers| > 0
  {
    var ask := FindPredPacket(n.fingers[0], n.self);
    var n' :=
      if InRange(Pow2(m), n.self.id, n.fingers[0].id, n.predOfSucc.id)
      then n.(fingers := n.fingers[0 := n.predOfSucc]) else n;
    Effect(n', if n'.fingers[0].id != n.self.id then [ask, NotifyPacket(n.self, n'.fingers[0], n.self.id)] else [ask])
  }

  function Notified(m: nat, n: Node, candidate: Peer): (n': Node) {
    if n.pred.id == SENTINEL || InRange(Pow2(m), n.pred.id, n.self.id, candidate.id)
    then n.(pred := candidate) else n
  }

  // Entries `i + 1` onwards of one finger-repair pass.
  function FixFrom(m: nat, n: Node, i: nat): (e: Effect)
    requires |n.fingers| == m && m > 0 && n.self.id < Pow2(m)
    ensures |e.node.fingers| == m && e.node == n.(fingers := e.node.fingers)
    decreases m - i
  {
    if i + 1 >= m then Effect(n, [])
    else if InRange(Pow2(m), n.self.id, n.fingers[i].id, Start(m, n.self.id, i + 1)) then
      FixFrom(m, n.(fingers := n.fingers[i + 1 := n.fingers[i]]), i + 1)
    else
      var rest := FixFrom(m, n, i + 1);
      Effect(rest.node, [FindAnswer(m, n, n.self.ip, n.self.port, i + 1, Start(m, n.self.id, i + 1))] + rest.sent)
  }

  function FixFingers(m: nat, n: Node): (e: Effect)
    requires |n.fingers| == m && m > 0 && n.self.id < Pow2(m)
    ensures |e.node.fingers| == m
  {
    var rest := FixFrom(m, n, 0);
    Effect(rest.node, [FindAnswer(m, n, n.self.ip, n.self.port, 0, Start(m, n.self.id, 0))] + rest.sent)
  }

  const BACKUPS: int := 6

  function FetchList(n: Node): (p: Packet)
    requires |n.fingers| > 0
  {
    FetchPacket(n.self, BACKUPS - 1, n.fingers[0], n.self)
  }

  function HandleFetch(n: Node, counter: int, ip: string, port: int): (ps: seq<Packet>)
    requires |n.fingers| > 0
  {
    [ReplyFetchPacket(n.self, counter, ip, port, n.fingers[0])] +
    if counter > 0 then [FetchPacket(n.self, counter - 1, n.fingers[0], Peer(SENTINEL, ip, port))] else []
  }

  // The last `k` elements, or all of them when there are fewer.
  function LastOf<T>(s: seq<T>, k: nat): (r: seq<T>)
    ensures |r| <= k
  {
    if |s| > k then s[|s| - k..] else s
  }

  // `6 - counter` is compared with an unsigned size: a negative bound is a huge one.
  function ListReplied(n: Node, successor: Peer, counter: int): (n': Node) {
    if successor.id == n.self.id then n
    else if counter > BACKUPS then n.(succList := n.succList + [successor])
    else n.(succList := LastOf(n.succList + [successor], BACKUPS - counter))
  }

  function CheckSuccessor(n: Node): (n': Node)
    requires |n.fingers| > 0
  {
    if !n.succChecking && n.fingers[0].id != n.self.id
    then n.(succChecking := true, succStatus := false) else n
  }

  function CheckPredecessor(n: Node): (n': Node) {
    if !n.predChecking && n.pred.id != SENTINEL
    then n.(predChecking := true, predStatus := false) else n
  }

  function PredTimeout(n: Node): (n': Node) {
    n.(pred := if n.predStatus then n.pred else n.pred.(id := SENTINEL), predChecking := false)
  }

  function SuccTimeout(n: Node): (n': Node)
    requires |n.fingers| > 0
  {
    if n.succStatus || |n.succList| == 0 then n.(succChecking := false)
    else
      var l := if n.succList[0].id == n.fingers[0].id then n.succList[1..] else n.succList;
      if |l| == 0 then n.(succList := l, succChecking := false)
      else n.(succList := l, fingers := n.fingers[0 := l[0]], succChecking := false)
  }

  // The handler of every internal message. An index outside the finger table writes out of
  // bounds in the source; here it leaves the node alone, and no reachable packet carries one.
  function Receive(m: nat, n: Node, p: Packet): (e: Effect)
    requires |n.fingers| == m && m > 0
    ensures |e.node.fingers| == m && e.node.self == n.self
  {
    match p.kind
    case JoinFind => Effect(n, [FindAnswer(m, n, p.reply.ip, p.reply.port, p.index, p.key.id)])
    case ReplyFind =>
      if 0 <= p.index < m then Effect(n.(fingers := n.fingers[p.index := p.key]), []) else Effect(n, [])
    case FindPred => Effect(n, [ReplyPredPacket(n.self, p.reply.ip, p.reply.port, n.pred)])
    case ReplyPred => Effect(n.(predOfSucc := p.key), [])
    case Notify => Effect(Notified(m, n, Peer(p.key.id, p.relayIp, p.key.port)), [])
    case Fetch => Effect(n, HandleFetch(n, p.index, p.reply.ip, p.reply.port))
    case ReplyFetch => Effect(ListReplied(n, p.key, p.index), [])
    case CheckPred => Effect(n, [ReplyCheckPacket(ReplyCheckPred, n.self, p.reply.ip, p.reply.port)])
    case ReplyCheckPred => Effect(if p.key.id == n.pred.id then n.(predStatus := true) else n, [])
    case CheckSucc => Effect(n, [ReplyCheckPacket(ReplyCheckSucc, n.self, p.reply.ip, p.reply.port)])
    case ReplyCheckSucc =>
      Effect(if p.key.id == n.fingers[0].id && p.key.id != n.self.id then n.(succStatus := true) else n, [])
    case Dummy => Effect(n, [])
    case DropMsg => Effect(n, [])
    case ReplyDrop => Effect(n, [])
  }
}
