/**
  The failure checks. A live neighbour's answer names that neighbour and keeps it; an answer of
  any other node does not count; and over whole runs the status at the end of a check says
  exactly whether an answer of the neighbour came in since it began.
 */
module Checks {
  import opened Ring
  import opened Routing
  import opened Protocol
  import opened Network
  import opened Paths

  // -------- one round --------

  // What node u sends back when a check of v reaches it.
  function AnswerOf(m: nat, u: Node, check: Packet): (p: Packet)
    requires |u.fingers| == m && m > 0 && (check.kind == CheckSucc || check.kind == CheckPred)
  {
    Receive(m, u, check).sent[0]
  }

  // A check goes to the address of the node checked, and the answer of whoever gets it goes back
  // to the node that checks; neither node changes by asking or answering.
  lemma CheckAndAnswer(m: nat, n: Node, target: Peer, u: Node, kind: Kind)
    requires m > 0 && |u.fingers| == m && (kind == CheckSucc || kind == CheckPred)
    ensures var check := CheckPacket(kind, n.self, target);
            && SameAddress(check.dest, target)
            && Receive(m, u, check) == Effect(u, [AnswerOf(m, u, check)])
            && SameAddress(AnswerOf(m, u, check).dest, n.self)
  {
  }

  // An answer counts for the successor exactly when it comes from the successor.
  lemma SuccessorAnswers(m: nat, n: Node, target: Peer, u: Node)
    requires m > 0 && |n.fingers| == |u.fingers| == m
    ensures var n' := Receive(m, n, AnswerOf(m, u, CheckPacket(CheckSucc, n.self, target))).node;
            n' == if u.self.id == n.fingers[0].id && u.self.id != n.self.id then n.(succStatus := true) else n
  {
  }

  lemma PredecessorAnswers(m: nat, n: Node, target: Peer, u: Node)
    requires m > 0 && |n.fingers| == |u.fingers| == m
    ensures var n' := Receive(m, n, AnswerOf(m, u, CheckPacket(CheckPred, n.self, target))).node;
            n' == if u.self.id == n.pred.id then n.(predStatus := true) else n
  {
  }

  // A check of a live successor, asked and answered, ends with everything as it was but for the
  // status.
  lemma LiveSuccessorKept(m: nat, n: Node, u: Node)
    requires m > 0 && |n.fingers| == |u.fingers| == m && !n.succChecking
    requires u.self == n.fingers[0] && u.self.id != n.self.id
    ensures var n1 := CheckSuccessor(n);
            var n2 := Receive(m, n1, AnswerOf(m, u, CheckPacket(CheckSucc, n1.self, n1.fingers[0]))).node;
            n1.succChecking && SuccTimeout(n2) == n.(succStatus := true)
  {
    SuccessorAnswers(m, CheckSuccessor(n), n.fingers[0], u);
  }

  lemma LivePredecessorKept(m: nat, n: Node, u: Node)
    requires m > 0 && |n.fingers| == |u.fingers| == m && !n.predChecking
    requires u.self == n.pred && n.pred.id != SENTINEL
    ensures var n1 := CheckPredecessor(n);
            var n2 := Receive(m, n1, AnswerOf(m, u, CheckPacket(CheckPred, n1.self, n1.pred))).node;
            n1.predChecking && PredTimeout(n2) == n.(predStatus := true)
  {
    PredecessorAnswers(m, CheckPredecessor(n), n.pred, u);
  }

  // A check of the predecessor that nobody answers forgets it, and whoever next makes itself
  // known is taken.
  lemma DeadPredecessorForgotten(m: nat, n: Node, candidate: Peer)
    requires !n.predChecking && n.pred.id != SENTINEL
    ensures var n' := PredTimeout(CheckPredecessor(n));
            && n' == n.(pred := n'.pred, predStatus := false) && n'.pred.id == SENTINEL
            && Notified(m, n', candidate).pred == candidate
  {
  }

  // The same in a network: five steps check a live neighbour and leave every node as it was but for
  // the status of the one that asked.
  ghost predicate Checked(moves: (World, Event, World) -> bool, w: World, start: Event, probe: Event, end: Event,
                          v: nat, u: nat, n': Node) {
    exists p, q, w' :: Steps(moves, w, start, probe, Deliver(p, u), Deliver(q, v), end, w') && Became(w, v, n', w')
  }

  ghost predicate Steps<W(!new), E>(moves: (W, E, W) -> bool, w: W, a: E, b: E, c: E, d: E, e: E, w': W) {
    Path(moves, w, [a, b, c, d, e], w')
  }

  lemma StepsJoined<W(!new), E>(moves: (W, E, W) -> bool, ws: seq<W>, a: E, b: E, c: E, d: E, e: E)
    requires |ws| == 6 && Path(moves, ws[0], [a], ws[1]) && Path(moves, ws[1], [b], ws[2])
    requires Path(moves, ws[2], [c], ws[3]) && Path(moves, ws[3], [d], ws[4]) && Path(moves, ws[4], [e], ws[5])
    ensures Steps(moves, ws[0], a, b, c, d, e, ws[5])
  {
    PathConcat(moves, ws[3], [d], ws[4], [e], ws[5]);
    PathConcat(moves, ws[2], [c], ws[3], [d] + [e], ws[5]);
    PathConcat(moves, ws[1], [b], ws[2], [c] + ([d] + [e]), ws[5]);
    PathConcat(moves, ws[0], [a], ws[1], [b] + ([c] + ([d] + [e])), ws[5]);
    assert [a] + ([b] + ([c] + ([d] + [e]))) == [a, b, c, d, e];
  }

  ghost predicate Became(w: World, v: nat, n': Node, w': World) {
    w'.nodes == w.nodes[v := n'] && w'.registry == w.registry
  }

  lemma CheckCompletes(moves: (World, Event, World) -> bool, ws: seq<World>, start: Event, probe: Event, end: Event,
                       v: nat, u: nat, p: Packet, q: Packet, n1: Node, n3: Node)
    requires |ws| == 6 && Path(moves, ws[0], [start], ws[1]) && Path(moves, ws[1], [probe], ws[2])
    requires Path(moves, ws[2], [Deliver(p, u)], ws[3]) && Path(moves, ws[3], [Deliver(q, v)], ws[4])
    requires Path(moves, ws[4], [end], ws[5]) && Became(ws[0], v, n1, ws[3]) && Became(ws[3], v, n3, ws[5])
    ensures Checked(moves, ws[0], start, probe, end, v, u, n3)
  {
    StepsJoined(moves, ws, start, probe, Deliver(p, u), Deliver(q, v), end);
    assert Became(ws[0], v, n3, ws[5]);
  }

  // A step of a node that needs nothing from the network.
  predicate Timed(n: Node, e: Event) {
    match e
    case EndCheckPred(_) => n.predChecking
    case EndCheckSucc(_) => n.succChecking
    case Deliver(_, _) => false
    case Join(_) => false
    case Crash(_) => false
    case _ => true
  }

  lemma NodeSteps(m: nat, w: World, e: Event, v: nat, n': Node, sent: seq<Packet>) returns (w': World)
    requires Shaped(m, w) && v in w.nodes && |n'.fingers| == m && n'.self == w.nodes[v].self
    requires Timed(w.nodes[v], e) && e.v == v && Local(m, w.nodes[v], e) == Effect(n', sent)
    ensures Path(Anyhow(m), w, [e], w') && Shaped(m, w') && Became(w, v, n', w')
    ensures forall p :: p in sent ==> p in w'.net
  {
    w' := After(m, w, e);
    PathOfOne(Anyhow(m), w, e, w');
  }

  lemma NodeReceives(m: nat, w: World, p: Packet, v: nat, n': Node, sent: seq<Packet>) returns (w': World)
    requires Shaped(m, w) && v in w.nodes && |n'.fingers| == m && n'.self == w.nodes[v].self
    requires p in w.net && SameAddress(p.dest, w.nodes[v].self) && Receive(m, w.nodes[v], p) == Effect(n', sent)
    ensures Path(Anyhow(m), w, [Deliver(p, v)], w') && Shaped(m, w') && Became(w, v, n', w')
    ensures forall q :: q in sent ==> q in w'.net
  {
    w' := After(m, w, Deliver(p, v));
    PathOfOne(Anyhow(m), w, Deliver(p, v), w');
  }

  // The states of a node and the packets of a check up to the answer, and to its end.
  ghost predicate Asked(m: nat, n: Node, u: Node, start: Event, n1: Node, probe: Event, p: Packet, q: Packet) {
    && m > 0 && |n.fingers| == |u.fingers| == |n1.fingers| == m && n.self.id < Pow2(m) && n.self == n1.self
    && Timed(n, start) && Local(m, n, start) == Effect(n1, [])
    && Timed(n1, probe) && Local(m, n1, probe) == Effect(n1, [p]) && SameAddress(p.dest, u.self)
    && Receive(m, u, p) == Effect(u, [q]) && SameAddress(q.dest, n.self)
  }

  ghost predicate Ended(m: nat, n1: Node, q: Packet, n2: Node, end: Event, n3: Node) {
    && m > 0 && |n1.fingers| == |n2.fingers| == |n3.fingers| == m && n1.self.id < Pow2(m)
    && n1.self == n2.self == n3.self
    && Receive(m, n1, q) == Effect(n2, []) && Timed(n2, end) && Local(m, n2, end) == Effect(n3, [])
  }

  lemma CheckAsked(m: nat, w: World, v: nat, u: nat, start: Event, n1: Node, probe: Event, p: Packet, q: Packet)
    returns (ws: seq<World>)
    requires Shaped(m, w) && v in w.nodes && u in w.nodes && u != v
    requires Asked(m, w.nodes[v], w.nodes[u], start, n1, probe, p, q) && start.v == probe.v == v
    ensures |ws| == 4 && ws[0] == w && Path(Anyhow(m), w, [start], ws[1]) && Path(Anyhow(m), ws[1], [probe], ws[2])
    ensures Path(Anyhow(m), ws[2], [Deliver(p, u)], ws[3])
    ensures Shaped(m, ws[3]) && Became(w, v, n1, ws[3]) && q in ws[3].net
  {
    var w1 := NodeSteps(m, w, start, v, n1, []);
    var w2 := NodeSteps(m, w1, probe, v, n1, [p]);
    var w3 := NodeReceives(m, w2, p, u, w.nodes[u], [q]);
    assert w3.nodes == w.nodes[v := n1];
    ws := [w, w1, w2, w3];
  }

  lemma CheckEnded(m: nat, w: World, v: nat, q: Packet, n2: Node, end: Event, n3: Node) returns (ws: seq<World>)
    requires Shaped(m, w) && v in w.nodes && q in w.net && SameAddress(q.dest, w.nodes[v].self)
    requires Ended(m, w.nodes[v], q, n2, end, n3) && end.v == v
    ensures |ws| == 2 && Path(Anyhow(m), w, [Deliver(q, v)], ws[0]) && Path(Anyhow(m), ws[0], [end], ws[1])
    ensures Became(w, v, n3, ws[1])
  {
    var w1 := NodeReceives(m, w, q, v, n2, []);
    var w2 := NodeSteps(m, w1, end, v, n3, []);
    ws := [w1, w2];
  }

  lemma SuccessorRound(m: nat, n: Node, u: Node, v: nat) returns (n1: Node, p: Packet, q: Packet, n2: Node)
    requires m > 0 && |n.fingers| == |u.fingers| == m && n.self.id < Pow2(m) && !n.succChecking
    requires u.self == n.fingers[0] && u.self.id != n.self.id
    ensures Asked(m, n, u, StartCheckSucc(v), n1, ProbeSucc(v), p, q)
    ensures Ended(m, n1, q, n2, EndCheckSucc(v), n.(succStatus := true))
  {
    CheckAndAnswer(m, n, n.fingers[0], u, CheckSucc);
    LiveSuccessorKept(m, n, u);
    n1 := CheckSuccessor(n);
    p := CheckPacket(CheckSucc, n.self, n.fingers[0]);
    q := AnswerOf(m, u, p);
    n2 := Receive(m, n1, q).node;
  }

  lemma PredecessorRound(m: nat, n: Node, u: Node, v: nat) returns (n1: Node, p: Packet, q: Packet, n2: Node)
    requires m > 0 && |n.fingers| == |u.fingers| == m && n.self.id < Pow2(m) && !n.predChecking
    requires u.self == n.pred && n.pred.id != SENTINEL
    ensures Asked(m, n, u, StartCheckPred(v), n1, ProbePred(v), p, q)
    ensures Ended(m, n1, q, n2, EndCheckPred(v), n.(predStatus := true))
  {
    CheckAndAnswer(m, n, n.pred, u, CheckPred);
    LivePredecessorKept(m, n, u);
    n1 := CheckPredecessor(n);
    p := CheckPacket(CheckPred, n.self, n.pred);
    q := AnswerOf(m, u, p);
    n2 := Receive(m, n1, q).node;
  }

  lemma LiveSuccessorSurvives(m: nat, w: World, v: nat)
    requires Shaped(m, w) && v in w.nodes && !w.nodes[v].succChecking
    requires var s := w.nodes[v].fingers[0]; s.id != v && s.id in w.nodes && w.nodes[s.id].self == s
    ensures Checked(Anyhow(m), w, StartCheckSucc(v), ProbeSucc(v), EndCheckSucc(v), v, w.nodes[v].fingers[0].id,
                    w.nodes[v].(succStatus := true))
  {
    var n := w.nodes[v];
    var u := n.fingers[0].id;
    var n1, p, q, n2 := SuccessorRound(m, n, w.nodes[u], v);
    var ws := CheckAsked(m, w, v, u, StartCheckSucc(v), n1, ProbeSucc(v), p, q);
    var xs := CheckEnded(m, ws[3], v, q, n2, EndCheckSucc(v), n.(succStatus := true));
    CheckCompletes(Anyhow(m), ws + xs, StartCheckSucc(v), ProbeSucc(v), EndCheckSucc(v), v, u, p, q, n1,
                   n.(succStatus := true));
  }

  lemma LivePredecessorSurvives(m: nat, w: World, v: nat)
    requires Shaped(m, w) && v in w.nodes && !w.nodes[v].predChecking
    requires var s := w.nodes[v].pred; s.id != v && s.id != SENTINEL && s.id in w.nodes && w.nodes[s.id].self == s
    ensures Checked(Anyhow(m), w, StartCheckPred(v), ProbePred(v), EndCheckPred(v), v, w.nodes[v].pred.id,
                    w.nodes[v].(predStatus := true))
  {
    var n := w.nodes[v];
    var u := n.pred.id;
    var n1, p, q, n2 := PredecessorRound(m, n, w.nodes[u], v);
    var ws := CheckAsked(m, w, v, u, StartCheckPred(v), n1, ProbePred(v), p, q);
    var xs := CheckEnded(m, ws[3], v, q, n2, EndCheckPred(v), n.(predStatus := true));
    CheckCompletes(Anyhow(m), ws + xs, StartCheckPred(v), ProbePred(v), EndCheckPred(v), v, u, p, q, n1,
                   n.(predStatus := true));
  }

  // -------- whole runs --------

  predicate CountsForSuccessor(n: Node, p: Packet)
    requires |n.fingers| > 0
  {
    p.kind == ReplyCheckSucc && p.key.id == n.fingers[0].id && p.key.id != n.self.id
  }

  predicate CountsForPredecessor(n: Node, p: Packet) {
    p.kind == ReplyCheckPred && p.key.id == n.pred.id
  }

  ghost predicate SuccessorAnswer(w: World, e: Event, v: nat) {
    e.Deliver? && e.v == v && v in w.nodes && |w.nodes[v].fingers| > 0 && CountsForSuccessor(w.nodes[v], e.p)
  }

  ghost predicate PredecessorAnswer(w: World, e: Event, v: nat) {
    e.Deliver? && e.v == v && v in w.nodes && CountsForPredecessor(w.nodes[v], e.p)
  }

  ghost predicate SuccessorAnswered(ws: seq<World>, es: seq<Event>, v: nat, a: nat, b: nat)
    requires b <= |es| && b <= |ws|
  {
    exists j :: a < j < b && SuccessorAnswer(ws[j], es[j], v)
  }

  ghost predicate PredecessorAnswered(ws: seq<World>, es: seq<Event>, v: nat, a: nat, b: nat)
    requires b <= |es| && b <= |ws|
  {
    exists j :: a < j < b && PredecessorAnswer(ws[j], es[j], v)
  }

  lemma AnsweredLater(ws: seq<World>, es: seq<Event>, v: nat, a: nat, b: nat)
    requires a < b < |es| && b < |ws|
    ensures SuccessorAnswered(ws, es, v, a, b + 1) <==>
              SuccessorAnswered(ws, es, v, a, b) || SuccessorAnswer(ws[b], es[b], v)
    ensures PredecessorAnswered(ws, es, v, a, b + 1) <==>
              PredecessorAnswered(ws, es, v, a, b) || PredecessorAnswer(ws[b], es[b], v)
  {
  }

  // From step a to step b node v neither ends the check nor crashes.
  ghost predicate Checking(es: seq<Event>, v: nat, a: nat, b: nat, end: Event) {
    b <= |es| && forall j :: a <= j < b ==> es[j] != end && es[j] != Crash(v)
  }

  // A step that is neither the end of the check nor a crash sets the status by such an answer
  // alone, and never clears it.
  lemma SuccStatusStep(m: nat, ws: seq<World>, es: seq<Event>, v: nat, j: nat)
    requires IsRun(m, ws, es) && j < |es| && v in ws[j].nodes && ws[j].nodes[v].succChecking
    requires es[j] != EndCheckSucc(v) && es[j] != Crash(v)
    ensures v in ws[j + 1].nodes && ws[j + 1].nodes[v].succChecking
    ensures ws[j + 1].nodes[v].succStatus <==> ws[j].nodes[v].succStatus || SuccessorAnswer(ws[j], es[j], v)
  {
    RunStep(m, ws, es, j);
    var e := es[j];
    if !e.Join? && !e.Crash? && e.v == v {
      SuccStatusLocal(m, ws[j].nodes[v], e);
    }
  }

  lemma SuccStatusLocal(m: nat, n: Node, e: Event)
    requires |n.fingers| == m && m > 0 && n.self.id < Pow2(m) && n.succChecking
    requires !e.EndCheckSucc? && !e.Join? && !e.Crash?
    ensures var n' := Local(m, n, e).node;
            && n'.succChecking
            && n'.succStatus == (n.succStatus || (e.Deliver? && CountsForSuccessor(n, e.p)))
  {
    if e.Deliver? {
      SuccStatusReceive(m, n, e.p);
    }
  }

  lemma SuccStatusReceive(m: nat, n: Node, p: Packet)
    requires |n.fingers| == m && m > 0 && n.succChecking
    ensures var n' := Receive(m, n, p).node;
            && n'.succChecking
            && n'.succStatus == (n.succStatus || CountsForSuccessor(n, p))
  {
  }

  // After a check of the successor has begun, its status is set exactly if an answer of the node
  // that was successor at that moment has come in since.
  lemma {:induction false} SuccStatusIffAnswered(m: nat, ws: seq<World>, es: seq<Event>, v: nat, a: nat, b: nat)
    requires IsRun(m, ws, es) && a < b < |ws| && es[a] == StartCheckSucc(v)
    requires v in ws[a].nodes && |ws[a].nodes[v].fingers| > 0
    requires ws[a].nodes[v].fingers[0].id != v && !ws[a].nodes[v].succChecking
    requires Checking(es, v, a, b, EndCheckSucc(v))
    ensures v in ws[b].nodes && ws[b].nodes[v].succChecking
    ensures ws[b].nodes[v].succStatus <==> SuccessorAnswered(ws, es, v, a, b)
    decreases b
  {
    if b > a + 1 {
      SuccStatusIffAnswered(m, ws, es, v, a, b - 1);
      SuccStatusStep(m, ws, es, v, b - 1);
      AnsweredLater(ws, es, v, a, b - 1);
    } else {
      SuccCheckStarts(m, ws, es, v, a);
    }
  }

  lemma SuccCheckStarts(m: nat, ws: seq<World>, es: seq<Event>, v: nat, j: nat)
    requires IsRun(m, ws, es) && j < |es| && es[j] == StartCheckSucc(v) && v in ws[j].nodes
    requires |ws[j].nodes[v].fingers| > 0 && ws[j].nodes[v].fingers[0].id != v && !ws[j].nodes[v].succChecking
    ensures v in ws[j + 1].nodes && ws[j + 1].nodes[v].succChecking && !ws[j + 1].nodes[v].succStatus
  {
    RunStep(m, ws, es, j);
  }

  lemma PredStatusStep(m: nat, ws: seq<World>, es: seq<Event>, v: nat, j: nat)
    requires IsRun(m, ws, es) && j < |es| && v in ws[j].nodes && ws[j].nodes[v].predChecking
    requires es[j] != EndCheckPred(v) && es[j] != Crash(v)
    ensures v in ws[j + 1].nodes && ws[j + 1].nodes[v].predChecking
    ensures ws[j + 1].nodes[v].predStatus <==> ws[j].nodes[v].predStatus || PredecessorAnswer(ws[j], es[j], v)
  {
    RunStep(m, ws, es, j);
    var e := es[j];
    if !e.Join? && !e.Crash? && e.v == v {
      PredStatusLocal(m, ws[j].nodes[v], e);
    }
  }

  lemma PredStatusLocal(m: nat, n: Node, e: Event)
    requires |n.fingers| == m && m > 0 && n.self.id < Pow2(m) && n.predChecking
    requires !e.EndCheckPred? && !e.Join? && !e.Crash?
    ensures var n' := Local(m, n, e).node;
            && n'.predChecking
            && n'.predStatus == (n.predStatus || (e.Deliver? && CountsForPredecessor(n, e.p)))
  {
    if e.Deliver? {
      PredStatusReceive(m, n, e.p);
    }
  }

  lemma PredStatusReceive(m: nat, n: Node, p: Packet)
    requires |n.fingers| == m && m > 0 && n.predChecking
    ensures var n' := Receive(m, n, p).node;
            && n'.predChecking
            && n'.predStatus == (n.predStatus || CountsForPredecessor(n, p))
  {
  }

  lemma {:induction false} PredStatusIffAnswered(m: nat, ws: seq<World>, es: seq<Event>, v: nat, a: nat, b: nat)
    requires IsRun(m, ws, es) && a < b < |ws| && es[a] == StartCheckPred(v)
    requires v in ws[a].nodes
    requires ws[a].nodes[v].pred.id != SENTINEL && !ws[a].nodes[v].predChecking
    requires Checking(es, v, a, b, EndCheckPred(v))
    ensures v in ws[b].nodes && ws[b].nodes[v].predChecking
    ensures ws[b].nodes[v].predStatus <==> PredecessorAnswered(ws, es, v, a, b)
    decreases b
  {
    if b > a + 1 {
      PredStatusIffAnswered(m, ws, es, v, a, b - 1);
      PredStatusStep(m, ws, es, v, b - 1);
      AnsweredLater(ws, es, v, a, b - 1);
    } else {
      PredCheckStarts(m, ws, es, v, a);
    }
  }

  lemma PredCheckStarts(m: nat, ws: seq<World>, es: seq<Event>, v: nat, j: nat)
    requires IsRun(m, ws, es) && j < |es| && es[j] == StartCheckPred(v) && v in ws[j].nodes
    requires ws[j].nodes[v].pred.id != SENTINEL && !ws[j].nodes[v].predChecking
    ensures v in ws[j + 1].nodes && ws[j + 1].nodes[v].predChecking && !ws[j + 1].nodes[v].predStatus
  {
    RunStep(m, ws, es, j);
  }

  // In a run from the empty network the end of a check of the successor therefore keeps the
  // successor and the list if the successor itself has answered, and otherwise moves on.
  lemma CheckOutcome(m: nat, ws: seq<World>, es: seq<Event>, v: nat, a: nat, b: nat)
    requires m > 0 && 2 * Pow2(m) <= SENTINEL && IsRun(m, ws, es) && ws[0] == World(map[], map[], {})
    requires a < b < |es| && es[a] == StartCheckSucc(v) && es[b] == EndCheckSucc(v)
    requires v in ws[a].nodes && |ws[a].nodes[v].fingers| > 0
    requires ws[a].nodes[v].fingers[0].id != v && !ws[a].nodes[v].succChecking
    requires Checking(es, v, a, b, EndCheckSucc(v))
    ensures v in ws[b].nodes && |ws[b].nodes[v].fingers| > 0 && v in ws[b + 1].nodes
    ensures var n, n' := ws[b].nodes[v], ws[b + 1].nodes[v];
            if SuccessorAnswered(ws, es, v, a, b)
            then n' == n.(succChecking := false)
            else n' == SuccTimeout(n.(succStatus := false))
    ensures forall j :: a < j < b && SuccessorAnswer(ws[j], es[j], v) ==>
              es[j].p.relayId == ws[j].nodes[v].fingers[0].id
  {
    SuccStatusIffAnswered(m, ws, es, v, a, b);
    RunStep(m, ws, es, b);
    forall j | a < j < b && SuccessorAnswer(ws[j], es[j], v)
      ensures es[j].p.relayId == ws[j].nodes[v].fingers[0].id
    {
      RunSafe(m, ws, es, j);
      RunStep(m, ws, es, j);
      assert PacketSafe(m, ws[j].registry, es[j].p);
    }
  }
}
