/**
  Dead-drop messaging end to end. Any number of sessions, each with two ends on different
  nodes, send payloads over a ring with true successors and a network that loses nothing.
  In every run the n-th payload of each end meets the n-th payload of the other at one dead
  drop and is delivered to the other end, once and unchanged.
 */
module Rendezvous {
  import opened Ring
  import opened Routing
  import opened Protocol
  import opened DeadDrop
  import opened Generator

  datatype End = End(session: int, side: bool)

  // One payload: the `n`-th sent by an end.
  datatype Token = Token(end: End, n: nat)

  function Counterpart(t: Token): (u: Token) {
    Token(End(t.end.session, !t.end.side), t.n)
  }

  // A session: the nodes of its two ends and the seed they share.
  datatype Session = Session(a: nat, b: nat, seed: nat)

  // What does not change in a run.
  datatype Setup = Setup(m: nat, tables: map<nat, Table>, sessions: map<int, Session>)

  datatype Host = Host(drops: map<Slot, Packet>, inbox: seq<Packet>)

  // The fields of an end's socket, with the payloads it has sent.
  datatype Sock = Sock(seed: nat, seqNo: int, sent: seq<Payload>)

  /** Packets in flight are kept under numbers of their own, so equal packets stay distinct. */
  datatype World = World(hosts: map<nat, Host>, flight: map<nat, Packet>, next: nat, socks: map<End, Sock>)

  ghost predicate OwnAddress(g: Setup, a: nat)
    requires a in g.tables
  {
    forall b :: b in g.tables && b != a ==>
      g.tables[b].self.ip != g.tables[a].self.ip || g.tables[b].self.port != g.tables[a].self.port
  }

  ghost predicate ValidSetup(g: Setup) {
    && TrueSuccessors(g.m, g.tables)
    && (forall a {:trigger OwnAddress(g, a)} :: a in g.tables ==> OwnAddress(g, a))
    && (forall s :: s in g.sessions ==>
          g.sessions[s].a in g.tables && g.sessions[s].b in g.tables && g.sessions[s].a != g.sessions[s].b)
  }

  // The node at which an end lives.
  function NodeOf(g: Setup, e: End): (v: nat)
    requires e.session in g.sessions
  {
    if e.side then g.sessions[e.session].a else g.sessions[e.session].b
  }

  // -------- steps --------

  datatype Result = Result(host: Host, sent: seq<Packet>)

  // The handler of external messages at a node.
  function Process(m: nat, t: Table, h: Host, p: Packet): (r: Result)
    requires |t.fingers| > 0
  {
    match p.kind
    case DropMsg =>
      if p.isDest then
        var s := Arrive(h.drops, p);
        Result(h.(drops := s.drops), if s.out == [] then [] else [Route(m, t, s.out[0]), Route(m, t, s.out[1])])
      else Result(h, [Route(m, t, Onward(p))])
    case ReplyDrop =>
      if p.isDest then Result(h.(inbox := h.inbox + [p]), []) else Result(h, [Route(m, t, Onward(p))])
    case _ => Result(h, [])
  }

  function Launch(flight: map<nat, Packet>, next: nat, ps: seq<Packet>): (f: map<nat, Packet>)
    decreases |ps|
  {
    if ps == [] then flight else Launch(flight[next := ps[0]], next + 1, ps[1..])
  }

  lemma TableShape(g: Setup, v: nat)
    requires ValidSetup(g) && v in g.tables
    ensures |g.tables[v].fingers| == g.m > 0 && g.tables[v].self.id == v && v < Pow2(g.m)
  {
    assert TruthfulTable(g.m, g.tables, v);
  }

  datatype Step = Send(e: End, payload: Payload) | Deliver(i: nat, v: nat)

  ghost predicate Enabled(g: Setup, w: World, st: Step) {
    match st
    case Send(e, _) => e.session in g.sessions && e in w.socks
    case Deliver(i, v) =>
      && i in w.flight && v in w.hosts && v in g.tables
      && w.flight[i].dest.ip == g.tables[v].self.ip && w.flight[i].dest.port == g.tables[v].self.port
  }

  // What a socket hands to its node for its next payload.
  function Offered(m: nat, e: End, node: nat, s: Sock, payload: Payload): (o: Outgoing) {
    Outgoing(e.session, s.seqNo, DropMsg, Output(NextSeed(s.seed)) % Pow2(m), node, payload)
  }

  ghost function After(g: Setup, w: World, st: Step): (w': World)
    requires ValidSetup(g) && Enabled(g, w, st)
  {
    match st
    case Send(e, payload) =>
      TableShape(g, NodeOf(g, e));
      var s := w.socks[e];
      var p := Route(g.m, g.tables[NodeOf(g, e)], Offered(g.m, e, NodeOf(g, e), s, payload));
      World(w.hosts, Launch(w.flight, w.next, [p]), w.next + 1,
            w.socks[e := Sock(NextSeed(s.seed), s.seqNo + 1, s.sent + [payload])])
    case Deliver(i, v) =>
      TableShape(g, v);
      var r := Process(g.m, g.tables[v], w.hosts[v], w.flight[i]);
      World(w.hosts[v := r.host], Launch(w.flight - {i}, w.next, r.sent), w.next + |r.sent|, w.socks)
  }

  ghost predicate Initial(g: Setup, w: World) {
    && w.hosts.Keys == g.tables.Keys && w.flight == map[] && w.next == 0
    && (forall v :: v in w.hosts ==> w.hosts[v] == Host(map[], []))
    && (forall e :: e in w.socks <==> e.session in g.sessions)
    && (forall e :: e in w.socks ==> w.socks[e] == Sock(g.sessions[e.session].seed, 0, []))
  }

  // -------- what packets say --------

  // The payload a packet carries, told from its header.
  function TokenOf(g: Setup, p: Packet): (t: Token) {
    var n: nat := if p.index < 0 then 0 else p.index;
    if p.session !in g.sessions then Token(End(p.session, true), n)
    else if p.kind == DropMsg then Token(End(p.session, p.reply.id == g.sessions[p.session].a), n)
    else Token(End(p.session, p.key.id != g.sessions[p.session].a), n)
  }

  // The key of the dead drop of the `n`-th exchange of a session.
  ghost function DropKey(g: Setup, session: int, n: nat): (id: nat)
    requires session in g.sessions
    ensures id < Pow2(g.m)
  {
    DropAt(g.m, g.sessions[session].seed, n)
  }

  // The packet is what its payload's packet should be: on the way out it names the sender
  // and the dead drop, on the way back it names the other end.
  ghost predicate Carries(g: Setup, socks: map<End, Sock>, p: Packet) {
    var t := TokenOf(g, p);
    && p.session in g.sessions && p.index >= 0
    && t.end in socks && t.n < |socks[t.end].sent| && p.payload == socks[t.end].sent[t.n]
    && ((p.kind == DropMsg && p.reply.id == NodeOf(g, t.end) && p.key.id == DropKey(g, p.session, p.index))
        || (p.kind == ReplyDrop && p.key.id == NodeOf(g, Counterpart(t).end)))
  }

  // The packet is on its way to a live node, the right one when it is marked as final.
  ghost predicate OnCourse(g: Setup, p: Packet) {
    && p.key.id < Pow2(g.m) && OnRing(Pow2(g.m), g.tables.Keys)
    && Known(g.tables, p.dest)
    && (p.isDest ==> IsFirst(Pow2(g.m), g.tables.Keys, p.key.id, p.dest.id))
  }

  ghost predicate DropHeld(g: Setup, socks: map<End, Sock>, v: nat, s: Slot, p: Packet) {
    && p.kind == DropMsg && SlotOf(p) == s && Carries(g, socks, p)
    && OnRing(Pow2(g.m), g.tables.Keys) && IsFirst(Pow2(g.m), g.tables.Keys, p.key.id, v)
  }

  ghost predicate Arrived(g: Setup, socks: map<End, Sock>, v: nat, p: Packet) {
    p.kind == ReplyDrop && p.key.id == v && Carries(g, socks, p)
  }

  ghost predicate Flies(g: Setup, socks: map<End, Sock>, p: Packet) {
    OnCourse(g, p) && Carries(g, socks, p)
  }

  ghost predicate FlightOk(g: Setup, socks: map<End, Sock>, flight: map<nat, Packet>) {
    forall i {:trigger flight[i]} :: i in flight ==> Flies(g, socks, flight[i])
  }

  ghost predicate HostsOk(g: Setup, socks: map<End, Sock>, hosts: map<nat, Host>) {
    && (forall v, s {:trigger hosts[v].drops[s]} :: v in hosts && s in hosts[v].drops ==>
          DropHeld(g, socks, v, s, hosts[v].drops[s]))
    && (forall v, k {:trigger hosts[v].inbox[k]} :: v in hosts && 0 <= k < |hosts[v].inbox| ==>
          Arrived(g, socks, v, hosts[v].inbox[k]))
  }

  ghost predicate PacketsOk(g: Setup, w: World) {
    FlightOk(g, w.socks, w.flight) && HostsOk(g, w.socks, w.hosts)
  }

  ghost predicate SocksOk(g: Setup, w: World) {
    && w.hosts.Keys == g.tables.Keys
    && (forall e :: e in w.socks <==> e.session in g.sessions)
    && (forall e :: e in w.socks ==>
          && w.socks[e].seqNo == |w.socks[e].sent|
          && w.socks[e].seed == SeedAt(g.sessions[e.session].seed, |w.socks[e].sent|))
  }

  // -------- where every payload is --------

  datatype Place = Flying(i: nat) | Stored(v: nat, s: Slot) | Returning(i: nat) | Received(v: nat, k: nat)
  {
    predicate Swapped() {
      Returning? || Received?
    }
  }

  function Aloft(p: Packet, i: nat): (r: Place) {
    if p.kind == DropMsg then Flying(i) else Returning(i)
  }

  // A payload is where `loc` says it is; `tok` tells the payload of a packet.
  ghost predicate PlaceOk(tok: Packet -> Token, hosts: map<nat, Host>, flight: map<nat, Packet>, t: Token, r: Place) {
    match r
    case Flying(i) => i in flight && tok(flight[i]) == t && Aloft(flight[i], i) == r
    case Stored(v, s) => v in hosts && s in hosts[v].drops && tok(hosts[v].drops[s]) == t
    case Returning(i) => i in flight && tok(flight[i]) == t && Aloft(flight[i], i) == r
    case Received(v, k) => v in hosts && k < |hosts[v].inbox| && tok(hosts[v].inbox[k]) == t
  }

  // A payload has been swapped only together with its counterpart.
  ghost predicate PairOk(loc: map<Token, Place>, t: Token)
    requires t in loc
  {
    loc[t].Swapped() ==> Counterpart(t) in loc && loc[Counterpart(t)].Swapped()
  }

  ghost predicate At(loc: map<Token, Place>, t: Token, r: Place) {
    t in loc && loc[t] == r
  }

  // Every packet is where its payload is said to be.
  ghost predicate Tracked(tok: Packet -> Token, hosts: map<nat, Host>, flight: map<nat, Packet>, next: nat,
                          loc: map<Token, Place>) {
    FlightTracked(tok, flight, next, loc) && HostsTracked(tok, hosts, loc)
  }

  ghost predicate FlightTracked(tok: Packet -> Token, flight: map<nat, Packet>, next: nat, loc: map<Token, Place>) {
    forall i {:trigger flight[i]} :: i in flight ==> i < next && At(loc, tok(flight[i]), Aloft(flight[i], i))
  }

  ghost predicate HostsTracked(tok: Packet -> Token, hosts: map<nat, Host>, loc: map<Token, Place>) {
    && (forall v, s {:trigger hosts[v].drops[s]} :: v in hosts && s in hosts[v].drops ==>
          At(loc, tok(hosts[v].drops[s]), Stored(v, s)))
    && (forall v, k {:trigger hosts[v].inbox[k]} :: v in hosts && 0 <= k < |hosts[v].inbox| ==>
          At(loc, tok(hosts[v].inbox[k]), Received(v, k)))
  }

  // And every payload is where it is said to be.
  ghost predicate Placed(tok: Packet -> Token, hosts: map<nat, Host>, flight: map<nat, Packet>,
                         loc: map<Token, Place>) {
    forall t {:trigger loc[t]} :: t in loc ==> PlaceOk(tok, hosts, flight, t, loc[t])
  }

  ghost predicate Paired(loc: map<Token, Place>) {
    forall t {:trigger PairOk(loc, t)} :: t in loc ==> PairOk(loc, t)
  }

  // Payloads and packets correspond one to one.
  ghost predicate Located(tok: Packet -> Token, hosts: map<nat, Host>, flight: map<nat, Packet>, next: nat,
                          loc: map<Token, Place>) {
    Tracked(tok, hosts, flight, next, loc) && Placed(tok, hosts, flight, loc) && Paired(loc)
  }

  // A packet passed on is the same payload under a new number.
  lemma ForwardLocated(tok: Packet -> Token, hosts: map<nat, Host>, flight: map<nat, Packet>, next: nat,
                       loc: map<Token, Place>,
                       i: nat, q: Packet)
    requires Located(tok, hosts, flight, next, loc) && i in flight
    requires tok(q) == tok(flight[i]) && q.kind == flight[i].kind
    ensures tok(q) in loc
    ensures Located(tok, hosts, (flight - {i})[next := q], next + 1, loc[tok(q) := Aloft(q, next)])
  {
    var loc' := loc[tok(q) := Aloft(q, next)];
    forall u | u in loc' ensures PairOk(loc', u) {
      assert PairOk(loc, u);
    }
  }

  // The first packet of a pair is put away.
  lemma StoreLocated(tok: Packet -> Token, hosts: map<nat, Host>, flight: map<nat, Packet>, next: nat,
                     loc: map<Token, Place>,
                     i: nat, v: nat, s: Slot)
    requires Located(tok, hosts, flight, next, loc) && i in flight && flight[i].kind == DropMsg
    requires v in hosts && s !in hosts[v].drops
    ensures var p, h := flight[i], hosts[v];
            && tok(p) in loc
            && Located(tok, hosts[v := h.(drops := h.drops[s := p])], flight - {i}, next, loc[tok(p) := Stored(v, s)])
  {
    var t := tok(flight[i]);
    var loc' := loc[t := Stored(v, s)];
    forall u | u in loc' ensures PairOk(loc', u) {
      assert PairOk(loc, u);
    }
  }

  // A reply is handed to its end.
  lemma ReceiveTracked(tok: Packet -> Token, hosts: map<nat, Host>, flight: map<nat, Packet>, next: nat,
                       loc: map<Token, Place>, i: nat, v: nat)
    requires Located(tok, hosts, flight, next, loc) && i in flight && flight[i].kind != DropMsg && v in hosts
    ensures var p, h := flight[i], hosts[v];
            Tracked(tok, hosts[v := h.(inbox := h.inbox + [p])], flight - {i}, next,
                    loc[tok(p) := Received(v, |h.inbox|)])
  {
  }

  lemma ReceivePlaced(tok: Packet -> Token, hosts: map<nat, Host>, flight: map<nat, Packet>, next: nat,
                      loc: map<Token, Place>, i: nat, v: nat)
    requires Located(tok, hosts, flight, next, loc) && i in flight && flight[i].kind != DropMsg && v in hosts
    ensures var p, h := flight[i], hosts[v];
            && tok(p) in loc
            && Placed(tok, hosts[v := h.(inbox := h.inbox + [p])], flight - {i}, loc[tok(p) := Received(v, |h.inbox|)])
            && Paired(loc[tok(p) := Received(v, |h.inbox|)])
  {
    var loc' := loc[tok(flight[i]) := Received(v, |hosts[v].inbox|)];
    forall u | u in loc' ensures PairOk(loc', u) {
      assert PairOk(loc, u);
    }
  }

  lemma ReceiveLocated(tok: Packet -> Token, hosts: map<nat, Host>, flight: map<nat, Packet>, next: nat,
                       loc: map<Token, Place>, i: nat, v: nat)
    requires Located(tok, hosts, flight, next, loc) && i in flight && flight[i].kind != DropMsg && v in hosts
    ensures var p, h := flight[i], hosts[v];
            && tok(p) in loc
            && Located(tok, hosts[v := h.(inbox := h.inbox + [p])], flight - {i}, next,
                       loc[tok(p) := Received(v, |h.inbox|)])
  {
    ReceiveTracked(tok, hosts, flight, next, loc, i, v);
    ReceivePlaced(tok, hosts, flight, next, loc, i, v);
  }

  // The second packet of a pair takes the first away with it.
  ghost predicate SwapsAt(tok: Packet -> Token, hosts: map<nat, Host>, flight: map<nat, Packet>, i: nat, v: nat,
                          s: Slot,
                          q0: Packet, q1: Packet) {
    && i in flight && flight[i].kind == DropMsg
    && v in hosts && s in hosts[v].drops && q0.kind != DropMsg && q1.kind != DropMsg
    && tok(q0) == tok(hosts[v].drops[s]) && tok(q1) == tok(flight[i]) && tok(q1) == Counterpart(tok(q0))
  }

  ghost function SwapHosts(hosts: map<nat, Host>, v: nat, s: Slot): (hosts': map<nat, Host>)
    requires v in hosts
  {
    hosts[v := hosts[v].(drops := hosts[v].drops - {s})]
  }

  ghost function SwapFlight(flight: map<nat, Packet>, next: nat, i: nat, q0: Packet,
                            q1: Packet): (f: map<nat, Packet>) {
    (flight - {i})[next := q0][next + 1 := q1]
  }

  ghost function SwapPlaces(tok: Packet -> Token, loc: map<Token, Place>, next: nat, q0: Packet, q1: Packet)
    : (loc': map<Token, Place>)
  {
    loc[tok(q0) := Returning(next)][tok(q1) := Returning(next + 1)]
  }

  lemma SwapFlightTracked(tok: Packet -> Token, hosts: map<nat, Host>, flight: map<nat, Packet>, next: nat,
                          loc: map<Token, Place>, i: nat, v: nat, s: Slot, q0: Packet, q1: Packet)
    requires Located(tok, hosts, flight, next, loc) && SwapsAt(tok, hosts, flight, i, v, s, q0, q1)
    ensures FlightTracked(tok, SwapFlight(flight, next, i, q0, q1), next + 2, SwapPlaces(tok, loc, next, q0, q1))
  {
  }

  lemma SwapHostsTracked(tok: Packet -> Token, hosts: map<nat, Host>, flight: map<nat, Packet>, next: nat,
                         loc: map<Token, Place>, i: nat, v: nat, s: Slot, q0: Packet, q1: Packet)
    requires Located(tok, hosts, flight, next, loc) && SwapsAt(tok, hosts, flight, i, v, s, q0, q1)
    ensures HostsTracked(tok, SwapHosts(hosts, v, s), SwapPlaces(tok, loc, next, q0, q1))
  {
  }

  lemma SwapPlaced(tok: Packet -> Token, hosts: map<nat, Host>, flight: map<nat, Packet>, next: nat,
                   loc: map<Token, Place>, i: nat, v: nat, s: Slot, q0: Packet, q1: Packet)
    requires Located(tok, hosts, flight, next, loc) && SwapsAt(tok, hosts, flight, i, v, s, q0, q1)
    ensures tok(q0) in loc && tok(q1) in loc
    ensures Placed(tok, SwapHosts(hosts, v, s), SwapFlight(flight, next, i, q0, q1), SwapPlaces(tok, loc, next, q0, q1))
  {
  }

  lemma SwapPaired(tok: Packet -> Token, loc: map<Token, Place>, next: nat, q0: Packet, q1: Packet)
    requires Paired(loc) && tok(q0) in loc && tok(q1) in loc && tok(q1) == Counterpart(tok(q0))
    ensures Paired(SwapPlaces(tok, loc, next, q0, q1))
  {
    var loc' := SwapPlaces(tok, loc, next, q0, q1);
    assert Counterpart(tok(q1)) == tok(q0);
    forall u | u in loc' ensures PairOk(loc', u) {
      assert PairOk(loc, u);
    }
  }

  lemma SwapLocated(tok: Packet -> Token, hosts: map<nat, Host>, flight: map<nat, Packet>, next: nat,
                    loc: map<Token, Place>, i: nat, v: nat, s: Slot, q0: Packet, q1: Packet)
    requires Located(tok, hosts, flight, next, loc) && SwapsAt(tok, hosts, flight, i, v, s, q0, q1)
    ensures tok(q0) in loc && tok(q1) in loc
    ensures Located(tok, SwapHosts(hosts, v, s), SwapFlight(flight, next, i, q0, q1), next + 2,
                    SwapPlaces(tok, loc, next, q0, q1))
  {
    SwapFlightTracked(tok, hosts, flight, next, loc, i, v, s, q0, q1);
    SwapHostsTracked(tok, hosts, flight, next, loc, i, v, s, q0, q1);
    SwapPlaced(tok, hosts, flight, next, loc, i, v, s, q0, q1);
    SwapPaired(tok, loc, next, q0, q1);
  }

  // A new payload takes off.
  lemma SendLocated(tok: Packet -> Token, hosts: map<nat, Host>, flight: map<nat, Packet>, next: nat,
                    loc: map<Token, Place>, q: Packet)
    requires Located(tok, hosts, flight, next, loc) && q.kind == DropMsg && tok(q) !in loc
    ensures Located(tok, hosts, flight[next := q], next + 1, loc[tok(q) := Flying(next)])
  {
    var loc' := loc[tok(q) := Flying(next)];
    forall u | u in loc' ensures PairOk(loc', u) {
      if u in loc {
        assert PairOk(loc, u);
      }
    }
  }

  // -------- the invariant of every run --------

  ghost function Tok(g: Setup): (f: Packet -> Token) {
    p => TokenOf(g, p)
  }

  ghost predicate Sent(w: World, t: Token) {
    t.end in w.socks && t.n < |w.socks[t.end].sent|
  }

  ghost predicate Inv(g: Setup, w: World, loc: map<Token, Place>) {
    && ValidSetup(g) && SocksOk(g, w) && PacketsOk(g, w)
    && (forall t :: t in loc <==> Sent(w, t))
    && Located(Tok(g), w.hosts, w.flight, w.next, loc)
  }

  // Whatever a node routes goes to a live node, and to the key's own node when marked final.
  lemma RouteOnCourse(g: Setup, v: nat, o: Outgoing)
    requires ValidSetup(g) && v in g.tables && o.destId < Pow2(g.m)
    ensures |g.tables[v].fingers| > 0 && OnCourse(g, Route(g.m, g.tables[v], o))
    ensures var q := Route(g.m, g.tables[v], o);
            !q.isDest ==> Dist(Pow2(g.m), q.dest.id, o.destId) < Dist(Pow2(g.m), v, o.destId)
  {
    TableShape(g, v);
    DecisionSound(g.m, g.tables, v, o.destId);
  }

  // A packet reaches the node it names.
  lemma ReachesDest(g: Setup, w: World, i: nat, v: nat)
    requires ValidSetup(g) && PacketsOk(g, w) && Enabled(g, w, Deliver(i, v))
    ensures Flies(g, w.socks, w.flight[i]) && w.flight[i].dest.id == v
  {
    assert OwnAddress(g, v);
  }

  lemma LaunchIs(flight: map<nat, Packet>, next: nat, ps: seq<Packet>)
    ensures |ps| == 0 ==> Launch(flight, next, ps) == flight
    ensures |ps| == 1 ==> Launch(flight, next, ps) == flight[next := ps[0]]
    ensures |ps| == 2 ==> Launch(flight, next, ps) == flight[next := ps[0]][next + 1 := ps[1]]
  {
    if |ps| == 2 {
      assert ps[1..][0] == ps[1] && ps[1..][1..] == [];
      assert Launch(flight[next := ps[0]], next + 1, ps[1..]) == flight[next := ps[0]][next + 1 := ps[1]];
    }
  }

  ghost predicate HostOk(g: Setup, socks: map<End, Sock>, v: nat, h: Host) {
    && (forall s :: s in h.drops ==> DropHeld(g, socks, v, s, h.drops[s]))
    && (forall k :: 0 <= k < |h.inbox| ==> Arrived(g, socks, v, h.inbox[k]))
  }

  lemma PacketsStep(g: Setup, w: World, i: nat, v: nat, h: Host, ps: seq<Packet>)
    requires PacketsOk(g, w) && v in w.hosts && HostOk(g, w.socks, v, h)
    requires AllFly(g, w.socks, ps)
    ensures PacketsOk(g, World(w.hosts[v := h], Launch(w.flight - {i}, w.next, ps), w.next + |ps|, w.socks))
  {
    LaunchFlies(g, w.socks, w.flight - {i}, w.next, ps);
    HostReplaced(g, w.socks, w.hosts, v, h);
  }

  lemma LaunchFlies(g: Setup, socks: map<End, Sock>, flight: map<nat, Packet>, next: nat, ps: seq<Packet>)
    requires FlightOk(g, socks, flight) && AllFly(g, socks, ps)
    ensures FlightOk(g, socks, Launch(flight, next, ps))
  {
    LaunchIs(flight, next, ps);
  }

  lemma HostReplaced(g: Setup, socks: map<End, Sock>, hosts: map<nat, Host>, v: nat, h: Host)
    requires HostsOk(g, socks, hosts) && v in hosts && HostOk(g, socks, v, h)
    ensures HostsOk(g, socks, hosts[v := h])
  {
  }

  // The two replies of a swap carry the two payloads that met.
  lemma CrossedReplies(g: Setup, socks: map<End, Sock>, v: nat, x: Packet, p: Packet)
    requires ValidSetup(g) && v in g.tables && |g.tables[v].fingers| > 0
    requires x.kind == DropMsg && p.kind == DropMsg
    requires Carries(g, socks, x) && Carries(g, socks, p) && SlotOf(x) == SlotOf(p)
    requires TokenOf(g, x) != TokenOf(g, p)
    ensures TokenOf(g, p) == Counterpart(TokenOf(g, x))
    ensures var o := PairFor(x, p);
            var q0, q1 := Route(g.m, g.tables[v], o[0]), Route(g.m, g.tables[v], o[1]);
            && Flies(g, socks, q0) && TokenOf(g, q0) == TokenOf(g, x) && q0.kind == ReplyDrop
            && Flies(g, socks, q1) && TokenOf(g, q1) == TokenOf(g, p) && q1.kind == ReplyDrop
  {
    var o := PairFor(x, p);
    TableShape(g, NodeOf(g, TokenOf(g, x).end));
    TableShape(g, NodeOf(g, TokenOf(g, p).end));
    RouteOnCourse(g, v, o[0]);
    RouteOnCourse(g, v, o[1]);
  }

  lemma OnwardFlies(g: Setup, socks: map<End, Sock>, v: nat, p: Packet)
    requires ValidSetup(g) && v in g.tables && |g.tables[v].fingers| > 0 && Flies(g, socks, p)
    ensures var q := Route(g.m, g.tables[v], Onward(p));
            Flies(g, socks, q) && TokenOf(g, q) == TokenOf(g, p) && q.kind == p.kind
  {
    RouteOnCourse(g, v, Onward(p));
  }

  // -------- delivery, case by case --------

  lemma Assemble(g: Setup, w: World, loc: map<Token, Place>, w': World, loc': map<Token, Place>)
    requires Inv(g, w, loc) && w'.hosts.Keys == w.hosts.Keys && w'.socks == w.socks && loc'.Keys == loc.Keys
    requires PacketsOk(g, w') && Located(Tok(g), w'.hosts, w'.flight, w'.next, loc')
    ensures Inv(g, w', loc')
  {
    forall t ensures t in loc' <==> Sent(w', t) {
      assert t in loc' <==> t in loc;
      assert Sent(w', t) == Sent(w, t);
    }
  }

  lemma AfterOnward(g: Setup, w: World, i: nat, v: nat)
    requires ValidSetup(g) && Enabled(g, w, Deliver(i, v)) && !w.flight[i].isDest
    requires w.flight[i].kind == DropMsg || w.flight[i].kind == ReplyDrop
    ensures |g.tables[v].fingers| > 0
    ensures var q := Route(g.m, g.tables[v], Onward(w.flight[i]));
            After(g, w, Deliver(i, v)) == w.(flight := (w.flight - {i})[w.next := q], next := w.next + 1)
  {
    TableShape(g, v);
    var q := Route(g.m, g.tables[v], Onward(w.flight[i]));
    LaunchIs(w.flight - {i}, w.next, [q]);
    assert w.hosts[v := w.hosts[v]] == w.hosts;
  }

  lemma AfterFirst(g: Setup, w: World, i: nat, v: nat)
    requires ValidSetup(g) && Enabled(g, w, Deliver(i, v)) && w.flight[i].isDest && w.flight[i].kind == DropMsg
    requires SlotOf(w.flight[i]) !in w.hosts[v].drops
    ensures var p, h := w.flight[i], w.hosts[v];
            After(g, w, Deliver(i, v)) ==
            w.(hosts := w.hosts[v := h.(drops := h.drops[SlotOf(p) := p])], flight := w.flight - {i})
  {
  }

  lemma AfterSecond(g: Setup, w: World, i: nat, v: nat)
    requires ValidSetup(g) && Enabled(g, w, Deliver(i, v)) && w.flight[i].isDest && w.flight[i].kind == DropMsg
    requires SlotOf(w.flight[i]) in w.hosts[v].drops
    ensures |g.tables[v].fingers| > 0
    ensures var p, h := w.flight[i], w.hosts[v];
            var o := PairFor(h.drops[SlotOf(p)], p);
            var q0, q1 := Route(g.m, g.tables[v], o[0]), Route(g.m, g.tables[v], o[1]);
            After(g, w, Deliver(i, v)) ==
            w.(hosts := SwapHosts(w.hosts, v, SlotOf(p)),
               flight := SwapFlight(w.flight, w.next, i, q0, q1), next := w.next + 2)
  {
    TableShape(g, v);
    var p, h := w.flight[i], w.hosts[v];
    var o := PairFor(h.drops[SlotOf(p)], p);
    LaunchIs(w.flight - {i}, w.next, [Route(g.m, g.tables[v], o[0]), Route(g.m, g.tables[v], o[1])]);
  }

  lemma AfterReply(g: Setup, w: World, i: nat, v: nat)
    requires ValidSetup(g) && Enabled(g, w, Deliver(i, v)) && w.flight[i].isDest && w.flight[i].kind == ReplyDrop
    ensures var p, h := w.flight[i], w.hosts[v];
            After(g, w, Deliver(i, v)) ==
            w.(hosts := w.hosts[v := h.(inbox := h.inbox + [p])], flight := w.flight - {i})
  {
  }

  // A packet whose host is as good as before, or replaced by a good one.
  lemma HostStays(g: Setup, w: World, v: nat)
    requires PacketsOk(g, w) && v in w.hosts
    ensures HostOk(g, w.socks, v, w.hosts[v])
  {
  }

  lemma ReplyArrives(g: Setup, w: World, i: nat, v: nat)
    requires ValidSetup(g) && PacketsOk(g, w) && Enabled(g, w, Deliver(i, v))
    requires w.flight[i].kind == ReplyDrop && w.flight[i].isDest
    ensures Arrived(g, w.socks, v, w.flight[i])
  {
    ReachesDest(g, w, i, v);
    var p := w.flight[i];
    TableShape(g, p.key.id);
    assert Dist(Pow2(g.m), p.key.id, p.key.id) == 0;
  }

  lemma HostChanges(g: Setup, socks: map<End, Sock>, v: nat, h: Host, s: Slot, p: Packet)
    requires HostOk(g, socks, v, h)
    ensures HostOk(g, socks, v, h.(drops := h.drops - {s}))
    ensures DropHeld(g, socks, v, s, p) ==> HostOk(g, socks, v, h.(drops := h.drops[s := p]))
    ensures Arrived(g, socks, v, p) ==> HostOk(g, socks, v, h.(inbox := h.inbox + [p]))
  {
  }

  lemma DropLands(g: Setup, w: World, i: nat, v: nat)
    requires ValidSetup(g) && PacketsOk(g, w) && Enabled(g, w, Deliver(i, v))
    requires w.flight[i].kind == DropMsg && w.flight[i].isDest
    ensures DropHeld(g, w.socks, v, SlotOf(w.flight[i]), w.flight[i])
  {
    ReachesDest(g, w, i, v);
  }

  ghost predicate AllFly(g: Setup, socks: map<End, Sock>, ps: seq<Packet>) {
    |ps| <= 2 && forall j :: 0 <= j < |ps| ==> Flies(g, socks, ps[j])
  }

  lemma ArriveGood(g: Setup, socks: map<End, Sock>, v: nat, h: Host, p: Packet)
    requires ValidSetup(g) && v in g.tables && |g.tables[v].fingers| > 0
    requires HostOk(g, socks, v, h) && p.isDest && DropHeld(g, socks, v, SlotOf(p), p)
    requires SlotOf(p) in h.drops ==> TokenOf(g, h.drops[SlotOf(p)]) != TokenOf(g, p)
    ensures var r := Process(g.m, g.tables[v], h, p);
            HostOk(g, socks, v, r.host) && AllFly(g, socks, r.sent)
  {
    HostChanges(g, socks, v, h, SlotOf(p), p);
    if SlotOf(p) in h.drops {
      CrossedReplies(g, socks, v, h.drops[SlotOf(p)], p);
    }
  }

  lemma DropGood(g: Setup, w: World, loc: map<Token, Place>, i: nat, v: nat)
    requires Inv(g, w, loc) && Enabled(g, w, Deliver(i, v)) && |g.tables[v].fingers| > 0
    requires w.flight[i].isDest && w.flight[i].kind == DropMsg
    ensures var r := Process(g.m, g.tables[v], w.hosts[v], w.flight[i]);
            HostOk(g, w.socks, v, r.host) && AllFly(g, w.socks, r.sent)
  {
    var p, h := w.flight[i], w.hosts[v];
    HostStays(g, w, v);
    DropLands(g, w, i, v);
    if SlotOf(p) in h.drops {
      SwapTokens(g, w, loc, i, v);
    }
    ArriveGood(g, w.socks, v, h, p);
  }

  lemma ReplyGood(g: Setup, w: World, loc: map<Token, Place>, i: nat, v: nat)
    requires Inv(g, w, loc) && Enabled(g, w, Deliver(i, v)) && |g.tables[v].fingers| > 0
    requires w.flight[i].isDest && w.flight[i].kind != DropMsg
    ensures var r := Process(g.m, g.tables[v], w.hosts[v], w.flight[i]);
            HostOk(g, w.socks, v, r.host) && AllFly(g, w.socks, r.sent)
  {
    ReachesDest(g, w, i, v);
    HostStays(g, w, v);
    ReplyArrives(g, w, i, v);
    HostChanges(g, w.socks, v, w.hosts[v], SlotOf(w.flight[i]), w.flight[i]);
  }

  lemma OnwardGood(g: Setup, w: World, loc: map<Token, Place>, i: nat, v: nat)
    requires Inv(g, w, loc) && Enabled(g, w, Deliver(i, v)) && |g.tables[v].fingers| > 0
    requires !w.flight[i].isDest
    ensures var r := Process(g.m, g.tables[v], w.hosts[v], w.flight[i]);
            HostOk(g, w.socks, v, r.host) && AllFly(g, w.socks, r.sent)
  {
    HostStays(g, w, v);
    OnwardFlies(g, w.socks, v, w.flight[i]);
  }

  lemma ProcessGood(g: Setup, w: World, loc: map<Token, Place>, i: nat, v: nat)
    requires Inv(g, w, loc) && Enabled(g, w, Deliver(i, v)) && |g.tables[v].fingers| > 0
    ensures var r := Process(g.m, g.tables[v], w.hosts[v], w.flight[i]);
            HostOk(g, w.socks, v, r.host) && AllFly(g, w.socks, r.sent)
  {
    if !w.flight[i].isDest {
      OnwardGood(g, w, loc, i, v);
    } else if w.flight[i].kind == DropMsg {
      DropGood(g, w, loc, i, v);
    } else {
      ReplyGood(g, w, loc, i, v);
    }
  }

  lemma DeliverPackets(g: Setup, w: World, loc: map<Token, Place>, i: nat, v: nat)
    requires Inv(g, w, loc) && Enabled(g, w, Deliver(i, v))
    ensures PacketsOk(g, After(g, w, Deliver(i, v)))
  {
    TableShape(g, v);
    ProcessGood(g, w, loc, i, v);
    var r := Process(g.m, g.tables[v], w.hosts[v], w.flight[i]);
    PacketsStep(g, w, i, v, r.host, r.sent);
  }

  // Two packets that meet at a slot are the two halves of one exchange.
  lemma SwapTokens(g: Setup, w: World, loc: map<Token, Place>, i: nat, v: nat)
    requires Inv(g, w, loc) && Enabled(g, w, Deliver(i, v)) && w.flight[i].kind == DropMsg
    requires SlotOf(w.flight[i]) in w.hosts[v].drops
    ensures var x := w.hosts[v].drops[SlotOf(w.flight[i])];
            && x.kind == DropMsg && Carries(g, w.socks, x) && Carries(g, w.socks, w.flight[i])
            && SlotOf(x) == SlotOf(w.flight[i]) && TokenOf(g, x) != TokenOf(g, w.flight[i])
  {
    var p := w.flight[i];
    var s := SlotOf(p);
    var x := w.hosts[v].drops[s];
    assert Flies(g, w.socks, p) && DropHeld(g, w.socks, v, s, x);
    assert At(loc, Tok(g)(p), Aloft(p, i)) && At(loc, Tok(g)(x), Stored(v, s));
  }

  lemma DeliverInv(g: Setup, w: World, loc: map<Token, Place>, i: nat, v: nat) returns (loc': map<Token, Place>)
    requires Inv(g, w, loc) && Enabled(g, w, Deliver(i, v))
    ensures Inv(g, After(g, w, Deliver(i, v)), loc')
  {
    DeliverPackets(g, w, loc, i, v);
    loc' := DeliverLocated(g, w, loc, i, v);
    Assemble(g, w, loc, After(g, w, Deliver(i, v)), loc');
  }

  ghost predicate Relocated(g: Setup, w: World, loc: map<Token, Place>, w': World, loc': map<Token, Place>) {
    w'.hosts.Keys == w.hosts.Keys && loc'.Keys == loc.Keys && Located(Tok(g), w'.hosts, w'.flight, w'.next, loc')
  }

  lemma DeliverLocated(g: Setup, w: World, loc: map<Token, Place>, i: nat, v: nat) returns (loc': map<Token, Place>)
    requires Inv(g, w, loc) && Enabled(g, w, Deliver(i, v))
    ensures Relocated(g, w, loc, After(g, w, Deliver(i, v)), loc')
  {
    var p := w.flight[i];
    assert Flies(g, w.socks, p);
    if !p.isDest {
      AfterOnward(g, w, i, v);
      OnwardFlies(g, w.socks, v, p);
      loc' := RelocateOnward(g, w, loc, i, Route(g.m, g.tables[v], Onward(p)));
    } else if p.kind == ReplyDrop {
      AfterReply(g, w, i, v);
      loc' := RelocateReply(g, w, loc, i, v);
    } else if SlotOf(p) in w.hosts[v].drops {
      SwapTokens(g, w, loc, i, v);
      var q0, q1 := SwapPair(g, w, i, v);
      loc' := RelocateSecond(g, w, loc, i, v, q0, q1);
    } else {
      AfterFirst(g, w, i, v);
      loc' := RelocateFirst(g, w, loc, i, v);
    }
  }

  lemma RelocateOnward(g: Setup, w: World, loc: map<Token, Place>, i: nat, q: Packet) returns (loc': map<Token, Place>)
    requires Located(Tok(g), w.hosts, w.flight, w.next, loc) && i in w.flight
    requires TokenOf(g, q) == TokenOf(g, w.flight[i]) && q.kind == w.flight[i].kind
    ensures Relocated(g, w, loc, w.(flight := (w.flight - {i})[w.next := q], next := w.next + 1), loc')
  {
    ForwardLocated(Tok(g), w.hosts, w.flight, w.next, loc, i, q);
    loc' := loc[Tok(g)(q) := Aloft(q, w.next)];
  }

  lemma RelocateReply(g: Setup, w: World, loc: map<Token, Place>, i: nat, v: nat) returns (loc': map<Token, Place>)
    requires Located(Tok(g), w.hosts, w.flight, w.next, loc) && i in w.flight
    requires w.flight[i].kind == ReplyDrop && v in w.hosts
    ensures var p, h := w.flight[i], w.hosts[v];
            Relocated(g, w, loc, w.(hosts := w.hosts[v := h.(inbox := h.inbox + [p])], flight := w.flight - {i}), loc')
  {
    ReceiveLocated(Tok(g), w.hosts, w.flight, w.next, loc, i, v);
    loc' := loc[Tok(g)(w.flight[i]) := Received(v, |w.hosts[v].inbox|)];
  }

  lemma RelocateFirst(g: Setup, w: World, loc: map<Token, Place>, i: nat, v: nat) returns (loc': map<Token, Place>)
    requires Located(Tok(g), w.hosts, w.flight, w.next, loc) && i in w.flight && w.flight[i].kind == DropMsg
    requires v in w.hosts && SlotOf(w.flight[i]) !in w.hosts[v].drops
    ensures var p, h := w.flight[i], w.hosts[v];
            Relocated(g, w, loc,
                      w.(hosts := w.hosts[v := h.(drops := h.drops[SlotOf(p) := p])], flight := w.flight - {i}), loc')
  {
    var s := SlotOf(w.flight[i]);
    StoreLocated(Tok(g), w.hosts, w.flight, w.next, loc, i, v, s);
    loc' := loc[Tok(g)(w.flight[i]) := Stored(v, s)];
  }

  lemma RelocateSecond(g: Setup, w: World, loc: map<Token, Place>, i: nat, v: nat, q0: Packet,
                       q1: Packet) returns (loc': map<Token, Place>)
    requires Located(Tok(g), w.hosts, w.flight, w.next, loc) && i in w.flight && w.flight[i].kind == DropMsg
    requires v in w.hosts && SlotOf(w.flight[i]) in w.hosts[v].drops
    requires SwapTokensOf(g, w.hosts[v].drops[SlotOf(w.flight[i])], w.flight[i], q0, q1)
    ensures var p, h := w.flight[i], w.hosts[v];
            Relocated(g, w, loc,
                      w.(hosts := SwapHosts(w.hosts, v, SlotOf(p)),
                         flight := SwapFlight(w.flight, w.next, i, q0, q1), next := w.next + 2), loc')
  {
    assert SwapsAt(Tok(g), w.hosts, w.flight, i, v, SlotOf(w.flight[i]), q0, q1);
    SwapLocated(Tok(g), w.hosts, w.flight, w.next, loc, i, v, SlotOf(w.flight[i]), q0, q1);
    loc' := SwapPlaces(Tok(g), loc, w.next, q0, q1);
  }

  ghost predicate SwapTokensOf(g: Setup, x: Packet, p: Packet, q0: Packet, q1: Packet) {
    && q0.kind == ReplyDrop && q1.kind == ReplyDrop
    && TokenOf(g, q0) == TokenOf(g, x) && TokenOf(g, q1) == TokenOf(g, p)
    && TokenOf(g, q1) == Counterpart(TokenOf(g, q0))
  }

  lemma SwapPair(g: Setup, w: World, i: nat, v: nat) returns (q0: Packet, q1: Packet)
    requires ValidSetup(g) && Enabled(g, w, Deliver(i, v)) && w.flight[i].isDest && w.flight[i].kind == DropMsg
    requires SlotOf(w.flight[i]) in w.hosts[v].drops
    requires var x := w.hosts[v].drops[SlotOf(w.flight[i])];
             && x.kind == DropMsg && Carries(g, w.socks, x) && Carries(g, w.socks, w.flight[i])
             && SlotOf(x) == SlotOf(w.flight[i]) && TokenOf(g, x) != TokenOf(g, w.flight[i])
    ensures var p, h := w.flight[i], w.hosts[v];
            && SwapTokensOf(g, h.drops[SlotOf(p)], p, q0, q1)
            && After(g, w, Deliver(i, v)) ==
               w.(hosts := SwapHosts(w.hosts, v, SlotOf(p)),
                  flight := SwapFlight(w.flight, w.next, i, q0, q1), next := w.next + 2)
  {
    AfterSecond(g, w, i, v);
    var p := w.flight[i];
    var x := w.hosts[v].drops[SlotOf(p)];
    CrossedReplies(g, w.socks, v, x, p);
    var o := PairFor(x, p);
    q0, q1 := Route(g.m, g.tables[v], o[0]), Route(g.m, g.tables[v], o[1]);
  }

  // -------- sending --------

  lemma PacketsGrow(g: Setup, w: World, socks': map<End, Sock>)
    requires PacketsOk(g, w)
    requires forall e :: e in w.socks ==> e in socks' && w.socks[e].sent <= socks'[e].sent
    ensures PacketsOk(g, w.(socks := socks'))
  {
  }

  // The packet of a new payload names its sender and the dead drop of its sequence number.
  lemma OfferedFlies(g: Setup, e: End, s: Sock, payload: Payload, socks': map<End, Sock>)
    requires ValidSetup(g) && e.session in g.sessions && |g.tables[NodeOf(g, e)].fingers| > 0
    requires s.seqNo == |s.sent| && s.seed == SeedAt(g.sessions[e.session].seed, |s.sent|)
    requires e in socks' && socks'[e].sent == s.sent + [payload]
    ensures var q := Route(g.m, g.tables[NodeOf(g, e)], Offered(g.m, e, NodeOf(g, e), s, payload));
            Flies(g, socks', q) && TokenOf(g, q) == Token(e, |s.sent|) && q.kind == DropMsg
  {
    RouteOnCourse(g, NodeOf(g, e), Offered(g.m, e, NodeOf(g, e), s, payload));
    assert SeedAt(g.sessions[e.session].seed, |s.sent| + 1) == NextSeed(s.seed);
  }

  lemma AfterSend(g: Setup, w: World, e: End, payload: Payload)
    requires ValidSetup(g) && Enabled(g, w, Send(e, payload))
    ensures |g.tables[NodeOf(g, e)].fingers| > 0
    ensures var s := w.socks[e];
            var q := Route(g.m, g.tables[NodeOf(g, e)], Offered(g.m, e, NodeOf(g, e), s, payload));
            After(g, w, Send(e, payload)) ==
            World(w.hosts, w.flight[w.next := q], w.next + 1,
                  w.socks[e := Sock(NextSeed(s.seed), s.seqNo + 1, s.sent + [payload])])
  {
    TableShape(g, NodeOf(g, e));
    var q := Route(g.m, g.tables[NodeOf(g, e)], Offered(g.m, e, NodeOf(g, e), w.socks[e], payload));
    LaunchIs(w.flight, w.next, [q]);
  }

  // A socket that has sent one more payload, and the packet it made.
  lemma SendKeeps(g: Setup, w: World, loc: map<Token, Place>, e: End, payload: Payload, q: Packet,
                  socks': map<End, Sock>)
    requires Inv(g, w, loc) && e in w.socks && q.kind == DropMsg && TokenOf(g, q) == Token(e, |w.socks[e].sent|)
    requires var s := w.socks[e]; socks' == w.socks[e := Sock(NextSeed(s.seed), s.seqNo + 1, s.sent + [payload])]
    requires Flies(g, socks', q)
    ensures Inv(g, World(w.hosts, w.flight[w.next := q], w.next + 1, socks'), loc[TokenOf(g, q) := Flying(w.next)])
  {
    var w' := World(w.hosts, w.flight[w.next := q], w.next + 1, socks');
    var t := Token(e, |w.socks[e].sent|);
    PacketsGrow(g, w, socks');
    SendPackets(g, w.(socks := socks'), q);
    assert !Sent(w, t);
    SendLocated(Tok(g), w.hosts, w.flight, w.next, loc, q);
    forall u ensures u in loc[t := Flying(w.next)] <==> Sent(w', u) {
      assert u in loc <==> Sent(w, u);
    }
  }

  lemma SendInv(g: Setup, w: World, loc: map<Token, Place>, e: End, payload: Payload) returns (loc': map<Token, Place>)
    requires Inv(g, w, loc) && Enabled(g, w, Send(e, payload))
    ensures Inv(g, After(g, w, Send(e, payload)), loc')
  {
    AfterSend(g, w, e, payload);
    var s := w.socks[e];
    var q := Route(g.m, g.tables[NodeOf(g, e)], Offered(g.m, e, NodeOf(g, e), s, payload));
    var socks' := w.socks[e := Sock(NextSeed(s.seed), s.seqNo + 1, s.sent + [payload])];
    OfferedFlies(g, e, s, payload, socks');
    SendKeeps(g, w, loc, e, payload, q, socks');
    loc' := loc[TokenOf(g, q) := Flying(w.next)];
  }

  lemma SendPackets(g: Setup, w: World, q: Packet)
    requires PacketsOk(g, w) && Flies(g, w.socks, q)
    ensures PacketsOk(g, w.(flight := w.flight[w.next := q], next := w.next + 1))
  {
  }

  // -------- runs --------

  ghost predicate IsRun(g: Setup, ws: seq<World>, steps: seq<Step>) {
    && ValidSetup(g) && |ws| == |steps| + 1 && Initial(g, ws[0])
    && forall i :: 0 <= i < |steps| ==> Enabled(g, ws[i], steps[i]) && ws[i + 1] == After(g, ws[i], steps[i])
  }

  lemma {:induction false} RunInv(g: Setup, ws: seq<World>, steps: seq<Step>, j: nat) returns (loc: map<Token, Place>)
    requires IsRun(g, ws, steps) && j < |ws|
    ensures Inv(g, ws[j], loc)
  {
    if j == 0 {
      loc := map[];
    } else {
      var before := RunInv(g, ws, steps, j - 1);
      match steps[j - 1]
      case Send(e, payload) => loc := SendInv(g, ws[j - 1], before, e, payload);
      case Deliver(i, v) => loc := DeliverInv(g, ws[j - 1], before, i, v);
    }
  }

  ghost predicate Holds(w: World, v: nat, k: int, t: Token)
    requires v in w.hosts
  {
    0 <= k < |w.hosts[v].inbox| && w.hosts[v].inbox[k].session == t.end.session && w.hosts[v].inbox[k].index == t.n
  }

  // Whatever an end's node has received for an exchange is the other end's payload of that
  // exchange, and it has received it at most once.
  lemma OnlyTheOthersPayload(g: Setup, ws: seq<World>, steps: seq<Step>, j: nat, t: Token, k: nat)
    requires IsRun(g, ws, steps) && j < |ws| && t.end.session in g.sessions
    requires NodeOf(g, Counterpart(t).end) in ws[j].hosts && Holds(ws[j], NodeOf(g, Counterpart(t).end), k, t)
    ensures var w, v := ws[j], NodeOf(g, Counterpart(t).end);
            && Sent(w, t) && w.hosts[v].inbox[k].payload == w.socks[t.end].sent[t.n]
            && forall k' :: Holds(w, v, k', t) ==> k' == k
  {
    var loc := RunInv(g, ws, steps, j);
    var w, v := ws[j], NodeOf(g, Counterpart(t).end);
    forall k' | Holds(w, v, k', t)
      ensures TokenOf(g, w.hosts[v].inbox[k']) == t && Carries(g, w.socks, w.hosts[v].inbox[k'])
      ensures At(loc, t, Received(v, k'))
    {
      var p := w.hosts[v].inbox[k'];
      assert Arrived(g, w.socks, v, p);
      assert At(loc, Tok(g)(p), Received(v, k'));
    }
    assert Holds(w, v, k, t);
  }

  lemma ReceivedAtQuiet(g: Setup, w: World, loc: map<Token, Place>, t: Token)
    requires Inv(g, w, loc) && w.flight == map[] && t in loc && Counterpart(t) in loc
    ensures loc[t].Received?
  {
    var u := Counterpart(t);
    assert PairOk(loc, t) && PairOk(loc, u) && Counterpart(u) == t;
    assert PlaceOk(Tok(g), w.hosts, w.flight, t, loc[t]) && PlaceOk(Tok(g), w.hosts, w.flight, u, loc[u]);
    NotBothStored(g, w, loc, t);
  }

  // When nothing is left in flight, every payload whose counterpart has been sent too is in
  // the other end's receive queue, exactly once and unchanged.
  lemma Delivered(g: Setup, ws: seq<World>, steps: seq<Step>, j: nat, t: Token) returns (k: nat)
    requires IsRun(g, ws, steps) && j < |ws| && ws[j].flight == map[]
    requires t.end.session in g.sessions && Sent(ws[j], t) && Sent(ws[j], Counterpart(t))
    ensures var w, v := ws[j], NodeOf(g, Counterpart(t).end);
            && v in w.hosts && Holds(w, v, k, t)
            && w.hosts[v].inbox[k].payload == w.socks[t.end].sent[t.n]
            && forall k' :: Holds(w, v, k', t) ==> k' == k
  {
    var loc := RunInv(g, ws, steps, j);
    var w := ws[j];
    ReceivedAtQuiet(g, w, loc, t);
    k := loc[t].k;
    assert PlaceOk(Tok(g), w.hosts, w.flight, t, loc[t]);
    assert Arrived(g, w.socks, loc[t].v, w.hosts[loc[t].v].inbox[k]);
    OnlyTheOthersPayload(g, ws, steps, j, t, k);
  }

  lemma StoredWhere(g: Setup, w: World, loc: map<Token, Place>, t: Token)
    requires Inv(g, w, loc) && t in loc && loc[t].Stored?
    ensures t.end.session in g.sessions && loc[t].s == (t.end.session, t.n)
    ensures IsFirst(Pow2(g.m), g.tables.Keys, DropKey(g, t.end.session, t.n), loc[t].v)
  {
    var Stored(v, s) := loc[t];
    assert PlaceOk(Tok(g), w.hosts, w.flight, t, loc[t]);
    assert DropHeld(g, w.socks, v, s, w.hosts[v].drops[s]);
  }

  lemma NotBothStored(g: Setup, w: World, loc: map<Token, Place>, t: Token)
    requires Inv(g, w, loc) && t in loc && Counterpart(t) in loc
    ensures !(loc[t].Stored? && loc[Counterpart(t)].Stored?)
  {
    var u := Counterpart(t);
    if loc[t].Stored? && loc[u].Stored? {
      StoredWhere(g, w, loc, t);
      StoredWhere(g, w, loc, u);
      FirstUnique(Pow2(g.m), g.tables.Keys, DropKey(g, t.end.session, t.n), loc[t].v, loc[u].v);
    }
  }

  // A payload whose counterpart has not been sent waits, when nothing is in flight, in its
  // slot at the first node at or after the key the generator names.
  lemma LonePayloadWaits(g: Setup, ws: seq<World>, steps: seq<Step>, j: nat, t: Token)
    requires IsRun(g, ws, steps) && j < |ws| && ws[j].flight == map[]
    requires t.end.session in g.sessions && Sent(ws[j], t) && !Sent(ws[j], Counterpart(t))
    ensures exists v :: v in ws[j].hosts && IsFirst(Pow2(g.m), g.tables.Keys, DropKey(g, t.end.session, t.n), v)
              && (t.end.session, t.n) in ws[j].hosts[v].drops
              && ws[j].hosts[v].drops[(t.end.session, t.n)].payload == ws[j].socks[t.end].sent[t.n]
  {
    var loc := RunInv(g, ws, steps, j);
    var w := ws[j];
    assert t in loc && PairOk(loc, t) && PlaceOk(Tok(g), w.hosts, w.flight, t, loc[t]);
    StoredWhere(g, w, loc, t);
    var Stored(v, s) := loc[t];
    assert DropHeld(g, w.socks, v, s, w.hosts[v].drops[s]);
  }

  // -------- progress --------

  // How much work a packet in flight still stands for.
  ghost function Weight(g: Setup, p: Packet): (x: nat)
    ensures x > 0
  {
    var n := Pow2(g.m);
    (if p.kind == DropMsg then 2 * n + 2 else 0) +
    (if p.isDest || p.dest.id >= n || p.key.id >= n then 1 else 2 + Dist(n, p.dest.id, p.key.id))
  }

  // The work of the packets numbered below `k`.
  ghost function Potential(g: Setup, flight: map<nat, Packet>, k: nat): (x: nat) {
    if k == 0 then 0 else Potential(g, flight, k - 1) + if k - 1 in flight then Weight(g, flight[k - 1]) else 0
  }

  lemma {:induction false} PotentialWithout(g: Setup, flight: map<nat, Packet>, i: nat, k: nat)
    requires i in flight
    ensures Potential(g, flight - {i}, k) == Potential(g, flight, k) - if i < k then Weight(g, flight[i]) else 0
  {
    if k > 0 {
      PotentialWithout(g, flight, i, k - 1);
    }
  }

  lemma {:induction false} PotentialAbove(g: Setup, flight: map<nat, Packet>, i: nat, p: Packet, k: nat)
    requires k <= i
    ensures Potential(g, flight[i := p], k) == Potential(g, flight, k)
  {
    if k > 0 {
      PotentialAbove(g, flight, i, p, k - 1);
    }
  }

  lemma PotentialLaunch(g: Setup, flight: map<nat, Packet>, next: nat, ps: seq<Packet>)
    requires |ps| <= 2
    ensures Potential(g, Launch(flight, next, ps), next + |ps|) == Potential(g, flight, next)
              + (if |ps| > 0 then Weight(g, ps[0]) else 0) + (if |ps| > 1 then Weight(g, ps[1]) else 0)
  {
    LaunchIs(flight, next, ps);
    if |ps| > 0 {
      PotentialAbove(g, flight, next, ps[0], next);
      assert Potential(g, flight[next := ps[0]], next + 1) == Potential(g, flight, next) + Weight(g, ps[0]);
    }
    if |ps| > 1 {
      PotentialAbove(g, flight[next := ps[0]], next + 1, ps[1], next + 1);
    }
  }

  lemma SentIsLighter(g: Setup, socks: map<End, Sock>, v: nat, h: Host, p: Packet)
    requires ValidSetup(g) && v in g.tables && |g.tables[v].fingers| > 0 && Flies(g, socks, p) && p.dest.id == v
    ensures var ps := Process(g.m, g.tables[v], h, p).sent;
            && |ps| <= 2
            && (if |ps| > 0 then Weight(g, ps[0]) else 0) + (if |ps| > 1 then Weight(g, ps[1]) else 0) < Weight(g, p)
  {
    TableShape(g, v);
    if !p.isDest {
      RouteOnCourse(g, v, Onward(p));
    }
  }

  lemma LessWork(g: Setup, w: World, i: nat, v: nat)
    requires ValidSetup(g) && PacketsOk(g, w) && Enabled(g, w, Deliver(i, v)) && i < w.next
    ensures var w' := After(g, w, Deliver(i, v));
            Potential(g, w'.flight, w'.next) < Potential(g, w.flight, w.next)
  {
    ReachesDest(g, w, i, v);
    TableShape(g, v);
    var ps := Process(g.m, g.tables[v], w.hosts[v], w.flight[i]).sent;
    SentIsLighter(g, w.socks, v, w.hosts[v], w.flight[i]);
    PotentialWithout(g, w.flight, i, w.next);
    PotentialLaunch(g, w.flight - {i}, w.next, ps);
  }

  // Every delivery of every run uses up work, so a network that loses nothing falls quiet
  // after finitely many deliveries whatever their order.
  lemma DeliveryProgress(g: Setup, ws: seq<World>, steps: seq<Step>, j: nat)
    requires IsRun(g, ws, steps) && j < |steps| && steps[j].Deliver?
    ensures Potential(g, ws[j + 1].flight, ws[j + 1].next) < Potential(g, ws[j].flight, ws[j].next)
  {
    var loc := RunInv(g, ws, steps, j);
    var w, i := ws[j], steps[j].i;
    assert At(loc, Tok(g)(w.flight[i]), Aloft(w.flight[i], i));
    LessWork(g, w, i, steps[j].v);
  }

  // And as long as anything is in flight, it can be delivered.
  lemma DeliveryPossible(g: Setup, ws: seq<World>, steps: seq<Step>, j: nat, i: nat)
    requires IsRun(g, ws, steps) && j < |ws| && i in ws[j].flight
    ensures Enabled(g, ws[j], Deliver(i, ws[j].flight[i].dest.id))
  {
    var loc := RunInv(g, ws, steps, j);
    assert Flies(g, ws[j].socks, ws[j].flight[i]);
  }

  // The second run is the first and then deliveries alone.
  ghost predicate ByDeliveries(ws: seq<World>, steps: seq<Step>, ws': seq<World>, steps': seq<Step>) {
    && ws <= ws' && steps <= steps'
    && forall i :: |steps| <= i < |steps'| ==> steps'[i].Deliver?
  }

  lemma RunExtends(g: Setup, ws: seq<World>, steps: seq<Step>, st: Step)
    requires IsRun(g, ws, steps) && Enabled(g, ws[|steps|], st)
    ensures IsRun(g, ws + [After(g, ws[|steps|], st)], steps + [st])
  {
    var ws', steps' := ws + [After(g, ws[|steps|], st)], steps + [st];
    forall i | 0 <= i < |steps'| ensures Enabled(g, ws'[i], steps'[i]) && ws'[i + 1] == After(g, ws'[i], steps'[i]) {
      if i < |steps| {
        assert ws'[i] == ws[i] && ws'[i + 1] == ws[i + 1] && steps'[i] == steps[i];
      }
    }
  }

  // Every run goes on by deliveries alone to one with nothing in flight.
  lemma {:induction false} RunFallsQuiet(g: Setup, ws: seq<World>, steps: seq<Step>)
    returns (ws': seq<World>, steps': seq<Step>)
    requires IsRun(g, ws, steps)
    ensures IsRun(g, ws', steps') && ByDeliveries(ws, steps, ws', steps')
    ensures ws'[|steps'|].flight == map[] && ws'[|steps'|].socks == ws[|steps|].socks
    decreases Potential(g, ws[|steps|].flight, ws[|steps|].next)
  {
    var w := ws[|steps|];
    if w.flight == map[] {
      ws', steps' := ws, steps;
    } else {
      var i :| i in w.flight;
      var st := Deliver(i, w.flight[i].dest.id);
      DeliveryPossible(g, ws, steps, |steps|, i);
      RunExtends(g, ws, steps, st);
      DeliveryProgress(g, ws + [After(g, w, st)], steps + [st], |steps|);
      ws', steps' := RunFallsQuiet(g, ws + [After(g, w, st)], steps + [st]);
    }
  }

  // The node of the other end holds the payload of t, unchanged and once.
  ghost predicate HasReceived(g: Setup, w: World, t: Token) {
    && t.end.session in g.sessions && Sent(w, t)
    && var v := NodeOf(g, Counterpart(t).end);
       && v in w.hosts
       && exists k :: Holds(w, v, k, t) && w.hosts[v].inbox[k].payload == w.socks[t.end].sent[t.n]
                      && forall k' :: Holds(w, v, k', t) ==> k' == k
  }

  // So once both ends have sent their n-th payloads, each can be brought to the other by
  // deliveries alone, whatever else has happened.
  lemma ExchangeCompletes(g: Setup, ws: seq<World>, steps: seq<Step>, t: Token)
    returns (ws': seq<World>, steps': seq<Step>)
    requires IsRun(g, ws, steps) && t.end.session in g.sessions
    requires Sent(ws[|steps|], t) && Sent(ws[|steps|], Counterpart(t))
    ensures IsRun(g, ws', steps') && ByDeliveries(ws, steps, ws', steps')
    ensures HasReceived(g, ws'[|steps'|], t) && HasReceived(g, ws'[|steps'|], Counterpart(t))
  {
    ws', steps' := RunFallsQuiet(g, ws, steps);
    var k := Delivered(g, ws', steps', |steps'|, t);
    assert Counterpart(Counterpart(t)) == t;
    var l := Delivered(g, ws', steps', |steps'|, Counterpart(t));
  }
}
