/**
  The routing simulator. With a power of two of users a message takes as many hops as there are
  one bits in its ring distance, and no step of the simulation loses or invents a message.
 */
module Simulator {
  import opened Ring

  // -------- routing --------

  predicate InBand(users: nat, left: nat, right: nat, val: nat) {
    if left < right then left <= val < right else left <= val < users || val < right
  }

  // The band between two neighbours of a user is a band of distances from the user.
  lemma BandIsDistance(n: nat, id: nat, left: nat, right: nat, val: nat)
    requires id < n && left < n && right < n && val < n
    requires 0 < Dist(n, id, left) < Dist(n, id, right)
    ensures InBand(n, left, right, val) <==> Dist(n, id, left) <= Dist(n, id, val) < Dist(n, id, right)
  {
  }

  // The place of the highest one bit.
  function TopBit(d: nat): (k: nat)
    requires d > 0
    ensures Pow2(k) <= d < Pow2(k + 1)
  {
    if d == 1 then 0 else 1 + TopBit(d / 2)
  }

  function Ones(d: nat): (n: nat) {
    if d == 0 then 0 else d % 2 + Ones(d / 2)
  }

  lemma {:induction false} TopBitUnique(d: nat, k: nat)
    requires Pow2(k) <= d < Pow2(k + 1)
    ensures TopBit(d) == k
  {
    if k < TopBit(d) {
      Pow2Monotone(k + 1, TopBit(d));
    } else if TopBit(d) < k {
      Pow2Monotone(TopBit(d) + 1, k);
    }
  }

  lemma {:induction false} OnesWithoutTop(d: nat)
    requires d > 0
    ensures Ones(d) == 1 + Ones(d - Pow2(TopBit(d)))
  {
    if d > 1 {
      OnesWithoutTop(d / 2);
      var rest := d / 2 - Pow2(TopBit(d / 2));
      assert d - Pow2(TopBit(d)) == 2 * rest + d % 2;
      assert (2 * rest + d % 2) / 2 == rest && (2 * rest + d % 2) % 2 == d % 2;
    }
  }

  // The neighbour a user sends a message to.
  function Index(c: nat, id: nat, dest: nat): (k: nat)
    requires 0 < c && id < Pow2(c) && dest < Pow2(c)
    ensures k < c
  {
    var d := Dist(Pow2(c), id, dest);
    if d == 0 then c - 1 else TopBelow(d, c); TopBit(d)
  }

  lemma TopBelow(d: nat, c: nat)
    requires 0 < d < Pow2(c)
    ensures TopBit(d) < c
  {
  }

  function NextUser(c: nat, id: nat, dest: nat): (r: nat)
    requires 0 < c && id < Pow2(c) && dest < Pow2(c)
    ensures r < Pow2(c) && r != id
  {
    Start(c, id, Index(c, id, dest))
  }

  // The source's neighbour table.
  method Init(c: nat, id: nat) returns (neighbours: seq<nat>)
    requires id < Pow2(c)
    ensures |neighbours| == c && forall i :: 0 <= i < c ==> neighbours[i] == Start(c, id, i)
  {
    neighbours := [];
    for i := 0 to c
      invariant |neighbours| == i && forall k :: 0 <= k < i ==> neighbours[k] == Start(c, id, k)
    {
      StartIsModulo(c, id, i);
      neighbours := neighbours + [(id + Pow2(i)) % Pow2(c)];
    }
  }

  method GetIdx(c: nat, id: nat, neighbours: seq<nat>, dest: nat) returns (idx: nat)
    requires 0 < c && id < Pow2(c) && dest < Pow2(c)
    requires |neighbours| == c && forall i :: 0 <= i < c ==> neighbours[i] == Start(c, id, i)
    ensures idx == Index(c, id, dest)
  {
    var n := Pow2(c);
    ghost var d := Dist(n, id, dest);
    idx := c - 1;
    var i := c - 1;
    while i > 0
      invariant 0 <= i < c
      invariant d == 0 || d < Pow2(i) || Pow2(c - 1) <= d
    {
      i := i - 1;
      Pow2Monotone(i + 1, c - 1);
      Pow2Monotone(c - 1, c);
      BandIsDistance(n, id, neighbours[i], neighbours[i + 1], dest);
      if InBand(n, neighbours[i], neighbours[i + 1], dest) {
        TopBitUnique(d, i);
        return i;
      }
    }
    if d > 0 {
      TopBitUnique(d, c - 1);
    }
  }

  // How many times a message is sent before its destination receives it.
  function Hops(c: nat, id: nat, dest: nat): (h: nat)
    requires 0 < c && id < Pow2(c) && dest < Pow2(c)
    decreases if id == dest then Pow2(c) else Dist(Pow2(c), id, dest)
  {
    var next := NextUser(c, id, dest);
    HopShortens(c, id, dest);
    if next == dest then 1 else 1 + Hops(c, next, dest)
  }

  lemma HopShortens(c: nat, id: nat, dest: nat)
    requires 0 < c && id < Pow2(c) && dest < Pow2(c)
    ensures var next, d := NextUser(c, id, dest), Dist(Pow2(c), id, dest);
      Dist(Pow2(c), next, dest) == if d == 0 then Pow2(c - 1) else d - Pow2(TopBit(d))
  {
  }

  // To another user a message takes as many hops as there are ones in the distance.
  lemma {:induction false} HopsAreOnes(c: nat, id: nat, dest: nat)
    requires 0 < c && id < Pow2(c) && dest < Pow2(c) && id != dest
    ensures Hops(c, id, dest) == Ones(Dist(Pow2(c), id, dest))
    decreases Dist(Pow2(c), id, dest)
  {
    var n, next := Pow2(c), NextUser(c, id, dest);
    HopShortens(c, id, dest);
    OnesWithoutTop(Dist(n, id, dest));
    if next != dest {
      HopsAreOnes(c, next, dest);
    }
  }

  // A message to oneself goes out and comes back.
  lemma HopsToSelf(c: nat, id: nat)
    requires 0 < c && id < Pow2(c)
    ensures Hops(c, id, id) == 2
  {
    var n, next := Pow2(c), NextUser(c, id, id);
    HopShortens(c, id, id);
    HopsAreOnes(c, next, id);
    OnesOfPower(c - 1);
  }

  lemma {:induction false} OnesOfPower(k: nat)
    ensures Ones(Pow2(k)) == 1
  {
    if k > 0 {
      OnesOfPower(k - 1);
    }
  }

  // -------- conservation --------

  // The user a message comes from is kept for the statements about its way; the source has no
  // such field.
  datatype Msg = Msg(dest: nat, step: nat, t: nat, from: nat)

  datatype User = User(recvMessages: seq<Msg>, sendQueue: seq<Msg>, msgCount: int, recvCount: int, latencies: int)

  // A message is known by its two ends and the step it was emitted in.
  datatype Mark = Mark(dest: nat, t: nat, from: nat)

  function MarkOf(m: Msg): (x: Mark) {
    Mark(m.dest, m.t, m.from)
  }

  function One(m: Msg, x: Mark): (k: nat) {
    if MarkOf(m) == x then 1 else 0
  }

  // How many messages with a mark a queue holds.
  function Count(s: seq<Msg>, x: Mark): (k: nat) {
    if s == [] then 0 else Count(s[..|s| - 1], x) + One(s[|s| - 1], x)
  }

  lemma {:induction false} CountConcat(s: seq<Msg>, t: seq<Msg>, x: Mark)
    ensures Count(s + t, x) == Count(s, x) + Count(t, x)
    decreases |t|
  {
    if t == [] {
      assert s + t == s;
    } else {
      var last := |t| - 1;
      assert (s + t)[..|s + t| - 1] == s + t[..last];
      CountConcat(s, t[..last], x);
    }
  }

  lemma CountFirst(s: seq<Msg>, x: Mark)
    requires s != []
    ensures Count(s, x) == One(s[0], x) + Count(s[1..], x)
  {
    assert s == [s[0]] + s[1..];
    assert [s[0]][..0] == [];
    CountConcat([s[0]], s[1..], x);
  }

  // Messages passed on, each counted one step further.
  function Forwarded(s: seq<Msg>): (r: seq<Msg>)
    ensures |r| == |s|
  {
    seq(|s|, i requires 0 <= i < |s| => s[i].(step := s[i].step + 1))
  }

  lemma {:induction false} ForwardedCount(s: seq<Msg>, x: Mark)
    ensures Count(Forwarded(s), x) == Count(s, x)
  {
    if s != [] {
      var last := |s| - 1;
      ForwardedCount(s[..last], x);
      assert Forwarded(s)[..last] == Forwarded(s[..last]);
    }
  }

  function CountBy(u: User, x: Mark): (k: nat) {
    Count(u.recvMessages, x) + Count(u.sendQueue, x)
  }

  function Held(users: seq<User>, x: Mark): (k: nat) {
    if users == [] then 0 else CountBy(users[0], x) + Held(users[1..], x)
  }

  lemma {:induction false} HeldUpdate(users: seq<User>, i: nat, u: User, x: Mark)
    requires i < |users|
    ensures Held(users[i := u], x) == Held(users, x) - CountBy(users[i], x) + CountBy(u, x)
  {
    var v := users[i := u];
    if i == 0 {
      assert v[1..] == users[1..];
    } else {
      assert v[1..] == users[1..][i - 1 := u];
      HeldUpdate(users[1..], i - 1, u, x);
    }
  }

  // -------- the steps on values --------

  function Received(users: seq<User>, i: nat, m: Msg, now: nat): (r: seq<User>)
    requires i < |users|
    ensures |r| == |users|
  {
    var u := users[i];
    users[i := if m.dest == i then u.(recvCount := u.recvCount + 1, latencies := u.latencies + now - m.t)
               else u.(recvMessages := u.recvMessages + [m])]
  }

  function Popped(u: User): (r: User)
    requires u.sendQueue != []
  {
    u.(sendQueue := u.sendQueue[1..], msgCount := u.msgCount - 1)
  }

  function Emitting(u: User, m: Msg): (r: User) {
    u.(recvMessages := [],
       sendQueue := u.sendQueue + [m] + Forwarded(u.recvMessages),
       msgCount := u.msgCount + 1 + |u.recvMessages|)
  }

  lemma ReceivedHeld(users: seq<User>, i: nat, m: Msg, now: nat, x: Mark)
    requires i < |users|
    ensures Held(Received(users, i, m, now), x) == Held(users, x) + if m.dest == i then 0 else One(m, x)
  {
    HeldUpdate(users, i, Received(users, i, m, now)[i], x);
    assert [m][..0] == [];
    CountConcat(users[i].recvMessages, [m], x);
  }

  lemma PoppedHeld(users: seq<User>, i: nat, x: Mark)
    requires i < |users| && users[i].sendQueue != []
    ensures Held(users[i := Popped(users[i])], x) == Held(users, x) - One(users[i].sendQueue[0], x)
  {
    HeldUpdate(users, i, Popped(users[i]), x);
    CountFirst(users[i].sendQueue, x);
  }

  lemma EmittingHeld(users: seq<User>, i: nat, m: Msg, x: Mark)
    requires i < |users|
    ensures Held(users[i := Emitting(users[i], m)], x) == Held(users, x) + One(m, x)
  {
    var u := users[i];
    HeldUpdate(users, i, Emitting(u, m), x);
    assert [m][..0] == [];
    CountConcat(u.sendQueue + [m], Forwarded(u.recvMessages), x);
    CountConcat(u.sendQueue, [m], x);
    ForwardedCount(u.recvMessages, x);
  }

  // What the simulator lets a user hold: messages to real users, none to itself among those received.
  predicate UserOk(n: nat, i: nat, u: User) {
    && u.msgCount == |u.sendQueue|
    && (forall m :: m in u.recvMessages ==> m.dest < n && m.dest != i && m.from < n)
    && (forall m :: m in u.sendQueue ==> m.dest < n && m.from < n)
  }

  lemma EmittingOk(n: nat, i: nat, u: User, m: Msg)
    requires UserOk(n, i, u) && m.dest < n && m.from < n
    ensures UserOk(n, i, Emitting(u, m))
  {
  }

  datatype World = World(c: nat, step: nat, users: seq<User>, emitted: multiset<Mark>, delivered: seq<Msg>)

  datatype Step = Emit(i: nat, dest: nat) | Send(j: nat) | Tick

  ghost predicate Shape(w: World) {
    0 < w.c && |w.users| == Pow2(w.c) && forall i :: 0 <= i < |w.users| ==> UserOk(|w.users|, i, w.users[i])
  }

  predicate Enabled(w: World, s: Step) {
    match s
    case Emit(i, dest) => i < |w.users| && dest < |w.users|
    case Send(j) => j < |w.users|
    case Tick => true
  }

  ghost function After(w: World, s: Step): (r: World)
    requires Shape(w) && Enabled(w, s)
  {
    match s
    case Emit(i, dest) =>
      var m := Msg(dest, 0, w.step, i);
      w.(users := w.users[i := Emitting(w.users[i], m)], emitted := w.emitted + multiset{MarkOf(m)})
    case Send(j) =>
      if w.users[j].sendQueue == [] then w
      else
        var m := w.users[j].sendQueue[0];
        var next := NextUser(w.c, j, m.dest);
        var after := Received(w.users, next, m, w.step);
        w.(users := after[j := Popped(after[j])],
           delivered := if m.dest == next then w.delivered + [m] else w.delivered)
    case Tick => w.(step := w.step + 1)
  }

  // Every emitted message has been delivered or is held by exactly one user.
  ghost predicate Conserved(w: World) {
    forall x: Mark :: w.emitted[x] == Count(w.delivered, x) + Held(w.users, x)
  }

  lemma StepShape(w: World, s: Step)
    requires Shape(w) && Enabled(w, s)
    ensures Shape(After(w, s))
  {
    match s
    case Emit(i, dest) =>
      EmittingOk(|w.users|, i, w.users[i], Msg(dest, 0, w.step, i));
    case Send(j) =>
    case Tick =>
  }

  lemma StepConserves(w: World, s: Step)
    requires Shape(w) && Enabled(w, s) && Conserved(w)
    ensures Conserved(After(w, s))
  {
    var r := After(w, s);
    forall x: Mark ensures r.emitted[x] == Count(r.delivered, x) + Held(r.users, x) {
      match s
      case Emit(i, dest) =>
        EmittingHeld(w.users, i, Msg(dest, 0, w.step, i), x);
      case Send(j) =>
        if w.users[j].sendQueue != [] {
          var m := w.users[j].sendQueue[0];
          var next := NextUser(w.c, j, m.dest);
          assert [m][..0] == [];
          CountConcat(w.delivered, [m], x);
          ReceivedHeld(w.users, next, m, w.step, x);
          PoppedHeld(Received(w.users, next, m, w.step), j, x);
        }
      case Tick =>
    }
  }

  ghost predicate Kept(w: World) {
    Shape(w) && Conserved(w)
  }

  lemma StepKeeps(w: World, s: Step)
    requires Kept(w) && Enabled(w, s)
    ensures Kept(After(w, s))
  {
    StepShape(w, s);
    StepConserves(w, s);
  }

  function Initial(c: nat): (w: World) {
    World(c, 0, seq(Pow2(c), i => User([], [], 0, 1, 10)), multiset{}, [])
  }

  ghost predicate IsRun(ws: seq<World>, steps: seq<Step>) {
    && |ws| == |steps| + 1
    && forall k :: 0 <= k < |steps| ==> Follows(ws[k], steps[k], ws[k + 1])
  }

  ghost predicate Follows(w: World, s: Step, r: World) {
    Shape(w) ==> Enabled(w, s) && r == After(w, s)
  }

  lemma {:induction false} NothingHeld(users: seq<User>, x: Mark)
    requires forall i :: 0 <= i < |users| ==> users[i].recvMessages == [] && users[i].sendQueue == []
    ensures Held(users, x) == 0
  {
    if users != [] {
      NothingHeld(users[1..], x);
    }
  }

  // In every state of every run no message has been lost or invented.
  lemma {:induction false} RunConserves(c: nat, ws: seq<World>, steps: seq<Step>, k: nat)
    requires 0 < c && IsRun(ws, steps) && ws[0] == Initial(c) && k < |ws|
    ensures Shape(ws[k]) && Conserved(ws[k])
  {
    if k == 0 {
      forall x: Mark ensures Held(ws[0].users, x) == 0 {
        NothingHeld(ws[0].users, x);
      }
    } else {
      RunConserves(c, ws, steps, k - 1);
      assert Follows(ws[k - 1], steps[k - 1], ws[k - 1 + 1]);
      StepShape(ws[k - 1], steps[k - 1]);
      StepConserves(ws[k - 1], steps[k - 1]);
    }
  }

  // -------- the way of every message --------

  // The sends behind a message that user i is about to send and those before it make up its way.
  ghost predicate OnWay(c: nat, i: nat, m: Msg)
    requires 0 < c && i < Pow2(c)
  {
    m.dest < Pow2(c) && m.from < Pow2(c) && m.step + Hops(c, i, m.dest) == Hops(c, m.from, m.dest)
  }

  // One it has received will be counted a step further when it goes on.
  ghost predicate Halfway(c: nat, i: nat, m: Msg)
    requires 0 < c && i < Pow2(c)
  {
    OnWay(c, i, m.(step := m.step + 1))
  }

  ghost predicate WholeWay(c: nat, m: Msg)
    requires 0 < c
  {
    m.dest < Pow2(c) && m.from < Pow2(c) && m.step + 1 == Hops(c, m.from, m.dest)
  }

  ghost predicate UserOnWay(c: nat, i: nat, u: User)
    requires 0 < c && i < Pow2(c)
  {
    && (forall m :: m in u.sendQueue ==> OnWay(c, i, m))
    && (forall m :: m in u.recvMessages ==> Halfway(c, i, m))
  }

  ghost predicate Routed(w: World)
    requires Shape(w)
  {
    && (forall i {:trigger UserOnWay(w.c, i, w.users[i])} :: 0 <= i < |w.users| ==> UserOnWay(w.c, i, w.users[i]))
    && (forall m :: m in w.delivered ==> WholeWay(w.c, m))
  }

  lemma EmittingOnWay(c: nat, i: nat, u: User, m: Msg)
    requires 0 < c && i < Pow2(c) && UserOnWay(c, i, u) && OnWay(c, i, m)
    ensures UserOnWay(c, i, Emitting(u, m))
  {
    forall y | y in Forwarded(u.recvMessages) ensures OnWay(c, i, y) {
      var k :| 0 <= k < |u.recvMessages| && Forwarded(u.recvMessages)[k] == y;
      assert Halfway(c, i, u.recvMessages[k]);
    }
  }

  lemma SentOn(c: nat, i: nat, m: Msg)
    requires 0 < c && i < Pow2(c) && OnWay(c, i, m)
    ensures var next := NextUser(c, i, m.dest); if m.dest == next then WholeWay(c, m) else Halfway(c, next, m)
  {
  }

  lemma ReceivedOnWay(c: nat, users: seq<User>, next: nat, m: Msg, now: nat, i: nat)
    requires 0 < c && |users| == Pow2(c) && next < |users| && i < |users| && UserOnWay(c, i, users[i])
    requires m.dest != next ==> Halfway(c, next, m)
    ensures UserOnWay(c, i, Received(users, next, m, now)[i])
  {
  }

  lemma PoppedOnWay(c: nat, i: nat, u: User)
    requires 0 < c && i < Pow2(c) && UserOnWay(c, i, u) && u.sendQueue != []
    ensures UserOnWay(c, i, Popped(u))
  {
  }

  lemma SendRouted(w: World, j: nat)
    requires Shape(w) && Routed(w) && j < |w.users| && w.users[j].sendQueue != []
    ensures Shape(After(w, Send(j))) && Routed(After(w, Send(j)))
  {
    StepShape(w, Send(j));
    var m := w.users[j].sendQueue[0];
    assert UserOnWay(w.c, j, w.users[j]) && OnWay(w.c, j, m);
    SentOn(w.c, j, m);
    var r, next := After(w, Send(j)), NextUser(w.c, j, m.dest);
    var after := Received(w.users, next, m, w.step);
    forall i | 0 <= i < |r.users| ensures UserOnWay(w.c, i, r.users[i]) {
      assert UserOnWay(w.c, i, w.users[i]);
      ReceivedOnWay(w.c, w.users, next, m, w.step, i);
      if i == j {
        PoppedOnWay(w.c, i, after[i]);
      }
    }
  }

  lemma StepRouted(w: World, s: Step)
    requires Shape(w) && Enabled(w, s) && Routed(w)
    ensures Shape(After(w, s)) && Routed(After(w, s))
  {
    StepShape(w, s);
    match s
    case Emit(i, dest) =>
      assert UserOnWay(w.c, i, w.users[i]);
      EmittingOnWay(w.c, i, w.users[i], Msg(dest, 0, w.step, i));
      var r := After(w, s);
      forall k | 0 <= k < |r.users| ensures UserOnWay(w.c, k, r.users[k]) {
        assert UserOnWay(w.c, k, w.users[k]);
      }
    case Send(j) =>
      if w.users[j].sendQueue != [] {
        SendRouted(w, j);
      }
    case Tick =>
      forall k | 0 <= k < |w.users| ensures UserOnWay(w.c, k, w.users[k]) {
      }
  }

  // In every state of every run the sends a message has had and those still before it are
  // together the hops between its two ends.
  lemma {:induction false} RunRouted(c: nat, ws: seq<World>, steps: seq<Step>, k: nat)
    requires 0 < c && IsRun(ws, steps) && ws[0] == Initial(c) && k < |ws|
    ensures Shape(ws[k]) && Routed(ws[k]) && ws[k].c == c
  {
    if k > 0 {
      RunRouted(c, ws, steps, k - 1);
      assert Follows(ws[k - 1], steps[k - 1], ws[k - 1 + 1]);
      StepRouted(ws[k - 1], steps[k - 1]);
    }
  }

  // So every message delivered to another user was sent as often as its distance has ones.
  lemma DeliveredAfterOnes(c: nat, ws: seq<World>, steps: seq<Step>, k: nat, m: Msg)
    requires 0 < c && IsRun(ws, steps) && ws[0] == Initial(c) && k < |ws| && m in ws[k].delivered
    ensures m.from < Pow2(c) && m.dest < Pow2(c)
    ensures m.step + 1 == if m.from == m.dest then 2 else Ones(Dist(Pow2(c), m.from, m.dest))
  {
    RunRouted(c, ws, steps, k);
    assert WholeWay(c, m);
    if m.from == m.dest {
      HopsToSelf(c, m.from);
    } else {
      HopsAreOnes(c, m.from, m.dest);
    }
  }

  // -------- the statistics --------

  // How many of the messages delivered were for user i.
  function DeliveredTo(s: seq<Msg>, i: nat): (k: nat) {
    if s == [] then 0 else DeliveredTo(s[..|s| - 1], i) + if s[|s| - 1].dest == i then 1 else 0
  }

  // The steps the messages for user i had been on their way when each was delivered, in all.
  ghost function Waited(ws: seq<World>, k: nat, i: nat): (t: int)
    requires k < |ws|
  {
    if k == 0 then 0
    else
      var was, now := ws[k - 1], ws[k].delivered;
      Waited(ws, k - 1, i) +
      if now != was.delivered && now != [] && now[|now| - 1].dest == i then was.step - now[|now| - 1].t else 0
  }

  lemma StepAccounts(w: World, s: Step, i: nat)
    requires Shape(w) && Enabled(w, s) && i < |w.users|
    ensures var r := After(w, s);
            var mine := r.delivered != w.delivered && r.delivered != [] && r.delivered[|r.delivered| - 1].dest == i;
            && |r.users| == |w.users|
            && DeliveredTo(r.delivered, i) == DeliveredTo(w.delivered, i) + (if mine then 1 else 0)
            && r.users[i].recvCount == w.users[i].recvCount + (if mine then 1 else 0)
            && r.users[i].latencies
            == w.users[i].latencies + (if mine then w.step - r.delivered[|r.delivered| - 1].t else 0)
  {
    match s
    case Emit(_, _) =>
    case Send(j) =>
      if w.users[j].sendQueue != [] {
        var m := w.users[j].sendQueue[0];
        assert (w.delivered + [m])[..|w.delivered|] == w.delivered;
      }
    case Tick =>
  }

  // In every state of every run the counters of a user tell, from their starts at one and ten,
  // the messages delivered to it and the time these took.
  lemma {:induction false} RunAccounts(c: nat, ws: seq<World>, steps: seq<Step>, k: nat, i: nat)
    requires 0 < c && IsRun(ws, steps) && ws[0] == Initial(c) && k < |ws| && i < Pow2(c)
    ensures Shape(ws[k]) && |ws[k].users| == Pow2(c)
    ensures ws[k].users[i].recvCount == 1 + DeliveredTo(ws[k].delivered, i)
    ensures ws[k].users[i].latencies == 10 + Waited(ws, k, i)
  {
    RunConserves(c, ws, steps, k);
    if k > 0 {
      RunConserves(c, ws, steps, k - 1);
      RunAccounts(c, ws, steps, k - 1, i);
      assert Follows(ws[k - 1], steps[k - 1], ws[k - 1 + 1]);
      StepAccounts(ws[k - 1], steps[k - 1], i);
    }
  }

  // -------- the object --------

  class DAESimulator {
    const c: nat
    var step: nat
    var users: seq<User>
    ghost var emitted: multiset<Mark>
    ghost var delivered: seq<Msg>

    ghost function Value(): (w: World)
      reads this
    {
      World(c, step, users, emitted, delivered)
    }

    ghost predicate Valid()
      reads this
    {
      Kept(Value())
    }

    constructor (c: nat)
      requires 0 < c
      ensures Valid() && Value() == Initial(c)
    {
      this.c := c;
      step := 0;
      users := seq(Pow2(c), i => User([], [], 0, 1, 10));
      emitted := multiset{};
      delivered := [];
      new;
      assert Value() == Initial(c);
      RunConserves(c, [Value()], [], 0);
    }

    method RecvMessage(i: nat, m: Msg)
      requires i < |users|
      modifies this`users, this`delivered
      ensures users == Received(old(users), i, m, step)
      ensures delivered == if m.dest == i then old(delivered) + [m] else old(delivered)
    {
      var u := users[i];
      if m.dest == i {
        users := users[i := u.(recvCount := u.recvCount + 1, latencies := u.latencies + step - m.t)];
        delivered := delivered + [m];
        return;
      }
      users := users[i := u.(recvMessages := u.recvMessages + [m])];
    }

    method SendRealMessage(i: nat)
      requires Valid() && i < |users|
      modifies this`users, this`delivered
      ensures Valid()
      ensures Value() == After(old(Value()), Send(i))
    {
      StepKeeps(Value(), Send(i));
      SendFront(i);
    }

    method SendFront(i: nat)
      requires Shape(Value()) && i < |users|
      modifies this`users, this`delivered
      ensures Value() == After(old(Value()), Send(i))
    {
      if users[i].sendQueue != [] {
        var m := users[i].sendQueue[0];
        assert UserOk(|users|, i, users[i]) && m in users[i].sendQueue;
        var neighbours := Init(c, i);
        var idx := GetIdx(c, i, neighbours, m.dest);
        assert neighbours[idx] == NextUser(c, i, m.dest);
        RecvMessage(neighbours[idx], m);
        users := users[i := Popped(users[i])];
      }
    }

    method EmitRealMessage(i: nat, dest: nat)
      requires Valid() && i < |users| && dest < |users|
      modifies this`users, this`emitted
      ensures Valid()
      ensures Value() == After(old(Value()), Emit(i, dest))
    {
      StepKeeps(Value(), Emit(i, dest));
      var u := Requeued(users[i], Msg(dest, 0, step, i));
      users := users[i := u];
      emitted := emitted + multiset{Mark(dest, step, i)};
    }

    // The new message first, then everything received since the last time.
    method Requeued(was: User, m: Msg) returns (u: User)
      ensures u == Emitting(was, m)
    {
      u := was.(sendQueue := was.sendQueue + [m], msgCount := was.msgCount + 1);
      ghost var k := 0;
      while u.recvMessages != []
        invariant 0 <= k <= |was.recvMessages| && u.recvMessages == was.recvMessages[k..]
        invariant u.sendQueue == was.sendQueue + [m] + Forwarded(was.recvMessages)[..k]
        invariant u == was.(recvMessages := u.recvMessages, sendQueue := u.sendQueue, msgCount := was.msgCount + 1 + k)
        decreases |u.recvMessages|
      {
        var first := u.recvMessages[0];
        u := u.(recvMessages := u.recvMessages[1..]);
        u := u.(sendQueue := u.sendQueue + [first.(step := first.step + 1)], msgCount := u.msgCount + 1);
        k := k + 1;
      }
    }
  }
}
