/**
  Finite paths of a step relation.
 */
module Paths {

  // The steps, each allowed by `moves`, lead from one state to the other.
  ghost predicate Path<W(!new), E>(moves: (W, E, W) -> bool, w: W, es: seq<E>, w': W)
    decreases |es|
  {
    if es == [] then w' == w else exists u :: moves(w, es[0], u) && Path(moves, u, es[1..], w')
  }

  lemma {:induction false} PathConcat<W(!new), E>(moves: (W, E, W) -> bool, w: W, es: seq<E>, v: W, fs: seq<E>, u: W)
    requires Path(moves, w, es, v) && Path(moves, v, fs, u)
    ensures Path(moves, w, es + fs, u)
    decreases |es|
  {
    if es == [] {
      assert es + fs == fs;
    } else {
      var x :| moves(w, es[0], x) && Path(moves, x, es[1..], v);
      PathConcat(moves, x, es[1..], v, fs, u);
      assert (es + fs)[1..] == es[1..] + fs;
    }
  }

  lemma PathOfOne<W(!new), E>(moves: (W, E, W) -> bool, w: W, e: E, w': W)
    requires moves(w, e, w')
    ensures Path(moves, w, [e], w')
  {
    assert Path(moves, w', [e][1..], w');
  }

  // Some steps lead to a state with the property.
  ghost predicate CanReach<W(!new), E(!new)>(moves: (W, E, W) -> bool, w: W, goal: W -> bool) {
    exists es: seq<E>, w' :: Path(moves, w, es, w') && goal(w')
  }

  lemma ReachedAlready<W(!new), E(!new)>(moves: (W, E, W) -> bool, w: W, goal: W -> bool)
    requires goal(w)
    ensures CanReach(moves, w, goal)
  {
    var none: seq<E> := [];
    assert Path(moves, w, none, w);
  }

  lemma ReachByStep<W(!new), E(!new)>(moves: (W, E, W) -> bool, w: W, e: E, u: W, goal: W -> bool)
    requires moves(w, e, u) && CanReach(moves, u, goal)
    ensures CanReach(moves, w, goal)
  {
    var es: seq<E>, w' :| Path(moves, u, es, w') && goal(w');
    PathOfOne(moves, w, e, u);
    PathConcat(moves, w, [e], u, es, w');
  }

  lemma ReachThen<W(!new), E(!new)>(moves: (W, E, W) -> bool, w: W, half: W -> bool, goal: W -> bool)
    requires CanReach(moves, w, half) && forall u :: half(u) ==> CanReach(moves, u, goal)
    ensures CanReach(moves, w, goal)
  {
    var es: seq<E>, u :| Path(moves, w, es, u) && half(u);
    var fs: seq<E>, w' :| Path(moves, u, fs, w') && goal(w');
    PathConcat(moves, w, es, u, fs, w');
  }

  lemma ReachWeaker<W(!new), E(!new)>(moves: (W, E, W) -> bool, w: W, strong: W -> bool, goal: W -> bool)
    requires CanReach(moves, w, strong) && forall u :: strong(u) ==> goal(u)
    ensures CanReach(moves, w, goal)
  {
    var es: seq<E>, w' :| Path(moves, w, es, w') && strong(w');
  }

  // One member of a set after the other.
  lemma {:induction false} ReachAll<W(!new), E(!new)>(moves: (W, E, W) -> bool, w: W, stage: set<nat> -> W -> bool,
                                                      done: set<nat>, left: set<nat>)
    requires stage(done)(w)
    requires forall v, d, u :: v in left && stage(d)(u) ==> CanReach(moves, u, stage(d + {v}))
    ensures CanReach(moves, w, stage(done + left))
    decreases |left|
  {
    if left == {} {
      assert done + left == done;
      ReachedAlready(moves, w, stage(done));
    } else {
      var v :| v in left;
      assert done + {v} + (left - {v}) == done + left;
      forall u | stage(done + {v})(u) ensures CanReach(moves, u, stage(done + left)) {
        ReachAll(moves, u, stage, done + {v}, left - {v});
      }
      ReachThen(moves, w, stage(done + {v}), stage(done + left));
    }
  }

  lemma {:induction false} PathMoreWays<W(!new), E>(few: (W, E, W) -> bool, many: (W, E, W) -> bool, w: W,
                                                    es: seq<E>, w': W)
    requires Path(few, w, es, w') && forall a, e, b :: few(a, e, b) ==> many(a, e, b)
    ensures Path(many, w, es, w')
    decreases |es|
  {
    if es != [] {
      var u :| few(w, es[0], u) && Path(few, u, es[1..], w');
      PathMoreWays(few, many, u, es[1..], w');
    }
  }

  lemma ReachMoreWays<W(!new), E(!new)>(few: (W, E, W) -> bool, many: (W, E, W) -> bool, w: W, goal: W -> bool)
    requires CanReach(few, w, goal) && forall a, e, b :: few(a, e, b) ==> many(a, e, b)
    ensures CanReach(many, w, goal)
  {
    var es: seq<E>, w' :| Path(few, w, es, w') && goal(w');
    PathMoreWays(few, many, w, es, w');
  }
}
