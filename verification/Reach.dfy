/**
 Reachability in a finite directed graph, restricted to a set of live nodes.

 Every cascade of the job queue and the expansion of a job graph walk edges
 through rows that are still eligible.  The set such a walk ends up touching
 is the closure defined here by paths; the lemmas say how a worklist may
 compute it one node at a time.
 */
module Reach {
  type Edges = set<(nat, nat)>

  ghost predicate IsPath(edges: Edges, live: set<nat>, path: seq<nat>) {
    && |path| > 0
    && (forall i | 0 <= i < |path| :: path[i] in live)
    && (forall i | 0 < i < |path| :: (path[i - 1], path[i]) in edges)
  }

  ghost predicate Reaches(edges: Edges, live: set<nat>, seeds: set<nat>, node: nat) {
    exists path :: IsPath(edges, live, path) && path[0] in seeds && path[|path| - 1] == node
  }

  /** The live nodes reachable from a live seed through live nodes only. */
  ghost function Closure(edges: Edges, live: set<nat>, seeds: set<nat>): set<nat> {
    set node | node in live && Reaches(edges, live, seeds, node)
  }

  /** No edge leaves `inside` for a live node outside it. */
  ghost predicate Closed(edges: Edges, live: set<nat>, inside: set<nat>) {
    forall x, y | (x, y) in edges && x in inside && y in live :: y in inside
  }

  /** The nodes one edge away from `from`. */
  ghost function Successors(edges: Edges, from: set<nat>): set<nat> {
    set e | e in edges && e.0 in from :: e.1
  }

  lemma SuccessorsMonotone(edges: Edges, from: set<nat>, from': set<nat>)
    requires from <= from'
    ensures Successors(edges, from) <= Successors(edges, from')
  {}

  lemma ClosureHasSeeds(edges: Edges, live: set<nat>, seeds: set<nat>)
    ensures seeds * live <= Closure(edges, live, seeds)
  {
    forall x | x in seeds * live ensures x in Closure(edges, live, seeds) {
      assert IsPath(edges, live, [x]);
    }
  }

  lemma ClosureIsClosed(edges: Edges, live: set<nat>, seeds: set<nat>)
    ensures Closed(edges, live, Closure(edges, live, seeds))
  {
    forall x, y | (x, y) in edges && x in Closure(edges, live, seeds) && y in live
      ensures y in Closure(edges, live, seeds)
    {
      var path :| IsPath(edges, live, path) && path[0] in seeds && path[|path| - 1] == x;
      assert IsPath(edges, live, path + [y]);
    }
  }

  lemma {:induction false} PathStaysInside(edges: Edges, live: set<nat>, inside: set<nat>, path: seq<nat>)
    requires IsPath(edges, live, path)
    requires path[0] in inside && Closed(edges, live, inside)
    ensures path[|path| - 1] in inside
  {
    if |path| > 1 {
      var front := path[..|path| - 1];
      assert IsPath(edges, live, front);
      PathStaysInside(edges, live, inside, front);
      assert (path[|path| - 2], path[|path| - 1]) in edges;
    }
  }

  /** The closure is the least closed set that holds the live seeds. */
  lemma ClosureIsLeast(edges: Edges, live: set<nat>, seeds: set<nat>, inside: set<nat>)
    requires seeds * live <= inside && Closed(edges, live, inside)
    ensures Closure(edges, live, seeds) <= inside
  {
    forall x | x in Closure(edges, live, seeds) ensures x in inside {
      var path :| IsPath(edges, live, path) && path[0] in seeds && path[|path| - 1] == x;
      PathStaysInside(edges, live, inside, path);
    }
  }

  lemma ClosureMonotone(edges: Edges, live: set<nat>, seeds: set<nat>, live': set<nat>, seeds': set<nat>)
    requires live <= live' && seeds <= seeds'
    ensures Closure(edges, live, seeds) <= Closure(edges, live', seeds')
  {
    ClosureHasSeeds(edges, live', seeds');
    ClosureIsClosed(edges, live', seeds');
    ClosureIsLeast(edges, live, seeds, Closure(edges, live', seeds'));
  }

  /** Only the live part of the seeds matters. */
  lemma ClosureOfLiveSeeds(edges: Edges, live: set<nat>, seeds: set<nat>, seeds': set<nat>)
    requires seeds * live == seeds' * live
    ensures Closure(edges, live, seeds) == Closure(edges, live, seeds')
  {
    ClosureHasSeeds(edges, live, seeds);
    ClosureHasSeeds(edges, live, seeds');
    ClosureIsClosed(edges, live, seeds);
    ClosureIsClosed(edges, live, seeds');
    ClosureIsLeast(edges, live, seeds, Closure(edges, live, seeds'));
    ClosureIsLeast(edges, live, seeds', Closure(edges, live, seeds));
  }

  lemma ClosureOfNothing(edges: Edges, live: set<nat>, seeds: set<nat>)
    requires seeds * live == {}
    ensures Closure(edges, live, seeds) == {}
  {
    ClosureIsLeast(edges, live, seeds, {});
  }

  /**
   A walk may take its seeds in two halves: what the first half reaches can
   be retired (wholly or in part) before the second half is walked.
   */
  lemma ClosureSplits(edges: Edges, live: set<nat>, rest: set<nat>, first: set<nat>, second: set<nat>)
    requires live - Closure(edges, live, first) <= rest <= live
    ensures Closure(edges, live, first + second)
         == Closure(edges, live, first) + Closure(edges, rest, second)
  {
    var one := Closure(edges, live, first);
    var two := Closure(edges, rest, second);
    ClosureHasSeeds(edges, live, first);
    ClosureIsClosed(edges, live, first);
    ClosureHasSeeds(edges, rest, second);
    ClosureIsClosed(edges, rest, second);
    assert Closed(edges, live, one + two);
    ClosureIsLeast(edges, live, first + second, one + two);
    ClosureMonotone(edges, live, first, live, first + second);
    ClosureMonotone(edges, rest, second, live, first + second);
  }

  /** Retiring the seeds themselves leaves the walk from their successors. */
  lemma ClosureUnfolds(edges: Edges, live: set<nat>, seeds: set<nat>)
    requires seeds <= live
    ensures Closure(edges, live, seeds)
         == seeds + Closure(edges, live - seeds, Successors(edges, seeds))
  {
    var next := Successors(edges, seeds);
    var rest := Closure(edges, live - seeds, next);
    var all := Closure(edges, live, seeds);
    ClosureHasSeeds(edges, live, seeds);
    ClosureIsClosed(edges, live, seeds);
    ClosureHasSeeds(edges, live - seeds, next);
    ClosureIsClosed(edges, live - seeds, next);
    forall x, y | (x, y) in edges && x in seeds + rest && y in live
      ensures y in seeds + rest
    {
      if x in seeds { assert y in next; }
    }
    ClosureIsLeast(edges, live, seeds, seeds + rest);
    forall y | y in next * live ensures y in all {
      var e :| e in edges && e.0 in seeds && e.1 == y;
      assert (e.0, y) in edges;
    }
    assert Closed(edges, live - seeds, all);
    ClosureIsLeast(edges, live - seeds, next, all);
  }

  /** One worklist step: retire the popped live nodes and walk on from their successors. */
  lemma ClosurePop(edges: Edges, live: set<nat>, popped: set<nat>, rest: set<nat>)
    requires popped <= live
    ensures Closure(edges, live, popped + rest)
         == popped + Closure(edges, live - popped, Successors(edges, popped) + rest)
  {
    var one := Closure(edges, live, popped);
    ClosureUnfolds(edges, live, popped);
    ClosureSplits(edges, live, live - one, popped, rest);
    ClosureSplits(edges, live - popped, live - one, Successors(edges, popped), rest);
  }

  /** Rows whose successors are all seeds can be taken out of the graph before the walk. */
  lemma ClosureSkips(edges: Edges, live: set<nat>, skip: set<nat>, seeds: set<nat>)
    requires Successors(edges, skip * live) <= seeds
    ensures skip + Closure(edges, live, seeds) == skip + Closure(edges, live - skip, seeds)
  {
    var walked := Closure(edges, live - skip, seeds);
    ClosureMonotone(edges, live - skip, seeds, live, seeds);
    ClosureHasSeeds(edges, live - skip, seeds);
    ClosureIsClosed(edges, live - skip, seeds);
    forall x, y | (x, y) in edges && x in skip * live + walked && y in live
      ensures y in skip * live + walked
    {
      if x in skip * live { assert y in Successors(edges, skip * live); }
    }
    ClosureIsLeast(edges, live, seeds, skip * live + walked);
  }
}
