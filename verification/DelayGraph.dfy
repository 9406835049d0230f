/**
 The objects of a job graph, by index, and what a `delay()` call reaches in them.

 A Delayable is generated once and expands its links only then; groups and
 chains are expanded every time they are delayed.
 */
module DelayGraph {
  import opened Reach
  import opened JobTable

  datatype Settings = Settings(
    priority: Option<int>, channel: Option<string>, maxRetries: Option<int>, scheduledAt: Option<int>)

  /** `next` and `errors` are the `on_done` and `on_error` links. */
  datatype Node =
    | Leaf(settings: Settings, next: seq<nat>, errors: seq<nat>)
    | Group(members: seq<nat>, next: seq<nat>, errors: seq<nat>)
    | Chain(members: seq<nat>, next: seq<nat>, errors: seq<nat>)
  {
    function Links(): seq<nat> { next + errors }

    function Out(): seq<nat> { (if Leaf? then [] else members) + next + errors }
  }

  /** Every link points at a node, and the members of groups and chains are Delayables. */
  predicate WellFormed(nodes: seq<Node>) {
    forall i | 0 <= i < |nodes| ::
      && (forall k | k in nodes[i].Out() :: k < |nodes|)
      && (!nodes[i].Leaf? ==> forall k | k in nodes[i].members :: k < |nodes| && nodes[k].Leaf?)
  }

  function Leaves(nodes: seq<Node>): set<nat> { set i | 0 <= i < |nodes| && nodes[i].Leaf? }

  function Everything(nodes: seq<Node>): set<nat> {
    Leaves(nodes) + set i | 0 <= i < |nodes| && !nodes[i].Leaf?
  }

  function Wires(nodes: seq<Node>): Edges {
    set i, k | 0 <= i < |nodes| && k in nodes[i].Out() :: (i, k)
  }

  /** The Delayables that delaying `seeds` generates when those in `gen` already are. */
  ghost function Fresh(nodes: seq<Node>, gen: set<nat>, seeds: set<nat>): set<nat> {
    Closure(Wires(nodes), Everything(nodes) - gen, seeds) * Leaves(nodes)
  }

  lemma OutOf(nodes: seq<Node>, n: nat)
    requires n < |nodes|
    ensures Successors(Wires(nodes), {n}) == Ids(nodes[n].Out())
  {
    forall k | k in nodes[n].Out() ensures k in Successors(Wires(nodes), {n}) {
      assert (n, k) in Wires(nodes);
    }
  }

  lemma FreshOfNothing(nodes: seq<Node>, gen: set<nat>)
    ensures Fresh(nodes, gen, {}) == {}
  {
    ClosureOfNothing(Wires(nodes), Everything(nodes) - gen, {});
  }

  /** Delaying two batches one after the other reaches what delaying them together would. */
  lemma FreshSplits(nodes: seq<Node>, gen: set<nat>, first: set<nat>, second: set<nat>)
    ensures
      var one := Fresh(nodes, gen, first);
      Fresh(nodes, gen, first + second) == one + Fresh(nodes, gen + one, second)
  {
    var one := Fresh(nodes, gen, first);
    ClosureSplits(Wires(nodes), Everything(nodes) - gen, Everything(nodes) - (gen + one), first, second);
    hide Closure;
  }

  lemma FreshOfOld(nodes: seq<Node>, gen: set<nat>, n: nat)
    requires n in gen
    ensures Fresh(nodes, gen, {n}) == {}
  {
    ClosureOfNothing(Wires(nodes), Everything(nodes) - gen, {n});
  }

  lemma FreshOfLeaf(nodes: seq<Node>, gen: set<nat>, n: nat)
    requires n < |nodes| && nodes[n].Leaf? && n !in gen
    ensures Fresh(nodes, gen, {n}) == {n} + Fresh(nodes, gen + {n}, Ids(nodes[n].Out()))
  {
    OutOf(nodes, n);
    ClosureUnfolds(Wires(nodes), Everything(nodes) - gen, {n});
    hide Closure;
    assert Everything(nodes) - gen - {n} == Everything(nodes) - (gen + {n});
  }

  /** A group or chain adds no job of its own, even when its members lead back to it. */
  lemma FreshOfGroup(nodes: seq<Node>, gen: set<nat>, n: nat)
    requires n < |nodes| && !nodes[n].Leaf? && n !in gen
    ensures Fresh(nodes, gen, {n}) == Fresh(nodes, gen, Ids(nodes[n].Out()))
  {
    var live := Everything(nodes) - gen;
    OutOf(nodes, n);
    ClosureUnfolds(Wires(nodes), live, {n});
    assert {n} * live == {n};
    hide Closure;
    ClosureSkips(Wires(nodes), live, {n}, Ids(nodes[n].Out()));
  }
}
