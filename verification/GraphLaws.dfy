/**
 What one link of a graph means for the row it leads to, where nothing else
 leads there: exactly which jobs the row waits for, and on which outcome.
 */
module GraphLaws {
  import opened JobTable
  import opened DelayGraph
  import opened DelayJobs
  import opened Dispatch

  /** No node but `n` links to `x` or has it as a member. */
  predicate OnlyFrom(nodes: seq<Node>, n: nat, x: nat) {
    forall m | 0 <= m < |nodes| && m != n :: x !in nodes[m].Out()
  }

  /** The row of Delayable `x`, which waits for something of the graph. */
  ghost predicate WaitingRow(nodes: seq<Node>, b: Jobs, uuid: Option<nat>, x: nat) {
    && x in b.generated && b.generated[x] in b.rows
    && var row := b.rows[b.generated[x]];
       && row.state == Waiting && (row.parent.Some? || row.deps != []) && row.graph == uuid
       && Justified(nodes, b.generated, x, row)
       && (OnlyOnError(nodes, x) ==> row.runOnFailure)
  }

  lemma RowWaits(nodes: seq<Node>, a: Jobs, b: Jobs, uuid: Option<nat>, root: nat, x: nat)
    requires Dispatched(nodes, a, b, uuid, root) && x in b.generated
    requires x !in Heads(nodes, root) && !BehindEmpty(nodes, x)
    ensures WaitingRow(nodes, b, uuid, x)
  {
    hide Justified, BehindEmpty, OnlyOnError, Heads;
    var leaves, w :| Delayed(nodes, a, NO_WIRING, b, w, leaves, uuid, Starters(nodes, NO_WIRING, root));
    RowOfEach(nodes, a, b, leaves, uuid, x);
    assert WaitsRightly(nodes, b.rows, b.generated[x], x);
  }

  /** The attributes that say for which outcome the row waits. */
  predicate FollowsOn(nodes: seq<Node>, n: nat, x: nat, row: Job)
    requires n < |nodes|
  {
    (x !in nodes[n].errors ==> !row.runOnFailure) && (x !in nodes[n].next ==> row.runOnFailure)
  }

  // ---- what can lead to a row that one node leads to ------------------------

  /** `x` starts with no group or chain, and what is empty does not lead to it. */
  ghost predicate OwnHead(nodes: seq<Node>, x: nat) {
    (forall k: nat :: x in Heads(nodes, k) ==> k == x) && !BehindEmpty(nodes, x)
  }

  lemma LinkedIsOwnHead(nodes: seq<Node>, n: nat, x: nat)
    requires OnlyFrom(nodes, n, x) && n < |nodes| && x < |nodes| && nodes[x].Leaf?
    requires nodes[n].Leaf? || (x !in nodes[n].members && nodes[n].members != [])
    ensures OwnHead(nodes, x)
  {
    forall k: nat ensures x in Heads(nodes, k) ==> k == x {}
  }

  lemma LaterIsOwnHead(nodes: seq<Node>, c: nat, i: nat, x: nat)
    requires OnlyFrom(nodes, c, x) && c < |nodes| && nodes[c].Chain? && x < |nodes| && nodes[x].Leaf?
    requires 0 < i < |nodes[c].members| && nodes[c].members[i] == x && nodes[c].members[0] != x
    ensures OwnHead(nodes, x)
  {
    forall k: nat ensures x in Heads(nodes, k) ==> k == x {}
  }

  lemma ParentIsAbove(nodes: seq<Node>, generated: map<nat, nat>, x: nat, job: nat) returns (q: nat)
    requires ParentFits(nodes, generated, x, job) && OwnHead(nodes, x)
    ensures q in generated && generated[q] == job && After(nodes, q, x)
  {
    hide After, Heads, BehindEmpty;
    var k: nat;
    q, k :| q in generated && generated[q] == job && After(nodes, q, k) && (k == x || x in Heads(nodes, k));
  }

  lemma MembersAreAbove(nodes: seq<Node>, generated: map<nat, nat>, x: nat, jobs: seq<nat>) returns (g: nat)
    requires MembersFit(nodes, generated, x, jobs) && OwnHead(nodes, x)
    ensures AfterGroup(nodes, generated, g, x, jobs)
  {
    hide AfterGroup, Heads, BehindEmpty;
    var k: nat;
    g, k :| AfterGroup(nodes, generated, g, k, jobs) && (k == x || x in Heads(nodes, k));
  }

  /** What comes right before `x` is node `n` itself, its last member, or the member before `x`. */
  lemma OnlyAfter(nodes: seq<Node>, n: nat, q: nat, x: nat)
    requires OnlyFrom(nodes, n, x) && n < |nodes| && After(nodes, q, x)
    ensures nodes[n].Leaf? ==> q == n
    ensures !nodes[n].Leaf? ==> nodes[n].Chain?
    ensures nodes[n].Chain? && x !in nodes[n].Links() ==>
      exists i | 0 < i < |nodes[n].members| :: nodes[n].members[i - 1] == q && nodes[n].members[i] == x
  {}

  lemma MemberBefore(nodes: seq<Node>, c: nat, i: nat, q: nat, x: nat)
    requires OnlyFrom(nodes, c, x) && c < |nodes| && After(nodes, q, x) && nodes[c].Chain? && x !in nodes[c].Links()
    requires 0 < i < |nodes[c].members| && forall j | 0 <= j < |nodes[c].members| && j != i :: nodes[c].members[j] != x
    ensures q == nodes[c].members[i - 1]
  {
    hide OnlyFrom, After;
    OnlyAfter(nodes, c, q, x);
  }

  lemma OnlyGroup(nodes: seq<Node>, generated: map<nat, nat>, n: nat, g: nat, x: nat, jobs: seq<nat>)
    requires OnlyFrom(nodes, n, x) && AfterGroup(nodes, generated, g, x, jobs)
    ensures g == n && x in nodes[n].Links()
  {
    hide JobsOf;
  }

  lemma OnlyErrors(nodes: seq<Node>, n: nat, x: nat)
    requires WellFormed(nodes) && OnlyFrom(nodes, n, x) && n < |nodes| && ErrorFits(nodes, x)
    ensures x in nodes[n].errors
      || (!nodes[n].Leaf? && x in nodes[n].members && exists m :: 0 <= m < |nodes| && n in nodes[m].errors)
  {
    var m: nat, k: nat :| OnError(nodes, m, k) && (k == x || (k < |nodes| && !nodes[k].Leaf? && x in nodes[k].members));
  }

  lemma OutcomeFollows(nodes: seq<Node>, b: Jobs, uuid: Option<nat>, n: nat, x: nat)
    requires WellFormed(nodes) && OnlyFrom(nodes, n, x) && n < |nodes| && WaitingRow(nodes, b, uuid, x)
    requires nodes[n].Leaf? || x !in nodes[n].members
    ensures FollowsOn(nodes, n, x, b.rows[b.generated[x]])
  {
    if b.rows[b.generated[x]].runOnFailure { OnlyErrors(nodes, n, x); }
  }

  /** What a waiting row of the graph waits for, traced to the one node that leads to it. */
  lemma TracedTo(nodes: seq<Node>, b: Jobs, uuid: Option<nat>, n: nat, x: nat) returns (q: nat)
    requires OnlyFrom(nodes, n, x) && n < |nodes| && OwnHead(nodes, x) && WaitingRow(nodes, b, uuid, x)
    ensures x in b.generated && b.generated[x] in b.rows
    ensures
      var row := b.rows[b.generated[x]];
      && (row.parent.Some? || row.deps != []) && (row.runOnFailure ==> ErrorFits(nodes, x))
      && (row.parent.Some? ==> q in b.generated && row.parent == Some(b.generated[q]) && After(nodes, q, x))
      && (row.deps != [] ==> nodes[n].Group? && x in nodes[n].Links() && JobsOf(b.generated, nodes[n].members, row.deps))
  {
    hide After, OwnHead, OnlyFrom, JobsOf, ParentFits, MembersFit, ErrorFits, OnlyOnError;
    var row := b.rows[b.generated[x]];
    q := 0;
    if row.parent.Some? { q := ParentIsAbove(nodes, b.generated, x, row.parent.value); }
    if row.deps != [] {
      var g := MembersAreAbove(nodes, b.generated, x, row.deps);
      OnlyGroup(nodes, b.generated, n, g, x, row.deps);
    }
  }

  // ---- the laws -------------------------------------------------------------

  /** A Delayable that only Delayable `q` links to waits for the job of `q` alone. */
  lemma AfterJobExactly(nodes: seq<Node>, a: Jobs, b: Jobs, uuid: Option<nat>, root: nat, q: nat, x: nat)
    requires Dispatched(nodes, a, b, uuid, root) && x in b.generated && x !in Heads(nodes, root)
    requires q < |nodes| && nodes[q].Leaf? && x < |nodes| && nodes[x].Leaf?
    requires x in nodes[q].Links() && OnlyFrom(nodes, q, x)
    ensures q in b.generated && b.generated[x] in b.rows
    ensures
      var row := b.rows[b.generated[x]];
      row.parent == Some(b.generated[q]) && row.deps == [] && FollowsOn(nodes, q, x, row)
  {
    assert WellFormed(nodes);
    hide Dispatched, Heads, OnlyFrom, FollowsOn, After, Justified, BehindEmpty, OnlyOnError, WellFormed, JobsOf;
    LinkedIsOwnHead(nodes, q, x);
    RowWaits(nodes, a, b, uuid, root, x);
    var p := TracedTo(nodes, b, uuid, q, x);
    if b.rows[b.generated[x]].parent.Some? { OnlyAfter(nodes, q, p, x); }
    OutcomeFollows(nodes, b, uuid, q, x);
  }

  /** One that only group `g` links to waits for the jobs of all its members, in order, and for nothing else. */
  lemma AfterGroupExactly(nodes: seq<Node>, a: Jobs, b: Jobs, uuid: Option<nat>, root: nat, g: nat, x: nat)
    requires Dispatched(nodes, a, b, uuid, root) && x in b.generated && x !in Heads(nodes, root)
    requires g < |nodes| && nodes[g].Group? && nodes[g].members != [] && x < |nodes| && nodes[x].Leaf?
    requires x in nodes[g].Links() && x !in nodes[g].members && OnlyFrom(nodes, g, x)
    ensures b.generated[x] in b.rows
    ensures
      var row := b.rows[b.generated[x]];
      && row.parent.None? && |row.deps| == |nodes[g].members| && FollowsOn(nodes, g, x, row)
      && forall i | 0 <= i < |row.deps| ::
           nodes[g].members[i] in b.generated && row.deps[i] == b.generated[nodes[g].members[i]]
  {
    assert WellFormed(nodes);
    hide Dispatched, Heads, OnlyFrom, FollowsOn, After, Justified, BehindEmpty, OnlyOnError, WellFormed;
    LinkedIsOwnHead(nodes, g, x);
    RowWaits(nodes, a, b, uuid, root, x);
    var p := TracedTo(nodes, b, uuid, g, x);
    if b.rows[b.generated[x]].parent.Some? { OnlyAfter(nodes, g, p, x); }
    OutcomeFollows(nodes, b, uuid, g, x);
  }

  /** A later member of chain `c`, which nothing else leads to, waits for the job of the member before it alone. */
  lemma InChainExactly(nodes: seq<Node>, a: Jobs, b: Jobs, uuid: Option<nat>, root: nat, c: nat, i: nat, x: nat)
    requires Dispatched(nodes, a, b, uuid, root) && x in b.generated && x !in Heads(nodes, root)
    requires c < |nodes| && nodes[c].Chain? && 0 < i < |nodes[c].members| && nodes[c].members[i] == x
    requires forall j | 0 <= j < |nodes[c].members| && j != i :: nodes[c].members[j] != x
    requires x !in nodes[c].Links() && OnlyFrom(nodes, c, x)
    ensures nodes[c].members[i - 1] in b.generated && b.generated[x] in b.rows
    ensures
      var row := b.rows[b.generated[x]];
      && row.parent == Some(b.generated[nodes[c].members[i - 1]]) && row.deps == []
      && (row.runOnFailure ==> exists n :: 0 <= n < |nodes| && c in nodes[n].errors)
  {
    hide *;
    MemberIsLeaf(nodes, a, b, uuid, root, c, i);
    LaterIsOwnHead(nodes, c, i, x);
    RowWaits(nodes, a, b, uuid, root, x);
    var p := TracedTo(nodes, b, uuid, c, x);
    if b.rows[b.generated[x]].parent.Some? { MemberBefore(nodes, c, i, p, x); }
    if b.rows[b.generated[x]].runOnFailure { ErrorOfChain(nodes, c, x); }
  }

  lemma MemberIsLeaf(nodes: seq<Node>, a: Jobs, b: Jobs, uuid: Option<nat>, root: nat, c: nat, i: nat)
    requires Dispatched(nodes, a, b, uuid, root) && c < |nodes| && nodes[c].Chain? && i < |nodes[c].members|
    ensures WellFormed(nodes) && nodes[c].members[i] < |nodes| && nodes[nodes[c].members[i]].Leaf?
  {
    assert nodes[c].members[i] in nodes[c].members;
  }

  lemma ErrorOfChain(nodes: seq<Node>, c: nat, x: nat)
    requires WellFormed(nodes) && OnlyFrom(nodes, c, x) && c < |nodes| && ErrorFits(nodes, x) && x !in nodes[c].Links()
    ensures exists n :: 0 <= n < |nodes| && c in nodes[n].errors
  {
    OnlyErrors(nodes, c, x);
  }
}
