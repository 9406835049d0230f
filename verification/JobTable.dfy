/** The `queue.job` table: its columns, its states and its two kinds of edge. */
module JobTable {
  import opened Reach

  datatype Option<+T> = None | Some(value: T)

  datatype State = Waiting | Pending | Started | Done | Failed | Cancelled

  /** One line of the `exc_info` column. */
  datatype Note =
    | ParentFailed(parent: nat)
    | ParentDied(parent: nat)
    | WorkerDied
    | TimedOut(seconds: nat)
    | Raised

  /** A row; `deps` is `dependency_job_ids`, with the empty list for NULL. */
  datatype Job = Job(
    state: State,
    parent: Option<nat>,
    deps: seq<nat>,
    countdown: int,
    runOnFailure: bool,
    graph: Option<nat>,
    identityKey: Option<string>,
    priority: int,
    channel: Option<string>,
    scheduledAt: Option<int>,
    attempts: Option<int>,
    maxRetries: Option<int>,
    createdAt: int,
    startedAt: Option<int>,
    completedAt: Option<int>,
    cancelledAt: Option<int>,
    heartbeat: Option<int>,
    worker: Option<nat>,
    exc: seq<Note>
  ) {
    predicate Active() { state.Waiting? || state.Pending? || state.Started? }
    predicate Terminal() { !Active() }
    predicate IsBarrier() { deps != [] }
  }

  type Table = map<nat, Job>

  function Ids(ids: seq<nat>): set<nat> { set x | x in ids }

  predicate IsWaiting(t: Table, id: nat) { id in t && t[id].state == Waiting }

  predicate IsActive(t: Table, id: nat) { id in t && t[id].Active() }

  function WaitingIds(t: Table): set<nat> { set id | id in t && t[id].state == Waiting }

  function Children(t: Table, ids: set<nat>): set<nat> {
    set y | y in t && t[y].parent.Some? && t[y].parent.value in ids
  }

  function Dependents(t: Table, ids: set<nat>): set<nat> {
    set y | y in t && exists x | x in t[y].deps :: x in ids
  }

  /** Every row one edge below a row in `ids`. */
  function Heirs(t: Table, ids: set<nat>): set<nat> { Children(t, ids) + Dependents(t, ids) }

  function ParentEdges(t: Table): Edges {
    set y | y in t && t[y].parent.Some? :: (t[y].parent.value, y)
  }

  function DependencyEdges(t: Table): Edges {
    set y, x | y in t && x in t[y].deps :: (x, y)
  }

  function AllEdges(t: Table): Edges { ParentEdges(t) + DependencyEdges(t) }

  /** Same rows, same wiring; anything else may differ. */
  ghost predicate SameGraph(t: Table, t': Table) {
    && t'.Keys == t.Keys
    && forall id | id in t :: t'[id].parent == t[id].parent && t'[id].deps == t[id].deps
  }

  lemma SameGraphTransitive(a: Table, b: Table, c: Table)
    requires SameGraph(a, b) && SameGraph(b, c)
    ensures SameGraph(a, c)
  {}

  lemma SameGraphSameEdges(t: Table, t': Table)
    requires SameGraph(t, t')
    ensures ParentEdges(t') == ParentEdges(t)
    ensures DependencyEdges(t') == DependencyEdges(t)
    ensures AllEdges(t') == AllEdges(t)
  {
    forall e | e in ParentEdges(t') ensures e in ParentEdges(t) {
      var y :| y in t' && t'[y].parent.Some? && e == (t'[y].parent.value, y);
      assert y in t && t[y].parent.Some?;
    }
    forall e | e in ParentEdges(t) ensures e in ParentEdges(t') {
      var y :| y in t && t[y].parent.Some? && e == (t[y].parent.value, y);
      assert y in t' && t'[y].parent.Some?;
    }
    forall e | e in DependencyEdges(t') ensures e in DependencyEdges(t) {
      var y, x :| y in t' && x in t'[y].deps && e == (x, y);
      assert y in t && x in t[y].deps;
    }
    forall e | e in DependencyEdges(t) ensures e in DependencyEdges(t') {
      var y, x :| y in t && x in t[y].deps && e == (x, y);
      assert y in t' && x in t'[y].deps;
    }
  }

  lemma SameGraphSameHeirs(t: Table, t': Table, ids: set<nat>)
    requires SameGraph(t, t')
    ensures Children(t', ids) == Children(t, ids)
    ensures Dependents(t', ids) == Dependents(t, ids)
    ensures Heirs(t', ids) == Heirs(t, ids)
  {
    forall y | y in t ensures y in Dependents(t', ids) <==> y in Dependents(t, ids) {}
  }

  lemma HeirsOfUnion(t: Table, a: set<nat>, b: set<nat>)
    ensures Children(t, a + b) == Children(t, a) + Children(t, b)
    ensures Dependents(t, a + b) == Dependents(t, a) + Dependents(t, b)
  {}

  lemma ParentSuccessors(t: Table, ids: set<nat>)
    ensures Successors(ParentEdges(t), ids) == Children(t, ids)
  {
    forall y | y in Children(t, ids) ensures y in Successors(ParentEdges(t), ids) {
      assert (t[y].parent.value, y) in ParentEdges(t);
    }
  }

  lemma AllSuccessors(t: Table, ids: set<nat>)
    ensures Successors(AllEdges(t), ids) == Heirs(t, ids)
  {
    forall y | y in Children(t, ids) ensures y in Successors(AllEdges(t), ids) {
      assert (t[y].parent.value, y) in AllEdges(t);
    }
    forall y | y in Dependents(t, ids) ensures y in Successors(AllEdges(t), ids) {
      var x :| x in t[y].deps && x in ids;
      assert (x, y) in DependencyEdges(t);
      assert (x, y) in AllEdges(t);
    }
    forall y | y in Successors(AllEdges(t), ids) ensures y in Children(t, ids) + Dependents(t, ids) {
      var e :| e in AllEdges(t) && e.0 in ids && e.1 == y;
      if e in DependencyEdges(t) {
        var b, a :| b in t && a in t[b].deps && e == (a, b);
      }
    }
  }
}
