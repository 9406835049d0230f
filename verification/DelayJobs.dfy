/** What a finished `delay()` call leaves behind, stated on values: rows, ids and where their wiring comes from. */
module DelayJobs {
  import opened Reach
  import opened JobTable
  import opened Intake
  import opened CancelWalk
  import opened DelayGraph

  /** Which Delayable has which job, and the rows. */
  datatype Jobs = Jobs(generated: map<nat, nat>, rows: Table, nextId: nat)

  /** The attributes that schedulers write on the nodes they schedule. */
  datatype Wiring = Wiring(
    graphUuid: map<nat, nat>, parentJob: map<nat, nat>, dependencyJobs: map<nat, seq<nat>>, runOnFailure: set<nat>)

  // ---- how much a call adds -------------------------------------------------

  /** Each Delayable in `leaves`, and nothing else, got one new row in the graph `uuid`, wired to smaller ids. */
  ghost predicate Grew(a: Jobs, b: Jobs, leaves: set<nat>, uuid: Option<nat>) {
    GrewIds(a, b, leaves) && GrewRows(a, b, uuid)
  }

  ghost predicate GrewIds(a: Jobs, b: Jobs, leaves: set<nat>) {
    && leaves !! a.generated.Keys && b.generated.Keys == a.generated.Keys + leaves
    && Extends(a.generated, b.generated) && b.nextId == a.nextId + |leaves|
    && NewIds(b.generated, leaves, a.nextId, b.nextId)
  }

  /** The new rows are exactly the new ids. */
  ghost predicate GrewRows(a: Jobs, b: Jobs, uuid: Option<nat>) {
    && a.nextId <= b.nextId
    && (forall id | id in a.rows :: id in b.rows && b.rows[id] == a.rows[id])
    && (forall id: nat | a.nextId <= id < b.nextId :: id in b.rows)
    && (forall id | id in b.rows && id !in a.rows :: a.nextId <= id < b.nextId && Newborn(b.rows[id], id, uuid))
  }

  /** A row just enqueued in the graph `uuid`, wired to smaller ids. */
  predicate Newborn(row: Job, id: nat, uuid: Option<nat>) {
    && row.graph == uuid
    && row.state == (if row.parent.Some? || row.deps != [] then Waiting else Pending)
    && row.countdown == |row.deps|
    && (row.parent.Some? ==> row.parent.value < id)
    && (forall d | d in row.deps :: d < id)
  }

  lemma GrewNot(a: Jobs, uuid: Option<nat>)
    ensures Grew(a, a, {}, uuid)
  {}

  lemma GrewKeys(a: Jobs, b: Jobs, leaves: set<nat>, uuid: Option<nat>)
    requires Grew(a, b, leaves, uuid)
    ensures b.generated.Keys == a.generated.Keys + leaves && b.nextId >= a.nextId
    ensures Extends(a.generated, b.generated)
  {}

  lemma KeysTwice(a: set<nat>, b: set<nat>, c: set<nat>, first: set<nat>, second: set<nat>)
    requires first !! a && b == a + first && second !! b && c == b + second
    ensures first + second !! a && c == a + (first + second) && first !! second
  {}

  lemma CountBoth(first: set<nat>, second: set<nat>)
    requires first !! second
    ensures |first + second| == |first| + |second|
  {}

  /** The jobs of `leaves` are new ones. */
  ghost predicate NewIds(generated: map<nat, nat>, leaves: set<nat>, from: nat, to: nat) {
    forall x | x in leaves :: x in generated && from <= generated[x] < to
  }

  lemma NewIdsTwice(b: map<nat, nat>, c: map<nat, nat>, first: set<nat>, second: set<nat>, i: nat, j: nat, k: nat)
    requires Extends(b, c) && NewIds(b, first, i, j) && NewIds(c, second, j, k) && i <= j <= k
    ensures NewIds(c, first + second, i, k)
  {}

  lemma ExtendsTwice(a: map<nat, nat>, b: map<nat, nat>, c: map<nat, nat>)
    requires Extends(a, b) && Extends(b, c)
    ensures Extends(a, c)
  {}

  lemma GrewIdsTwice(a: Jobs, b: Jobs, c: Jobs, first: set<nat>, second: set<nat>)
    requires GrewIds(a, b, first) && GrewIds(b, c, second)
    ensures GrewIds(a, c, first + second)
  {
    hide Extends, NewIds;
    KeysTwice(a.generated.Keys, b.generated.Keys, c.generated.Keys, first, second);
    CountBoth(first, second);
    NewIdsTwice(b.generated, c.generated, first, second, a.nextId, b.nextId, c.nextId);
    ExtendsTwice(a.generated, b.generated, c.generated);
  }

  lemma GrewRowsTwice(a: Jobs, b: Jobs, c: Jobs, uuid: Option<nat>)
    requires GrewRows(a, b, uuid) && GrewRows(b, c, uuid)
    ensures GrewRows(a, c, uuid)
  {
    hide Newborn;
  }

  lemma GrewTwice(a: Jobs, b: Jobs, c: Jobs, first: set<nat>, second: set<nat>, uuid: Option<nat>)
    requires Grew(a, b, first, uuid) && Grew(b, c, second, uuid)
    ensures Grew(a, c, first + second, uuid)
  {
    hide GrewIds, GrewRows;
    GrewIdsTwice(a, b, c, first, second);
    GrewRowsTwice(a, b, c, uuid);
  }

  lemma GrewOne(a: Jobs, b: Jobs, n: nat, req: Request, now: int)
    requires n !in a.generated && a.nextId !in a.rows
    requires b == Jobs(a.generated[n := a.nextId], a.rows[a.nextId := NewRow(req, now)], a.nextId + 1)
    requires req.parent.Some? ==> req.parent.value < a.nextId
    requires forall d | d in req.deps :: d < a.nextId
    ensures Grew(a, b, {n}, req.graph)
  {
    assert Newborn(NewRow(req, now), a.nextId, req.graph);
    hide Newborn, NewRow;
    GrewOneId(a, b, n);
    GrewOneRow(a, b, NewRow(req, now), req.graph);
  }

  lemma GrewOneId(a: Jobs, b: Jobs, n: nat)
    requires n !in a.generated && b.generated == a.generated[n := a.nextId] && b.nextId == a.nextId + 1
    ensures GrewIds(a, b, {n})
  {}

  lemma GrewOneRow(a: Jobs, b: Jobs, row: Job, uuid: Option<nat>)
    requires a.nextId !in a.rows && b.rows == a.rows[a.nextId := row] && b.nextId == a.nextId + 1
    requires Newborn(row, a.nextId, uuid)
    ensures GrewRows(a, b, uuid)
  {}

  // ---- where the wiring of a row comes from ---------------------------------

  ghost predicate Extends(generated: map<nat, nat>, generated': map<nat, nat>) {
    forall x | x in generated :: x in generated' && generated'[x] == generated[x]
  }

  /** `jobs` are those of the first members, in order. */
  ghost predicate JobsSoFar(generated: map<nat, nat>, members: seq<nat>, jobs: seq<nat>) {
    && |jobs| <= |members|
    && forall i | 0 <= i < |jobs| :: members[i] in generated && jobs[i] == generated[members[i]]
  }

  ghost predicate JobsOf(generated: map<nat, nat>, members: seq<nat>, jobs: seq<nat>) {
    |jobs| == |members| && JobsSoFar(generated, members, jobs)
  }

  /** The nodes that start when `h` starts. */
  function Heads(nodes: seq<Node>, h: nat): set<nat> {
    if h >= |nodes| then {}
    else match nodes[h]
      case Leaf(_, _, _) => {h}
      case Group(members, _, _) => Ids(members)
      case Chain(members, _, _) => if members == [] then {} else {members[0]}
  }

  /** Node `k` comes right after Delayable `q`: linked from it, from the chain it ends, or next to it in a chain. */
  ghost predicate After(nodes: seq<Node>, q: nat, k: nat) {
    || (q < |nodes| && nodes[q].Leaf? && k in nodes[q].Links())
    || (exists c | 0 <= c < |nodes| && nodes[c].Chain? && nodes[c].members != [] ::
          q == nodes[c].members[|nodes[c].members| - 1] && k in nodes[c].Links())
    || (exists c | 0 <= c < |nodes| && nodes[c].Chain? ::
          exists i | 0 < i < |nodes[c].members| :: nodes[c].members[i - 1] == q && nodes[c].members[i] == k)
  }

  /** `job` is that of a Delayable right before `x`, or before a group or chain that starts with `x`. */
  ghost predicate ParentFits(nodes: seq<Node>, generated: map<nat, nat>, x: nat, job: nat) {
    exists q: nat, k: nat :: q in generated && generated[q] == job && After(nodes, q, k) && (k == x || x in Heads(nodes, k))
  }

  /** `k` is linked from group `g`, whose members' jobs are `jobs`, in order. */
  ghost predicate AfterGroup(nodes: seq<Node>, generated: map<nat, nat>, g: nat, k: nat, jobs: seq<nat>) {
    g < |nodes| && nodes[g].Group? && JobsOf(generated, nodes[g].members, jobs) && k in nodes[g].Links()
  }

  /** `jobs` are the members of a group right before `x`, or before a group or chain that starts with `x`. */
  ghost predicate MembersFit(nodes: seq<Node>, generated: map<nat, nat>, x: nat, jobs: seq<nat>) {
    exists g: nat, k: nat :: AfterGroup(nodes, generated, g, k, jobs) && (k == x || x in Heads(nodes, k))
  }

  predicate OnError(nodes: seq<Node>, n: nat, k: nat) { n < |nodes| && k in nodes[n].errors }

  /** `x` is an `on_error` target, or a member of one. */
  ghost predicate ErrorFits(nodes: seq<Node>, x: nat) {
    exists n: nat, k: nat :: OnError(nodes, n, k) && (k == x || (k < |nodes| && !nodes[k].Leaf? && x in nodes[k].members))
  }

  /** Nothing leads to `x` but `on_error`. */
  ghost predicate OnlyOnError(nodes: seq<Node>, x: nat) {
    forall i | 0 <= i < |nodes| :: x !in nodes[i].next && (nodes[i].Leaf? || x !in nodes[i].members)
  }

  /** `n` has something to wait for. */
  predicate Attached(w: Wiring, n: nat) { n in w.parentJob || n in w.dependencyJobs }

  ghost predicate WiringFits(nodes: seq<Node>, generated: map<nat, nat>, w: Wiring) {
    && (forall x: nat | Attached(w, x) && OnlyOnError(nodes, x) :: x in w.runOnFailure)
    && (forall x | x in w.parentJob :: ParentFits(nodes, generated, x, w.parentJob[x]))
    && (forall x | x in w.dependencyJobs :: MembersFit(nodes, generated, x, w.dependencyJobs[x]))
    && (forall x | x in w.runOnFailure :: ErrorFits(nodes, x))
  }

  /** Attributes that fit, with fitting ones added for `k`, still fit. */
  lemma WiredFits(nodes: seq<Node>, generated: map<nat, nat>, v: Wiring, w: Wiring, k: nat,
                  parent: Option<nat>, deps: Option<seq<nat>>, onError: bool)
    requires WiringFits(nodes, generated, v)
    requires parent.Some? ==> ParentFits(nodes, generated, k, parent.value)
    requires deps.Some? ==> MembersFit(nodes, generated, k, deps.value)
    requires onError ==> ErrorFits(nodes, k)
    requires OnlyOnError(nodes, k) && (parent.Some? || deps.Some?) ==> onError
    requires w.parentJob == if parent.Some? then v.parentJob[k := parent.value] else v.parentJob
    requires w.dependencyJobs == if deps.Some? then v.dependencyJobs[k := deps.value] else v.dependencyJobs
    requires w.runOnFailure == if onError then v.runOnFailure + {k} else v.runOnFailure
    ensures WiringFits(nodes, generated, w)
  {
    hide ParentFits, MembersFit, ErrorFits, OnlyOnError;
  }

  /** Everything a row waits for is there because of a link of the graph. */
  ghost predicate Justified(nodes: seq<Node>, generated: map<nat, nat>, x: nat, row: Job) {
    && (row.parent.Some? ==> ParentFits(nodes, generated, x, row.parent.value))
    && (row.deps != [] ==> MembersFit(nodes, generated, x, row.deps))
    && (row.runOnFailure ==> ErrorFits(nodes, x))
  }

  ghost predicate AllJustified(nodes: seq<Node>, jobs: Jobs) {
    forall x | x in jobs.generated :: jobs.generated[x] in jobs.rows
      && Justified(nodes, jobs.generated, x, jobs.rows[jobs.generated[x]])
  }

  lemma ParentFitsLater(nodes: seq<Node>, generated: map<nat, nat>, generated': map<nat, nat>, x: nat, job: nat)
    requires Extends(generated, generated') && ParentFits(nodes, generated, x, job)
    ensures ParentFits(nodes, generated', x, job)
  {
    hide After, Heads;
  }

  lemma MembersFitLater(nodes: seq<Node>, generated: map<nat, nat>, generated': map<nat, nat>, x: nat, jobs: seq<nat>)
    requires Extends(generated, generated') && MembersFit(nodes, generated, x, jobs)
    ensures MembersFit(nodes, generated', x, jobs)
  {
    var g: nat, k: nat :| AfterGroup(nodes, generated, g, k, jobs) && (k == x || x in Heads(nodes, k));
    hide Heads;
    assert JobsOf(generated', nodes[g].members, jobs);
    assert AfterGroup(nodes, generated', g, k, jobs);
  }

  lemma WiringFitsLater(nodes: seq<Node>, generated: map<nat, nat>, generated': map<nat, nat>, w: Wiring)
    requires Extends(generated, generated') && WiringFits(nodes, generated, w)
    ensures WiringFits(nodes, generated', w)
  {
    hide ParentFits, MembersFit, ErrorFits, Extends, OnlyOnError;
    forall x | x in w.parentJob ensures ParentFits(nodes, generated', x, w.parentJob[x]) {
      ParentFitsLater(nodes, generated, generated', x, w.parentJob[x]);
    }
    forall x | x in w.dependencyJobs ensures MembersFit(nodes, generated', x, w.dependencyJobs[x]) {
      MembersFitLater(nodes, generated, generated', x, w.dependencyJobs[x]);
    }
  }

  lemma JustifiedLater(nodes: seq<Node>, generated: map<nat, nat>, generated': map<nat, nat>, x: nat, row: Job)
    requires Extends(generated, generated') && Justified(nodes, generated, x, row)
    ensures Justified(nodes, generated', x, row)
  {
    hide ParentFits, MembersFit, ErrorFits, Extends;
    if row.parent.Some? { ParentFitsLater(nodes, generated, generated', x, row.parent.value); }
    if row.deps != [] { MembersFitLater(nodes, generated, generated', x, row.deps); }
  }

  /** One more Delayable got its row from attributes that fit. */
  lemma OneMoreJustified(nodes: seq<Node>, a: Jobs, b: Jobs, n: nat, req: Request, now: int)
    requires AllJustified(nodes, a) && n !in a.generated && a.nextId !in a.rows
    requires b == Jobs(a.generated[n := a.nextId], a.rows[a.nextId := NewRow(req, now)], a.nextId + 1)
    requires req.parent.Some? ==> ParentFits(nodes, a.generated, n, req.parent.value)
    requires req.deps != [] ==> MembersFit(nodes, a.generated, n, req.deps)
    requires req.runOnFailure ==> ErrorFits(nodes, n)
    ensures AllJustified(nodes, b)
  {
    assert Extends(a.generated, b.generated);
    hide Justified, Extends;
    forall x | x in b.generated
      ensures b.generated[x] in b.rows && Justified(nodes, b.generated, x, b.rows[b.generated[x]])
    {
      if x == n {
        NewRowJustified(nodes, a.generated, n, req, now);
        JustifiedLater(nodes, a.generated, b.generated, n, NewRow(req, now));
      } else {
        JustifiedLater(nodes, a.generated, b.generated, x, a.rows[a.generated[x]]);
      }
    }
  }

  lemma NewRowJustified(nodes: seq<Node>, generated: map<nat, nat>, n: nat, req: Request, now: int)
    requires req.parent.Some? ==> ParentFits(nodes, generated, n, req.parent.value)
    requires req.deps != [] ==> MembersFit(nodes, generated, n, req.deps)
    requires req.runOnFailure ==> ErrorFits(nodes, n)
    ensures Justified(nodes, generated, n, NewRow(req, now))
  {
    hide ParentFits, MembersFit, ErrorFits;
  }

  /** The attributes a node inherits fit it when they fit the group or chain that it starts. */
  lemma InheritedFits(nodes: seq<Node>, generated: map<nat, nat>, w: Wiring, n: nat, k: nat)
    requires WellFormed(nodes) && WiringFits(nodes, generated, w)
    requires n < |nodes| && !nodes[n].Leaf? && k in nodes[n].members
    ensures n in w.parentJob && k in Heads(nodes, n) ==> ParentFits(nodes, generated, k, w.parentJob[n])
    ensures n in w.dependencyJobs && k in Heads(nodes, n) ==> MembersFit(nodes, generated, k, w.dependencyJobs[n])
    ensures n in w.runOnFailure ==> ErrorFits(nodes, k)
  {
    HeadsAreLeaves(nodes, n);
    if n in w.parentJob {
      ParentOfGroup(nodes, generated, n, w.parentJob[n], k);
    }
    if n in w.dependencyJobs {
      MembersOfGroup(nodes, generated, n, w.dependencyJobs[n], k);
    }
    if n in w.runOnFailure {
      var m: nat, l: nat :| OnError(nodes, m, l) && (l == n || (l < |nodes| && !nodes[l].Leaf? && n in nodes[l].members));
      assert l == n;
    }
  }

  lemma HeadsAreLeaves(nodes: seq<Node>, n: nat)
    requires WellFormed(nodes) && n < |nodes| && !nodes[n].Leaf?
    ensures forall h: nat :: n !in Heads(nodes, h)
  {
    forall h: nat ensures n !in Heads(nodes, h) {
      if h < |nodes| && !nodes[h].Leaf? {
        assert n !in nodes[h].members;
      }
    }
  }

  lemma ParentOfGroup(nodes: seq<Node>, generated: map<nat, nat>, n: nat, job: nat, k: nat)
    requires ParentFits(nodes, generated, n, job) && forall h: nat :: n !in Heads(nodes, h)
    ensures k in Heads(nodes, n) ==> ParentFits(nodes, generated, k, job)
  {
    hide After, Heads;
    var q: nat, l: nat :| q in generated && generated[q] == job && After(nodes, q, l) && (l == n || n in Heads(nodes, l));
    assert l == n;
  }

  lemma MembersOfGroup(nodes: seq<Node>, generated: map<nat, nat>, n: nat, jobs: seq<nat>, k: nat)
    requires MembersFit(nodes, generated, n, jobs) && forall h: nat :: n !in Heads(nodes, h)
    ensures k in Heads(nodes, n) ==> MembersFit(nodes, generated, k, jobs)
  {
    hide AfterGroup, Heads;
    var g: nat, l: nat :| AfterGroup(nodes, generated, g, l, jobs) && (l == n || n in Heads(nodes, l));
    assert l == n;
  }

  // ---- what starts at once --------------------------------------------------

  predicate LinkedFromEmpty(nodes: seq<Node>, e: nat, k: nat) {
    e < |nodes| && !nodes[e].Leaf? && nodes[e].members == [] && k in nodes[e].Links()
  }

  /** `x` is linked from a group or chain without members, or starts what is: it gets nothing to wait for there. */
  ghost predicate BehindEmpty(nodes: seq<Node>, x: nat) {
    exists e: nat, k: nat :: LinkedFromEmpty(nodes, e, k) && (k == x || x in Heads(nodes, k))
  }

  /** Whoever starts and is not in `starters'` is behind an empty group or chain. */
  ghost predicate Covered(nodes: seq<Node>, starters: set<nat>, starters': set<nat>) {
    forall x | x in starters && x !in starters' :: BehindEmpty(nodes, x)
  }

  /** The Delayables that need not wait when `n` is delayed. */
  function Starters(nodes: seq<Node>, w: Wiring, n: nat): set<nat> {
    if Attached(w, n) then {} else Heads(nodes, n)
  }

  /** The row waits, and is a failure handler if nothing but `on_error` leads to `x`. */
  ghost predicate WaitsRightly(nodes: seq<Node>, t: Table, id: nat, x: nat) {
    IsWaiting(t, id) && (OnlyOnError(nodes, x) ==> t[id].runOnFailure)
  }

  /** Of the new rows only those of `starters`, and those behind something empty, are not waiting. */
  ghost predicate Waits(nodes: seq<Node>, a: Jobs, b: Jobs, starters: set<nat>) {
    forall x | x in b.generated && x !in a.generated && x !in starters && !BehindEmpty(nodes, x) ::
      WaitsRightly(nodes, b.rows, b.generated[x], x)
  }

  /** Attributes are overwritten but never taken away. */
  ghost predicate Keeps(v: Wiring, w: Wiring) {
    v.parentJob.Keys <= w.parentJob.Keys && v.dependencyJobs.Keys <= w.dependencyJobs.Keys
  }

  /** From `a` and `v` to `b` and `w`, the Delayables `leaves` were generated. */
  ghost predicate Delayed(nodes: seq<Node>, a: Jobs, v: Wiring, b: Jobs, w: Wiring,
                          leaves: set<nat>, uuid: Option<nat>, starters: set<nat>)
  {
    Grew(a, b, leaves, uuid) && Waits(nodes, a, b, starters) && Keeps(v, w)
  }

  lemma DelayedNot(nodes: seq<Node>, a: Jobs, v: Wiring, w: Wiring, uuid: Option<nat>, starters: set<nat>)
    requires Keeps(v, w)
    ensures Delayed(nodes, a, v, a, w, {}, uuid, starters)
  {
    GrewNot(a, uuid);
  }

  lemma WaitsTwice(nodes: seq<Node>, a: Jobs, b: Jobs, c: Jobs, starters: set<nat>)
    requires Waits(nodes, a, b, starters) && Waits(nodes, b, c, starters)
    requires Extends(b.generated, c.generated)
    requires forall id | id in b.rows :: id in c.rows && c.rows[id] == b.rows[id]
    ensures Waits(nodes, a, c, starters)
  {
    hide BehindEmpty, OnlyOnError;
    forall x | x in c.generated && x !in a.generated && x !in starters && !BehindEmpty(nodes, x)
      ensures WaitsRightly(nodes, c.rows, c.generated[x], x)
    {
      if x in b.generated { assert WaitsRightly(nodes, b.rows, b.generated[x], x); }
    }
  }

  lemma DelayedTwice(nodes: seq<Node>, a: Jobs, u: Wiring, b: Jobs, v: Wiring, v': Wiring, c: Jobs, w: Wiring,
                     first: set<nat>, second: set<nat>, uuid: Option<nat>, starters: set<nat>)
    requires Delayed(nodes, a, u, b, v, first, uuid, starters) && Keeps(v, v')
    requires Delayed(nodes, b, v', c, w, second, uuid, starters)
    ensures Delayed(nodes, a, u, c, w, first + second, uuid, starters)
  {
    hide GrewIds, Waits, Newborn;
    GrewKeys(b, c, second, uuid);
    GrewRowsKept(b, c, uuid);
    WaitsTwice(nodes, a, b, c, starters);
    GrewTwice(a, b, c, first, second, uuid);
  }

  lemma GrewRowsKept(a: Jobs, b: Jobs, uuid: Option<nat>)
    requires GrewRows(a, b, uuid)
    ensures forall id | id in a.rows :: id in b.rows && b.rows[id] == a.rows[id]
  {}

  /** Only the starters behind nothing empty matter. */
  lemma DelayedWidens(nodes: seq<Node>, a: Jobs, v: Wiring, b: Jobs, w: Wiring,
                      leaves: set<nat>, uuid: Option<nat>, starters: set<nat>, starters': set<nat>)
    requires Delayed(nodes, a, v, b, w, leaves, uuid, starters)
    requires Covered(nodes, starters, starters')
    ensures Delayed(nodes, a, v, b, w, leaves, uuid, starters')
  {
    hide Grew, Keeps, BehindEmpty, WaitsRightly;
  }

  lemma CoveredBySuperset(nodes: seq<Node>, starters: set<nat>, starters': set<nat>)
    requires starters <= starters'
    ensures Covered(nodes, starters, starters')
  {}

  lemma DelayedKeys(nodes: seq<Node>, a: Jobs, v: Wiring, b: Jobs, w: Wiring,
                    leaves: set<nat>, uuid: Option<nat>, starters: set<nat>)
    requires Delayed(nodes, a, v, b, w, leaves, uuid, starters)
    ensures b.generated.Keys == a.generated.Keys + leaves && b.nextId >= a.nextId
    ensures Extends(a.generated, b.generated) && Keeps(v, w)
    ensures |Leaves(nodes) - b.generated.Keys| <= |Leaves(nodes) - a.generated.Keys|
  {
    GrewKeys(a, b, leaves, uuid);
    hide Delayed;
    SubsetSize(Leaves(nodes) - b.generated.Keys, Leaves(nodes) - a.generated.Keys);
  }

  // ---- one link, one batch, one node ----------------------------------------

  lemma NothingDelayed(nodes: seq<Node>, a: Jobs, v: Wiring, w: Wiring, links: seq<nat>, uuid: Option<nat>, starters: set<nat>)
    requires Keeps(v, w)
    ensures Delayed(nodes, a, v, a, w, Fresh(nodes, a.generated.Keys, Ids(links[..0])), uuid, starters)
  {
    assert Ids(links[..0]) == {};
    FreshOfNothing(nodes, a.generated.Keys);
    DelayedNot(nodes, a, v, w, uuid, starters);
  }

  lemma DelayedSets(nodes: seq<Node>, a: Jobs, u: Wiring, b: Jobs, v: Wiring, v': Wiring, c: Jobs, w: Wiring,
                    first: set<nat>, second: set<nat>, uuid: Option<nat>, starters: set<nat>)
    requires Delayed(nodes, a, u, b, v, Fresh(nodes, a.generated.Keys, first), uuid, starters) && Keeps(v, v')
    requires Delayed(nodes, b, v', c, w, Fresh(nodes, b.generated.Keys, second), uuid, starters)
    ensures Delayed(nodes, a, u, c, w, Fresh(nodes, a.generated.Keys, first + second), uuid, starters)
  {
    hide *;
    var one := Fresh(nodes, a.generated.Keys, first);
    DelayedKeys(nodes, a, u, b, v, one, uuid, starters);
    FreshSplits(nodes, a.generated.Keys, first, second);
    DelayedTwice(nodes, a, u, b, v, v', c, w, one, Fresh(nodes, b.generated.Keys, second), uuid, starters);
  }

  lemma WholeBatch(links: seq<nat>)
    ensures links[..|links|] == links
  {}

  lemma DelayedOneMore(nodes: seq<Node>, a: Jobs, u: Wiring, b: Jobs, v: Wiring, v': Wiring, c: Jobs, w: Wiring,
                       links: seq<nat>, i: nat, uuid: Option<nat>, starters: set<nat>, own: set<nat>)
    requires i < |links| && Covered(nodes, own, starters)
    requires Delayed(nodes, a, u, b, v, Fresh(nodes, a.generated.Keys, Ids(links[..i])), uuid, starters) && Keeps(v, v')
    requires Delayed(nodes, b, v', c, w, Fresh(nodes, b.generated.Keys, {links[i]}), uuid, own)
    ensures Delayed(nodes, a, u, c, w, Fresh(nodes, a.generated.Keys, Ids(links[..i + 1])), uuid, starters)
  {
    hide *;
    IdsOfPrefix(links, i);
    DelayedWidens(nodes, b, v', c, w, Fresh(nodes, b.generated.Keys, {links[i]}), uuid, own, starters);
    DelayedSets(nodes, a, u, b, v, v', c, w, Ids(links[..i]), {links[i]}, uuid, starters);
  }

  lemma DelayedBatches(nodes: seq<Node>, a: Jobs, u: Wiring, b: Jobs, v: Wiring, c: Jobs, w: Wiring,
                       first: seq<nat>, second: seq<nat>, uuid: Option<nat>, starters: set<nat>)
    requires Delayed(nodes, a, u, b, v, Fresh(nodes, a.generated.Keys, Ids(first)), uuid, starters)
    requires Delayed(nodes, b, v, c, w, Fresh(nodes, b.generated.Keys, Ids(second)), uuid, {})
    ensures Delayed(nodes, a, u, c, w, Fresh(nodes, a.generated.Keys, Ids(first + second)), uuid, starters)
  {
    hide *;
    IdsOfConcat(first, second);
    KeepsItself(v);
    CoveredBySuperset(nodes, {}, starters);
    DelayedWidens(nodes, b, v, c, w, Fresh(nodes, b.generated.Keys, Ids(second)), uuid, {}, starters);
    DelayedSets(nodes, a, u, b, v, v, c, w, Ids(first), Ids(second), uuid, starters);
  }

  lemma OutOfLeaf(nodes: seq<Node>, n: nat)
    requires n < |nodes| && nodes[n].Leaf?
    ensures nodes[n].Out() == nodes[n].Links() == nodes[n].next + nodes[n].errors
  {}

  lemma OutOfGroup(nodes: seq<Node>, n: nat)
    requires n < |nodes| && !nodes[n].Leaf?
    ensures nodes[n].Out() == nodes[n].members + nodes[n].next + nodes[n].errors
  {}

  lemma NoIds()
    ensures Ids([]) == {}
  {}

  lemma KeepsItself(w: Wiring)
    ensures Keeps(w, w)
  {}

  lemma GroupDelayed(nodes: seq<Node>, a: Jobs, u: Wiring, b: Jobs, v: Wiring, c: Jobs, w: Wiring, d: Jobs, z: Wiring,
                     n: nat, uuid: Option<nat>, starters: set<nat>)
    requires n < |nodes| && !nodes[n].Leaf? && n !in a.generated
    requires Delayed(nodes, a, u, b, v, Fresh(nodes, a.generated.Keys, Ids(nodes[n].members)), uuid, starters)
    requires Delayed(nodes, b, v, c, w, Fresh(nodes, b.generated.Keys, Ids(nodes[n].next)), uuid, {})
    requires Delayed(nodes, c, w, d, z, Fresh(nodes, c.generated.Keys, Ids(nodes[n].errors)), uuid, {})
    ensures Delayed(nodes, a, u, d, z, Fresh(nodes, a.generated.Keys, {n}), uuid, starters)
  {
    hide *;
    OutOfGroup(nodes, n);
    DelayedBatches(nodes, a, u, b, v, c, w, nodes[n].members, nodes[n].next, uuid, starters);
    DelayedBatches(nodes, a, u, c, w, d, z, nodes[n].members + nodes[n].next, nodes[n].errors, uuid, starters);
    FreshOfGroup(nodes, a.generated.Keys, n);
  }

  lemma LeafDelayed(nodes: seq<Node>, a: Jobs, u: Wiring, b: Jobs, v: Wiring, c: Jobs, w: Wiring,
                    n: nat, uuid: Option<nat>, starters: set<nat>)
    requires n < |nodes| && nodes[n].Leaf? && n !in a.generated
    requires Delayed(nodes, a, u, b, v, {n}, uuid, starters)
    requires Delayed(nodes, b, v, c, w, Fresh(nodes, b.generated.Keys, Ids(nodes[n].Links())), uuid, {})
    ensures Delayed(nodes, a, u, c, w, Fresh(nodes, a.generated.Keys, {n}), uuid, starters)
  {
    hide *;
    OutOfLeaf(nodes, n);
    KeepsItself(v);
    DelayedKeys(nodes, a, u, b, v, {n}, uuid, starters);
    FreshOfLeaf(nodes, a.generated.Keys, n);
    var links := Fresh(nodes, b.generated.Keys, Ids(nodes[n].Links()));
    CoveredBySuperset(nodes, {}, starters);
    DelayedWidens(nodes, b, v, c, w, links, uuid, {}, starters);
    DelayedTwice(nodes, a, u, b, v, v, c, w, {n}, links, uuid, starters);
  }

  lemma LinklessDelayed(nodes: seq<Node>, a: Jobs, u: Wiring, b: Jobs, v: Wiring, n: nat, starters: set<nat>)
    requires n < |nodes| && nodes[n].Leaf? && n !in a.generated && nodes[n].next == [] && nodes[n].errors == []
    requires Delayed(nodes, a, u, b, v, {n}, None, starters)
    ensures Delayed(nodes, a, u, b, v, Fresh(nodes, a.generated.Keys, {n}), None, starters)
  {
    hide *;
    OutOfLeaf(nodes, n);
    assert nodes[n].Out() == [];
    NoIds();
    FreshOfLeaf(nodes, a.generated.Keys, n);
    FreshOfNothing(nodes, a.generated.Keys + {n});
    assert Fresh(nodes, a.generated.Keys, {n}) == {n};
  }

  // ---- small steps of the loops ---------------------------------------------

  /** `rank` orders groups and chains: those linked from one rank below it. */
  ghost predicate Nested(nodes: seq<Node>, rank: seq<nat>) {
    && |rank| == |nodes|
    && forall i | 0 <= i < |nodes| && !nodes[i].Leaf? ::
         forall k | k in nodes[i].Links() && k < |nodes| && !nodes[k].Leaf? :: rank[k] < rank[i]
  }

  function MaxOf(rank: seq<nat>): (m: nat)
    ensures forall r | r in rank :: r <= m
  {
    if rank == [] then 0
    else
      var m, last := MaxOf(rank[..|rank| - 1]), rank[|rank| - 1];
      assert forall r | r in rank :: r in rank[..|rank| - 1] || r == last;
      if m < last then last else m
  }

  /** What `delay()` passes to `enqueue` for a Delayable: its own settings, and the wiring it carries. */
  function RequestOf(settings: Settings, w: Wiring, n: nat, uuid: Option<nat>): Request {
    Request(
      None,
      if n in w.parentJob then Some(w.parentJob[n]) else None,
      if n in w.dependencyJobs then w.dependencyJobs[n] else [],
      n in w.runOnFailure, uuid,
      settings.priority, settings.channel, settings.maxRetries, settings.scheduledAt)
  }

  /** The row carries the Delayable's settings, the documented defaults for what it leaves open, and its wiring. */
  predicate Carries(row: Job, settings: Settings, w: Wiring, n: nat, uuid: Option<nat>, now: int) {
    && (settings.priority.Some? ==> row.priority == settings.priority.value)
    && (settings.priority.None? ==> row.priority == 10)
    && (settings.channel.Some? && settings.channel.value != "" ==> row.channel == settings.channel)
    && (settings.channel == None || settings.channel == Some("") ==> row.channel == Some("root"))
    && (settings.maxRetries.Some? ==> row.maxRetries == settings.maxRetries)
    && (settings.maxRetries.None? ==> row.maxRetries == Some(5))
    && row.scheduledAt == settings.scheduledAt && row.createdAt == now && row.identityKey.None? && row.graph == uuid
    && row.attempts == Some(0) && row.heartbeat.None? && row.worker.None? && row.completedAt.None? && row.exc == []
    && (if n in w.parentJob then row.parent == Some(w.parentJob[n]) else row.parent.None?)
    && row.deps == (if n in w.dependencyJobs then w.dependencyJobs[n] else []) && row.countdown == |row.deps|
    && (row.runOnFailure <==> n in w.runOnFailure)
    && row.state == (if n in w.parentJob || (n in w.dependencyJobs && w.dependencyJobs[n] != []) then Waiting else Pending)
  }

  lemma NewRowCarries(settings: Settings, w: Wiring, n: nat, uuid: Option<nat>, now: int)
    ensures Carries(NewRow(RequestOf(settings, w, n, uuid), now), settings, w, n, uuid, now)
  {}

  lemma RequestFits(nodes: seq<Node>, jobs: Jobs, w: Wiring, n: nat, req: Request)
    requires WiringFits(nodes, jobs.generated, w) && AllJustified(nodes, jobs)
    requires req.parent == if n in w.parentJob then Some(w.parentJob[n]) else None
    requires req.deps == if n in w.dependencyJobs then w.dependencyJobs[n] else []
    requires req.runOnFailure == (n in w.runOnFailure)
    ensures req.parent.Some? ==> ParentFits(nodes, jobs.generated, n, req.parent.value) && req.parent.value in jobs.rows
    ensures req.deps != [] ==> MembersFit(nodes, jobs.generated, n, req.deps)
    ensures forall d | d in req.deps :: d in jobs.rows
    ensures req.runOnFailure ==> ErrorFits(nodes, n)
    ensures Attached(w, n) && !BehindEmpty(nodes, n) ==> req.parent.Some? || req.deps != []
    ensures Attached(w, n) && OnlyOnError(nodes, n) ==> req.runOnFailure
  {
    hide Justified, After, Heads, ErrorFits;
    if n in w.dependencyJobs {
      var g: nat, k: nat :| AfterGroup(nodes, jobs.generated, g, k, req.deps) && (k == n || n in Heads(nodes, k));
      if req.deps == [] { assert LinkedFromEmpty(nodes, g, k); }
    }
  }

  lemma JobsInRows(nodes: seq<Node>, jobs: Jobs)
    requires AllJustified(nodes, jobs)
    ensures forall x | x in jobs.generated :: jobs.generated[x] in jobs.rows
  {}

  lemma NoKeyNoReuse(t: Table, req: Request, now: int)
    requires req.identityKey.None?
    ensures !Reused(t, NewRow(req, now))
  {}

  lemma OneDelayed(nodes: seq<Node>, a: Jobs, b: Jobs, w: Wiring, n: nat, req: Request, now: int)
    requires n < |nodes| && nodes[n].Leaf? && n !in a.generated && a.nextId !in a.rows
    requires b == Jobs(a.generated[n := a.nextId], a.rows[a.nextId := NewRow(req, now)], a.nextId + 1)
    requires req.parent.Some? ==> req.parent.value < a.nextId
    requires forall d | d in req.deps :: d < a.nextId
    requires Attached(w, n) && !BehindEmpty(nodes, n) ==> req.parent.Some? || req.deps != []
    requires Attached(w, n) && OnlyOnError(nodes, n) ==> req.runOnFailure
    ensures Delayed(nodes, a, w, b, w, {n}, req.graph, Starters(nodes, w, n))
  {
    GrewOne(a, b, n, req, now);
    hide Grew, Waits, Keeps, OnlyOnError, BehindEmpty;
    OneWaits(nodes, a, b, n, NewRow(req, now), Starters(nodes, w, n));
    KeepsItself(w);
  }

  lemma OneWaits(nodes: seq<Node>, a: Jobs, b: Jobs, n: nat, row: Job, starters: set<nat>)
    requires b.generated == a.generated[n := a.nextId] && b.rows == a.rows[a.nextId := row]
    requires n in starters || BehindEmpty(nodes, n)
          || (row.state == Waiting && (OnlyOnError(nodes, n) ==> row.runOnFailure))
    ensures Waits(nodes, a, b, starters)
  {
    hide BehindEmpty, OnlyOnError;
  }

  lemma FewerStill(nodes: seq<Node>, a: Jobs, v: Wiring, b: Jobs, w: Wiring, n: nat, uuid: Option<nat>)
    requires n < |nodes| && nodes[n].Leaf? && n !in a.generated && b.generated.Keys == a.generated.Keys + {n}
    ensures |Leaves(nodes) - b.generated.Keys| < |Leaves(nodes) - a.generated.Keys|
  {
    var before, after := Leaves(nodes) - a.generated.Keys, Leaves(nodes) - b.generated.Keys;
    assert n in before;
    SubsetSize(after, before - {n});
  }

  lemma ExtendsAt(generated: map<nat, nat>, generated': map<nat, nat>, n: nat)
    requires Extends(generated, generated') && n in generated
    ensures n in generated' && generated'[n] == generated[n]
  {}

  lemma JobsOfLater(generated: map<nat, nat>, generated': map<nat, nat>, members: seq<nat>, jobs: seq<nat>)
    requires Extends(generated, generated') && JobsOf(generated, members, jobs)
    ensures JobsOf(generated', members, jobs)
  {}

  lemma NoJobsYet(generated: map<nat, nat>, members: seq<nat>)
    ensures JobsSoFar(generated, members, [])
  {}

  lemma OneMoreJob(generated: map<nat, nat>, generated': map<nat, nat>, members: seq<nat>, i: nat, jobs: seq<nat>)
    requires i == |jobs| < |members| && Extends(generated, generated') && JobsSoFar(generated, members, jobs)
    requires members[i] in generated'
    ensures JobsSoFar(generated', members, jobs + [generated'[members[i]]])
  {}

  lemma HeadOf(nodes: seq<Node>, n: nat, i: nat)
    requires n < |nodes| && !nodes[n].Leaf? && i < |nodes[n].members|
    ensures nodes[n].Group? || i == 0 ==> nodes[n].members[i] in Heads(nodes, n)
  {}

  /** A head of `n` that inherits what `n` has adds no starter that `n` did not have. */
  lemma OwnStarters(nodes: seq<Node>, wires: Wiring, v: Wiring, w: Wiring, n: nat, k: nat)
    requires k < |nodes| && nodes[k].Leaf? && k in Heads(nodes, n)
    requires Keeps(wires, v) && (Attached(v, n) ==> Attached(w, k))
    ensures Starters(nodes, w, k) <= Starters(nodes, wires, n)
  {}

  lemma ParentAttaches(u: Wiring, v: Wiring, w: Wiring, k: nat)
    requires Keeps(u, v) && k in w.parentJob && v.parentJob.Keys <= w.parentJob.Keys
    requires w.dependencyJobs == v.dependencyJobs
    ensures Keeps(u, w)
  {}

  /** One turn of the loop over a group's members. */
  lemma GroupStep(nodes: seq<Node>, a: Jobs, u: Wiring, b: Jobs, v: Wiring, v': Wiring, c: Jobs, w: Wiring,
                  n: nat, i: nat, uuid: Option<nat>, jobs: seq<nat>)
    requires n < |nodes| && nodes[n].Group? && i < |nodes[n].members|
    requires Delayed(nodes, a, u, b, v, Fresh(nodes, a.generated.Keys, Ids(nodes[n].members[..i])), uuid, Starters(nodes, u, n))
    requires Keeps(v, v') && (Attached(v, n) ==> Attached(v', nodes[n].members[i]))
    requires nodes[n].members[i] < |nodes| && nodes[nodes[n].members[i]].Leaf?
    requires Delayed(nodes, b, v', c, w, Fresh(nodes, b.generated.Keys, {nodes[n].members[i]}), uuid,
                     Starters(nodes, v', nodes[n].members[i]))
    requires |jobs| == i && JobsSoFar(b.generated, nodes[n].members, jobs) && nodes[n].members[i] in c.generated
    ensures Delayed(nodes, a, u, c, w, Fresh(nodes, a.generated.Keys, Ids(nodes[n].members[..i + 1])), uuid, Starters(nodes, u, n))
    ensures JobsSoFar(c.generated, nodes[n].members, jobs + [c.generated[nodes[n].members[i]]])
  {
    hide *;
    var members, k := nodes[n].members, nodes[n].members[i];
    HeadOf(nodes, n, i);
    DelayedKeys(nodes, a, u, b, v, Fresh(nodes, a.generated.Keys, Ids(members[..i])), uuid, Starters(nodes, u, n));
    OwnStarters(nodes, u, v, v', n, k);
    CoveredBySuperset(nodes, Starters(nodes, v', k), Starters(nodes, u, n));
    DelayedOneMore(nodes, a, u, b, v, v', c, w, members, i, uuid, Starters(nodes, u, n), Starters(nodes, v', k));
    DelayedKeys(nodes, b, v', c, w, Fresh(nodes, b.generated.Keys, {k}), uuid, Starters(nodes, v', k));
    OneMoreJob(b.generated, c.generated, members, i, jobs);
  }

  /** One turn of the loop over a chain's members: the first is a head, the others have a parent. */
  lemma ChainStep(nodes: seq<Node>, a: Jobs, u: Wiring, b: Jobs, v: Wiring, v': Wiring, c: Jobs, w: Wiring,
                  n: nat, i: nat, uuid: Option<nat>)
    requires n < |nodes| && nodes[n].Chain? && i < |nodes[n].members|
    requires Delayed(nodes, a, u, b, v, Fresh(nodes, a.generated.Keys, Ids(nodes[n].members[..i])), uuid, Starters(nodes, u, n))
    requires Keeps(v, v')
    requires if i == 0 then Attached(v, n) ==> Attached(v', nodes[n].members[i]) else nodes[n].members[i] in v'.parentJob
    requires nodes[n].members[i] < |nodes| && nodes[nodes[n].members[i]].Leaf?
    requires Delayed(nodes, b, v', c, w, Fresh(nodes, b.generated.Keys, {nodes[n].members[i]}), uuid,
                     Starters(nodes, v', nodes[n].members[i]))
    ensures Delayed(nodes, a, u, c, w, Fresh(nodes, a.generated.Keys, Ids(nodes[n].members[..i + 1])), uuid, Starters(nodes, u, n))
  {
    hide *;
    var members, k := nodes[n].members, nodes[n].members[i];
    HeadOf(nodes, n, i);
    DelayedKeys(nodes, a, u, b, v, Fresh(nodes, a.generated.Keys, Ids(members[..i])), uuid, Starters(nodes, u, n));
    if i == 0 { OwnStarters(nodes, u, v, v', n, k); } else { ParentedStartsNothing(nodes, v', k); }
    CoveredBySuperset(nodes, Starters(nodes, v', k), Starters(nodes, u, n));
    DelayedOneMore(nodes, a, u, b, v, v', c, w, members, i, uuid, Starters(nodes, u, n), Starters(nodes, v', k));
  }

  lemma ParentedStartsNothing(nodes: seq<Node>, w: Wiring, k: nat)
    requires k in w.parentJob
    ensures Starters(nodes, w, k) == {}
  {}

  /** What the links of `n` get: the job of a Delayable, of a chain's last member, or of all of a group's members. */
  ghost predicate Feeds(nodes: seq<Node>, generated: map<nat, nat>, n: nat, parent: Option<nat>, deps: Option<seq<nat>>) {
    n < |nodes| && match nodes[n]
      case Leaf(_, _, _) => deps.None? && n in generated && parent == Some(generated[n])
      case Group(members, _, _) => parent.None? && deps.Some? && JobsOf(generated, members, deps.value)
      case Chain(members, _, _) =>
        && deps.None? && (parent.None? <==> members == [])
        && (parent.Some? ==> members[|members| - 1] in generated && generated[members[|members| - 1]] == parent.value)
  }

  lemma LeafFeeds(nodes: seq<Node>, generated: map<nat, nat>, n: nat)
    requires n < |nodes| && nodes[n].Leaf? && n in generated
    ensures Feeds(nodes, generated, n, Some(generated[n]), None)
  {}

  lemma FeedsLater(nodes: seq<Node>, generated: map<nat, nat>, generated': map<nat, nat>, n: nat,
                   parent: Option<nat>, deps: Option<seq<nat>>)
    requires Extends(generated, generated') && Feeds(nodes, generated, n, parent, deps)
    ensures Feeds(nodes, generated', n, parent, deps)
  {}

  lemma LinkFits(nodes: seq<Node>, generated: map<nat, nat>, n: nat, k: nat, onError: bool,
                 parent: Option<nat>, deps: Option<seq<nat>>)
    requires Feeds(nodes, generated, n, parent, deps)
    requires k in if onError then nodes[n].errors else nodes[n].next
    ensures parent.Some? ==> ParentFits(nodes, generated, k, parent.value)
    ensures deps.Some? ==> MembersFit(nodes, generated, k, deps.value)
    ensures onError ==> ErrorFits(nodes, k)
    ensures OnlyOnError(nodes, k) ==> onError
  {
    hide Heads;
    assert k in nodes[n].Links();
    if onError { assert OnError(nodes, n, k); }
    if deps.Some? { assert AfterGroup(nodes, generated, n, k, deps.value); }
    if parent.Some? {
      var q := if nodes[n].Leaf? then n else nodes[n].members[|nodes[n].members| - 1];
      assert After(nodes, q, k);
    }
  }

  lemma MemberNotOnlyOnError(nodes: seq<Node>, n: nat, k: nat)
    requires n < |nodes| && !nodes[n].Leaf? && k in nodes[n].members
    ensures !OnlyOnError(nodes, k)
  {}

  lemma NextInChain(nodes: seq<Node>, generated: map<nat, nat>, n: nat, i: nat)
    requires n < |nodes| && nodes[n].Chain? && 0 < i < |nodes[n].members| && nodes[n].members[i - 1] in generated
    ensures ParentFits(nodes, generated, nodes[n].members[i], generated[nodes[n].members[i - 1]])
  {
    hide Heads;
    assert After(nodes, nodes[n].members[i - 1], nodes[n].members[i]);
  }

  lemma LinkIn(nodes: seq<Node>, n: nat, onError: bool, i: nat)
    requires n < |nodes| && i < |if onError then nodes[n].errors else nodes[n].next|
    ensures
      var links := if onError then nodes[n].errors else nodes[n].next;
      links[i] in links && links[i] in nodes[n].Links()
  {}

  lemma LinkAttaches(nodes: seq<Node>, generated: map<nat, nat>, v: Wiring, w: Wiring, n: nat, k: nat,
                     parent: Option<nat>, deps: Option<seq<nat>>)
    requires Feeds(nodes, generated, n, parent, deps)
    requires w.parentJob == if parent.Some? then v.parentJob[k := parent.value] else v.parentJob
    requires w.dependencyJobs == if deps.Some? then v.dependencyJobs[k := deps.value] else v.dependencyJobs
    requires k in nodes[n].Links()
    ensures Keeps(v, w) && Covered(nodes, Starters(nodes, w, k), {})
  {
    hide Heads, JobsOf, BehindEmpty;
    if !Attached(w, k) {
      assert LinkedFromEmpty(nodes, n, k);
      HeadsAreBehind(nodes, n, k);
    }
  }

  lemma HeadsAreBehind(nodes: seq<Node>, e: nat, k: nat)
    requires LinkedFromEmpty(nodes, e, k)
    ensures forall x | x in Heads(nodes, k) :: BehindEmpty(nodes, x)
  {
    hide Heads, LinkedFromEmpty;
  }

  // ---- what the contract means for a fresh graph ----------------------------

  /** From a fresh start, exactly the Delayables that a path of links and memberships leads to get a job. */
  lemma FreshIsReachability(nodes: seq<Node>, root: nat, x: nat)
    ensures x in Fresh(nodes, {}, {root}) <==>
      && x < |nodes| && nodes[x].Leaf?
      && exists path :: IsPath(Wires(nodes), Everything(nodes), path) && path[0] == root && path[|path| - 1] == x
  {
    assert Everything(nodes) - {} == Everything(nodes);
    if x < |nodes| && nodes[x].Leaf? {
      if path :| IsPath(Wires(nodes), Everything(nodes), path) && path[0] == root && path[|path| - 1] == x {
        assert Reaches(Wires(nodes), Everything(nodes), {root}, x);
      }
    }
  }

  /** A group's barrier lists a job twice exactly when the group lists a Delayable twice. */
  lemma BarrierDistinctExactly(generated: map<nat, nat>, members: seq<nat>, jobs: seq<nat>)
    requires JobsOf(generated, members, jobs)
    requires forall x, y | x in generated && y in generated && x != y :: generated[x] != generated[y]
    ensures Distinct(jobs) <==> Distinct(members)
  {
    if Distinct(members) {
      forall i, j | 0 <= i < j < |jobs| ensures jobs[i] != jobs[j] {
        assert members[i] != members[j];
      }
    }
    if Distinct(jobs) {
      forall i, j | 0 <= i < j < |members| ensures members[i] != members[j] {
        assert jobs[i] != jobs[j];
      }
    }
  }

  // ---- split ----------------------------------------------------------------

  /** `ids[i : i + size] for i in range(start, len(ids), size)` */
  function Chunks(ids: seq<nat>, size: nat, start: nat): seq<seq<nat>>
    requires size > 0
    decreases |ids| - start
  {
    if start >= |ids| then []
    else [ids[start..if start + size <= |ids| then start + size else |ids|]] + Chunks(ids, size, start + size)
  }

  /** `split`: a step of zero raises, a negative one is an empty range. */
  function Split(ids: seq<nat>, size: int): Option<seq<seq<nat>>> {
    if size == 0 then None else if size < 0 then Some([]) else Some(Chunks(ids, size, 0))
  }

  function Flat(chunks: seq<seq<nat>>): seq<nat> {
    if chunks == [] then [] else chunks[0] + Flat(chunks[1..])
  }

  lemma {:induction false} ChunksCover(ids: seq<nat>, size: nat, start: nat)
    requires size > 0
    ensures Flat(Chunks(ids, size, start)) == if start >= |ids| then [] else ids[start..]
    ensures forall c | c in Chunks(ids, size, start) :: 1 <= |c| <= size
    ensures forall i | 0 <= i < |Chunks(ids, size, start)| - 1 :: |Chunks(ids, size, start)[i]| == size
    decreases |ids| - start
  {
    if start < |ids| {
      ChunksCover(ids, size, start + size);
      var rest := Chunks(ids, size, start + size);
      assert Chunks(ids, size, start)[1..] == rest;
    }
  }

  /** Splitting loses no record exactly when the size is positive or there is nothing to split. */
  lemma SplitKeepsAllExactly(ids: seq<nat>, size: int)
    requires size != 0
    ensures Split(ids, size).Some?
    ensures Flat(Split(ids, size).value) == ids <==> size > 0 || ids == []
  {
    if size > 0 { ChunksCover(ids, size, 0); }
  }
}
