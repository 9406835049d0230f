/** From a graph to the queue: dispatching a well-shaped graph strands no job. */
module Dispatch {
  import opened JobTable
  import opened CancelWalk
  import opened Intake
  import opened Protocol
  import opened JobStore
  import opened DelayGraph
  import opened DelayJobs
  import opened Delay
  import opened Stranding
  import opened StrandingRuns

  predicate LinkedFromGroup(nodes: seq<Node>, g: nat, k: nat) {
    g < |nodes| && nodes[g].Group? && k in nodes[g].Links()
  }

  /** Delayable `x` becomes a barrier: a group links to it, or to a group or chain that starts with it. */
  ghost predicate BecomesBarrier(nodes: seq<Node>, x: nat) {
    exists g: nat, k: nat :: LinkedFromGroup(nodes, g, k) && (k == x || x in Heads(nodes, k))
  }

  ghost predicate Follows(nodes: seq<Node>, q: nat, k: nat, x: nat) {
    After(nodes, q, k) && (k == x || x in Heads(nodes, k))
  }

  /** A group that something waits for. */
  predicate Awaited(nodes: seq<Node>, g: nat) {
    g < |nodes| && nodes[g].Group? && nodes[g].Links() != []
  }

  /**
   The shape that keeps the queue moving: awaited groups list distinct
   Delayables that follow nothing, and what waits for a group has nothing
   behind it and is in no awaited group.
   */
  ghost predicate WellShaped(nodes: seq<Node>) {
    && (forall g: nat | Awaited(nodes, g) :: Distinct(nodes[g].members))
    && (forall g: nat, x: nat | Awaited(nodes, g) && x in nodes[g].members ::
          !BecomesBarrier(nodes, x) && forall q: nat, k: nat :: !Follows(nodes, q, k, x))
    && (forall x: nat | BecomesBarrier(nodes, x) :: forall q: nat, k: nat, y: nat | Follows(nodes, q, k, y) :: q != x)
  }

  // ---- every new id is the job of some Delayable ----------------------------

  function Interval(from: nat, count: nat): set<nat> {
    if count == 0 then {} else Interval(from, count - 1) + {from + count - 1}
  }

  lemma {:induction false} IntervalIs(from: nat, count: nat)
    ensures |Interval(from, count)| == count
    ensures forall id: nat :: id in Interval(from, count) <==> from <= id < from + count
  {
    if count > 0 { IntervalIs(from, count - 1); }
  }

  function JobsIn(generated: map<nat, nat>, leaves: set<nat>): set<nat> {
    set x | x in leaves && x in generated :: generated[x]
  }

  ghost predicate Injective(generated: map<nat, nat>) {
    forall x, y | x in generated && y in generated && x != y :: generated[x] != generated[y]
  }

  lemma {:induction false} JobsCount(generated: map<nat, nat>, leaves: set<nat>)
    requires leaves <= generated.Keys && Injective(generated)
    ensures |JobsIn(generated, leaves)| == |leaves|
    decreases leaves
  {
    if leaves == {} {
      assert JobsIn(generated, leaves) == {};
    } else {
      var x :| x in leaves;
      JobsCount(generated, leaves - {x});
      assert JobsIn(generated, leaves) == JobsIn(generated, leaves - {x}) + {generated[x]};
      assert generated[x] !in JobsIn(generated, leaves - {x});
    }
  }

  lemma EveryNewJobHasNode(a: Jobs, b: Jobs, leaves: set<nat>, id: nat) returns (x: nat)
    requires a.generated == map[] && GrewIds(a, b, leaves) && Injective(b.generated)
    requires a.nextId <= id < b.nextId
    ensures x in b.generated && b.generated[x] == id
  {
    var jobs, ids := JobsIn(b.generated, leaves), Interval(a.nextId, |leaves|);
    IntervalIs(a.nextId, |leaves|);
    JobsCount(b.generated, leaves);
    assert jobs <= ids;
    if id !in jobs { SubsetSize(jobs, ids - {id}); }
    x :| x in leaves && x in b.generated && b.generated[x] == id;
  }

  // ---- one new row ----------------------------------------------------------

  /** What a new row needs so that it is served. */
  ghost predicate Settled(t: Table, y: nat)
    requires y in t
  {
    && t[y].state == (if t[y].parent.Some? || t[y].deps != [] then Waiting else Pending)
    && t[y].countdown == |t[y].deps| && Distinct(t[y].deps)
    && (t[y].parent.Some? ==>
          t[y].parent.value < y && IsActive(t, t[y].parent.value) && !t[t[y].parent.value].IsBarrier())
    && (forall d | d in t[y].deps :: d < y && IsActive(t, d) && !t[d].IsBarrier() && t[d].parent.None?)
  }

  /** The row of Delayable `x`: new, justified, and a barrier or a follower only as the graph has it. */
  ghost predicate RowOf(nodes: seq<Node>, a: Jobs, b: Jobs, uuid: Option<nat>, x: nat) {
    && x in b.generated && b.generated[x] in b.rows && b.generated[x] !in a.rows
    && Newborn(b.rows[b.generated[x]], b.generated[x], uuid)
    && Justified(nodes, b.generated, x, b.rows[b.generated[x]])
  }

  lemma RowOfEach(nodes: seq<Node>, a: Jobs, b: Jobs, leaves: set<nat>, uuid: Option<nat>, x: nat)
    requires a.generated == map[] && Grew(a, b, leaves, uuid) && AllJustified(nodes, b)
    requires forall id | id in a.rows :: id < a.nextId
    requires x in b.generated
    ensures RowOf(nodes, a, b, uuid, x)
  {
    hide Justified, Newborn;
    assert x in leaves;
  }

  lemma BarrierRow(nodes: seq<Node>, a: Jobs, b: Jobs, uuid: Option<nat>, x: nat)
    requires RowOf(nodes, a, b, uuid, x) && b.rows[b.generated[x]].deps != []
    ensures BecomesBarrier(nodes, x)
  {
    hide Heads, JobsOf;
    var jobs := b.rows[b.generated[x]].deps;
    var g: nat, k: nat :| AfterGroup(nodes, b.generated, g, k, jobs) && (k == x || x in Heads(nodes, k));
    assert LinkedFromGroup(nodes, g, k);
  }

  lemma ChildRow(nodes: seq<Node>, a: Jobs, b: Jobs, uuid: Option<nat>, x: nat) returns (q: nat, k: nat)
    requires RowOf(nodes, a, b, uuid, x) && b.rows[b.generated[x]].parent.Some?
    ensures q in b.generated && b.generated[q] == b.rows[b.generated[x]].parent.value && Follows(nodes, q, k, x)
  {
    hide After, Heads;
    var job := b.rows[b.generated[x]].parent.value;
    q, k :| q in b.generated && b.generated[q] == job && After(nodes, q, k) && (k == x || x in Heads(nodes, k));
  }

  lemma ParentSettled(nodes: seq<Node>, a: Jobs, b: Jobs, leaves: set<nat>, uuid: Option<nat>, x: nat)
    requires WellShaped(nodes) && a.generated == map[] && Grew(a, b, leaves, uuid) && AllJustified(nodes, b)
    requires forall id | id in a.rows :: id < a.nextId
    requires x in b.generated && b.generated[x] in b.rows && b.rows[b.generated[x]].parent.Some?
    ensures
      var p := b.rows[b.generated[x]].parent.value;
      p < b.generated[x] && IsActive(b.rows, p) && !b.rows[p].IsBarrier()
  {
    hide *;
    RowOfEach(nodes, a, b, leaves, uuid, x);
    var q, k := ChildRow(nodes, a, b, uuid, x);
    RowOfEach(nodes, a, b, leaves, uuid, q);
    RowIsActive(nodes, a, b, uuid, x);
    RowIsActive(nodes, a, b, uuid, q);
    if b.rows[b.generated[q]].deps != [] {
      BarrierRow(nodes, a, b, uuid, q);
      BarrierLeadsNowhere(nodes, q, k, x);
    }
    NoBarrier(b.rows[b.generated[q]]);
  }

  lemma NoBarrier(job: Job)
    ensures job.IsBarrier() <==> job.deps != []
  {}

  lemma BarrierLeadsNowhere(nodes: seq<Node>, q: nat, k: nat, x: nat)
    requires WellShaped(nodes)
    ensures !(BecomesBarrier(nodes, q) && Follows(nodes, q, k, x))
  {
    hide BecomesBarrier, Follows;
  }

  lemma MemberIsPlain(nodes: seq<Node>, g: nat, m: nat)
    requires WellShaped(nodes) && Awaited(nodes, g) && m in nodes[g].members
    ensures !BecomesBarrier(nodes, m) && forall q: nat, k: nat :: !Follows(nodes, q, k, m)
  {
    hide BecomesBarrier, Follows;
  }

  lemma RowIsActive(nodes: seq<Node>, a: Jobs, b: Jobs, uuid: Option<nat>, x: nat)
    requires RowOf(nodes, a, b, uuid, x)
    ensures x in b.generated && b.generated[x] in b.rows && IsActive(b.rows, b.generated[x])
    ensures
      var row := b.rows[b.generated[x]];
      && (row.parent.Some? ==> row.parent.value < b.generated[x])
      && (forall d | d in row.deps :: d < b.generated[x])
      && row.state == (if row.parent.Some? || row.deps != [] then Waiting else Pending)
      && row.countdown == |row.deps|
  {
    hide Justified;
  }

  lemma MemberSettled(nodes: seq<Node>, a: Jobs, b: Jobs, uuid: Option<nat>, g: nat, m: nat)
    requires WellShaped(nodes) && Awaited(nodes, g) && m in nodes[g].members && RowOf(nodes, a, b, uuid, m)
    ensures m in b.generated && b.generated[m] in b.rows && IsActive(b.rows, b.generated[m])
    ensures b.rows[b.generated[m]].deps == [] && b.rows[b.generated[m]].parent.None?
  {
    hide RowOf, BecomesBarrier, Follows, Awaited, WellShaped;
    MemberIsPlain(nodes, g, m);
    RowIsActive(nodes, a, b, uuid, m);
    if b.rows[b.generated[m]].deps != [] { BarrierRow(nodes, a, b, uuid, m); }
    if b.rows[b.generated[m]].parent.Some? { var q, k := ChildRow(nodes, a, b, uuid, m); }
  }

  lemma MembersSettled(nodes: seq<Node>, a: Jobs, b: Jobs, leaves: set<nat>, uuid: Option<nat>, x: nat)
    requires WellShaped(nodes) && a.generated == map[] && Grew(a, b, leaves, uuid) && AllJustified(nodes, b)
    requires Injective(b.generated) && forall id | id in a.rows :: id < a.nextId
    requires x in b.generated && b.generated[x] in b.rows && b.rows[b.generated[x]].deps != []
    ensures
      var deps := b.rows[b.generated[x]].deps;
      && Distinct(deps)
      && forall d | d in deps :: IsActive(b.rows, d) && !b.rows[d].IsBarrier() && b.rows[d].parent.None?
  {
    var deps := b.rows[b.generated[x]].deps;
    RowOfEach(nodes, a, b, leaves, uuid, x);
    var g: nat, k: nat :| AfterGroup(nodes, b.generated, g, k, deps) && (k == x || x in Heads(nodes, k));
    var members := nodes[g].members;
    assert Awaited(nodes, g);
    assert Distinct(members);
    BarrierDistinctExactly(b.generated, members, deps);
    assert |deps| == |members| && forall i | 0 <= i < |deps| :: members[i] in b.generated && deps[i] == b.generated[members[i]];
    hide WellShaped, Grew, AllJustified, AfterGroup, Heads, Awaited, Distinct, Injective, RowOf;
    forall d | d in deps ensures IsActive(b.rows, d) && !b.rows[d].IsBarrier() && b.rows[d].parent.None? {
      var i :| 0 <= i < |deps| && deps[i] == d;
      RowOfEach(nodes, a, b, leaves, uuid, members[i]);
      MemberSettled(nodes, a, b, uuid, g, members[i]);
    }
  }

  lemma NewRowSettled(nodes: seq<Node>, a: Jobs, b: Jobs, leaves: set<nat>, uuid: Option<nat>, y: nat)
    requires WellShaped(nodes) && a.generated == map[] && Grew(a, b, leaves, uuid) && AllJustified(nodes, b)
    requires Injective(b.generated) && forall id | id in a.rows :: id < a.nextId
    requires y in b.rows && y !in a.rows
    ensures Settled(b.rows, y)
  {
    hide WellShaped, AllJustified, Injective, Newborn, NewIds, Extends;
    var x := EveryNewJobHasNode(a, b, leaves, y);
    hide Grew;
    RowOfEach(nodes, a, b, leaves, uuid, x);
    RowIsActive(nodes, a, b, uuid, x);
    hide RowOf;
    if b.rows[y].parent.Some? { ParentSettled(nodes, a, b, leaves, uuid, x); }
    if b.rows[y].deps != [] { MembersSettled(nodes, a, b, leaves, uuid, x); }
  }

  // ---- the whole table ------------------------------------------------------

  /** `t'` is `t` with settled rows added above all of it. */
  ghost predicate AddsSettled(t: Table, t': Table, bound: nat) {
    && (forall id | id in t :: id < bound && id in t' && t'[id] == t[id])
    && (forall id | id in t' && id !in t :: bound <= id && Settled(t', id))
  }

  lemma SettledStaysWired(t: Table, t': Table, bound: nat)
    requires Wired(t) && AddsSettled(t, t', bound)
    ensures Wired(t')
  {
    forall y | y in t' ensures t'[y].parent.Some? ==> t'[y].parent.value < y {
      assert y !in t ==> Settled(t', y);
    }
    forall y | y in t' ensures forall d | d in t'[y].deps :: d < y && (d in t' ==> t'[d].parent.None?) {
      if y !in t { assert Settled(t', y); } else { OldRefs(t, t', bound, y); }
    }
    forall c, y | c in t' && y in t' && t'[c].IsBarrier() ensures t'[y].parent != Some(c) && c !in t'[y].deps {
      if y !in t { assert Settled(t', y); } else { OldRefs(t, t', bound, y); }
    }
  }

  lemma OldRefs(t: Table, t': Table, bound: nat, y: nat)
    requires Wired(t) && AddsSettled(t, t', bound) && y in t
    ensures forall d | d in t[y].deps && d in t' :: d in t
    ensures forall d | d in t[y].deps :: d < y && (d in t' ==> t'[d].parent.None?)
    ensures forall c | c in t' && t'[c].IsBarrier() :: t[y].parent != Some(c) && c !in t[y].deps
  {
    hide Settled;
    forall d | d in t[y].deps && d in t' ensures d in t { assert d < y; }
    forall c | c in t' && t'[c].IsBarrier() ensures t[y].parent != Some(c) && c !in t[y].deps {
      if c !in t { assert c > y; }
    }
  }

  lemma SettledServed(t: Table, y: nat)
    requires y in t && Settled(t, y) && t[y].state == Waiting
    ensures Served(t, y)
  {
    assert ActiveMembers(t, t[y].deps) == Ids(t[y].deps);
    DistinctCount(t[y].deps);
  }

  lemma OldStaysServed(t: Table, t': Table, bound: nat, y: nat)
    requires AddsSettled(t, t', bound) && y in t && Served(t, y)
    ensures y in t' && Served(t', y)
  {
    hide Settled;
    var before, after := ActiveMembers(t, t[y].deps), ActiveMembers(t', t[y].deps);
    assert before <= after;
    SubsetSize(before, after);
  }

  lemma SettledStaysSound(t: Table, t': Table, bound: nat)
    requires Sound(t) && AddsSettled(t, t', bound)
    ensures Sound(t')
  {
    hide Wired, Served, Settled;
    SettledStaysWired(t, t', bound);
    forall y | y in t' && t'[y].state == Waiting ensures Served(t', y) {
      if y in t { OldStaysServed(t, t', bound, y); } else { SettledServed(t', y); }
    }
  }

  /**
   Dispatching a well-shaped graph onto a table in which nothing is stranded
   strands nothing: `Delay.Builder.Delay` grows such a table by rows whose
   wiring the graph justifies, and those rows are all served.
   */
  lemma DispatchStrandsNothing(nodes: seq<Node>, a: Jobs, b: Jobs, leaves: set<nat>, uuid: Option<nat>)
    requires WellShaped(nodes) && Sound(a.rows)
    requires a.generated == map[] && forall id | id in a.rows :: id < a.nextId
    requires Grew(a, b, leaves, uuid) && AllJustified(nodes, b) && Injective(b.generated)
    ensures Sound(b.rows)
  {
    hide WellShaped, AllJustified, Injective, Newborn, Sound, GrewIds, Settled;
    forall y | y in b.rows && y !in a.rows ensures a.nextId <= y && Settled(b.rows, y) {
      NewRowSettled(nodes, a, b, leaves, uuid, y);
    }
    SettledStaysSound(a.rows, b.rows, a.nextId);
  }

  /** Each row that `Delay.Builder.Generate` adds is one Insert of the queue's state machine. */
  lemma GenerateIsInsert(cfg: WorkerRows.Config, rows: Table, now: int, attempts: map<nat, Attempt>, job: nat,
                         settings: Settings, w: Wiring, n: nat, uuid: Option<nat>)
    requires job !in rows && forall a | a in attempts :: attempts[a].job != job
    ensures
      var req := RequestOf(settings, w, n, uuid);
      Step(cfg, Sys(rows, now, attempts), Insert(job, req), Sys(rows[job := NewRow(req, now)], now, attempts))
  {
    NoKeyNoReuse(rows, RequestOf(settings, w, n, uuid), now);
    hide NewRow;
  }

  /** What `Delay.Builder.Delay` on fresh objects leaves. */
  ghost predicate Dispatched(nodes: seq<Node>, a: Jobs, b: Jobs, uuid: Option<nat>, root: nat) {
    && WellFormed(nodes) && a.generated == map[] && (forall id | id in a.rows :: id < a.nextId)
    && AllJustified(nodes, b)
    && exists leaves, w :: Delayed(nodes, a, NO_WIRING, b, w, leaves, uuid, Starters(nodes, NO_WIRING, root))
  }

  const NO_WIRING := Wiring(map[], map[], map[], {})

  lemma IsDispatched(nodes: seq<Node>, a: Jobs, b: Jobs, uuid: Option<nat>, root: nat, leaves: set<nat>, w: Wiring)
    requires WellFormed(nodes) && a.generated == map[] && (forall id | id in a.rows :: id < a.nextId)
    requires AllJustified(nodes, b) && Delayed(nodes, a, NO_WIRING, b, w, leaves, uuid, Starters(nodes, NO_WIRING, root))
    ensures Dispatched(nodes, a, b, uuid, root)
  {
    hide WellFormed, AllJustified, Delayed, Starters;
  }

  /**
   `delay()` on the root of a graph of fresh objects: one row for each
   Delayable that a path leads to, and nothing stranded if the shape is right.
   */
  method DispatchGraph(nodes: seq<Node>, root: nat, store: Store, ghost rank: seq<nat>, now: int)
      returns (ghost generated: map<nat, nat>, ghost uuid: Option<nat>)
    requires WellFormed(nodes) && store.Valid() && root < |nodes| == |rank| && Nested(nodes, rank)
    modifies store
    ensures store.Valid()
    ensures store.nextId == old(store.nextId) + |Fresh(nodes, {}, {root})|
    ensures forall id: nat :: id in store.rows <==> id in old(store.rows) || old(store.nextId) <= id < store.nextId
    ensures forall id | id in old(store.rows) :: id in store.rows && store.rows[id] == old(store.rows)[id]
    ensures WellShaped(nodes) && Sound(old(store.rows)) ==> Sound(store.rows)
    ensures generated.Keys == Fresh(nodes, {}, {root})
    ensures Dispatched(nodes, Jobs(map[], old(store.rows), old(store.nextId)), Jobs(generated, store.rows, store.nextId),
                       uuid, root)
  {
    ghost var before := Jobs(map[], store.rows, store.nextId);
    var builder := new Builder(nodes, store);
    assert builder.State() == before && builder.generated.Keys == {};
    hide Fresh, WellShaped, Sound, Nested, WellFormed, AllJustified, Newborn, Dispatched, Waits, Keeps, Starters, NewIds;
    var job, own := builder.Delay(root, rank, now);
    generated, uuid := builder.generated, own;
    IsDispatched(nodes, before, builder.State(), uuid, root, Fresh(nodes, {}, {root}), builder.Wires());
    if WellShaped(nodes) && Sound(before.rows) {
      DispatchStrandsNothing(nodes, before, builder.State(), Fresh(nodes, {}, {root}), uuid);
    }
  }
}
