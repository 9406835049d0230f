/**
 What the end of one job does to the rows that wait for it: the walks along
 `parent_id` and the one-hop updates along `dependency_job_ids`.
 */
module Outcomes {
  import opened Reach
  import opened JobTable
  import opened Cancel

  // ---- success, parent axis -------------------------------------------------

  function Promote(job: Job): Job { job.(state := Pending) }

  function Promoted(t: Table, id: nat): set<nat> {
    set c | c in Children(t, {id}) && t[c].state == Waiting && !t[c].runOnFailure
  }

  /** Rows cancelled below `ended` along parents only. */
  ghost function ChainReach(t: Table, ended: set<nat>): set<nat> {
    Closure(ParentEdges(t), WaitingIds(t), Children(t, ended))
  }

  ghost function CancelChain(t: Table, ended: set<nat>, now: int): Table {
    CancelRows(t, ChainReach(t, ended), now)
  }

  function PromoteRows(t: Table, ids: set<nat>): Table {
    map x | x in t :: if x in ids then Promote(t[x]) else t[x]
  }

  /** `_cascade_children_on_parent_success`: on_done children run, the on_error subtrees are cancelled. */
  ghost function SuccessChildren(t: Table, id: nat, now: int): Table {
    CancelChain(PromoteRows(t, Promoted(t, id)), {id}, now)
  }

  // ---- failure, parent axis -------------------------------------------------

  predicate CanFail(t: Table, id: nat) { IsWaiting(t, id) && !t[id].runOnFailure }

  function FailableIds(t: Table): set<nat> { set x | x in t && CanFail(t, x) }

  ghost function FailReach(t: Table, ended: set<nat>): set<nat> {
    Closure(ParentEdges(t), FailableIds(t), Children(t, ended))
  }

  function FailChild(job: Job): Job
    requires job.parent.Some?
  {
    if job.runOnFailure then Promote(job)
    else job.(state := Failed, exc := [ParentFailed(job.parent.value)])
  }

  /** Fails or promotes every waiting child of a row in `ended`, one hop only. */
  function FailOnce(t: Table, ended: set<nat>): Table {
    map x | x in t ::
      if x in Children(t, ended) && t[x].state == Waiting then FailChild(t[x]) else t[x]
  }

  /** `_cascade_children_on_parent_failure`: the one hop repeated from every row it fails. */
  ghost function FailChain(t: Table, ended: set<nat>): Table {
    FailOnce(t, ended + FailReach(t, ended))
  }

  // ---- dependency axis ------------------------------------------------------

  function ReleaseRow(job: Job, now: int): Job {
    var left := job.countdown - 1;
    if left > 0 then job.(countdown := left)
    else if job.runOnFailure then CancelRow(job, now).(countdown := left)
    else Promote(job).(countdown := left)
  }

  /** `_release_dependents` for one finished job. */
  function Release(t: Table, id: nat, now: int): Table {
    map x | x in t ::
      if t[x].state == Waiting && id in t[x].deps then ReleaseRow(t[x], now) else t[x]
  }

  function ReleaseEach(t: Table, ids: seq<nat>, now: int): Table {
    if ids == [] then t
    else Release(ReleaseEach(t, ids[..|ids| - 1], now), ids[|ids| - 1], now)
  }

  /** `_fail_dependents` for one failed job. */
  function FailDependents(t: Table, id: nat): Table {
    map x | x in t ::
      if t[x].state == Waiting && id in t[x].deps then
        if t[x].runOnFailure then Promote(t[x])
        else t[x].(state := Failed, exc := [ParentFailed(id)])
      else t[x]
  }

  function FailDependentsEach(t: Table, ids: seq<nat>): Table {
    if ids == [] then t
    else FailDependents(FailDependentsEach(t, ids[..|ids| - 1]), ids[|ids| - 1])
  }

  // ---- whole transitions ----------------------------------------------------

  /** A job that completed: its row, its children, its barriers (`finalize_job`, `run_now`). */
  ghost function Succeed(t: Table, id: nat, now: int): Table
    requires id in t
  {
    Release(SuccessChildren(t[id := DoneRow(t[id], now)], id, now), id, now)
  }

  function DoneRow(job: Job, now: int): Job {
    job.(state := Done, completedAt := Some(now), worker := None, heartbeat := None)
  }

  /** The cascades of a permanent failure, after the row itself has been written. */
  ghost function FailBelow(t: Table, id: nat): Table {
    FailDependents(FailChain(t, {id}), id)
  }

  function EndRow(job: Job, state: State, now: int): Job {
    job.(state := state, completedAt := Some(now))
  }

  /** The row writes and child walks of `button_set_to_failed`, in order. */
  ghost function SetFailedEach(t: Table, ids: seq<nat>, now: int): Table {
    if ids == [] then t
    else
      var t' := SetFailedEach(t, ids[..|ids| - 1], now);
      var id := ids[|ids| - 1];
      if id in t' then FailChain(t'[id := EndRow(t'[id], Failed, now)], {id}) else t'
  }

  ghost function SetFailedButton(t: Table, ids: seq<nat>, now: int): Table {
    FailDependentsEach(SetFailedEach(t, ids, now), ids)
  }

  function SetDoneRows(t: Table, ids: set<nat>, now: int): Table {
    map x | x in t :: if x in ids then EndRow(t[x], Done, now) else t[x]
  }

  /** `button_set_to_done`: the rows and their barriers, but never their children. */
  function SetDoneButton(t: Table, ids: seq<nat>, now: int): Table {
    ReleaseEach(SetDoneRows(t, (set x | x in ids), now), ids, now)
  }

  // ---- worklist steps -------------------------------------------------------

  lemma PopReach(t: Table, live: set<nat>, popped: nat, rest: set<nat>)
    ensures
      var gone := Children(t, {popped}) * live;
      Closure(ParentEdges(t), live, Children(t, {popped} + rest))
        == gone + Closure(ParentEdges(t), live - gone, Children(t, gone + rest))
  {
    var gone := Children(t, {popped}) * live;
    ParentSuccessors(t, gone);
    assert Children(t, gone + rest) == Children(t, gone) + Children(t, rest);
    assert Children(t, {popped} + rest) == Children(t, {popped}) + Children(t, rest);
    ClosurePop(ParentEdges(t), live, gone, Children(t, rest));
    ClosureOfLiveSeeds(ParentEdges(t), live, Children(t, {popped} + rest), gone + Children(t, rest));
  }

  /** One step of the cancelling walk: `popped`'s waiting children go, and become the frontier. */
  lemma ChainPop(t: Table, popped: nat, rest: set<nat>, now: int)
    ensures
      var gone := Children(t, {popped}) * WaitingIds(t);
      CancelChain(CancelRows(t, gone, now), gone + rest, now) == CancelChain(t, {popped} + rest, now)
  {
    var gone := Children(t, {popped}) * WaitingIds(t);
    var t' := CancelRows(t, gone, now);
    CancelRowsKeepsGraph(t, gone, now);
    SameGraphSameEdges(t, t');
    SameGraphSameHeirs(t, t', gone + rest);
    PopReach(t, WaitingIds(t), popped, rest);
    assert ChainReach(t, {popped} + rest) == gone + ChainReach(t', gone + rest);
    CancelRowsTwice(t, gone, ChainReach(t', gone + rest), now);
  }

  lemma ChainOfNothing(t: Table, now: int)
    ensures CancelChain(t, {}, now) == t
  {
    ClosureOfNothing(ParentEdges(t), WaitingIds(t), Children(t, {}));
  }

  lemma FailOnceTwice(t: Table, first: set<nat>, second: set<nat>)
    ensures FailOnce(FailOnce(t, first), second) == FailOnce(t, first + second)
  {
    var t' := FailOnce(t, first);
    forall x | x in t ensures FailOnce(t', second)[x] == FailOnce(t, first + second)[x] {
      assert x in Children(t', second) <==> x in Children(t, second);
    }
  }

  lemma FailOnceKeepsGraph(t: Table, ended: set<nat>)
    ensures SameGraph(t, FailOnce(t, ended))
    ensures FailableIds(FailOnce(t, ended)) == FailableIds(t) - Children(t, ended)
    ensures WaitingIds(FailOnce(t, ended)) == WaitingIds(t) - Children(t, ended)
  {}

  lemma FailReachPop(t: Table, popped: nat, rest: set<nat>)
    ensures
      var failed := Children(t, {popped}) * FailableIds(t);
      FailReach(t, {popped} + rest) == failed + FailReach(FailOnce(t, {popped}), failed + rest)
  {
    FailOnceKeepsGraph(t, {popped});
    SameGraphSameEdges(t, FailOnce(t, {popped}));
    SameGraphSameHeirs(t, FailOnce(t, {popped}), Children(t, {popped}) * FailableIds(t) + rest);
    PopReach(t, FailableIds(t), popped, rest);
    assert FailableIds(t) - Children(t, {popped})
        == FailableIds(t) - Children(t, {popped}) * FailableIds(t);
  }

  /** One step of the failing walk: `popped`'s on_done children fail, and become the frontier. */
  lemma FailPop(t: Table, popped: nat, rest: set<nat>)
    ensures
      var failed := Children(t, {popped}) * FailableIds(t);
      FailChain(FailOnce(t, {popped}), failed + rest) == FailChain(t, {popped} + rest)
  {
    var failed := Children(t, {popped}) * FailableIds(t);
    FailReachPop(t, popped, rest);
    var further := FailReach(FailOnce(t, {popped}), failed + rest);
    FailOnceTwice(t, {popped}, failed + rest + further);
    assert {popped} + (failed + rest + further) == {popped} + rest + (failed + further);
  }

  lemma FailOfNothing(t: Table)
    ensures FailChain(t, {}) == t
  {
    ClosureOfNothing(ParentEdges(t), FailableIds(t), Children(t, {}));
  }
}
