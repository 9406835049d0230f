/** Group barriers: the countdown counts unfinished members, and the outcome ignores their order. */
module Barriers {
  import opened Reach
  import opened JobTable
  import opened Cancel
  import opened CancelWalk
  import opened Outcomes
  import opened Intake
  import opened WorkerRows
  import opened Settling
  import opened Protocol
  import opened Stranding
  import opened StrandingRuns

  predicate IsDone(t: Table, d: nat) { d in t && t[d].state == Done }

  function NotDone(t: Table, deps: seq<nat>): set<nat> { set d | d in deps && !IsDone(t, d) }

  /** While `b` waits, its countdown is the number of its members that are not done. */
  ghost predicate Counts(t: Table, b: nat) {
    IsWaiting(t, b) ==> t[b].countdown == |NotDone(t, t[b].deps)|
  }

  // ---- steps in which nothing completes -------------------------------------

  /** What waits afterwards waited before with the same countdown, and nothing becomes done. */
  ghost predicate Quiet(t: Table, t': Table) {
    && (forall y | IsWaiting(t', y) :: IsWaiting(t, y) && t'[y].deps == t[y].deps && t'[y].countdown == t[y].countdown)
    && (forall d | IsDone(t', d) :: IsDone(t, d))
  }

  lemma QuietTransitive(a: Table, b: Table, c: Table)
    requires Quiet(a, b) && Quiet(b, c)
    ensures Quiet(a, c)
  {}

  lemma CancelIsQuiet(t: Table, ids: set<nat>, now: int)
    ensures Quiet(t, CancelRows(t, ids, now))
  {}

  lemma FailChainIsQuiet(t: Table, ended: set<nat>)
    ensures Quiet(t, FailChain(t, ended))
  {
    hide FailReach;
  }

  lemma FailDependentsIsQuiet(t: Table, id: nat)
    ensures Quiet(t, FailDependents(t, id))
  {}

  lemma SuccessChildrenIsQuiet(t: Table, id: nat, now: int)
    ensures Quiet(t, SuccessChildren(t, id, now))
  {
    hide ChainReach;
  }

  lemma WriteIsQuiet(t: Table, id: nat, row: Job)
    requires row.state != Waiting && (row.state == Done ==> IsDone(t, id))
    ensures Quiet(t, t[id := row])
  {}

  lemma {:induction false} SetFailedIsQuiet(t: Table, ids: seq<nat>, now: int)
    ensures Quiet(t, SetFailedEach(t, ids, now))
  {
    if ids != [] {
      var front, id := ids[..|ids| - 1], ids[|ids| - 1];
      var t' := SetFailedEach(t, front, now);
      SetFailedIsQuiet(t, front, now);
      hide Quiet, FailChain;
      if id in t' {
        var row := EndRow(t'[id], Failed, now);
        WriteIsQuiet(t', id, row);
        FailChainIsQuiet(t'[id := row], {id});
        QuietTransitive(t, t', t'[id := row]);
        QuietTransitive(t, t'[id := row], FailChain(t'[id := row], {id}));
      }
    }
  }

  lemma {:induction false} FailDependentsEachIsQuiet(t: Table, ids: seq<nat>)
    ensures Quiet(t, FailDependentsEach(t, ids))
  {
    if ids != [] {
      var front, id := ids[..|ids| - 1], ids[|ids| - 1];
      FailDependentsEachIsQuiet(t, front);
      hide Quiet, FailDependents;
      FailDependentsIsQuiet(FailDependentsEach(t, front), id);
      QuietTransitive(t, FailDependentsEach(t, front), FailDependentsEach(t, ids));
    }
  }

  lemma {:induction false} RequeueIsQuiet(t: Table, ids: seq<nat>)
    ensures Quiet(t, RequeueEach(t, ids))
  {
    if ids != [] {
      var front, id := ids[..|ids| - 1], ids[|ids| - 1];
      RequeueIsQuiet(t, front);
      var t' := RequeueEach(t, front);
      hide Quiet, RequeueBlocked;
      if id in t' { WriteIsQuiet(t', id, RequeueRow(t'[id])); }
      QuietTransitive(t, t', RequeueEach(t, ids));
    }
  }

  lemma AcquireIsQuiet(t: Table, id: nat, worker: nat, now: int)
    requires id in t
    ensures Quiet(t, AcquireRow(t, id, worker, now).0)
  {}

  lemma SetFailedButtonIsQuiet(t: Table, ids: seq<nat>, now: int)
    ensures Quiet(t, SetFailedButton(t, ids, now))
  {
    hide Quiet, SetFailedEach, FailDependentsEach;
    SetFailedIsQuiet(t, ids, now);
    FailDependentsEachIsQuiet(SetFailedEach(t, ids, now), ids);
    QuietTransitive(t, SetFailedEach(t, ids, now), SetFailedButton(t, ids, now));
  }

  lemma FailureIsQuiet(cfg: Config, t: Table, id: nat, outcome: Outcome, now: int)
    requires id in t && !outcome.Success?
    ensures Quiet(t, EndAttempt(cfg, t, id, outcome, now))
  {
    hide Quiet, FailChain, FailDependents, Backoff, GivesUp;
    var row := ExceptionRow(cfg, t[id], outcome, now);
    var t' := t[id := row];
    WriteIsQuiet(t, id, row);
    FailChainIsQuiet(t', {id});
    FailDependentsIsQuiet(FailChain(t', {id}), id);
    QuietTransitive(t', FailChain(t', {id}), FailBelow(t', id));
    QuietTransitive(t, t', FailBelow(t', id));
  }

  lemma CancelButtonIsQuiet(t: Table, ids: set<nat>, now: int)
    ensures Quiet(t, CancelButton(t, ids, now))
  {
    hide *;
    CancelButtonIsReachability(t, ids, now);
    var cascading := set id | id in ids && id in t && !t[id].Terminal();
    CancelIsQuiet(t, ids + Closure(AllEdges(t), WaitingIds(t), Successors(AllEdges(t), cascading)), now);
  }

  lemma UnlinkIsQuiet(t: Table, ids: set<nat>)
    ensures Quiet(t, Unlink(t, ids))
  {}

  lemma BeatsAreQuiet(cfg: Config, s: Sys, event: Event, s': Sys)
    requires Step(cfg, s, event, s')
    requires event.Tick? || event.Heartbeat? || event.HeartbeatAll? || event.Overrun? || event.LetGo? || event.Vanish?
    ensures Quiet(s.rows, s'.rows)
  {
    hide Backoff, PacesAfterTimeout;
  }

  lemma AcquireStepIsQuiet(cfg: Config, s: Sys, event: Event, s': Sys)
    requires Step(cfg, s, event, s') && event.Acquire?
    ensures Quiet(s.rows, s'.rows)
  {
    hide AcquireRow, IsNext, Quiet;
    if id :| id in s.rows && IsNext(cfg, s.rows, s.now, event.throttled, id)
             && s'.rows == AcquireRow(s.rows, id, event.who, s.now).0 {
      AcquireIsQuiet(s.rows, id, event.who, s.now);
    } else {
      QuietItself(s.rows);
    }
  }

  lemma QuietItself(t: Table)
    ensures Quiet(t, t)
  {}

  lemma QuietStep(cfg: Config, s: Sys, event: Event, s': Sys)
    requires Step(cfg, s, event, s') && !event.Insert? && !event.SetDonePressed?
    requires event.Finish? ==> !event.outcome.Success?
    ensures Quiet(s.rows, s'.rows)
  {
    hide CancelButton, SetFailedButton, SetDoneButton, RequeueEach, Acquires, EndAttempt, Quiet, Unlink, Beat, BeatAll,
         HoldAfterTimeout, ClearOwner, Reused, NewRow;
    match event
    case Acquire(_, _, _) => AcquireStepIsQuiet(cfg, s, event, s');
    case Finish(a, outcome) => FailureIsQuiet(cfg, s.rows, s.attempts[a].job, outcome, s.now);
    case CancelPressed(ids) => CancelButtonIsQuiet(s.rows, (set x | x in ids), s.now);
    case SetFailedPressed(ids) => SetFailedButtonIsQuiet(s.rows, ids, s.now);
    case RequeuePressed(ids) => RequeueIsQuiet(s.rows, ids);
    case Autovacuum(cutoff) => UnlinkIsQuiet(s.rows, ExpiredIds(s.rows, cutoff));
    case _ => BeatsAreQuiet(cfg, s, event, s');
  }

  // ---- counting, over whole runs --------------------------------------------

  /** The members an event completes. */
  function Completed(s: Sys, event: Event): seq<nat> {
    match event
    case Finish(a, outcome) => if a in s.attempts && outcome.Success? then [s.attempts[a].job] else []
    case SetDonePressed(ids) => ids
    case _ => []
  }

  /** No member of a barrier completes twice, and none that completed is taken back or deleted. */
  ghost predicate CompletesOnce(s: Sys, event: Event, s': Sys, deps: seq<nat>) {
    && Distinct(Completed(s, event))
    && (forall d | d in deps && d in Completed(s, event) :: !IsDone(s.rows, d))
    && (forall d | d in deps && IsDone(s.rows, d) :: IsDone(s'.rows, d))
  }

  lemma QuietCounts(t: Table, t': Table, b: nat)
    requires Counts(t, b) && Quiet(t, t') && b in t && b in t'
    requires forall d | d in t[b].deps && IsDone(t, d) :: IsDone(t', d)
    ensures Counts(t', b)
  {
    if IsWaiting(t', b) {
      assert NotDone(t', t'[b].deps) == NotDone(t, t[b].deps);
    }
  }

  /** `hits` distinct members completed, and the barrier counted them down. */
  lemma {:induction false} FewerNotDone(before: set<nat>, ids: seq<nat>, deps: seq<nat>)
    requires Distinct(ids)
    requires forall d | d in ids && d in deps :: d in before
    requires forall d | d in before :: d in deps
    ensures |before - Ids(ids)| == |before| - Hits(ids, deps)
  {
    if ids == [] {
      assert before - Ids(ids) == before;
    } else {
      var front, last := ids[..|ids| - 1], ids[|ids| - 1];
      FewerNotDone(before, front, deps);
      assert before - Ids(ids) == (before - Ids(front)) - {last};
    }
  }

  /** The rows are what completing `ids` all at once leaves of `t`, as far as `b` can tell. */
  lemma CompletionCounts(t: Table, t': Table, ids: seq<nat>, b: nat)
    requires Counts(t, b) && IsWaiting(t, b) && IsWaiting(t', b) && Distinct(ids)
    requires ReleasedTo(t[b], Hits(ids, t[b].deps), t'[b])
    requires forall d :: IsDone(t', d) <==> IsDone(t, d) || d in ids
    requires forall d | d in ids && d in t[b].deps :: !IsDone(t, d)
    ensures Counts(t', b)
  {
    FewerNotDone(NotDone(t, t[b].deps), ids, t[b].deps);
    assert NotDone(t', t[b].deps) == NotDone(t, t[b].deps) - Ids(ids);
  }

  lemma SetDoneCounts(t: Table, ids: seq<nat>, now: int, b: nat)
    requires Counts(t, b) && b in t && Distinct(ids) && Existing(t, ids)
    requires forall d | d in ids && d in t[b].deps :: !IsDone(t, d)
    ensures Counts(SetDoneButton(t, ids, now), b)
  {
    var t' := SetDoneButton(t, ids, now);
    SetDoneKeepsGraph(t, ids, now);
    forall d ensures IsDone(t', d) <==> IsDone(t, d) || d in ids {
      if d in t { SetDoneAt(t, ids, now, d); }
    }
    SetDoneAt(t, ids, now, b);
    hide SetDoneButton, SameGraph, Hits, Counts;
    if IsWaiting(t', b) {
      CompletionCounts(t, t', ids, b);
    } else {
      NotWaitingCounts(t', b);
    }
  }

  lemma NotWaitingCounts(t: Table, b: nat)
    requires !IsWaiting(t, b)
    ensures Counts(t, b)
  {}

  lemma AbsentCounts(t: Table, b: nat)
    requires b !in t
    ensures Counts(t, b)
  {}

  lemma ReleaseIs(t: Table, id: nat, now: int, y: nat)
    requires y in t
    ensures y in Release(t, id, now) && ReleasedTo(t[y], Hits([id], t[y].deps), Release(t, id, now)[y])
    ensures IsDone(Release(t, id, now), y) <==> IsDone(t, y)
  {
    assert [id][..|[id]| - 1] == [];
    assert Hits([id], t[y].deps) == if id in t[y].deps then 1 else 0;
    ReleasedOnce(t[y], 0, t[y], now);
  }

  lemma ReleaseKeys(t: Table, id: nat, now: int)
    ensures Release(t, id, now).Keys == t.Keys
  {}

  lemma SuccessChildrenAt(t: Table, id: nat, now: int, y: nat)
    requires y in t
    ensures
      var t' := SuccessChildren(t, id, now);
      && y in t' && (IsDone(t', y) <==> IsDone(t, y))
      && (IsWaiting(t', y) ==> t'[y] == t[y])
  {
    SuccessChildrenSettles(t, id, now);
    SuccessChildrenIsQuiet(t, id, now);
    hide ChainReach;
  }

  lemma SucceedDone(t: Table, id: nat, now: int, d: nat)
    requires id in t
    ensures Succeed(t, id, now).Keys == t.Keys
    ensures IsDone(Succeed(t, id, now), d) <==> IsDone(t, d) || d == id
  {
    var done := t[id := DoneRow(t[id], now)];
    var settled := SuccessChildren(done, id, now);
    SuccessChildrenSettles(done, id, now);
    hide SuccessChildren, Release;
    ReleaseKeys(settled, id, now);
    SucceedIs(t, id, now);
    if d in t {
      SuccessChildrenAt(done, id, now, d);
      ReleaseIs(settled, id, now, d);
    }
  }

  lemma SucceedCounts(t: Table, id: nat, now: int, b: nat)
    requires Counts(t, b) && b in t && id in t
    requires id in t[b].deps ==> !IsDone(t, id)
    ensures Counts(Succeed(t, id, now), b)
  {
    var t' := Succeed(t, id, now);
    var done := t[id := DoneRow(t[id], now)];
    var settled := SuccessChildren(done, id, now);
    forall d ensures IsDone(t', d) <==> IsDone(t, d) || d in [id] {
      SucceedDone(t, id, now, d);
    }
    SuccessChildrenAt(done, id, now, b);
    hide SuccessChildren, Release, Hits, Counts;
    SucceedIs(t, id, now);
    ReleaseIs(settled, id, now, b);
    if IsWaiting(t', b) {
      CompletionCounts(t, t', [id], b);
    } else {
      NotWaitingCounts(t', b);
    }
  }

  /** A barrier enters the table with one count for each of its distinct, unfinished members. */
  lemma NewBarrierCounts(t: Table, id: nat, req: Request, now: int)
    requires id !in t && Distinct(req.deps)
    requires forall d | d in req.deps :: d != id && !IsDone(t, d)
    ensures Counts(t[id := NewRow(req, now)], id)
  {
    assert NotDone(t[id := NewRow(req, now)], req.deps) == Ids(req.deps);
    DistinctCount(req.deps);
  }

  lemma InsertCounts(t: Table, id: nat, row: Job, b: nat)
    requires Counts(t, b) && b in t && id !in t && row.state != Done
    ensures Counts(t[id := row], b)
  {
    if IsWaiting(t, b) {
      assert NotDone(t[id := row], t[b].deps) == NotDone(t, t[b].deps);
    }
  }

  lemma StepCounts(cfg: Config, s: Sys, event: Event, s': Sys, b: nat)
    requires Step(cfg, s, event, s') && b in s.rows && b in s'.rows && Counts(s.rows, b)
    requires CompletesOnce(s, event, s', s.rows[b].deps)
    ensures Counts(s'.rows, b)
  {
    hide Counts, Quiet, SetDoneButton, Succeed, CancelButton, SetFailedButton, RequeueEach, Acquires, Unlink,
         FailBelow, HoldAfterTimeout, Beat, BeatAll, ClearOwner, GivesUp, ExceptionRow, IsDone, Reused;
    if event.Insert? {
      InsertCounts(s.rows, event.id, NewRow(event.req, s.now), b);
    } else if event.SetDonePressed? {
      SetDoneCounts(s.rows, event.ids, s.now, b);
    } else if event.Finish? && event.outcome.Success? {
      assert s.attempts[event.attempt].job in Completed(s, event);
      SucceedCounts(s.rows, s.attempts[event.attempt].job, s.now, b);
    } else {
      QuietStep(cfg, s, event, s');
      QuietCounts(s.rows, s'.rows, b);
    }
  }

  /**
   In every state of every run in which members complete once and stay
   completed, a waiting barrier's countdown is the number of unfinished members.
   */
  lemma {:induction false} CountdownIsUnfinished(cfg: Config, states: seq<Sys>, events: seq<Event>, b: nat, i: nat)
    requires IsRun(cfg, states, events) && i < |states|
    requires b in states[0].rows ==> Counts(states[0].rows, b)
    requires forall k | 0 <= k < |events| && b in states[k].rows ::
      b in states[k + 1].rows && CompletesOnce(states[k], events[k], states[k + 1], states[k].rows[b].deps)
    requires forall k | 0 <= k < |events| && events[k].Insert? && events[k].id == b ::
      Distinct(events[k].req.deps) && forall d | d in events[k].req.deps :: d != b && !IsDone(states[k].rows, d)
    ensures Counts(states[i].rows, b)
    decreases i
  {
    hide Counts, CompletesOnce, IsDone, Distinct;
    if i == 0 {
      if b !in states[0].rows { AbsentCounts(states[0].rows, b); }
    } else {
      var k := i - 1;
      CountdownIsUnfinished(cfg, states, events, b, k);
      assert Step(cfg, states[k], events[k], states[i]);
      if b in states[k].rows {
        hide Step;
        StepCounts(cfg, states[k], events[k], states[i], b);
      } else {
        AppearanceCounts(cfg, states[k], events[k], states[i], b);
      }
    }
  }

  lemma AppearanceCounts(cfg: Config, s: Sys, event: Event, s': Sys, b: nat)
    requires Step(cfg, s, event, s') && b !in s.rows
    requires event.Insert? && event.id == b ==>
      Distinct(event.req.deps) && forall d | d in event.req.deps :: d != b && !IsDone(s.rows, d)
    ensures Counts(s'.rows, b)
  {
    hide Counts;
    if event.Insert? && event.id == b {
      NewBarrierCounts(s.rows, b, event.req, s.now);
    } else {
      OnlyInsertAdds(cfg, s, event, s', b);
      NotWaitingCounts(s'.rows, b);
    }
  }

  lemma OnlyInsertAdds(cfg: Config, s: Sys, event: Event, s': Sys, b: nat)
    requires Step(cfg, s, event, s') && b !in s.rows && !(event.Insert? && event.id == b)
    ensures !IsWaiting(s'.rows, b)
  {
    if event.SetDonePressed? {
      SetDoneKeepsGraph(s.rows, event.ids, s.now);
    } else if event.Finish? && event.outcome.Success? {
      hide Succeed;
      SucceedDone(s.rows, s.attempts[event.attempt].job, s.now, b);
    } else if !event.Insert? {
      hide Step;
      QuietStep(cfg, s, event, s');
    }
  }

  /** Of a served barrier whose countdown is right, the members that are not done are all active: none is lost. */
  lemma UnfinishedAreActive(t: Table, b: nat)
    requires Sound(t) && IsWaiting(t, b) && t[b].IsBarrier() && Counts(t, b)
    ensures NotDone(t, t[b].deps) == ActiveMembers(t, t[b].deps)
  {
    var open, active := NotDone(t, t[b].deps), ActiveMembers(t, t[b].deps);
    assert Served(t, b);
    assert active <= open;
    SubsetSize(active, open);
    assert open == active + (open - active);
    hide Sound, Served, NotDone, ActiveMembers;
    if x :| x in open - active { SubsetSize({x}, open - active); }
  }

  /**
   So over runs: in every state of a guarded run in which members complete once
   and stay completed, the members that a waiting barrier still counts are all
   active, so none of them was cancelled, failed or deleted without its notice.
   */
  lemma NoMemberIsLost(cfg: Config, states: seq<Sys>, events: seq<Event>, b: nat, i: nat)
    requires IsRun(cfg, states, events) && i < |states|
    requires Sound(states[0].rows) && (b in states[0].rows ==> Counts(states[0].rows, b))
    requires forall k | 0 <= k < |events| :: Guarded(cfg, states[k], events[k])
    requires forall k | 0 <= k < |events| && b in states[k].rows ::
      b in states[k + 1].rows && CompletesOnce(states[k], events[k], states[k + 1], states[k].rows[b].deps)
    ensures
      var t := states[i].rows;
      IsWaiting(t, b) && t[b].IsBarrier() ==>
        NotDone(t, t[b].deps) == ActiveMembers(t, t[b].deps) && t[b].countdown == |ActiveMembers(t, t[b].deps)|
  {
    forall k | 0 <= k < |events| && events[k].Insert? && events[k].id == b
      ensures Distinct(events[k].req.deps) && forall d | d in events[k].req.deps :: d != b && !IsDone(states[k].rows, d)
    {
      assert Step(cfg, states[k], events[k], states[k + 1]);
      assert Guarded(cfg, states[k], events[k]);
    }
    hide Step, Guarded, Sound, Counts, CompletesOnce;
    NoJobIsStranded(cfg, states, events, i);
    CountdownIsUnfinished(cfg, states, events, b, i);
    var t := states[i].rows;
    if IsWaiting(t, b) && t[b].IsBarrier() {
      UnfinishedAreActive(t, b);
      CountsAt(t, b);
    }
  }

  lemma CountsAt(t: Table, b: nat)
    requires IsWaiting(t, b) && Counts(t, b)
    ensures t[b].countdown == |NotDone(t, t[b].deps)|
  {}

  // ---- what one completion or failure does to a barrier ---------------------

  /** A row with no parent hears of a completion only through its dependency list. */
  lemma SucceedRoot(t: Table, id: nat, now: int, y: nat)
    requires id in t && y in t && y != id && t[y].parent.None?
    ensures
      var t' := Succeed(t, id, now);
      && y in t'
      && t'[y] == if t[y].state == Waiting && id in t[y].deps then ReleaseRow(t[y], now) else t[y]
  {
    var done := t[id := DoneRow(t[id], now)];
    var promoted := PromoteRows(done, Promoted(done, id));
    GoneHaveParents(promoted, WaitingIds(promoted), {id});
    hide Closure, ReleaseRow;
    assert promoted[y] == t[y];
  }

  lemma FailRoot(t: Table, id: nat, row: Job, y: nat)
    requires id in t && y in t && y != id && t[y].parent.None?
    ensures
      var t' := FailBelow(t[id := row], id);
      && y in t'
      && t'[y] == if t[y].state != Waiting || id !in t[y].deps then t[y]
                  else if t[y].runOnFailure then Promote(t[y])
                  else t[y].(state := Failed, exc := [ParentFailed(id)])
  {
    hide FailReach;
  }

  /** The barrier leaves `waiting` on a success exactly when its last member completes. */
  lemma LastMemberReleases(t: Table, id: nat, now: int, b: nat)
    requires id in t && IsWaiting(t, b) && b != id && t[b].parent.None? && Counts(t, b)
    requires id in t[b].deps && !IsDone(t, id)
    ensures
      var t' := Succeed(t, id, now);
      && b in t'
      && (t'[b].state != Waiting <==> NotDone(t', t[b].deps) == {})
      && (t'[b].state != Waiting ==> t'[b].state == if t[b].runOnFailure then Cancelled else Pending)
  {
    var t' := Succeed(t, id, now);
    forall d ensures IsDone(t', d) <==> IsDone(t, d) || d == id { SucceedDone(t, id, now, d); }
    SucceedRoot(t, id, now, b);
    hide Succeed;
    var left := NotDone(t', t[b].deps);
    assert left == NotDone(t, t[b].deps) - {id};
    assert id in NotDone(t, t[b].deps);
    assert |left| == t[b].countdown - 1;
    if left != {} { EmptyCount(left); }
  }

  lemma EmptyCount(ids: set<nat>)
    requires ids != {}
    ensures |ids| > 0
  {
    var x :| x in ids;
    assert |ids - {x}| == |ids| - 1;
  }

  // ---- confluence -----------------------------------------------------------

  /** One job ends, well or badly, and runs its cascades. */
  datatype End = End(job: nat, ok: bool)

  ghost function PlayOne(t: Table, end: End, now: int): Table {
    if end.job !in t then t
    else if end.ok then Succeed(t, end.job, now)
    else FailBelow(t[end.job := EndRow(t[end.job], Failed, now)], end.job)
  }

  ghost function Play(t: Table, ends: seq<End>, now: int): Table {
    if ends == [] then t else PlayOne(Play(t, ends[..|ends| - 1], now), ends[|ends| - 1], now)
  }

  /** How many of the members have completed, and whether one has failed: all a barrier needs to know. */
  function DoneCount(ends: seq<End>, deps: seq<nat>): nat {
    if ends == [] then 0
    else
      var end := ends[|ends| - 1];
      DoneCount(ends[..|ends| - 1], deps) + if end.ok && end.job in deps then 1 else 0
  }

  predicate SomeFailed(ends: seq<End>, deps: seq<nat>) {
    exists i | 0 <= i < |ends| :: !ends[i].ok && ends[i].job in deps
  }

  /** No member ends twice. */
  ghost predicate EndsOnce(ends: seq<End>, deps: seq<nat>) {
    forall i, j | 0 <= i < j < |ends| && ends[i].job in deps :: ends[i].job != ends[j].job
  }

  /** Where a group barrier stands once `ends` have happened, read off the ends alone. */
  function Fate(runOnFailure: bool, deps: seq<nat>, ends: seq<End>): State {
    if SomeFailed(ends, deps) then (if runOnFailure then Pending else Failed)
    else if DoneCount(ends, deps) < |deps| then Waiting
    else if runOnFailure then Cancelled else Pending
  }

  /** A barrier that has just been enqueued over `deps`. */
  predicate NewBarrier(t: Table, b: nat, deps: seq<nat>) {
    && IsWaiting(t, b) && t[b].parent.None? && t[b].deps == deps && deps != [] && t[b].countdown == |deps|
  }

  /** `job` is the barrier's row where `ends` should have left it. */
  predicate Follows(job: Job, deps: seq<nat>, runOnFailure: bool, ends: seq<End>) {
    && job.parent.None? && job.deps == deps && job.runOnFailure == runOnFailure
    && job.state == Fate(runOnFailure, deps, ends)
    && (job.state == Waiting ==> job.countdown == |deps| - DoneCount(ends, deps))
  }

  /** What one end does to the barrier's row. */
  function Heard(job: Job, end: End, now: int): Job {
    if job.state != Waiting || end.job !in job.deps then job
    else if end.ok then ReleaseRow(job, now)
    else if job.runOnFailure then Promote(job)
    else job.(state := Failed, exc := [ParentFailed(end.job)])
  }

  lemma PlayOneAt(t: Table, end: End, now: int, b: nat)
    requires b in t && end.job in t && end.job != b && t[b].parent.None?
    ensures PlayOne(t, end, now).Keys == t.Keys && PlayOne(t, end, now)[b] == Heard(t[b], end, now)
  {
    hide Succeed, FailBelow, EndRow, ReleaseRow, Promote;
    if end.ok {
      SucceedRoot(t, end.job, now, b);
      SucceedDone(t, end.job, now, b);
    } else {
      var row := EndRow(t[end.job], Failed, now);
      FailRoot(t, end.job, row, b);
      FailBelowKeys(t[end.job := row], end.job);
    }
  }

  lemma HeardFollows(job: Job, deps: seq<nat>, runOnFailure: bool, ends: seq<End>, now: int)
    requires ends != [] && deps != []
    requires Follows(job, deps, runOnFailure, ends[..|ends| - 1])
    requires ends[|ends| - 1].job in deps ==> DoneCount(ends[..|ends| - 1], deps) < |deps|
    ensures Follows(Heard(job, ends[|ends| - 1], now), deps, runOnFailure, ends)
  {
    SomeFailedUnfolds(ends, deps);
    hide SomeFailed;
  }

  /** A member about to end is one that is not counted yet. */
  lemma MemberStillOpen(ends: seq<End>, deps: seq<nat>)
    requires ends != [] && Distinct(deps) && EndsOnce(ends, deps)
    ensures ends[|ends| - 1].job in deps ==> DoneCount(ends[..|ends| - 1], deps) < |deps|
  {
    var front, end := ends[..|ends| - 1], ends[|ends| - 1];
    DoneCountIs(front, deps);
    if end.job in deps {
      assert end.job !in CompletedMembers(front, deps);
      SubsetSize(CompletedMembers(front, deps), Ids(deps) - {end.job});
      DistinctCount(deps);
    }
  }

  /** Each prefix of the ends leaves the barrier where its fate says, whatever else ends in between. */
  lemma {:induction false} PlayFollowsFate(t: Table, deps: seq<nat>, b: nat, ends: seq<End>, now: int)
    requires NewBarrier(t, b, deps) && Distinct(deps) && EndsOnce(ends, deps)
    requires forall i | 0 <= i < |ends| :: ends[i].job in t && ends[i].job != b
    ensures Play(t, ends, now).Keys == t.Keys
    ensures Follows(Play(t, ends, now)[b], deps, t[b].runOnFailure, ends)
  {
    if ends == [] {
      assert !SomeFailed(ends, deps) && DoneCount(ends, deps) == 0;
    } else {
      var front, end := ends[..|ends| - 1], ends[|ends| - 1];
      PlayFollowsFate(t, deps, b, front, now);
      var t' := Play(t, front, now);
      assert t'[b].parent.None?;
      hide PlayOne, Follows, Heard;
      PlayOneAt(t', end, now, b);
      MemberStillOpen(ends, deps);
      HeardFollows(t'[b], deps, t[b].runOnFailure, ends, now);
    }
  }

  lemma FailBelowKeys(t: Table, id: nat)
    ensures FailBelow(t, id).Keys == t.Keys
  {}

  lemma SomeFailedUnfolds(ends: seq<End>, deps: seq<nat>)
    requires ends != []
    ensures
      var front, end := ends[..|ends| - 1], ends[|ends| - 1];
      SomeFailed(ends, deps) <==> SomeFailed(front, deps) || (!end.ok && end.job in deps)
  {
    var front, end := ends[..|ends| - 1], ends[|ends| - 1];
    if SomeFailed(front, deps) {
      var i :| 0 <= i < |front| && !front[i].ok && front[i].job in deps;
      assert ends[i] == front[i];
    }
  }

  lemma CompletedUnfolds(ends: seq<End>, deps: seq<nat>)
    requires ends != []
    ensures
      var front, end := ends[..|ends| - 1], ends[|ends| - 1];
      CompletedMembers(ends, deps) ==
        CompletedMembers(front, deps) + if end.ok && end.job in deps then {end.job} else {}
  {
    var front := ends[..|ends| - 1];
    assert forall i | 0 <= i < |front| :: front[i] == ends[i];
  }

  /** With distinct members that each end once, all done means none failed. */
  lemma {:induction false} DoneCountIs(ends: seq<End>, deps: seq<nat>)
    requires EndsOnce(ends, deps)
    ensures DoneCount(ends, deps) == |CompletedMembers(ends, deps)|
  {
    if ends == [] {
      assert CompletedMembers(ends, deps) == {};
    } else {
      var front, end := ends[..|ends| - 1], ends[|ends| - 1];
      DoneCountIs(front, deps);
      CompletedUnfolds(ends, deps);
      if end.ok && end.job in deps {
        assert end.job !in CompletedMembers(front, deps);
      }
      hide CompletedMembers, EndsOnce;
    }
  }

  function CompletedMembers(ends: seq<End>, deps: seq<nat>): set<nat> {
    set i | 0 <= i < |ends| && ends[i].ok && ends[i].job in deps :: ends[i].job
  }

  ghost predicate AllEnded(ends: seq<End>, deps: seq<nat>) {
    forall d | d in deps :: exists i :: 0 <= i < |ends| && ends[i].job == d
  }

  lemma AllEndedDecides(deps: seq<nat>, ends: seq<End>)
    requires Distinct(deps) && EndsOnce(ends, deps) && AllEnded(ends, deps)
    ensures SomeFailed(ends, deps) || DoneCount(ends, deps) >= |deps|
  {
    if !SomeFailed(ends, deps) {
      DoneCountIs(ends, deps);
      forall d | d in deps ensures d in CompletedMembers(ends, deps) {
        var i :| 0 <= i < |ends| && ends[i].job == d;
        assert ends[i].ok;
      }
      SubsetSize(Ids(deps), CompletedMembers(ends, deps));
      DistinctCount(deps);
    }
  }

  /**
   Whatever the order in which the members of a group end, and whatever else
   ends in between: the on_done barrier is pending exactly when none failed, its
   on_error twin exactly when one did, so exactly one of the two ever runs.
   */
  lemma TwinsAreConfluent(t: Table, deps: seq<nat>, onDone: nat, onError: nat, ends: seq<End>, now: int)
    requires NewBarrier(t, onDone, deps) && !t[onDone].runOnFailure
    requires NewBarrier(t, onError, deps) && t[onError].runOnFailure
    requires Distinct(deps) && EndsOnce(ends, deps) && AllEnded(ends, deps)
    requires forall i | 0 <= i < |ends| :: ends[i].job in t && ends[i].job != onDone && ends[i].job != onError
    ensures
      var t' := Play(t, ends, now);
      && onDone in t' && onError in t'
      && t'[onDone].state == (if SomeFailed(ends, deps) then Failed else Pending)
      && t'[onError].state == (if SomeFailed(ends, deps) then Pending else Cancelled)
  {
    PlayFollowsFate(t, deps, onDone, ends, now);
    PlayFollowsFate(t, deps, onError, ends, now);
    hide Play, SomeFailed, EndsOnce, AllEnded;
    AllEndedDecides(deps, ends);
  }
}
