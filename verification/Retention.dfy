/** What the autovacuum never deletes: jobs that failed because another one did. */
module Retention {
  import opened JobTable
  import opened Cancel
  import opened Outcomes
  import opened Intake
  import opened WorkerRows
  import opened Settling
  import opened CascadeLaws
  import opened Protocol
  import opened Steps

  /** A job that waits has never completed. */
  ghost predicate WaitingUncompleted(t: Table) {
    forall y | IsWaiting(t, y) :: t[y].completedAt.None?
  }

  /**
   Among the rows that are failed after a failure, those that some cutoff
   expires are exactly those that had ended by themselves; the rows the
   cascade failed get no completion time, which the autovacuum compares.
   */
  lemma FailedExpiresExactly(t: Table, id: nat, x: nat)
    requires WaitingUncompleted(t) && x in t
    requires x in FailBelow(t, id) && FailBelow(t, id)[x].state == Failed
    ensures (exists cutoff :: x in ExpiredIds(FailBelow(t, id), cutoff))
       <==> !IsWaiting(t, x) && t[x].completedAt.Some?
  {
    FailureExactly(t, id, x);
    hide FailBelow, UnderFailure;
    var t' := FailBelow(t, id);
    if !IsWaiting(t, x) && t[x].completedAt.Some? {
      assert x in ExpiredIds(t', t[x].completedAt.value);
    }
  }

  // ---- what goes, and from when on ------------------------------------------

  /** The autovacuum deletes done and failed rows by completion time and cancelled ones by cancellation time, no others. */
  lemma DeletedExactly(t: Table, cutoff: int, x: nat)
    requires x in t
    ensures
      var t' := Unlink(t, ExpiredIds(t, cutoff));
      && (t[x].state == Done || t[x].state == Failed ==>
            (x !in t' <==> t[x].completedAt.Some? && t[x].completedAt.value <= cutoff))
      && (t[x].state == Cancelled ==> (x !in t' <==> t[x].cancelledAt.Some? && t[x].cancelledAt.value <= cutoff))
      && (t[x].state == Waiting || t[x].state == Pending || t[x].state == Started ==> x in t')
      && (x in t' ==> t'[x] == if t[x].parent.Some? && t[x].parent.value in t && t[x].parent.value !in t'
                               then t[x].(parent := None) else t[x])
  {}

  /** Row `id` can be deleted from `now` on, and not before. */
  ghost predicate ExpiresFrom(t: Table, id: nat, now: int) {
    forall cutoff :: id in ExpiredIds(t, cutoff) <==> cutoff >= now
  }

  ghost predicate EndedBy(t: Table, id: nat, state: State, now: int) {
    id in t && t[id].state == state && ExpiresFrom(t, id, now)
  }

  lemma StampedExpires(t: Table, id: nat, now: int)
    requires id in t
    requires t[id].state == Done || t[id].state == Failed ==> t[id].completedAt == Some(now)
    requires t[id].state == Cancelled ==> t[id].cancelledAt == Some(now)
    requires t[id].state == Done || t[id].state == Failed || t[id].state == Cancelled
    ensures ExpiresFrom(t, id, now)
  {}

  /** A job that completes or fails by itself expires from that moment on. */
  lemma EndedExpires(cfg: Config, t: Table, id: nat, outcome: Outcome, now: int)
    requires id in t && (outcome.Success? || GivesUp(cfg, t[id], outcome, now))
    ensures ExpiresFrom(EndAttempt(cfg, t, id, outcome, now), id, now)
  {
    EndAttemptSettles(cfg, t, id, outcome, now);
    hide EndAttempt, ExpiresFrom;
    StampedExpires(EndAttempt(cfg, t, id, outcome, now), id, now);
  }

  /** So does a job whose worker died once too often. */
  lemma DiedExpires(t: Table, id: nat, who: nat, now: int)
    requires GivesUpReclaiming(t, id)
    ensures ExpiresFrom(AcquireRow(t, id, who, now).0, id, now)
  {
    hide ExpiresFrom;
    StampedExpires(AcquireRow(t, id, who, now).0, id, now);
  }

  /** So does every job an operator's press ends by name, of which nothing but state and stamp, or what a cascade noted, changes. */
  lemma PressedExpire(t: Table, ids: seq<nat>, now: int, id: nat)
    requires id in ids && id in t
    ensures EndedBy(CancelButton(t, Ids(ids), now), id, Cancelled, now)
    ensures EndedBy(SetFailedButton(t, ids, now), id, Failed, now)
    ensures EndedBy(SetDoneButton(t, ids, now), id, Done, now)
    ensures CancelButton(t, Ids(ids), now)[id] == t[id].(state := Cancelled, cancelledAt := Some(now))
    ensures SetFailedButton(t, ids, now)[id]
      == t[id].(state := Failed, completedAt := Some(now), exc := SetFailedButton(t, ids, now)[id].exc)
    ensures SetDoneButton(t, ids, now)[id] == t[id].(state := Done, completedAt := Some(now))
  {
    CancelButtonExactly(t, Ids(ids), now, id);
    SetFailedNamed(t, ids, now, id);
    SetDoneNamed(t, ids, now, id);
    hide CancelButton, SetFailedButton, SetDoneButton, ExpiresFrom;
    StampedExpires(CancelButton(t, Ids(ids), now), id, now);
    StampedExpires(SetFailedButton(t, ids, now), id, now);
    StampedExpires(SetDoneButton(t, ids, now), id, now);
  }

  lemma FailChainAt(t: Table, id: nat, x: nat)
    requires x in t
    ensures
      var t' := FailChain(t, {id});
      && x in t' && (t[x].state != Waiting ==> t'[x] == t[x])
      && (t[x].state == Waiting ==>
            (t'[x].state == Waiting || t'[x].state == Pending || t'[x].state == Failed)
            && t'[x] == t[x].(state := t'[x].state, exc := t'[x].exc))
  {
    hide FailReach;
  }

  lemma {:induction false} SetFailedEachNamed(t: Table, ids: seq<nat>, now: int, id: nat)
    requires id in t
    ensures
      var t' := SetFailedEach(t, ids, now);
      && id in t'
      && (if id in ids then t'[id] == t[id].(state := Failed, completedAt := Some(now), exc := t'[id].exc)
          else t'[id] == t[id].(state := t'[id].state, exc := t'[id].exc))
  {
    if ids != [] {
      var front, last := ids[..|ids| - 1], ids[|ids| - 1];
      SetFailedEachNamed(t, front, now, id);
      var t' := SetFailedEach(t, front, now);
      assert id in ids <==> id in front || id == last;
      if last in t' {
        FailChainAt(t'[last := EndRow(t'[last], Failed, now)], last, id);
        hide FailChain;
      }
    }
  }

  lemma SetFailedNamed(t: Table, ids: seq<nat>, now: int, id: nat)
    requires id in t && id in ids
    ensures
      var t' := SetFailedButton(t, ids, now);
      id in t' && t'[id] == t[id].(state := Failed, completedAt := Some(now), exc := t'[id].exc)
  {
    SetFailedEachNamed(t, ids, now, id);
    FailDependentsEachSettles(SetFailedEach(t, ids, now), ids);
    hide SetFailedEach, FailDependentsEach;
  }

  lemma SetDoneNamed(t: Table, ids: seq<nat>, now: int, id: nat)
    requires id in t && id in ids
    ensures
      var t' := SetDoneButton(t, ids, now);
      id in t' && t'[id] == t[id].(state := Done, completedAt := Some(now))
  {
    ReleaseEachSettles(SetDoneRows(t, Ids(ids), now), ids, now);
    hide ReleaseEach;
  }

  // ---- over whole runs ------------------------------------------------------

  /** Jobs that wait have never completed, and none of them is running. */
  ghost predicate Unstarted(s: Sys) {
    && WaitingUncompleted(s.rows)
    && forall a | a in s.attempts :: !IsWaiting(s.rows, s.attempts[a].job)
  }

  /** What waits afterwards waited before, as never completed as it was. */
  ghost predicate WaitsOn(t: Table, t': Table) {
    forall y | IsWaiting(t', y) :: IsWaiting(t, y) && t'[y].completedAt == t[y].completedAt
  }

  lemma KeptTermsWaitOn(t: Table, t': Table)
    requires KeepsTerms(t, t')
    ensures WaitsOn(t, t')
  {
    forall y | IsWaiting(t', y) ensures IsWaiting(t, y) && t'[y].completedAt == t[y].completedAt {
      assert SameTerms(t[y], t'[y]);
    }
  }

  lemma WritesWaitOn(t: Table, id: nat, row: Job, t': Table)
    requires Writes(t, id, row, t')
    ensures WaitsOn(t, t')
  {
    forall y | IsWaiting(t', y) ensures IsWaiting(t, y) && t'[y].completedAt == t[y].completedAt {
      if y != id { assert Settles(t[y], t'[y]); }
    }
  }

  lemma {:induction false} RequeueWaitsOn(t: Table, ids: seq<nat>)
    ensures WaitsOn(t, RequeueEach(t, ids))
  {
    if ids != [] {
      RequeueWaitsOn(t, ids[..|ids| - 1]);
      hide RequeueBlocked;
    }
  }

  lemma BeatsWaitOn(cfg: Config, s: Sys, event: Event, s': Sys)
    requires Step(cfg, s, event, s')
    requires event.Tick? || event.Heartbeat? || event.HeartbeatAll? || event.Overrun? || event.LetGo? || event.Vanish?
    ensures WaitsOn(s.rows, s'.rows)
    ensures forall a | a in s'.attempts :: a in s.attempts && s'.attempts[a].job == s.attempts[a].job
  {
    hide Backoff, PacesAfterTimeout;
  }

  lemma StepWaitsOn(cfg: Config, s: Sys, event: Event, s': Sys)
    requires Step(cfg, s, event, s') && !event.Insert? && !event.Acquire?
    ensures WaitsOn(s.rows, s'.rows)
    ensures forall a | a in s'.attempts :: a in s.attempts && s'.attempts[a].job == s.attempts[a].job
  {
    if event.Finish? {
      FinishWrites(cfg, s, event, s');
      hide EndAttempt, WaitsOn, Writes;
      var id := s.attempts[event.attempt].job;
      WritesWaitOn(s.rows, id, EndedRow(cfg, s.rows[id], event.outcome, s.now), s'.rows);
    } else if event.RequeuePressed? {
      RequeueWaitsOn(s.rows, event.ids);
    } else if Presses(event) || event.Autovacuum? {
      hide Step;
      ButtonKeepsTerms(cfg, s, event, s');
      KeptTermsWaitOn(s.rows, s'.rows);
    } else {
      hide Step;
      BeatsWaitOn(cfg, s, event, s');
    }
  }

  lemma AcquireStaysUnstarted(cfg: Config, s: Sys, event: Event, s': Sys)
    requires Step(cfg, s, event, s') && event.Acquire? && Unstarted(s)
    ensures Unstarted(s')
  {
    hide Step, Eligible;
    var taken := AcquireTakes(cfg, s, event, s');
    if taken.Some? {
      WritesWaitOn(s.rows, taken.value, AcquiredRow(s.rows[taken.value], event.who, s.now), s'.rows);
      hide Writes, AcquiredRow;
    }
  }

  lemma InsertStaysUnstarted(cfg: Config, s: Sys, event: Event, s': Sys)
    requires Step(cfg, s, event, s') && event.Insert? && Unstarted(s)
    ensures Unstarted(s')
  {
    forall y | IsWaiting(s'.rows, y) ensures s'.rows[y].completedAt.None? {
      if y != event.id { assert IsWaiting(s.rows, y); }
    }
    forall a | a in s'.attempts ensures !IsWaiting(s'.rows, s'.attempts[a].job) {
      assert s'.attempts[a].job != event.id;
    }
  }

  lemma StepStaysUnstarted(cfg: Config, s: Sys, event: Event, s': Sys)
    requires Step(cfg, s, event, s') && Unstarted(s)
    ensures Unstarted(s')
  {
    hide Step;
    if event.Insert? {
      InsertStaysUnstarted(cfg, s, event, s');
    } else if event.Acquire? {
      AcquireStaysUnstarted(cfg, s, event, s');
    } else {
      StepWaitsOn(cfg, s, event, s');
    }
  }

  lemma {:induction false} AlwaysUnstarted(cfg: Config, states: seq<Sys>, events: seq<Event>, i: nat)
    requires IsRun(cfg, states, events) && i < |states| && Unstarted(states[0])
    ensures Unstarted(states[i])
    decreases i
  {
    hide Step, Unstarted;
    if i > 0 {
      AlwaysUnstarted(cfg, states, events, i - 1);
      StepStaysUnstarted(cfg, states[i - 1], events[i - 1], states[i]);
    }
  }

  /** Failed without a completion time, and not running: no cutoff expires it. */
  ghost predicate KeptForEver(s: Sys, x: nat) {
    && x in s.rows && s.rows[x].state == Failed && s.rows[x].completedAt.None?
    && forall a | a in s.attempts :: s.attempts[a].job != x
  }

  /** Seen from row `x`, which is not named, run or taken: it settles, or is deleted, or loses its parent. */
  lemma StepSettlesIdle(cfg: Config, s: Sys, event: Event, s': Sys, x: nat)
    requires Step(cfg, s, event, s') && x in s.rows && !Names(event, x)
    requires s.rows[x].state == Waiting || s.rows[x].state == Failed
    requires forall a | a in s.attempts :: s.attempts[a].job != x
    ensures event.Autovacuum? || (x in s'.rows && Settles(s.rows[x], s'.rows[x]))
         || (event.HeartbeatAll? && x in s'.rows && s'.rows[x] == s.rows[x].(heartbeat := s'.rows[x].heartbeat))
    ensures forall a | a in s'.attempts :: s'.attempts[a].job != x
  {
    if event.Acquire? {
      AcquireSettlesIdle(cfg, s, event, s', x);
    } else if event.Finish? {
      FinishFinds(cfg, s, event, s');
      FinishWrites(cfg, s, event, s');
      hide EndAttempt;
    } else if Presses(event) {
      hide Step;
      PressSettlesOutside(cfg, s, event, s');
    } else {
      hide EndAttempt, Acquires, CancelButton, SetFailedButton, SetDoneButton, RequeueEach, Backoff, PacesAfterTimeout;
    }
  }

  lemma AcquireSettlesIdle(cfg: Config, s: Sys, event: Event, s': Sys, x: nat)
    requires Step(cfg, s, event, s') && event.Acquire? && x in s.rows
    requires s.rows[x].state == Waiting || s.rows[x].state == Failed
    requires forall a | a in s.attempts :: s.attempts[a].job != x
    ensures x in s'.rows && Settles(s.rows[x], s'.rows[x])
    ensures forall a | a in s'.attempts :: s'.attempts[a].job != x
  {
    hide Step, Running, Limit;
    var taken := AcquireTakes(cfg, s, event, s');
  }

  lemma StepKeepsForEver(cfg: Config, s: Sys, event: Event, s': Sys, x: nat)
    requires Step(cfg, s, event, s') && KeptForEver(s, x) && !Names(event, x)
    ensures KeptForEver(s', x)
  {
    StepSettlesIdle(cfg, s, event, s', x);
    if event.Autovacuum? {
      assert x !in ExpiredIds(s.rows, event.cutoff);
    } else {
      hide Step;
    }
  }

  /** A step that fails a waiting job without naming it does so by a cascade, and keeps it for ever. */
  lemma CascadeKeepsForEver(cfg: Config, s: Sys, event: Event, s': Sys, x: nat)
    requires Step(cfg, s, event, s') && Unstarted(s) && !Names(event, x)
    requires IsWaiting(s.rows, x) && x in s'.rows && s'.rows[x].state == Failed
    ensures KeptForEver(s', x)
  {
    StepSettlesIdle(cfg, s, event, s', x);
    if !event.Autovacuum? {
      hide Step;
    }
  }

  /**
   A job that waited and was failed by a cascade is still there, failed and not
   expired for any cutoff, in every later state of every run in which no
   operator's press names it.
   */
  lemma {:induction false} CascadeFailedIsNeverDeleted(
    cfg: Config, states: seq<Sys>, events: seq<Event>, j: nat, i: nat, x: nat)
    requires IsRun(cfg, states, events) && j < i < |states| && Unstarted(states[0])
    requires IsWaiting(states[j].rows, x)
    requires x in states[j + 1].rows && states[j + 1].rows[x].state == Failed
    requires forall k | j <= k < i :: !Names(events[k], x)
    ensures KeptForEver(states[i], x) && forall cutoff :: x !in ExpiredIds(states[i].rows, cutoff)
    decreases i
  {
    hide Step, Unstarted, Names;
    if i == j + 1 {
      AlwaysUnstarted(cfg, states, events, j);
      CascadeKeepsForEver(cfg, states[j], events[j], states[i], x);
    } else {
      CascadeFailedIsNeverDeleted(cfg, states, events, j, i - 1, x);
      hide KeptForEver;
      StepKeepsForEver(cfg, states[i - 1], events[i - 1], states[i], x);
      KeptIsUnexpired(states[i], x);
    }
  }

  lemma KeptIsUnexpired(s: Sys, x: nat)
    requires KeptForEver(s, x)
    ensures forall cutoff :: x !in ExpiredIds(s.rows, cutoff)
  {}
}
