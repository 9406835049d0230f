/**
 A barrier over whole runs: workers, retries, reclaims and presses on other
 jobs come in between, and still the ends of its members alone decide it.
 */
module BarrierRuns {
  import opened Reach
  import opened JobTable
  import opened Cancel
  import opened CancelWalk
  import opened Outcomes
  import opened Intake
  import opened WorkerRows
  import opened Settling
  import opened Protocol
  import opened Steps
  import opened StrandingRuns
  import opened Barriers
  import opened Retention

  // ---- what a step ends -----------------------------------------------------

  function AllOf(ids: seq<nat>, ok: bool): seq<End> { seq(|ids|, i requires 0 <= i < |ids| => End(ids[i], ok)) }

  /** The row that an acquire gives up on, if it is the next one. */
  ghost predicate Dies(cfg: Config, s: Sys, event: Event, id: nat)
    requires event.Acquire?
  {
    IsNext(cfg, s.rows, s.now, event.throttled, id) && GivesUpReclaiming(s.rows, id)
  }

  /** The jobs a step ends for good, and how. */
  ghost function EndsBy(cfg: Config, s: Sys, event: Event): seq<End> {
    match event
    case Finish(a, outcome) =>
      if a !in s.attempts || s.attempts[a].job !in s.rows then []
      else if outcome.Success? then [End(s.attempts[a].job, true)]
      else if GivesUp(cfg, s.rows[s.attempts[a].job], outcome, s.now) then [End(s.attempts[a].job, false)]
      else []
    case Acquire(_, _, _) =>
      if exists id :: Dies(cfg, s, event, id) then var id :| Dies(cfg, s, event, id); [End(id, false)] else []
    case SetDonePressed(ids) => AllOf(ids, true)
    case SetFailedPressed(ids) => AllOf(ids, false)
    case _ => []
  }

  ghost function EndsUpTo(cfg: Config, states: seq<Sys>, events: seq<Event>, i: nat): seq<End>
    requires i <= |events| && i <= |states|
  {
    if i == 0 then []
    else EndsUpTo(cfg, states, events, i - 1) + EndsBy(cfg, states[i - 1], events[i - 1])
  }

  /** No press names the barrier, and none cancels one of its members, or a job while a member still waits. */
  predicate LeavesAlone(s: Sys, event: Event, b: nat, deps: seq<nat>) {
    && !Names(event, b)
    && (event.CancelPressed? ==> forall d | d in deps :: d !in event.ids && !IsWaiting(s.rows, d))
  }

  // ---- what a waiting barrier makes of them ---------------------------------

  /** A waiting barrier as enqueued, `ends` later. */
  predicate Waits(job: Job, deps: seq<nat>, onError: bool, ends: seq<End>) {
    && job.state == Waiting && job.parent.None? && job.deps == deps && job.runOnFailure == onError
    && !SomeFailed(ends, deps) && job.countdown == |deps| - DoneCount(ends, deps) > 0
  }

  /** The barrier waits exactly while the ends so far leave it waiting. */
  predicate Tracks(job: Job, deps: seq<nat>, onError: bool, ends: seq<End>) {
    if job.state == Waiting then Waits(job, deps, onError, ends) else Fate(onError, deps, ends) != Waiting
  }

  /** `job'` is what `job` makes of `ends`, which all went the same way. */
  predicate Hears(job: Job, ends: seq<End>, job': Job) {
    && (SomeFailed(ends, job.deps) ==> job'.state == if job.runOnFailure then Pending else Failed)
    && (!SomeFailed(ends, job.deps) ==>
          if DoneCount(ends, job.deps) < job.countdown then
            && job'.state == Waiting && job'.countdown == job.countdown - DoneCount(ends, job.deps)
            && job'.parent.None? && job'.deps == job.deps && job'.runOnFailure == job.runOnFailure
          else job'.state == if job.runOnFailure then Cancelled else Pending)
  }

  lemma {:induction false} DoneCountOf(ends: seq<End>, more: seq<End>, deps: seq<nat>)
    ensures DoneCount(ends + more, deps) == DoneCount(ends, deps) + DoneCount(more, deps)
  {
    if more == [] {
      assert ends + more == ends;
    } else {
      DoneCountOf(ends, more[..|more| - 1], deps);
      assert (ends + more)[..|ends + more| - 1] == ends + more[..|more| - 1];
    }
  }

  lemma SomeFailedOf(ends: seq<End>, more: seq<End>, deps: seq<nat>)
    ensures SomeFailed(ends + more, deps) <==> SomeFailed(ends, deps) || SomeFailed(more, deps)
  {
    var all := ends + more;
    if i :| 0 <= i < |ends| && !ends[i].ok && ends[i].job in deps { assert all[i] == ends[i]; }
    if i :| 0 <= i < |more| && !more[i].ok && more[i].job in deps { assert all[|ends| + i] == more[i]; }
  }

  lemma HearingTracks(job: Job, job': Job, deps: seq<nat>, onError: bool, ends: seq<End>, more: seq<End>)
    requires Waits(job, deps, onError, ends) && Hears(job, more, job')
    ensures Tracks(job', deps, onError, ends + more)
    ensures job'.state != Waiting ==> job'.state == Fate(onError, deps, ends + more)
  {
    DoneCountOf(ends, more, deps);
    SomeFailedOf(ends, more, deps);
    hide SomeFailed, DoneCount;
  }

  /** A barrier that is decided stays decided. */
  lemma DecidedStays(onError: bool, deps: seq<nat>, ends: seq<End>, more: seq<End>)
    requires Fate(onError, deps, ends) != Waiting
    ensures Fate(onError, deps, ends + more) != Waiting
  {
    DoneCountOf(ends, more, deps);
    SomeFailedOf(ends, more, deps);
    hide SomeFailed, DoneCount;
  }

  // ---- step by step ---------------------------------------------------------

  lemma NothingHeard(job: Job, job': Job)
    requires job.state == Waiting && job.countdown > 0 && job.parent.None?
    requires job'.state == Waiting && job'.countdown == job.countdown
    requires job'.parent.None? && job'.deps == job.deps && job'.runOnFailure == job.runOnFailure
    ensures Hears(job, [], job')
  {}

  lemma OneHeard(job: Job, end: End, now: int, job': Job)
    requires job.state == Waiting && job.countdown > 0 && job.parent.None?
    requires end.job !in job.deps ==> job' == job
    requires end.job in job.deps && !end.ok ==> job'.state == if job.runOnFailure then Pending else Failed
    requires end.job in job.deps && end.ok ==> job' == ReleaseRow(job, now)
    ensures Hears(job, [end], job')
  {
    var ends := [end];
    assert ends[..|ends| - 1] == [] && ends[0] == end;
    assert DoneCount(ends, job.deps) == if end.ok && end.job in job.deps then 1 else 0;
    assert SomeFailed(ends, job.deps) <==> !end.ok && end.job in job.deps;
    hide SomeFailed, DoneCount;
  }

  lemma FinishHeard(cfg: Config, s: Sys, event: Event, s': Sys, b: nat)
    requires Step(cfg, s, event, s') && event.Finish? && Unstarted(s)
    requires IsWaiting(s.rows, b) && s.rows[b].parent.None? && s.rows[b].countdown > 0
    ensures b in s'.rows && Hears(s.rows[b], EndsBy(cfg, s, event), s'.rows[b])
  {
    var t, id := s.rows, s.attempts[event.attempt].job;
    assert id != b;
    hide Succeed, FailBelow, Hears, GivesUp, ExceptionRow, ReleaseRow;
    if event.outcome.Success? {
      SucceedRoot(t, id, s.now, b);
      OneHeard(t[b], End(id, true), s.now, s'.rows[b]);
    } else if GivesUp(cfg, t[id], event.outcome, s.now) {
      FailRoot(t, id, ExceptionRow(cfg, t[id], event.outcome, s.now), b);
      OneHeard(t[b], End(id, false), s.now, s'.rows[b]);
    } else {
      NothingHeard(t[b], s'.rows[b]);
    }
  }

  lemma ReclaimHeard(t: Table, id: nat, who: nat, now: int, b: nat)
    requires id in t && t[id].state != Waiting && IsWaiting(t, b) && t[b].parent.None? && t[b].countdown > 0
    ensures
      var t' := AcquireRow(t, id, who, now).0;
      b in t' && Hears(t[b], if GivesUpReclaiming(t, id) then [End(id, false)] else [], t'[b])
  {
    var t' := AcquireRow(t, id, who, now).0;
    hide Hears;
    if GivesUpReclaiming(t, id) {
      OneHeard(t[b], End(id, false), now, t'[b]);
    } else {
      NothingHeard(t[b], t'[b]);
    }
  }

  lemma AcquireHeard(cfg: Config, s: Sys, event: Event, s': Sys, b: nat)
    requires Step(cfg, s, event, s') && event.Acquire?
    requires IsWaiting(s.rows, b) && s.rows[b].parent.None? && s.rows[b].countdown > 0
    ensures b in s'.rows && Hears(s.rows[b], EndsBy(cfg, s, event), s'.rows[b])
  {
    var t := s.rows;
    hide AcquireRow, Hears, IsNext, Eligible, GivesUpReclaiming;
    NextExists(cfg, t, s.now, event.throttled);
    if id :| id in t && IsNext(cfg, t, s.now, event.throttled, id) && s'.rows == AcquireRow(t, id, event.who, s.now).0 {
      NextCanRun(cfg, t, s.now, event.throttled, id);
      ReclaimHeard(t, id, event.who, s.now, b);
      assert forall x | Dies(cfg, s, event, x) :: x == id by { NextIsIn(cfg, s, event); }
      assert Dies(cfg, s, event, id) <==> GivesUpReclaiming(t, id);
    } else {
      NextIsIn(cfg, s, event);
      NothingHeard(t[b], s'.rows[b]);
    }
  }

  lemma NextIsIn(cfg: Config, s: Sys, event: Event)
    requires event.Acquire?
    ensures forall x | Dies(cfg, s, event, x) :: x in s.rows && IsNext(cfg, s.rows, s.now, event.throttled, x)
    ensures forall x | Dies(cfg, s, event, x) :: Eligible(cfg, s.rows, s.now, event.throttled, x)
  {}

  lemma NextCanRun(cfg: Config, t: Table, now: int, throttled: set<Option<string>>, id: nat)
    requires id in t && IsNext(cfg, t, now, throttled, id)
    ensures t[id].state != Waiting && Eligible(cfg, t, now, throttled, id)
  {}

  /** A press that cancels neither the barrier nor a member, while no member waits, does not reach the barrier. */
  lemma CancelNotHeard(t: Table, ids: set<nat>, now: int, b: nat)
    requires IsWaiting(t, b) && t[b].parent.None? && b !in ids
    requires forall d | d in t[b].deps :: d !in ids && !IsWaiting(t, d)
    ensures b in CancelButton(t, ids, now) && CancelButton(t, ids, now)[b] == t[b]
  {
    CancelButtonExactly(t, ids, now, b);
    var cascading := set k | k in ids && k in t && !t[k].Terminal();
    hide CancelButton;
    if path :| IsPath(AllEdges(t), WaitingIds(t), path) && path[0] in Successors(AllEdges(t), cascading)
               && path[|path| - 1] == b {
      if |path| == 1 {
        var e :| e in AllEdges(t) && e.0 in cascading && e.1 == b;
        OnlyMembersAbove(t, e.0, b);
        assert false;
      } else {
        assert path[|path| - 2] in WaitingIds(t);
        OnlyMembersAbove(t, path[|path| - 2], b);
        assert false;
      }
    }
  }

  lemma OnlyMembersAbove(t: Table, x: nat, b: nat)
    requires b in t && t[b].parent.None? && (x, b) in AllEdges(t)
    ensures x in t[b].deps
  {
    if (x, b) in DependencyEdges(t) {
      var y, d :| y in t && d in t[y].deps && (x, b) == (d, y);
    }
  }

  lemma {:induction false} SetFailedSparesRoot(t: Table, ids: seq<nat>, now: int, b: nat)
    requires b in t && t[b].parent.None? && b !in ids
    ensures b in SetFailedEach(t, ids, now) && SetFailedEach(t, ids, now)[b] == t[b]
  {
    if ids != [] {
      var front, id := ids[..|ids| - 1], ids[|ids| - 1];
      SetFailedSparesRoot(t, front, now, b);
      var t' := SetFailedEach(t, front, now);
      assert id in ids;
      hide FailReach;
      if id in t' {
        var t'' := t'[id := EndRow(t'[id], Failed, now)];
        assert b !in Children(t'', {id} + FailReach(t'', {id}));
      }
    }
  }

  lemma {:induction false} FailuresHeard(t: Table, ids: seq<nat>, b: nat)
    requires IsWaiting(t, b) && t[b].parent.None? && t[b].countdown > 0
    ensures
      var t' := FailDependentsEach(t, ids);
      && b in t'
      && if exists id :: id in ids && id in t[b].deps then t'[b].state == if t[b].runOnFailure then Pending else Failed
         else t'[b] == t[b]
  {
    if ids != [] {
      var front, id := ids[..|ids| - 1], ids[|ids| - 1];
      FailuresHeard(t, front, b);
      assert forall x :: x in ids <==> x in front || x == id;
    }
  }

  lemma {:induction false} CountOf(ids: seq<nat>, deps: seq<nat>)
    ensures DoneCount(AllOf(ids, true), deps) == Hits(ids, deps) && DoneCount(AllOf(ids, false), deps) == 0
    ensures !SomeFailed(AllOf(ids, true), deps)
    ensures SomeFailed(AllOf(ids, false), deps) <==> exists id :: id in ids && id in deps
  {
    if ids != [] {
      var front := ids[..|ids| - 1];
      CountOf(front, deps);
      assert AllOf(ids, true)[..|ids| - 1] == AllOf(front, true);
      assert AllOf(ids, false)[..|ids| - 1] == AllOf(front, false);
      if id :| id in ids && id in deps {
        var i :| 0 <= i < |ids| && ids[i] == id;
        assert AllOf(ids, false)[i] == End(id, false);
      }
    }
  }

  lemma SetFailedHeard(t: Table, ids: seq<nat>, now: int, b: nat)
    requires IsWaiting(t, b) && t[b].parent.None? && t[b].countdown > 0 && b !in ids
    ensures
      var t' := SetFailedButton(t, ids, now);
      b in t' && Hears(t[b], AllOf(ids, false), t'[b])
  {
    hide SetFailedEach, FailDependentsEach, SomeFailed, DoneCount;
    SetFailedSparesRoot(t, ids, now, b);
    FailuresHeard(SetFailedEach(t, ids, now), ids, b);
    CountOf(ids, t[b].deps);
  }

  lemma SetDoneHeard(t: Table, ids: seq<nat>, now: int, b: nat)
    requires IsWaiting(t, b) && t[b].parent.None? && t[b].countdown > 0 && b !in ids
    ensures
      var t' := SetDoneButton(t, ids, now);
      b in t' && Hears(t[b], AllOf(ids, true), t'[b])
  {
    hide SetDoneButton, SomeFailed, DoneCount, Hits;
    SetDoneAt(t, ids, now, b);
    CountOf(ids, t[b].deps);
  }

  lemma QuietHeard(cfg: Config, s: Sys, event: Event, s': Sys, b: nat)
    requires Step(cfg, s, event, s') && b in s'.rows
    requires !Presses(event) && !event.Acquire? && !event.Finish?
    requires IsWaiting(s.rows, b) && s.rows[b].parent.None? && s.rows[b].countdown > 0
    ensures Hears(s.rows[b], [], s'.rows[b])
  {
    hide Hears, Acquires, EndAttempt, CancelButton, SetFailedButton, SetDoneButton, RequeueEach, Backoff,
         PacesAfterTimeout, Reused, NewRow, ExpiredIds;
    NothingHeard(s.rows[b], s'.rows[b]);
  }

  /** A waiting barrier hears of exactly the members that a step ends. */
  lemma StepHeard(cfg: Config, s: Sys, event: Event, s': Sys, b: nat)
    requires Step(cfg, s, event, s') && Unstarted(s) && b in s'.rows
    requires IsWaiting(s.rows, b) && s.rows[b].parent.None? && s.rows[b].countdown > 0
    requires LeavesAlone(s, event, b, s.rows[b].deps)
    ensures Hears(s.rows[b], EndsBy(cfg, s, event), s'.rows[b])
  {
    hide Hears, Unstarted, Acquires, EndAttempt, CancelButton, SetFailedButton, SetDoneButton, RequeueEach, AllOf,
         Beat, BeatAll, HoldAfterTimeout, ClearOwner, Reused, NewRow, Dies, GivesUp, Unlink, ExpiredIds;
    match event
    case Finish(_, _) => FinishHeard(cfg, s, event, s', b);
    case Acquire(_, _, _) => AcquireHeard(cfg, s, event, s', b);
    case CancelPressed(ids) =>
      CancelNotHeard(s.rows, (set x | x in ids), s.now, b);
      NothingHeard(s.rows[b], s'.rows[b]);
    case SetFailedPressed(ids) => SetFailedHeard(s.rows, ids, s.now, b);
    case SetDonePressed(ids) => SetDoneHeard(s.rows, ids, s.now, b);
    case RequeuePressed(ids) =>
      RequeueLeavesOthers(s.rows, ids, b);
      NothingHeard(s.rows[b], s'.rows[b]);
    case _ => QuietHeard(cfg, s, event, s', b);
  }

  lemma NoneStartsWaiting(cfg: Config, s: Sys, event: Event, s': Sys, b: nat)
    requires Step(cfg, s, event, s') && b in s.rows && !IsWaiting(s.rows, b)
    ensures !IsWaiting(s'.rows, b)
  {
    if event.Acquire? {
      hide Step;
      var taken := AcquireTakes(cfg, s, event, s');
      if taken.Some? { WritesAt(s.rows, taken.value, AcquiredRow(s.rows[taken.value], event.who, s.now), s'.rows, b); }
    } else if !event.Insert? {
      hide Step;
      StepWaitsOn(cfg, s, event, s');
    }
  }

  // ---- over whole runs ------------------------------------------------------

  /** A run in which barrier `b` has just been enqueued over `deps`, stays in the table and is left alone. */
  ghost predicate RunOf(cfg: Config, states: seq<Sys>, events: seq<Event>, b: nat, deps: seq<nat>) {
    && IsRun(cfg, states, events)
    && NewBarrier(states[0].rows, b, deps) && Unstarted(states[0])
    && (forall k | 0 <= k < |states| :: b in states[k].rows)
    && (forall k | 0 <= k < |events| :: LeavesAlone(states[k], events[k], b, deps))
  }

  lemma EndsNext(cfg: Config, states: seq<Sys>, events: seq<Event>, i: nat)
    requires 0 < i <= |events| && i <= |states|
    ensures EndsUpTo(cfg, states, events, i)
      == EndsUpTo(cfg, states, events, i - 1) + EndsBy(cfg, states[i - 1], events[i - 1])
  {
    hide EndsBy;
  }

  lemma StartsWaiting(cfg: Config, states: seq<Sys>, events: seq<Event>, b: nat, deps: seq<nat>)
    requires RunOf(cfg, states, events, b, deps)
    ensures EndsUpTo(cfg, states, events, 0) == []
    ensures Tracks(states[0].rows[b], deps, states[0].rows[b].runOnFailure, [])
  {
    hide Step, LeavesAlone, Unstarted;
  }

  lemma RunAt(cfg: Config, states: seq<Sys>, events: seq<Event>, b: nat, deps: seq<nat>, k: nat)
    requires RunOf(cfg, states, events, b, deps) && k < |events|
    ensures |states| == |events| + 1 && Step(cfg, states[k], events[k], states[k + 1]) && Unstarted(states[k])
    ensures b in states[0].rows && b in states[k].rows && b in states[k + 1].rows
    ensures LeavesAlone(states[k], events[k], b, deps)
  {
    hide Step, LeavesAlone, Unstarted;
    AlwaysUnstarted(cfg, states, events, k);
  }

  lemma StepTracks(cfg: Config, s: Sys, event: Event, s': Sys, b: nat, deps: seq<nat>, onError: bool, ends: seq<End>)
    requires Step(cfg, s, event, s') && Unstarted(s) && b in s.rows && b in s'.rows && LeavesAlone(s, event, b, deps)
    requires Tracks(s.rows[b], deps, onError, ends)
    ensures
      var ends' := ends + EndsBy(cfg, s, event);
      && Tracks(s'.rows[b], deps, onError, ends')
      && (IsWaiting(s.rows, b) && !IsWaiting(s'.rows, b) ==> s'.rows[b].state == Fate(onError, deps, ends'))
  {
    hide Step, Unstarted, LeavesAlone, EndsBy, Hears, Fate, SomeFailed, DoneCount;
    if IsWaiting(s.rows, b) {
      StepHeard(cfg, s, event, s', b);
      HearingTracks(s.rows[b], s'.rows[b], deps, onError, ends, EndsBy(cfg, s, event));
    } else {
      NoneStartsWaiting(cfg, s, event, s', b);
      DecidedStays(onError, deps, ends, EndsBy(cfg, s, event));
    }
  }

  /**
   In every state of such a run the barrier waits exactly if the ends so far
   leave it waiting, with a countdown of the members not completed yet, and the
   step that takes it out of waiting takes it where they say.
   */
  lemma {:induction false} RunFollowsFate(
    cfg: Config, states: seq<Sys>, events: seq<Event>, b: nat, deps: seq<nat>, i: nat)
    requires RunOf(cfg, states, events, b, deps) && i < |states|
    ensures
      var onError, ends := states[0].rows[b].runOnFailure, EndsUpTo(cfg, states, events, i);
      && Tracks(states[i].rows[b], deps, onError, ends)
      && (i > 0 && IsWaiting(states[i - 1].rows, b) && !IsWaiting(states[i].rows, b) ==>
            states[i].rows[b].state == Fate(onError, deps, ends))
    decreases i
  {
    if i == 0 {
      StartsWaiting(cfg, states, events, b, deps);
    } else {
      hide *;
      var k := i - 1;
      RunFollowsFate(cfg, states, events, b, deps, k);
      RunAt(cfg, states, events, b, deps, k);
      EndsNext(cfg, states, events, i);
      StepTracks(cfg, states[k], events[k], states[i], b, deps, states[0].rows[b].runOnFailure,
                 EndsUpTo(cfg, states, events, k));
    }
  }

  // ---- the twins of a group -------------------------------------------------

  /** The step after state `k` takes `b` from waiting to `state`. */
  predicate LeavesAs(states: seq<Sys>, k: nat, b: nat, state: State) {
    && k + 1 < |states| && IsWaiting(states[k].rows, b) && b in states[k + 1].rows
    && states[k + 1].rows[b].state == state != Waiting
  }

  lemma InTable(cfg: Config, states: seq<Sys>, events: seq<Event>, b: nat, deps: seq<nat>)
    requires RunOf(cfg, states, events, b, deps)
    ensures |states| == |events| + 1 && forall k | 0 <= k < |states| :: b in states[k].rows
  {
    hide Step;
  }

  /** Waiting and undecided are one in every state, and the first one waits. */
  lemma StillUndecided(cfg: Config, states: seq<Sys>, events: seq<Event>, b: nat, deps: seq<nat>, i: nat)
    requires RunOf(cfg, states, events, b, deps) && |states| == |events| + 1 && i < |states| && b in states[0].rows
    ensures Fate(states[0].rows[b].runOnFailure, deps, EndsUpTo(cfg, states, events, i)) == Waiting
      <==> IsWaiting(states[i].rows, b)
    ensures IsWaiting(states[0].rows, b)
  {
    RunFollowsFate(cfg, states, events, b, deps, i);
    hide Step, EndsUpTo, SomeFailed, DoneCount, LeavesAlone, Unstarted;
  }

  lemma LeavesNow(cfg: Config, states: seq<Sys>, events: seq<Event>, b: nat, deps: seq<nat>, k: nat)
    requires RunOf(cfg, states, events, b, deps) && |states| == |events| + 1 && k + 1 < |states|
    requires b in states[0].rows && b in states[k + 1].rows
    requires IsWaiting(states[k].rows, b) && !IsWaiting(states[k + 1].rows, b)
    ensures LeavesAs(states, k, b, Fate(states[0].rows[b].runOnFailure, deps, EndsUpTo(cfg, states, events, k + 1)))
  {
    hide RunOf, EndsUpTo, Fate;
    RunFollowsFate(cfg, states, events, b, deps, k + 1);
  }

  /** Barriers that are decided in the end have left waiting at some step. */
  lemma {:induction false} HasLeft(cfg: Config, states: seq<Sys>, events: seq<Event>, b: nat, deps: seq<nat>, i: nat)
      returns (k: nat)
    requires RunOf(cfg, states, events, b, deps) && i < |states|
    requires Fate(states[0].rows[b].runOnFailure, deps, EndsUpTo(cfg, states, events, i)) != Waiting
    ensures k < i
    ensures LeavesAs(states, k, b, Fate(states[0].rows[b].runOnFailure, deps, EndsUpTo(cfg, states, events, k + 1)))
    decreases i
  {
    hide *;
    InTable(cfg, states, events, b, deps);
    StillUndecided(cfg, states, events, b, deps, i);
    if IsWaiting(states[i - 1].rows, b) {
      k := i - 1;
      LeavesNow(cfg, states, events, b, deps, k);
    } else {
      StillUndecided(cfg, states, events, b, deps, i - 1);
      k := HasLeft(cfg, states, events, b, deps, i - 1);
    }
  }

  lemma {:induction false} EndsGrow(cfg: Config, states: seq<Sys>, events: seq<Event>, k: nat, i: nat)
    requires k <= i <= |events| && |states| == |events| + 1
    ensures EndsUpTo(cfg, states, events, k) <= EndsUpTo(cfg, states, events, i)
    decreases i
  {
    hide *;
    if k < i {
      EndsGrow(cfg, states, events, k, i - 1);
      EndsNext(cfg, states, events, i);
    }
  }

  /** If members end once, what a prefix of the ends decides is what all of them decide. */
  lemma EarlyFateIsFinal(deps: seq<nat>, onError: bool, early: seq<End>, all: seq<End>)
    requires early <= all && Distinct(deps) && EndsOnce(all, deps) && Fate(onError, deps, early) != Waiting
    ensures Fate(onError, deps, all) == Fate(onError, deps, early)
  {
    var more := all[|early|..];
    assert early + more == all;
    DoneCountOf(early, more, deps);
    SomeFailedOf(early, more, deps);
    assert EndsOnce(early, deps);
    if !SomeFailed(early, deps) && SomeFailed(all, deps) {
      var i :| 0 <= i < |all| && !all[i].ok && all[i].job in deps;
      assert forall j | 0 <= j < |early| :: early[j] == all[j];
      DoneCountIs(early, deps);
      SubsetSize(CompletedMembers(early, deps), Ids(deps) - {all[i].job});
      DistinctCount(deps);
      assert false;
    }
  }

  /**
   In every run in which each member of a group ends once, the on_done barrier
   leaves waiting to run exactly if no member failed, and its on_error twin
   exactly if one did, whatever workers and operators do to other jobs between.
   */
  lemma TwinsInRuns(cfg: Config, states: seq<Sys>, events: seq<Event>, onDone: nat, onError: nat, deps: seq<nat>)
      returns (k: nat, j: nat)
    requires RunOf(cfg, states, events, onDone, deps) && !states[0].rows[onDone].runOnFailure
    requires RunOf(cfg, states, events, onError, deps) && states[0].rows[onError].runOnFailure
    requires Distinct(deps)
    requires var ends := EndsUpTo(cfg, states, events, |events|); EndsOnce(ends, deps) && AllEnded(ends, deps)
    ensures
      var failed := SomeFailed(EndsUpTo(cfg, states, events, |events|), deps);
      && LeavesAs(states, k, onDone, if failed then Failed else Pending)
      && LeavesAs(states, j, onError, if failed then Pending else Cancelled)
  {
    hide *;
    InTable(cfg, states, events, onDone, deps);
    InTable(cfg, states, events, onError, deps);
    k := LeavesInTheEnd(cfg, states, events, onDone, deps);
    j := LeavesInTheEnd(cfg, states, events, onError, deps);
  }

  /** A barrier whose members have each ended once has left waiting for where all the ends say. */
  lemma LeavesInTheEnd(cfg: Config, states: seq<Sys>, events: seq<Event>, b: nat, deps: seq<nat>) returns (k: nat)
    requires RunOf(cfg, states, events, b, deps) && Distinct(deps)
    requires |states| == |events| + 1 && b in states[0].rows
    requires var ends := EndsUpTo(cfg, states, events, |events|); EndsOnce(ends, deps) && AllEnded(ends, deps)
    ensures
      var failed := SomeFailed(EndsUpTo(cfg, states, events, |events|), deps);
      LeavesAs(states, k, b, if states[0].rows[b].runOnFailure then (if failed then Pending else Cancelled)
                             else (if failed then Failed else Pending))
  {
    hide *;
    var ends, onError := EndsUpTo(cfg, states, events, |events|), states[0].rows[b].runOnFailure;
    AllEndedDecides(deps, ends);
    DecidedFate(onError, deps, ends);
    k := HasLeft(cfg, states, events, b, deps, |events|);
    EndsGrow(cfg, states, events, k + 1, |events|);
    LeftSomewhere(states, k, b, Fate(onError, deps, EndsUpTo(cfg, states, events, k + 1)));
    EarlyFateIsFinal(deps, onError, EndsUpTo(cfg, states, events, k + 1), ends);
  }

  lemma LeftSomewhere(states: seq<Sys>, k: nat, b: nat, state: State)
    requires LeavesAs(states, k, b, state)
    ensures state != Waiting
  {}

  lemma DecidedFate(onError: bool, deps: seq<nat>, ends: seq<End>)
    requires SomeFailed(ends, deps) || DoneCount(ends, deps) >= |deps|
    ensures Fate(onError, deps, ends) != Waiting
    ensures Fate(onError, deps, ends) ==
      if onError then (if SomeFailed(ends, deps) then Pending else Cancelled)
      else (if SomeFailed(ends, deps) then Failed else Pending)
  {
    hide SomeFailed, DoneCount;
  }
}
