/** Over whole runs: which steps keep every waiting job served, and exactly when the others do. */
module StrandingRuns {
  import opened JobTable
  import opened Cancel
  import opened CancelWalk
  import opened Outcomes
  import opened Intake
  import opened WorkerRows
  import opened Protocol
  import opened Stranding

  // ---- rows that are written without ending ---------------------------------

  /** Row by row: the wiring stays, active rows stay active, and nothing starts to wait. */
  predicate StaysUp(job: Job, job': Job) {
    && job'.parent == job.parent && job'.deps == job.deps
    && (job.Active() ==> job'.Active())
    && (job'.state == Waiting ==> job.state == Waiting && job'.countdown == job.countdown)
  }

  lemma NothingEndsStaysSound(t: Table, t': Table)
    requires Sound(t) && t'.Keys == t.Keys
    requires forall x | x in t :: StaysUp(t[x], t'[x])
    ensures Sound(t')
  {
    hide Sound;
    forall y | y in t' && t'[y].state == Waiting
      ensures t[y].state == Waiting && t'[y].countdown == t[y].countdown
    {
      assert StaysUp(t[y], t'[y]);
    }
    forall x | IsActive(t, x) ensures IsActive(t', x) { assert StaysUp(t[x], t'[x]); }
    ClosedLossStaysSound(t, t');
  }

  lemma {:induction false} RequeueStaysSound(t: Table, ids: seq<nat>)
    requires Sound(t)
    ensures Sound(RequeueEach(t, ids))
  {
    if ids != [] {
      var t' := RequeueEach(t, ids[..|ids| - 1]);
      RequeueStaysSound(t, ids[..|ids| - 1]);
      hide Sound, RequeueBlocked;
      NothingEndsStaysSound(t', RequeueOne(t', ids[|ids| - 1]));
    }
  }

  // ---- rows that come and go ------------------------------------------------

  /**
   A new row hangs below active jobs that are no barriers, lists distinct
   members that have no parent themselves, and has the largest id.
   */
  ghost predicate WellPlaced(t: Table, id: nat, req: Request) {
    && (forall x | x in t :: x < id)
    && (req.parent.Some? ==> IsActive(t, req.parent.value) && !t[req.parent.value].IsBarrier())
    && Distinct(req.deps)
    && (forall d | d in req.deps :: IsActive(t, d) && !t[d].IsBarrier() && t[d].parent.None?)
  }

  lemma EnqueueStaysWired(t: Table, id: nat, req: Request, now: int)
    requires Wired(t) && WellPlaced(t, id, req)
    ensures Wired(t[id := NewRow(req, now)])
  {
    var t' := t[id := NewRow(req, now)];
    forall y | y in t' ensures forall d | d in t'[y].deps :: d < y && (d in t' ==> t'[d].parent.None?) {
      if y != id {
        forall d | d in t'[y].deps ensures d < y && (d in t' ==> t'[d].parent.None?) {
          assert d in t[y].deps && d < y;
        }
      }
    }
  }

  lemma EnqueueStaysServed(t: Table, id: nat, row: Job, y: nat)
    requires y in t && id !in t && Served(t, y)
    ensures Served(t[id := row], y)
  {
    var t' := t[id := row];
    var before, after := ActiveMembers(t, t[y].deps), ActiveMembers(t', t[y].deps);
    assert before <= after;
    SubsetSize(before, after);
  }

  lemma NewRowServed(t: Table, id: nat, req: Request, now: int)
    requires WellPlaced(t, id, req) && NewRow(req, now).state == Waiting
    ensures Served(t[id := NewRow(req, now)], id)
  {
    var t' := t[id := NewRow(req, now)];
    assert ActiveMembers(t', req.deps) == Ids(req.deps);
    DistinctCount(req.deps);
  }

  lemma {:induction false} DistinctCount(ids: seq<nat>)
    requires Distinct(ids)
    ensures |Ids(ids)| == |ids|
  {
    if ids != [] {
      var front, last := ids[..|ids| - 1], ids[|ids| - 1];
      DistinctCount(front);
      assert Ids(ids) == Ids(front) + {last};
    }
  }

  lemma EnqueueStaysSound(t: Table, id: nat, req: Request, now: int)
    requires Sound(t) && WellPlaced(t, id, req)
    ensures Sound(t[id := NewRow(req, now)])
  {
    EnqueueStaysWired(t, id, req, now);
    var t' := t[id := NewRow(req, now)];
    assert id !in t;
    forall y | y in t' && t'[y].state == Waiting ensures Served(t', y) {
      if y == id {
        NewRowServed(t, id, req, now);
      } else {
        EnqueueStaysServed(t, id, NewRow(req, now), y);
      }
    }
  }

  /** Deleting ended rows takes nothing away from the rows that wait. */
  lemma UnlinkStaysSound(t: Table, ids: set<nat>)
    requires Sound(t) && forall x | x in ids && x in t :: t[x].Terminal()
    ensures Sound(Unlink(t, ids))
  {
    var t' := Unlink(t, ids);
    UnlinkStaysWired(t, ids);
    forall y | y in t' && t'[y].state == Waiting ensures Served(t', y) {
      assert Served(t, y);
      assert t'[y] == t[y];
      assert ActiveMembers(t', t[y].deps) == ActiveMembers(t, t[y].deps);
    }
  }

  lemma UnlinkStaysWired(t: Table, ids: set<nat>)
    requires Wired(t)
    ensures Wired(Unlink(t, ids))
  {
    var t' := Unlink(t, ids);
    forall y | y in t' ensures forall d | d in t'[y].deps :: d < y && (d in t' ==> t'[d].parent.None?) {
      assert y in t && t'[y].deps == t[y].deps;
    }
    forall y | y in t' && t'[y].parent.Some? ensures t'[y].parent.value < y { assert y in t; }
    forall b, y | b in t' && y in t' && t'[b].IsBarrier() ensures t'[y].parent != Some(b) && b !in t'[y].deps {
      assert b in t && y in t && t[b].IsBarrier();
    }
  }

  // ---- the one-hop cascade of an exhausted reclaim --------------------------

  /** The SQL cascade fails no row that has a waiting child of its own. */
  ghost predicate ReclaimSafe(t: Table, id: nat) {
    forall y | IsWaiting(t, y) && t[y].parent.Some? && t[y].parent != Some(id) && id !in t[y].deps ::
      var p := t[y].parent.value;
      CanFail(t, p) ==> t[p].parent != Some(id) && id !in t[p].deps
  }

  lemma ReclaimAt(t: Table, id: nat, row: Job, x: nat)
    requires id in t && row.Terminal() && x in t && x != id
    ensures
      var t' := ReclaimCascade(t[id := row], id);
      var hit := t[x].state == Waiting && (t[x].parent == Some(id) || id in t[x].deps);
      && x in t' && t'[x].parent == t[x].parent && t'[x].deps == t[x].deps
      && (!hit ==> t'[x] == t[x])
      && (hit ==> !IsWaiting(t', x) && (IsActive(t', x) <==> t[x].runOnFailure))
  {}

  lemma ReclaimKeepsGraph(t: Table, id: nat, row: Job)
    requires id in t && row.Terminal() && row.parent == t[id].parent && row.deps == t[id].deps
    ensures SameGraph(t, ReclaimCascade(t[id := row], id))
    ensures !IsActive(ReclaimCascade(t[id := row], id), id) && !IsWaiting(ReclaimCascade(t[id := row], id), id)
  {}

  lemma ReclaimLosesNothing(t: Table, id: nat, row: Job, y: nat, x: nat)
    requires Wired(t) && id in t && row.Terminal() && ReclaimSafe(t, id)
    requires y in t && y != id && IsWaiting(t, y) && t[y].parent != Some(id) && id !in t[y].deps
    requires IsActive(t, x) && (t[y].parent == Some(x) || x in t[y].deps)
    ensures IsActive(ReclaimCascade(t[id := row], id), x)
  {
    WiredAt(t, y);
    assert x != id;
    ReclaimAt(t, id, row, x);
  }

  lemma UnservedIsUnsound(t: Table, y: nat)
    requires IsWaiting(t, y) && !Served(t, y)
    ensures !Sound(t)
  {}

  /** Failing a dead worker's job by SQL strands nobody exactly when no job it fails has waiting children. */
  lemma ReclaimStrandsExactly(t: Table, id: nat, row: Job)
    requires Sound(t) && id in t && t[id].state == Started
    requires row.Terminal() && row.parent == t[id].parent && row.deps == t[id].deps
    ensures Sound(ReclaimCascade(t[id := row], id)) <==> ReclaimSafe(t, id)
  {
    var t' := ReclaimCascade(t[id := row], id);
    ReclaimKeepsGraph(t, id, row);
    SoundIsWired(t);
    if ReclaimSafe(t, id) {
      ReclaimStaysSound(t, id, row);
    } else {
      var y :| && IsWaiting(t, y) && t[y].parent.Some? && t[y].parent != Some(id) && id !in t[y].deps
               && CanFail(t, t[y].parent.value)
               && (t[t[y].parent.value].parent == Some(id) || id in t[t[y].parent.value].deps);
      hide Sound, ReclaimCascade, SameGraph, ReclaimSafe;
      ReclaimAt(t, id, row, y);
      ReclaimAt(t, id, row, t[y].parent.value);
      assert !Served(t', y);
      UnservedIsUnsound(t', y);
    }
  }

  lemma ReclaimStaysSound(t: Table, id: nat, row: Job)
    requires Sound(t) && id in t && ReclaimSafe(t, id)
    requires row.Terminal() && row.parent == t[id].parent && row.deps == t[id].deps
    ensures Sound(ReclaimCascade(t[id := row], id))
  {
    var t' := ReclaimCascade(t[id := row], id);
    ReclaimKeepsGraph(t, id, row);
    SoundIsWired(t);
    hide ReclaimCascade, Sound, Wired, NoneStranded, SameGraph, ReclaimSafe;
    forall y | IsWaiting(t', y)
      ensures IsWaiting(t, y) && t'[y].countdown == t[y].countdown
      ensures forall x: nat | IsActive(t, x) && (t[y].parent == Some(x) || x in t[y].deps) :: IsActive(t', x)
    {
      assert y != id;
      ReclaimKeys(t, id, row, y);
      ReclaimAt(t, id, row, y);
      forall x: nat | IsActive(t, x) && (t[y].parent == Some(x) || x in t[y].deps) ensures IsActive(t', x) {
        ReclaimLosesNothing(t, id, row, y, x);
      }
    }
    ClosedLossStaysSound(t, t');
  }

  lemma ReclaimKeys(t: Table, id: nat, row: Job, y: nat)
    requires id in t && y in ReclaimCascade(t[id := row], id)
    ensures y in t
  {}

  // ---- set to done: barriers are released, children are not -----------------

  /** How many of `ids` are listed in `deps`. */
  function Hits(ids: seq<nat>, deps: seq<nat>): nat {
    if ids == [] then 0
    else Hits(ids[..|ids| - 1], deps) + if ids[|ids| - 1] in deps then 1 else 0
  }

  /** Every waiting child of a job set to done is a barrier that the same press releases. */
  ghost predicate SetDoneSafe(t: Table, ids: seq<nat>) {
    forall y | IsWaiting(t, y) && y !in ids && t[y].parent.Some? && t[y].parent.value in ids ::
      t[y].IsBarrier() && Hits(ids, t[y].deps) >= t[y].countdown
  }

  /** `job` after `hits` of its listed members completed. */
  predicate ReleasedTo(job: Job, hits: nat, job': Job) {
    && job'.parent == job.parent && job'.deps == job.deps && job'.runOnFailure == job.runOnFailure
    && (if job.state != Waiting || hits == 0 then job' == job
        else if hits < job.countdown then job'.state == Waiting && job'.countdown == job.countdown - hits
        else job'.state == if job.runOnFailure then Cancelled else Pending)
  }

  lemma ReleasedOnce(job: Job, hits: nat, job': Job, now: int)
    requires ReleasedTo(job, hits, job')
    ensures job'.state == Waiting ==> ReleasedTo(job, hits + 1, ReleaseRow(job', now))
    ensures job'.state != Waiting ==> ReleasedTo(job, hits + 1, job')
  {}

  lemma {:induction false} ReleaseEachAt(t: Table, ids: seq<nat>, now: int, x: nat)
    requires x in t
    ensures
      var t' := ReleaseEach(t, ids, now);
      x in t' && ReleasedTo(t[x], Hits(ids, t[x].deps), t'[x])
  {
    if ids != [] {
      var front, last := ids[..|ids| - 1], ids[|ids| - 1];
      ReleaseEachAt(t, front, now, x);
      var t' := ReleaseEach(t, front, now);
      assert t'[x].deps == t[x].deps;
      ReleasedOnce(t[x], Hits(front, t[x].deps), t'[x], now);
      hide ReleasedTo, ReleaseRow;
    }
  }

  lemma {:induction false} ReleaseEachKeys(t: Table, ids: seq<nat>, now: int)
    ensures ReleaseEach(t, ids, now).Keys == t.Keys
  {
    if ids != [] {
      ReleaseEachKeys(t, ids[..|ids| - 1], now);
    }
  }

  /** Distinct ids that are all listed leave at least so many fewer members. */
  lemma {:induction false} HitsBound(ids: seq<nat>, deps: seq<nat>, before: set<nat>, after: set<nat>)
    requires Distinct(ids)
    requires forall d | d in before && d !in ids :: d in after
    requires forall d | d in before :: d in deps
    ensures |before| - Hits(ids, deps) <= |after|
  {
    if ids == [] {
      SubsetSize(before, after);
    } else {
      var front, last := ids[..|ids| - 1], ids[|ids| - 1];
      assert forall d :: d in ids <==> d in front || d == last;
      HitsBound(front, deps, before - {last}, after);
    }
  }

  lemma SetDoneAt(t: Table, ids: seq<nat>, now: int, x: nat)
    requires x in t
    ensures
      var t' := SetDoneButton(t, ids, now);
      && x in t' && t'[x].parent == t[x].parent && t'[x].deps == t[x].deps
      && (x in ids ==> t'[x].state == Done)
      && (x !in ids ==> ReleasedTo(t[x], Hits(ids, t[x].deps), t'[x]))
  {
    var done := SetDoneRows(t, (set x | x in ids), now);
    ReleaseEachAt(done, ids, now, x);
  }

  lemma SetDoneKeepsGraph(t: Table, ids: seq<nat>, now: int)
    ensures SameGraph(t, SetDoneButton(t, ids, now))
  {
    ReleaseEachKeys(SetDoneRows(t, (set x | x in ids), now), ids, now);
    forall x | x in t ensures SetDoneButton(t, ids, now)[x].parent == t[x].parent
                           && SetDoneButton(t, ids, now)[x].deps == t[x].deps
    {
      SetDoneAt(t, ids, now, x);
    }
  }

  lemma SetDoneKeepsPlain(t: Table, ids: seq<nat>, now: int, x: nat)
    requires x in t && x !in ids && t[x].deps == [] && IsActive(t, x)
    ensures IsActive(SetDoneButton(t, ids, now), x)
  {
    SetDoneAt(t, ids, now, x);
    NoHits(ids);
  }

  lemma {:induction false} NoHits(ids: seq<nat>)
    ensures Hits(ids, []) == 0
  {
    if ids != [] { NoHits(ids[..|ids| - 1]); }
  }

  lemma SetDoneServes(t: Table, ids: seq<nat>, now: int, y: nat)
    requires Wired(t) && NoneStranded(t) && Distinct(ids) && SetDoneSafe(t, ids)
    requires IsWaiting(SetDoneButton(t, ids, now), y) && y in t
    ensures Served(SetDoneButton(t, ids, now), y)
  {
    var t' := SetDoneButton(t, ids, now);
    SetDoneAt(t, ids, now, y);
    ServedAt(t, y);
    WiredAt(t, y);
    hide SetDoneButton, Wired, NoneStranded;
    if t[y].parent.Some? {
      SetDoneKeepsPlain(t, ids, now, t[y].parent.value);
    }
    if t[y].IsBarrier() {
      var before, after := ActiveMembers(t, t[y].deps), ActiveMembers(t', t[y].deps);
      forall d | d in before && d !in ids ensures d in after {
        SetDoneKeepsPlain(t, ids, now, d);
      }
      HitsBound(ids, t[y].deps, before, after);
    }
  }

  lemma SetDoneStaysSound(t: Table, ids: seq<nat>, now: int)
    requires Sound(t) && Distinct(ids) && SetDoneSafe(t, ids)
    ensures Sound(SetDoneButton(t, ids, now))
  {
    hide *;
    var t' := SetDoneButton(t, ids, now);
    SoundIsWired(t);
    SoundServes(t);
    SetDoneKeepsGraph(t, ids, now);
    forall y | IsWaiting(t', y) ensures y in t' && Served(t', y) {
      GraphBack(t, t', y);
      SetDoneServes(t, ids, now, y);
    }
    SoundFrom(t, t');
  }

  lemma SoundServes(t: Table)
    requires Sound(t)
    ensures NoneStranded(t)
  {}

  /** A child that its parent's press does not release waits under a job that is over. */
  lemma SetDoneLeaves(t: Table, ids: seq<nat>, now: int, y: nat)
    requires NoneStranded(t) && IsWaiting(t, y) && y !in ids
    requires t[y].parent.Some? && t[y].parent.value in ids
    requires !(t[y].IsBarrier() && Hits(ids, t[y].deps) >= t[y].countdown)
    ensures !Sound(SetDoneButton(t, ids, now))
  {
    ServedAt(t, y);
    NoHits(ids);
    SetDoneAt(t, ids, now, y);
    SetDoneAt(t, ids, now, t[y].parent.value);
    hide SetDoneButton, Wired, Hits;
    assert IsWaiting(SetDoneButton(t, ids, now), y);
  }

  /**
   Setting jobs to done strands nobody exactly when none of them has a waiting
   child that the press itself does not release: the children are never promoted.
   */
  lemma SetDoneStrandsExactly(t: Table, ids: seq<nat>, now: int)
    requires Sound(t) && Distinct(ids)
    ensures Sound(SetDoneButton(t, ids, now)) <==> SetDoneSafe(t, ids)
  {
    hide SetDoneButton, Sound;
    SoundServes(t);
    if SetDoneSafe(t, ids) {
      SetDoneStaysSound(t, ids, now);
    } else {
      var y :| && IsWaiting(t, y) && y !in ids && t[y].parent.Some? && t[y].parent.value in ids
               && !(t[y].IsBarrier() && Hits(ids, t[y].deps) >= t[y].countdown);
      SetDoneLeaves(t, ids, now, y);
    }
  }

  lemma GraphBack(t: Table, t': Table, y: nat)
    requires SameGraph(t, t') && IsWaiting(t', y)
    ensures y in t && y in t'
  {}

  lemma SoundFrom(t: Table, t': Table)
    requires Wired(t) && SameGraph(t, t')
    requires forall y | IsWaiting(t', y) :: y in t' && Served(t', y)
    ensures Sound(t')
  {
    SameGraphStaysWired(t, t');
    hide Served, Wired;
  }

  // ---- whole runs -----------------------------------------------------------

  /** What a run must respect: graphs are built well, and the two exact conditions above hold. */
  ghost predicate Guarded(cfg: Config, s: Sys, event: Event) {
    match event
    case Insert(id, req) => WellPlaced(s.rows, id, req)
    case Acquire(_, throttled, _) =>
      forall id | IsNext(cfg, s.rows, s.now, throttled, id) && GivesUpReclaiming(s.rows, id) :: ReclaimSafe(s.rows, id)
    case SetDonePressed(ids) => Distinct(ids) && SetDoneSafe(s.rows, ids)
    case _ => true
  }

  lemma AcquireStaysSound(t: Table, id: nat, worker: nat, now: int)
    requires Sound(t) && id in t && (t[id].state == Pending || t[id].state == Started)
    requires GivesUpReclaiming(t, id) ==> ReclaimSafe(t, id)
    ensures Sound(AcquireRow(t, id, worker, now).0)
  {
    hide Sound, ReclaimSafe, ReclaimCascade;
    if GivesUpReclaiming(t, id) {
      ReclaimStaysSound(t, id, DiedRow(t[id], OrElse(t[id].attempts, 0) + 1, now));
    } else {
      NothingEndsStaysSound(t, AcquireRow(t, id, worker, now).0);
    }
  }

  lemma AcquiresStaysSound(cfg: Config, s: Sys, event: Event, s': Sys)
    requires Sound(s.rows) && Guarded(cfg, s, event) && event.Acquire? && Step(cfg, s, event, s')
    ensures Sound(s'.rows)
  {
    hide Sound, ReclaimSafe, AcquireRow;
    var got :| Acquires(cfg, s.rows, event.who, s.now, event.throttled, s'.rows, got);
    if id :| id in s.rows && IsNext(cfg, s.rows, s.now, event.throttled, id)
             && s'.rows == AcquireRow(s.rows, id, event.who, s.now).0 {
      AcquireStaysSound(s.rows, id, event.who, s.now);
    }
  }

  lemma FinishStaysSound(cfg: Config, t: Table, id: nat, outcome: Outcome, now: int)
    requires Sound(t) && id in t
    ensures Sound(EndAttempt(cfg, t, id, outcome, now))
  {
    hide Sound, Succeed, FailBelow;
    if outcome.Success? {
      SucceedStaysSound(t, id, now);
    } else if GivesUp(cfg, t[id], outcome, now) {
      FailBelowStaysSound(t, id, ExceptionRow(cfg, t[id], outcome, now));
    } else {
      NothingEndsStaysSound(t, t[id := ExceptionRow(cfg, t[id], outcome, now)]);
    }
  }

  lemma QuietStepStaysSound(cfg: Config, s: Sys, event: Event, s': Sys)
    requires Sound(s.rows) && Step(cfg, s, event, s')
    requires event.Heartbeat? || event.HeartbeatAll? || event.Overrun? || event.LetGo?
    ensures Sound(s'.rows)
  {
    hide Sound, PacesAfterTimeout, Backoff;
    NothingEndsStaysSound(s.rows, s'.rows);
  }

  lemma StepStaysSound(cfg: Config, s: Sys, event: Event, s': Sys)
    requires Sound(s.rows) && Guarded(cfg, s, event) && Step(cfg, s, event, s')
    ensures Sound(s'.rows)
  {
    hide Sound, EndAttempt, CancelButton, SetFailedButton, SetDoneButton, RequeueEach, Unlink, Acquires,
         WellPlaced, SetDoneSafe, Beat, BeatAll, HoldAfterTimeout, ClearOwner, NewRow, Reused;
    match event
    case Tick(_) =>
    case Vanish(_) =>
    case Insert(id, req) => EnqueueStaysSound(s.rows, id, req, s.now);
    case Acquire(_, _, _) => AcquiresStaysSound(cfg, s, event, s');
    case Finish(a, outcome) => FinishStaysSound(cfg, s.rows, s.attempts[a].job, outcome, s.now);
    case CancelPressed(ids) => CancelStaysSound(s.rows, (set x | x in ids), s.now);
    case SetFailedPressed(ids) => SetFailedStaysSound(s.rows, ids, s.now);
    case SetDonePressed(ids) => SetDoneStaysSound(s.rows, ids, s.now);
    case RequeuePressed(ids) => RequeueStaysSound(s.rows, ids);
    case Autovacuum(cutoff) => UnlinkStaysSound(s.rows, ExpiredIds(s.rows, cutoff));
    case _ => QuietStepStaysSound(cfg, s, event, s');
  }

  /** No job is ever stranded: in every state of a guarded run each waiting job waits for work that can happen. */
  lemma {:induction false} NoJobIsStranded(cfg: Config, states: seq<Sys>, events: seq<Event>, i: nat)
    requires IsRun(cfg, states, events) && i < |states|
    requires Sound(states[0].rows)
    requires forall k | 0 <= k < |events| :: Guarded(cfg, states[k], events[k])
    ensures Sound(states[i].rows)
    decreases i
  {
    hide Step, Guarded, Sound;
    if i > 0 {
      NoJobIsStranded(cfg, states, events, i - 1);
      StepStaysSound(cfg, states[i - 1], events[i - 1], states[i]);
    }
  }

  /** A queue that has drained holds no waiting job: whatever is left has ended. */
  lemma DrainedQueueIsSettled(cfg: Config, states: seq<Sys>, events: seq<Event>, i: nat)
    requires IsRun(cfg, states, events) && i < |states|
    requires states[0].rows == map[]
    requires forall k | 0 <= k < |events| :: Guarded(cfg, states[k], events[k])
    requires forall x | x in states[i].rows :: !Runnable(states[i].rows, x)
    ensures forall y | y in states[i].rows :: states[i].rows[y].Terminal()
  {
    assert Sound(states[0].rows);
    hide Step, Guarded, Sound;
    NoJobIsStranded(cfg, states, events, i);
    DrainedMeansSettled(states[i].rows);
  }
}
