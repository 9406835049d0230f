/** Small concrete runs and rows on which the failing side of an exact condition is reached. */
module Witnesses {
  import opened JobTable
  import opened Outcomes
  import opened Intake
  import opened WorkerRows
  import opened Settling
  import opened Protocol
  import opened Stranding
  import opened StrandingRuns
  import opened Barriers
  import opened BadWiring
  import opened CascadeLaws

  const DEFAULTS := Config(60, 3600, 5, 3600, map[])
  const EMPTY := Sys(map[], 0, map[])

  function Plain(parent: Option<nat>, deps: seq<nat>, maxRetries: int): Request {
    Request(None, parent, deps, false, None, None, None, Some(maxRetries), None)
  }

  lemma PlainIsNew(t: Table, parent: Option<nat>, deps: seq<nat>, maxRetries: int, now: int)
    ensures !Reused(t, NewRow(Plain(parent, deps, maxRetries), now))
  {}

  /** `chain(0, .., n - 1)`, all rows just enqueued at time 0. */
  function ChainOf(n: nat, maxRetries: int): Table {
    if n == 0 then map[]
    else ChainOf(n - 1, maxRetries)[n - 1 := NewRow(LinkRequest(n - 1, maxRetries), 0)]
  }

  function LinkRequest(n: nat, maxRetries: int): Request {
    Plain(if n == 0 then None else Some(n - 1), [], maxRetries)
  }

  lemma {:induction false} ChainIs(n: nat, maxRetries: int)
    ensures forall x: nat :: x in ChainOf(n, maxRetries) <==> x < n
    ensures forall x: nat | x < n :: ChainOf(n, maxRetries)[x] == NewRow(LinkRequest(x, maxRetries), 0)
  {
    if n > 0 { ChainIs(n - 1, maxRetries); }
    hide NewRow, LinkRequest;
  }

  function Filled(n: nat, maxRetries: int): Sys { Sys(ChainOf(n, maxRetries), 0, map[]) }

  lemma LinkStep(n: nat, maxRetries: int)
    ensures Step(DEFAULTS, Filled(n, maxRetries), Insert(n, LinkRequest(n, maxRetries)), Filled(n + 1, maxRetries))
  {
    ChainIs(n, maxRetries);
    PlainIsNew(ChainOf(n, maxRetries), if n == 0 then None else Some(n - 1), [], maxRetries, 0);
  }

  /** The chain with `head` as its first row. */
  function Headed(n: nat, maxRetries: int, head: Job, now: int, attempts: map<nat, Attempt>): Sys {
    Sys(ChainOf(n, maxRetries)[0 := head], now, attempts)
  }

  /** The head is pending, or started and silent; it can be taken. */
  predicate Takeable(head: Job, now: int) {
    && head.channel == Some("root") && head.scheduledAt.None?
    && (head.state == Pending || Stale(DEFAULTS, head, now))
  }

  lemma HeadIsNext(n: nat, maxRetries: int, head: Job, now: int, attempts: map<nat, Attempt>)
    requires Takeable(head, now) && n > 0
    ensures IsNext(DEFAULTS, Headed(n, maxRetries, head, now, attempts).rows, now, {}, 0)
  {
    var t := Headed(n, maxRetries, head, now, attempts).rows;
    ChainIs(n, maxRetries);
    assert forall x | x in t && x != 0 :: t[x].state == Waiting;
    assert FreshIn(DEFAULTS, t, "root", now) == {};
  }

  lemma TakeStep(n: nat, maxRetries: int, head: Job, now: int, attempts: map<nat, Attempt>, who: nat, slot: nat)
    requires Takeable(head, now) && n > 0 && slot !in attempts
    requires AcquiredRow(head, who, now).state == Started
    ensures Step(DEFAULTS, Headed(n, maxRetries, head, now, attempts), Acquire(who, {}, slot),
                 Headed(n, maxRetries, AcquiredRow(head, who, now), now, attempts[slot := Attempt(0, who, false)]))
  {
    var s := Headed(n, maxRetries, head, now, attempts);
    var s' := Headed(n, maxRetries, AcquiredRow(head, who, now), now, attempts[slot := Attempt(0, who, false)]);
    HeadIsNext(n, maxRetries, head, now, attempts);
    hide IsNext;
    assert s'.rows == s.rows[0 := AcquiredRow(head, who, now)];
    assert s'.rows == AcquireRow(s.rows, 0, who, now).0 && AcquireRow(s.rows, 0, who, now).1;
    assert Acquires(DEFAULTS, s.rows, who, now, {}, s'.rows, Some(0));
  }

  lemma GiveUpStep(n: nat, maxRetries: int, head: Job, now: int, attempts: map<nat, Attempt>, who: nat, slot: nat)
    requires Takeable(head, now) && n > 0 && slot !in attempts && head.state == Started
    requires Exhausted(head.maxRetries, OrElse(head.attempts, 0) + 1)
    ensures
      var rows := Headed(n, maxRetries, head, now, attempts).rows;
      var dead := ReclaimCascade(rows[0 := DiedRow(head, OrElse(head.attempts, 0) + 1, now)], 0);
      Step(DEFAULTS, Sys(rows, now, attempts), Acquire(who, {}, slot), Sys(dead, now, attempts))
  {
    var rows := Headed(n, maxRetries, head, now, attempts).rows;
    var dead := ReclaimCascade(rows[0 := DiedRow(head, OrElse(head.attempts, 0) + 1, now)], 0);
    HeadIsNext(n, maxRetries, head, now, attempts);
    hide IsNext, ReclaimCascade;
    assert AcquireRow(rows, 0, who, now) == (dead, false);
    assert Acquires(DEFAULTS, rows, who, now, {}, dead, None);
  }

  // ---- set to done ----------------------------------------------------------

  lemma SetDoneLeavesSecond(head: Job, now: int, attempts: map<nat, Attempt>)
    ensures
      var t := Headed(2, 5, head, now, attempts).rows;
      var t' := SetDoneButton(t, [0], now);
      !SetDoneSafe(t, [0]) && 1 in t' && IsWaiting(t', 1) && !Served(t', 1)
  {
    var t := Headed(2, 5, head, now, attempts).rows;
    ChainIs(2, 5);
    SetDoneAt(t, [0], now, 0);
    SetDoneAt(t, [0], now, 1);
    NoHits([0]);
    hide SetDoneButton, ChainOf, Hits;
    assert IsWaiting(t, 1);
  }

  lemma Starts(s: Sys)
    ensures IsRun(DEFAULTS, [s], [])
  {}

  lemma GoesOn(states: seq<Sys>, events: seq<Event>, event: Event, s': Sys)
    requires IsRun(DEFAULTS, states, events) && states != [] && Step(DEFAULTS, states[|states| - 1], event, s')
    ensures IsRun(DEFAULTS, states + [s'], events + [event])
  {
    hide Step;
    var states', events' := states + [s'], events + [event];
    forall i | 0 <= i < |events'| ensures Step(DEFAULTS, states'[i], events'[i], states'[i + 1]) {
      if i < |events| { assert events'[i] == events[i] && states'[i] == states[i] && states'[i + 1] == states[i + 1]; }
    }
  }

  /** The chain of `n` jobs is enqueued link by link. */
  lemma {:induction false} Enqueued(n: nat, maxRetries: int) returns (states: seq<Sys>, events: seq<Event>)
    ensures IsRun(DEFAULTS, states, events) && |events| == n && |states| == n + 1
    ensures states[0] == EMPTY && states[n] == Filled(n, maxRetries)
    ensures forall k | 0 <= k < n :: events[k].Insert?
  {
    if n == 0 {
      states, events := [EMPTY], [];
      Starts(EMPTY);
    } else {
      states, events := Enqueued(n - 1, maxRetries);
      hide Step, Filled, LinkRequest;
      LinkStep(n - 1, maxRetries);
      var event := Insert(n - 1, LinkRequest(n - 1, maxRetries));
      GoesOn(states, events, event, Filled(n, maxRetries));
      states, events := states + [Filled(n, maxRetries)], events + [event];
    }
  }

  lemma FilledIsHeaded(n: nat, maxRetries: int)
    requires n > 0
    ensures Filled(n, maxRetries) == Headed(n, maxRetries, NewRow(LinkRequest(0, maxRetries), 0), 0, map[])
  {
    ChainIs(n, maxRetries);
  }

  lemma PressStep(s: Sys)
    requires 0 in s.rows
    ensures Step(DEFAULTS, s, SetDonePressed([0]), s.(rows := SetDoneButton(s.rows, [0], s.now)))
  {
    hide SetDoneButton;
  }

  /**
   Two linked jobs are enqueued, the first is started, and an operator sets it
   to done: the second goes on waiting under a job that is over.
   */
  lemma SetDoneStrands() returns (states: seq<Sys>, events: seq<Event>)
    ensures IsRun(DEFAULTS, states, events) && |states| == |events| + 1 == 5 && states[0] == EMPTY
    ensures events[0].Insert? && events[1].Insert? && events[2].Acquire? && events[3] == SetDonePressed([0])
    ensures !SetDoneSafe(states[3].rows, [0])
    ensures 1 in states[4].rows && IsWaiting(states[4].rows, 1) && !Served(states[4].rows, 1)
  {
    hide *;
    var head: Job, attempts: map<nat, Attempt>;
    states, events, head, attempts := FirstStarted();
    var s3 := states[3];
    var s4 := s3.(rows := SetDoneButton(s3.rows, [0], s3.now));
    HeadedIs(2, 5, head, 0, attempts);
    PressStep(s3);
    GoesOn(states, events, SetDonePressed([0]), s4);
    SetDoneLeavesSecond(head, 0, attempts);
    states, events := states + [s4], events + [SetDonePressed([0])];
  }

  lemma HeadStarts()
    ensures
      var head := NewRow(LinkRequest(0, 5), 0);
      Takeable(head, 0) && AcquiredRow(head, 7, 0).state == Started
  {}

  lemma FirstStarted() returns (states: seq<Sys>, events: seq<Event>, head: Job, attempts: map<nat, Attempt>)
    ensures IsRun(DEFAULTS, states, events) && |states| == |events| + 1 == 4 && states[0] == EMPTY
    ensures events[0].Insert? && events[1].Insert? && events[2].Acquire?
    ensures states[3] == Headed(2, 5, head, 0, attempts)
  {
    hide *;
    HeadStarts();
    var queued := NewRow(LinkRequest(0, 5), 0);
    head, attempts := AcquiredRow(queued, 7, 0), map[][0 := Attempt(0, 7, false)];
    states, events := Enqueued(2, 5);
    FilledIsHeaded(2, 5);
    TakeStep(2, 5, queued, 0, map[], 7, 0);
    GoesOn(states, events, Acquire(7, {}, 0), Headed(2, 5, head, 0, attempts));
    states, events := states + [Headed(2, 5, head, 0, attempts)], events + [Acquire(7, {}, 0)];
  }

  lemma HeadedIs(n: nat, maxRetries: int, head: Job, now: int, attempts: map<nat, Attempt>)
    ensures
      var s := Headed(n, maxRetries, head, now, attempts);
      0 in s.rows && s.now == now && s.attempts == attempts
  {}

  // ---- reclaim --------------------------------------------------------------

  lemma ReclaimLeavesThird(head: Job, row: Job, now: int, attempts: map<nat, Attempt>)
    requires row.state == Failed
    ensures
      var t := Headed(3, 1, head, now, attempts).rows;
      var t' := ReclaimCascade(t[0 := row], 0);
      && !ReclaimSafe(t, 0) && 1 in t' && t'[1].state == Failed
      && 2 in t' && IsWaiting(t', 2) && !Served(t', 2)
  {
    var t := Headed(3, 1, head, now, attempts).rows;
    var t' := ReclaimCascade(t[0 := row], 0);
    ChainIs(3, 1);
    assert t[1].parent == Some(0) && t[2].parent == Some(1) && t[1].deps == [] && t[2].deps == [];
    assert CanFail(t, 1) && IsWaiting(t, 2);
    hide ChainOf, NewRow;
    assert t'[2] == t[2] && t'[1].state == Failed;
  }

  lemma ClockStep(n: nat, maxRetries: int, head: Job, now: int, attempts: map<nat, Attempt>, elapsed: nat)
    ensures Step(DEFAULTS, Headed(n, maxRetries, head, now, attempts), Tick(elapsed),
                 Headed(n, maxRetries, head, now + elapsed, attempts))
  {}

  lemma TwoDeaths()
    ensures
      var queued := NewRow(LinkRequest(0, 1), 0);
      var first := AcquiredRow(queued, 7, 0);
      var head := AcquiredRow(first, 8, 61);
      && Takeable(queued, 0) && Takeable(first, 61) && Takeable(head, 122)
      && first.state == Started && head.state == Started && head.maxRetries == Some(1) && head.attempts == Some(1)
  {}

  /** A job with a budget of one whose worker has died twice. */
  lemma DiesTwice() returns (states: seq<Sys>, events: seq<Event>, head: Job, attempts: map<nat, Attempt>)
    ensures IsRun(DEFAULTS, states, events) && |states| == |events| + 1 == 8 && states[0] == EMPTY
    ensures forall k | 0 <= k < |events| :: events[k].Insert? || events[k].Acquire? || events[k].Tick?
    ensures states[7] == Headed(3, 1, head, 122, attempts) && Takeable(head, 122) && head.state == Started
    ensures head.maxRetries == Some(1) && head.attempts == Some(1) && 2 !in attempts
  {
    hide *;
    var queued := NewRow(LinkRequest(0, 1), 0);
    var first := AcquiredRow(queued, 7, 0);
    head := AcquiredRow(first, 8, 61);
    TwoDeaths();
    var one: map<nat, Attempt> := map[][0 := Attempt(0, 7, false)];
    attempts := one[1 := Attempt(0, 8, false)];
    states, events := Enqueued(3, 1);
    FilledIsHeaded(3, 1);
    TakeStep(3, 1, queued, 0, map[], 7, 0);
    GoesOn(states, events, Acquire(7, {}, 0), Headed(3, 1, first, 0, one));
    states, events := states + [Headed(3, 1, first, 0, one)], events + [Acquire(7, {}, 0)];
    ClockStep(3, 1, first, 0, one, 61);
    GoesOn(states, events, Tick(61), Headed(3, 1, first, 61, one));
    states, events := states + [Headed(3, 1, first, 61, one)], events + [Tick(61)];
    TakeStep(3, 1, first, 61, one, 8, 1);
    GoesOn(states, events, Acquire(8, {}, 1), Headed(3, 1, head, 61, attempts));
    states, events := states + [Headed(3, 1, head, 61, attempts)], events + [Acquire(8, {}, 1)];
    ClockStep(3, 1, head, 61, attempts, 61);
    GoesOn(states, events, Tick(61), Headed(3, 1, head, 122, attempts));
    states, events := states + [Headed(3, 1, head, 122, attempts)], events + [Tick(61)];
  }

  lemma OutOfBudget(head: Job)
    requires head.maxRetries == Some(1) && head.attempts == Some(1) && head.state == Started
    ensures Exhausted(head.maxRetries, OrElse(head.attempts, 0) + 1)
    ensures DiedRow(head, OrElse(head.attempts, 0) + 1, 122).state == Failed
    ensures forall attempts :: GivesUpReclaiming(Headed(3, 1, head, 122, attempts).rows, 0)
  {}

  /**
   Three linked jobs with a budget of one: the worker of the first dies twice,
   the reclaim that gives up fails the second by SQL, and the third waits on.
   */
  lemma ReclaimStrands() returns (states: seq<Sys>, events: seq<Event>)
    ensures IsRun(DEFAULTS, states, events) && |states| == |events| + 1 == 9 && states[0] == EMPTY
    ensures forall k | 0 <= k < |events| :: events[k].Insert? || events[k].Acquire? || events[k].Tick?
    ensures GivesUpReclaiming(states[7].rows, 0) && !ReclaimSafe(states[7].rows, 0)
    ensures 1 in states[8].rows && states[8].rows[1].state == Failed
    ensures 2 in states[8].rows && IsWaiting(states[8].rows, 2) && !Served(states[8].rows, 2)
  {
    hide *;
    var head: Job, attempts: map<nat, Attempt>;
    states, events, head, attempts := DiesTwice();
    OutOfBudget(head);
    var row := DiedRow(head, OrElse(head.attempts, 0) + 1, 122);
    GiveUpStep(3, 1, head, 122, attempts, 9, 2);
    ReclaimLeavesThird(head, row, 122, attempts);
    HeadedIs(3, 1, head, 122, attempts);
    var s7 := states[7];
    var s8 := s7.(rows := ReclaimCascade(s7.rows[0 := row], 0));
    GoesOn(states, events, Acquire(9, {}, 2), s8);
    states, events := states + [s8], events + [Acquire(9, {}, 2)];
  }

  /** In the table that reclaim finds, the ORM cascade would have failed the third job as well. */
  lemma SqlDiffers(head: Job, row: Job, now: int, attempts: map<nat, Attempt>)
    requires row.state == Failed
    ensures
      var t := Headed(3, 1, head, now, attempts).rows[0 := row];
      && !OneHopEnough(t, 0)
      && 2 in FailBelow(t, 0) && FailBelow(t, 0)[2].state == Failed
      && 2 in ReclaimCascade(t, 0) && ReclaimCascade(t, 0)[2].state == Waiting
  {
    var t := Headed(3, 1, head, now, attempts).rows[0 := row];
    ChainIs(3, 1);
    assert t[1].parent == Some(0) && t[2].parent == Some(1) && t[1].deps == [] && t[2].deps == [];
    assert CanFail(t, 1) && CanFail(t, 2);
    hide ChainOf, FailBelow;
    FailsWithParent(t, 0, 1);
    hide FailsBelow;
    assert UnderFailure(t, 0, 2);
    FailureExactly(t, 0, 2);
  }

  // ---- timeouts -------------------------------------------------------------

  /** A job that has been tried once: its timeout waits 10 seconds, its failure 20. */
  lemma TimeoutLags(job: Job)
    requires job.state == Started && job.worker == Some(7)
    requires job.attempts == Some(1) && job.maxRetries == Some(5)
    ensures HoldAfterTimeout(DEFAULTS, map[0 := job], 0, 7, 100, 30)[0].scheduledAt == Some(110)
    ensures ExceptionRow(DEFAULTS, job, Generic, 100).scheduledAt == Some(120)
  {
    assert Pow2(0) == 1 && Pow2(1) == 2;
  }

  /** With NULL columns another attempt follows and the timeout does not pace it. */
  lemma NullIsNotPaced(job: Job, maxRetries: Option<int>, now: int)
    requires job.state == Started && job.attempts == None && job.maxRetries == maxRetries
    requires maxRetries == None || maxRetries == Some(1)
    ensures AcquiredRow(job, 7, now).state == Started && !GivesUp(DEFAULTS, job, Generic, now)
    ensures !PacesAfterTimeout(job.maxRetries, job.attempts)
  {}

  // ---- duplicate members ----------------------------------------------------

  /** A barrier that lists its only member twice still waits for one when that member is done. */
  lemma DuplicateWaitsOn(now: int)
    ensures
      var t := map[0 := NewRow(Plain(None, [], 5), now), 1 := NewRow(Plain(None, [0, 0], 5), now)];
      var t' := Succeed(t, 0, now);
      && !Served(t, 1)
      && 0 in t' && t'[0].state == Done && 1 in t' && IsWaiting(t', 1) && t'[1].countdown == 1 && !Served(t', 1)
  {
    var t := map[0 := NewRow(Plain(None, [], 5), now), 1 := NewRow(Plain(None, [0, 0], 5), now)];
    var t' := Succeed(t, 0, now);
    SucceedRoot(t, 0, now, 1);
    SucceedDone(t, 0, now, 0);
    hide Succeed;
    assert ActiveMembers(t, [0, 0]) == {0};
    assert ActiveMembers(t', [0, 0]) == {};
  }

  // ---- retention ------------------------------------------------------------

  /** A job and the one behind it fail; ten seconds later only the first is old enough to go. */
  lemma SecondIsKept(first: Job, second: Job)
    requires first.state == Failed && first.completedAt == Some(5)
    requires second.state == Waiting && !second.runOnFailure && second.parent == Some(0) && second.completedAt == None
    ensures
      var t := FailBelow(map[0 := first, 1 := second], 0);
      && 1 in t && t[1].state == Failed
      && 0 in ExpiredIds(t, 10) && forall cutoff :: 1 !in ExpiredIds(t, cutoff)
  {
    var t := map[0 := first, 1 := second];
    hide FailBelow, FailsBelow;
    FailureExactly(t, 0, 0);
    FailureExactly(t, 0, 1);
  }

  // ---- what the guard on acquires admits ------------------------------------

  /**
   While a fresh job on its last attempt runs with a chain of two behind it, an
   acquire of an unrelated job is still within Guarded, although failing the
   running one by SQL would not be safe.
   */
  lemma FreshLastAttemptIsNoBar(head: Job, other: Job, now: int, attempts: map<nat, Attempt>)
    requires head.state == Started && head.heartbeat == Some(now) && head.maxRetries == Some(1) && head.attempts == Some(1)
    requires other.state == Pending
    ensures
      var s := Headed(3, 1, head, now, attempts);
      var s' := s.(rows := s.rows[3 := other]);
      && GivesUpReclaiming(s'.rows, 0) && !ReclaimSafe(s'.rows, 0)
      && forall who, slot :: Guarded(DEFAULTS, s', Acquire(who, {}, slot))
  {
    var s := Headed(3, 1, head, now, attempts);
    var s' := s.(rows := s.rows[3 := other]);
    ChainIs(3, 1);
    assert s'.rows[1].parent == Some(0) && s'.rows[2].parent == Some(1) && s'.rows[2].deps == [];
    hide ChainOf, NewRow;
    assert CanFail(s'.rows, 1) && IsWaiting(s'.rows, 2);
    assert !IsNext(DEFAULTS, s'.rows, now, {}, 0);
    assert forall id | GivesUpReclaiming(s'.rows, id) :: id == 0;
  }

  // ---- barriers that are wired to more than their members --------------------

  /** Job 0, a barrier over it of either kind, and a job behind the barrier: `group(a).on_error(chain(x, y))`. */
  function ChainBehindGroup(onError: bool, now: int): Table {
    map[0 := NewRow(Plain(None, [], 5), now),
        1 := NewRow(Plain(None, [0], 5).(runOnFailure := onError), now),
        2 := NewRow(Plain(Some(1), [], 5), now)]
  }

  lemma ChainIsServed(onError: bool, now: int)
    ensures
      var t := ChainBehindGroup(onError, now);
      && t.Keys == {0, 1, 2} && Served(t, 1) && Served(t, 2) && BelowBarrier(t, 1, 2)
      && t[1].deps == [0] && t[1].parent.None? && t[1].state == Waiting && t[1].countdown == 1
      && t[1].runOnFailure == onError
  {
    assert ActiveMembers(ChainBehindGroup(onError, now), [0]) == {0};
  }

  lemma HeardLast(job: Job, ok: bool, now: int)
    requires job.state == Waiting && job.deps == [0] && job.countdown == 1 && job.runOnFailure == ok
    ensures Heard(job, End(0, ok), now).state == if ok then Cancelled else Failed
  {}

  /** The job completes before an on_error barrier, or fails before an on_done one: the last job waits on. */
  lemma ChainBehindGroupWaitsOn(onError: bool, now: int)
    ensures
      var t := ChainBehindGroup(onError, now);
      var t' := PlayOne(t, End(0, onError), now);
      && Served(t, 1) && Served(t, 2) && t'.Keys == {0, 1, 2}
      && t'[1].state == (if onError then Cancelled else Failed)
      && IsWaiting(t', 2) && !Served(t', 2)
  {
    hide *;
    ChainIsServed(onError, now);
    var t := ChainBehindGroup(onError, now);
    PlayedFirst(t, onError, now);
    BarrierChildServedExactly(t, 0, 1, 2, EndRow(t[0], Failed, now), now);
    PlayOneAt(t, End(0, onError), now, 1);
    HeardLast(t[1], onError, now);
  }

  /** A job, a member of either kind behind it, and the barrier over the member: `d.on_done(group(a).on_done(c))`. */
  function GroupBehindJob(onError: bool, now: int): Table {
    map[0 := NewRow(Plain(None, [], 5), now),
        1 := NewRow(Plain(Some(0), [], 5).(runOnFailure := onError), now),
        2 := NewRow(Plain(None, [1], 5), now)]
  }

  lemma GroupIsServed(onError: bool, now: int)
    ensures
      var t := GroupBehindJob(onError, now);
      && 0 in t && 1 in t && 2 in t && Served(t, 1) && Served(t, 2) && TightOver(t, 2, 1) && t[2].deps == [1]
      && IsWaiting(t, 1) && t[1].parent == Some(0) && t[1].runOnFailure == onError
  {
    assert ActiveMembers(GroupBehindJob(onError, now), [1]) == {1};
  }

  /** The job completes before an on_error member, or fails before an on_done one: the barrier waits on. */
  lemma GroupBehindJobWaitsOn(onError: bool, now: int)
    ensures
      var t := GroupBehindJob(onError, now);
      var t' := PlayOne(t, End(0, onError), now);
      && Served(t, 1) && Served(t, 2) && 2 in t' && IsWaiting(t', 2) && !Served(t', 2)
  {
    hide *;
    GroupIsServed(onError, now);
    var t := GroupBehindJob(onError, now);
    PlayedFirst(t, onError, now);
    MemberWithParentServedExactly(t, 0, 1, 2, EndRow(t[0], Failed, now), now);
    WaitingIsIn(PlayOne(t, End(0, onError), now), 2);
  }

  /** A job, a barrier of either kind over it, and a barrier over that one. */
  function GroupBehindGroup(onError: bool, now: int): Table {
    map[0 := NewRow(Plain(None, [], 5), now),
        1 := NewRow(Plain(None, [0], 5).(runOnFailure := onError), now),
        2 := NewRow(Plain(None, [1], 5), now)]
  }

  lemma GroupsAreServed(onError: bool, now: int)
    ensures
      var t := GroupBehindGroup(onError, now);
      && 0 in t && 1 in t && 2 in t && Served(t, 1) && Served(t, 2) && TightOver(t, 2, 1) && IsWaiting(t, 1)
      && t[1].deps == [0] && t[2].deps == [1] && t[1].parent.None? && t[1].countdown == 1
      && t[1].runOnFailure == onError
  {
    var t := GroupBehindGroup(onError, now);
    assert ActiveMembers(t, [0]) == {0} && ActiveMembers(t, [1]) == {1};
  }

  lemma PlayedFirst(t: Table, ok: bool, now: int)
    requires 0 in t
    ensures PlayOne(t, End(0, ok), now) ==
      if ok then Succeed(t, 0, now) else FailBelow(t[0 := EndRow(t[0], Failed, now)], 0)
  {
    hide Succeed, FailBelow, EndRow;
  }

  lemma GroupBehindGroupWaitsOn(onError: bool, now: int)
    ensures
      var t := GroupBehindGroup(onError, now);
      var t' := PlayOne(t, End(0, onError), now);
      && Served(t, 1) && Served(t, 2) && 2 in t' && IsWaiting(t', 2) && !Served(t', 2)
  {
    hide *;
    GroupsAreServed(onError, now);
    var t := GroupBehindGroup(onError, now);
    PlayedFirst(t, onError, now);
    BarrierOfBarrierServedExactly(t, 0, 1, 2, EndRow(t[0], Failed, now), now);
    WaitingIsIn(PlayOne(t, End(0, onError), now), 2);
  }
}
