/** The retry budget and the backoff curve, over whole runs. */
module Retry {
  import opened JobTable
  import opened Intake
  import opened WorkerRows
  import opened Settling
  import opened Protocol
  import opened Steps
  import opened Lease

  // ---- one decision, three places -------------------------------------------

  /**
   Reclaim, `handle_exception` and the timeout's pacing guard decide whether
   another attempt will follow.  The first two always agree; the third agrees
   with them exactly when `max_retries` is not NULL and a NULL `attempts` does
   not meet a budget of 1.
   */
  lemma DecisionsAgreeExactly(cfg: Config, job: Job, now: int)
    ensures
      var again := !Exhausted(job.maxRetries, OrElse(job.attempts, 0) + 1);
      && GivesUp(cfg, job, Generic, now) == !again
      && (job.state == Started ==> forall worker :: (AcquiredRow(job, worker, now).state == Started) == again)
      && ((PacesAfterTimeout(job.maxRetries, job.attempts) == again) <==>
            (job.maxRetries.Some? && (job.attempts.Some? || job.maxRetries.value != 1)))
  {
    assert forall worker :: job.state == Started ==>
      AcquiredRow(job, worker, now).state == if Exhausted(job.maxRetries, OrElse(job.attempts, 0) + 1) then Failed else Started;
  }

  // ---- counting -------------------------------------------------------------

  /** A started row that an acquire rewrites is being reclaimed. */
  predicate Reclaims(s: Sys, event: Event, s': Sys, id: nat) {
    && event.Acquire? && id in s.rows && s.rows[id].state == Started
    && id in s'.rows && s'.rows[id] != s.rows[id]
  }

  predicate Ends(s: Sys, event: Event, id: nat) {
    event.Finish? && event.attempt in s.attempts && s.attempts[event.attempt].job == id
  }

  /** A generic failure or a reclaim of job `id`. */
  predicate Counts(s: Sys, event: Event, s': Sys, id: nat) {
    (Ends(s, event, id) && event.outcome.Generic?) || Reclaims(s, event, s', id)
  }

  ghost function Counted(states: seq<Sys>, events: seq<Event>, n: nat, id: nat): nat
    requires n < |states| && n <= |events|
  {
    if n == 0 then 0
    else Counted(states, events, n - 1, id) + if Counts(states[n - 1], events[n - 1], states[n], id) then 1 else 0
  }

  lemma CountedNext(states: seq<Sys>, events: seq<Event>, n: nat, id: nat)
    requires n + 1 < |states| && n + 1 <= |events|
    ensures Counted(states, events, n + 1, id) ==
      Counted(states, events, n, id) + if Counts(states[n], events[n], states[n + 1], id) then 1 else 0
  {}

  predicate Requeues(event: Event, id: nat) { event.RequeuePressed? && id in event.ids }

  /** Retryable errors count attempts too, but check no budget. */
  predicate CountsUnchecked(s: Sys, event: Event, id: nat) {
    Ends(s, event, id) && event.outcome.Retryable? && !event.outcome.ignoreRetry
  }

  /** What one step does to the budget of `id`. */
  ghost predicate BudgetStep(s: Sys, event: Event, s': Sys, id: nat)
    requires id in s.rows && id in s'.rows
  {
    var job, job' := s.rows[id], s'.rows[id];
    && job'.maxRetries == job.maxRetries
    && (if Counts(s, event, s', id) then
          && job'.attempts == Some(OrElse(job.attempts, 0) + 1)
          && (job'.state == Failed <==> Exhausted(job.maxRetries, OrElse(job.attempts, 0) + 1))
        else if CountsUnchecked(s, event, id) then job'.attempts == Some(OrElse(job.attempts, 0) + 1)
        else job'.attempts == job.attempts)
  }

  lemma QuietStepKeepsBudget(cfg: Config, s: Sys, event: Event, s': Sys, id: nat)
    requires Step(cfg, s, event, s') && id in s.rows && id in s'.rows
    requires event.Tick? || event.Insert? || event.Heartbeat? || event.HeartbeatAll? || event.Overrun?
          || event.LetGo? || event.Vanish?
    ensures s'.rows[id].attempts == s.rows[id].attempts && s'.rows[id].maxRetries == s.rows[id].maxRetries
  {}

  lemma AcquireSpendsBudget(cfg: Config, s: Sys, event: Event, s': Sys, id: nat)
    requires Step(cfg, s, event, s') && event.Acquire? && id in s.rows && id in s'.rows
    ensures BudgetStep(s, event, s', id)
  {
    hide Step;
    var taken := AcquireTakes(cfg, s, event, s');
    hide Eligible;
    if taken.Some? && taken.value != id {
      assert Settles(s.rows[id], s'.rows[id]);
    }
  }

  lemma EndedRowSpends(cfg: Config, job: Job, outcome: Outcome, now: int)
    ensures
      var row := EndedRow(cfg, job, outcome, now);
      && row.maxRetries == job.maxRetries
      && row.attempts ==
           (if outcome.Generic? || (outcome.Retryable? && !outcome.ignoreRetry)
            then Some(OrElse(job.attempts, 0) + 1) else job.attempts)
      && (outcome.Generic? ==> (row.state == Failed <==> Exhausted(job.maxRetries, OrElse(job.attempts, 0) + 1)))
  {}

  lemma FinishSpendsBudget(cfg: Config, s: Sys, event: Event, s': Sys, id: nat)
    requires Step(cfg, s, event, s') && event.Finish? && id in s.rows && id in s'.rows
    ensures BudgetStep(s, event, s', id)
  {
    hide Step, EndedRow, Writes, Exhausted, OrElse;
    FinishFinds(cfg, s, event, s');
    FinishWrites(cfg, s, event, s');
    var job := s.attempts[event.attempt].job;
    WritesAt(s.rows, job, EndedRow(cfg, s.rows[job], event.outcome, s.now), s'.rows, id);
    EndedRowSpends(cfg, s.rows[job], event.outcome, s.now);
  }

  lemma StepSpendsBudget(cfg: Config, s: Sys, event: Event, s': Sys, id: nat)
    requires Step(cfg, s, event, s') && id in s.rows && id in s'.rows && !Requeues(event, id)
    ensures BudgetStep(s, event, s', id)
  {
    if event.RequeuePressed? {
      RequeueLeavesOthers(s.rows, event.ids, id);
    } else {
      hide Step;
      if event.Acquire? {
        AcquireSpendsBudget(cfg, s, event, s', id);
      } else if event.Finish? {
        FinishSpendsBudget(cfg, s, event, s', id);
      } else if event.CancelPressed? || event.SetFailedPressed? || event.SetDonePressed? || event.Autovacuum? {
        ButtonKeepsTerms(cfg, s, event, s');
      } else {
        QuietStepKeepsBudget(cfg, s, event, s', id);
      }
    }
  }

  // ---- the budget over a run ------------------------------------------------

  /** Job `id` exists throughout, is never requeued, and has a positive budget. */
  ghost predicate Budgeted(cfg: Config, states: seq<Sys>, events: seq<Event>, id: nat, m: int) {
    && IsRun(cfg, states, events)
    && (forall k | 0 <= k < |states| :: id in states[k].rows)
    && (forall k | 0 <= k < |events| :: !Requeues(events[k], id))
    && states[0].rows[id].attempts == Some(0) && states[0].rows[id].maxRetries == Some(m) && m > 0
  }

  /** `count` failures so far, on a row that has not failed. */
  predicate WithinBudget(job: Job, count: int, m: int) {
    && job.maxRetries == Some(m) && job.attempts.Some?
    && count <= m && count <= job.attempts.value
  }

  lemma BudgetAfterStep(s: Sys, event: Event, s': Sys, id: nat, m: int, count: nat)
    requires id in s.rows && id in s'.rows && BudgetStep(s, event, s', id)
    requires WithinBudget(s.rows[id], count, m) && m > 0
    ensures
      var next := count + if Counts(s, event, s', id) then 1 else 0;
      && next <= m + 1
      && (s'.rows[id].state != Failed ==> WithinBudget(s'.rows[id], next, m))
      && (!CountsUnchecked(s, event, id) && s.rows[id].attempts == Some(count) ==>
            s'.rows[id].attempts == Some(next))
      && (Counts(s, event, s', id) && s'.rows[id].state == Failed && s.rows[id].attempts == Some(count) ==>
            next == m + 1)
  {
    hide Counts, CountsUnchecked;
  }

  lemma {:induction false} CountedWithinBudget(
    cfg: Config, states: seq<Sys>, events: seq<Event>, n: nat, id: nat, m: int)
    requires Budgeted(cfg, states, events, id, m) && n < |states|
    requires forall k | 0 <= k <= n :: states[k].rows[id].state != Failed
    ensures WithinBudget(states[n].rows[id], Counted(states, events, n, id), m)
    ensures (forall k | 0 <= k < n :: !CountsUnchecked(states[k], events[k], id)) ==>
      states[n].rows[id].attempts == Some(Counted(states, events, n, id))
  {
    if n > 0 {
      CountedWithinBudget(cfg, states, events, n - 1, id, m);
      assert Step(cfg, states[n - 1], events[n - 1], states[n]);
      assert !Requeues(events[n - 1], id);
      hide Step, Counts, CountsUnchecked, BudgetStep, WithinBudget, Requeues;
      StepSpendsBudget(cfg, states[n - 1], events[n - 1], states[n], id);
      BudgetAfterStep(states[n - 1], events[n - 1], states[n], id, m, Counted(states, events, n - 1, id));
    }
  }

  /**
   The budget: up to and including the step that fails the job, generic
   failures and reclaims together number at most `max_retries` + 1; they
   number exactly that many when one of them is what fails it and no
   retryable error has counted an attempt.
   */
  lemma RetryBudget(cfg: Config, states: seq<Sys>, events: seq<Event>, n: nat, id: nat, m: int)
    requires Budgeted(cfg, states, events, id, m) && n < |events|
    requires forall k | 0 <= k <= n :: states[k].rows[id].state != Failed
    ensures Counted(states, events, n + 1, id) <= m + 1
    ensures
      && states[n + 1].rows[id].state == Failed
      && Counts(states[n], events[n], states[n + 1], id)
      && (forall k | 0 <= k < n :: !CountsUnchecked(states[k], events[k], id))
      ==> Counted(states, events, n + 1, id) == m + 1
  {
    CountedWithinBudget(cfg, states, events, n, id, m);
    assert Step(cfg, states[n], events[n], states[n + 1]);
    assert !Requeues(events[n], id);
    hide Step, Counts, CountsUnchecked, BudgetStep, WithinBudget, Requeues;
    StepSpendsBudget(cfg, states[n], events[n], states[n + 1], id);
    BudgetAfterStep(states[n], events[n], states[n + 1], id, m, Counted(states, events, n, id));
  }

  // ---- backoff --------------------------------------------------------------

  lemma {:induction false} Pow2Monotone(a: nat, b: nat)
    requires a <= b
    ensures 1 <= Pow2(a) <= Pow2(b)
    decreases b
  {
    if a < b {
      Pow2Monotone(a, b - 1);
    } else if a > 0 {
      Pow2Monotone(a - 1, b - 1);
    }
  }

  /** The curve never falls and stays between 10 seconds and the cap. */
  lemma BackoffCurve(a: int, b: int, cap: nat)
    requires a <= b && cap >= 10
    ensures 10 <= Backoff(a, cap) <= Backoff(b, cap) <= cap
  {
    Pow2Monotone(if a <= 1 then 0 else a - 1, if b <= 1 then 0 else b - 1);
  }

  function BackoffSum(m: nat, cap: nat): int {
    if m == 0 then 0 else BackoffSum(m - 1, cap) + Backoff(m, cap)
  }

  lemma BackoffSumNext(m: nat, cap: nat)
    ensures BackoffSum(m + 1, cap) == BackoffSum(m, cap) + Backoff(m + 1, cap)
  {}

  lemma BackoffSumFirst(cap: nat)
    ensures BackoffSum(1, cap) == Backoff(1, cap)
  {
    assert BackoffSum(0, cap) == 0;
  }

  /** While uncapped, m failures are spaced over 10 * (2^m - 1) seconds. */
  lemma {:induction false} BackoffSumUncapped(m: nat, cap: nat)
    requires m > 0 ==> 10 * Pow2(m - 1) <= cap
    ensures BackoffSum(m, cap) == 10 * (Pow2(m) - 1)
  {
    if m > 0 {
      if m > 1 { Pow2Monotone(m - 2, m - 1); }
      BackoffSumUncapped(m - 1, cap);
    }
  }

  lemma {:induction false} BackoffStalls(a: int, cap: nat)
    requires cap >= 10
    ensures Backoff(a, cap) == Backoff(a + 1, cap) <==> a <= 0 || 10 * Pow2(a - 1) >= cap
  {
    if a > 0 { Pow2Monotone(0, a - 1); }
  }

  /**
   A timeout paces the next attempt like a generic failure of the same row
   exactly while no attempt has been counted or the curve has reached the cap;
   in between it is one step behind, since it does not count itself.
   */
  lemma TimeoutPacesAlikeExactly(cfg: Config, job: Job, now: int, seconds: nat, worker: nat)
    requires cfg.Valid() && job.state == Started && job.worker == Some(worker)
    requires PacesAfterTimeout(job.maxRetries, job.attempts)
    ensures !GivesUp(cfg, job, Generic, now)
    ensures
      HoldAfterTimeout(cfg, map[0 := job], 0, worker, now, seconds)[0].scheduledAt
        == ExceptionRow(cfg, job, Generic, now).scheduledAt
      <==> job.attempts.None? || job.attempts.value <= 0 || 10 * Pow2(job.attempts.value - 1) >= cfg.maxBackoff
  {
    BackoffStalls(OrElse(job.attempts, 0), cfg.maxBackoff);
    assert Pow2(0) == 1;
    hide Pow2;
  }

  /** Nothing but generic failures (and success) happens to job `id`'s attempts. */
  ghost predicate OnlyGenericFailures(s: Sys, event: Event, s': Sys, id: nat) {
    && (Ends(s, event, id) ==> event.outcome.Generic? || event.outcome.Success?)
    && !Reclaims(s, event, s', id)
    && !Requeues(event, id)
    && !(event.Overrun? && event.attempt in s.attempts && s.attempts[event.attempt].job == id)
  }

  /** At most one attempt runs job `id`, and while it does the row is not up for another. */
  ghost predicate RunsOnce(s: Sys, id: nat) {
    && id in s.rows
    && (forall a, b | a in s.attempts && b in s.attempts && s.attempts[a].job == id && s.attempts[b].job == id :: a == b)
    && (RunsAlready(s, id) ==> s.rows[id].state != Pending && s.rows[id].state != Waiting)
  }

  lemma AcquireRunsOnce(cfg: Config, s: Sys, event: Event, s': Sys, id: nat)
    requires Step(cfg, s, event, s') && event.Acquire? && RunsOnce(s, id) && id in s'.rows
    requires !Reclaims(s, event, s', id)
    ensures RunsOnce(s', id)
  {
    hide Step;
    var taken := AcquireTakes(cfg, s, event, s');
    hide Running, Limit, Exhausted;
    if taken.Some? {
      WritesAt(s.rows, taken.value, AcquiredRow(s.rows[taken.value], event.who, s.now), s'.rows, id);
      hide Writes;
      if taken.value == id {
        assert forall a | a in s.attempts :: s.attempts[a].job != id;
      }
    }
  }

  lemma FinishRunsOnce(cfg: Config, s: Sys, event: Event, s': Sys, id: nat)
    requires Step(cfg, s, event, s') && event.Finish? && RunsOnce(s, id) && id in s'.rows
    ensures RunsOnce(s', id)
    ensures Ends(s, event, id) ==> !RunsAlready(s', id)
  {
    FinishFinds(cfg, s, event, s');
    FinishWrites(cfg, s, event, s');
    assert s'.attempts == s.attempts - {event.attempt};
    hide Step;
    var job := s.attempts[event.attempt].job;
    WritesAt(s.rows, job, EndedRow(cfg, s.rows[job], event.outcome, s.now), s'.rows, id);
    hide Writes, EndedRow;
  }

  lemma PressRunsOnce(cfg: Config, s: Sys, event: Event, s': Sys, id: nat)
    requires Step(cfg, s, event, s') && RunsOnce(s, id) && id in s'.rows
    requires event.CancelPressed? || event.SetFailedPressed? || event.SetDonePressed? || event.Autovacuum?
    ensures RunsOnce(s', id)
  {
    hide Step;
    ButtonKeepsTerms(cfg, s, event, s');
    assert SameTerms(s.rows[id], s'.rows[id]);
  }

  /** Unless the job is requeued or reclaimed, it goes on running once at a time, whatever else is done to it. */
  lemma StepRunsOnce(cfg: Config, s: Sys, event: Event, s': Sys, id: nat)
    requires Step(cfg, s, event, s') && RunsOnce(s, id) && id in s'.rows
    requires !Requeues(event, id) && !Reclaims(s, event, s', id)
    ensures RunsOnce(s', id)
  {
    if event.RequeuePressed? {
      RequeueLeavesOthers(s.rows, event.ids, id);
    } else if event.Acquire? {
      AcquireRunsOnce(cfg, s, event, s', id);
    } else if event.Finish? {
      FinishRunsOnce(cfg, s, event, s', id);
    } else if event.CancelPressed? || event.SetFailedPressed? || event.SetDonePressed? || event.Autovacuum? {
      PressRunsOnce(cfg, s, event, s', id);
    }
  }

  /**
   `first` plus the backoffs so far has passed if an attempt runs, and will have
   before the row can be taken again.
   */
  ghost predicate Spaced(s: Sys, id: nat, attempts: nat, until: int)
    requires id in s.rows
  {
    && s.rows[id].attempts == Some(attempts)
    && s.rows[id].state != Waiting
    && (s.rows[id].state == Pending ==> s.rows[id].scheduledAt.Some? && s.rows[id].scheduledAt.value >= until)
    && (RunsAlready(s, id) ==> s.now >= until)
  }

  lemma FailureSpaces(cfg: Config, s: Sys, event: Event, s': Sys, id: nat, attempts: nat, until: int)
    requires Step(cfg, s, event, s') && RunsOnce(s, id) && id in s'.rows
    requires Ends(s, event, id) && event.outcome.Generic?
    requires s.rows[id].attempts == Some(attempts) && s.now >= until
    ensures Spaced(s', id, attempts + 1, until + Backoff(attempts + 1, cfg.maxBackoff))
  {
    FinishRunsOnce(cfg, s, event, s', id);
    hide Step, Backoff, Writes, RunsOnce, RunsAlready;
    FinishFinds(cfg, s, event, s');
    FinishWrites(cfg, s, event, s');
    WritesAt(s.rows, id, EndedRow(cfg, s.rows[id], event.outcome, s.now), s'.rows, id);
  }

  lemma AcquireStaysSpaced(cfg: Config, s: Sys, event: Event, s': Sys, id: nat, attempts: nat, until: int)
    requires Step(cfg, s, event, s') && event.Acquire? && id in s.rows && id in s'.rows
    requires Spaced(s, id, attempts, until) && !Reclaims(s, event, s', id)
    ensures Spaced(s', id, attempts, until)
  {
    hide Step;
    var taken := AcquireTakes(cfg, s, event, s');
    hide Running, Limit, Exhausted;
    if taken.Some? && taken.value != id {
      assert Settles(s.rows[id], s'.rows[id]);
    }
  }

  lemma FinishStaysSpaced(cfg: Config, s: Sys, event: Event, s': Sys, id: nat, attempts: nat, until: int)
    requires Step(cfg, s, event, s') && event.Finish? && id in s.rows && id in s'.rows
    requires Spaced(s, id, attempts, until)
    requires Ends(s, event, id) ==> event.outcome.Success?
    ensures Spaced(s', id, attempts, until)
  {
    FinishWrites(cfg, s, event, s');
    assert event.attempt in s.attempts && s'.now == s.now;
    hide Step, ExceptionRow;
    if s.attempts[event.attempt].job != id {
      assert Settles(s.rows[id], s'.rows[id]);
    }
  }

  lemma ButtonStaysSpaced(cfg: Config, s: Sys, event: Event, s': Sys, id: nat, attempts: nat, until: int)
    requires Step(cfg, s, event, s') && id in s.rows && id in s'.rows && Spaced(s, id, attempts, until)
    requires event.CancelPressed? || event.SetFailedPressed? || event.SetDonePressed? || event.Autovacuum?
    ensures Spaced(s', id, attempts, until)
  {
    hide Step;
    ButtonKeepsTerms(cfg, s, event, s');
    ButtonStartsNothing(cfg, s, event, s');
  }

  lemma QuietStaysSpaced(cfg: Config, s: Sys, event: Event, s': Sys, id: nat, attempts: nat, until: int)
    requires Step(cfg, s, event, s') && id in s.rows && id in s'.rows && Spaced(s, id, attempts, until)
    requires OnlyGenericFailures(s, event, s', id)
    requires event.Tick? || event.Insert? || event.Heartbeat? || event.HeartbeatAll? || event.Overrun?
          || event.LetGo? || event.Vanish? || event.RequeuePressed?
    ensures Spaced(s', id, attempts, until)
  {
    if event.RequeuePressed? {
      RequeueLeavesOthers(s.rows, event.ids, id);
    }
  }

  lemma StepStaysSpaced(cfg: Config, s: Sys, event: Event, s': Sys, id: nat, attempts: nat, until: int)
    requires Step(cfg, s, event, s') && id in s.rows && id in s'.rows && Spaced(s, id, attempts, until)
    requires OnlyGenericFailures(s, event, s', id) && RunsOnce(s, id)
    ensures
      if Counts(s, event, s', id)
      then s.now >= until && Spaced(s', id, attempts + 1, until + Backoff(attempts + 1, cfg.maxBackoff))
      else Spaced(s', id, attempts, until)
  {
    if Counts(s, event, s', id) {
      FailureSpaces(cfg, s, event, s', id, attempts, until);
    } else {
      hide Step, Spaced, RunsOnce;
      if event.Acquire? {
        AcquireStaysSpaced(cfg, s, event, s', id, attempts, until);
      } else if event.Finish? {
        FinishStaysSpaced(cfg, s, event, s', id, attempts, until);
      } else if event.CancelPressed? || event.SetFailedPressed? || event.SetDonePressed? || event.Autovacuum? {
        ButtonStaysSpaced(cfg, s, event, s', id, attempts, until);
      } else {
        QuietStaysSpaced(cfg, s, event, s', id, attempts, until);
      }
    }
  }

  /**
   A run from a state in which job `id` does not run, and in which its attempts
   only ever succeed or fail generically.  It may be cancelled or ended by hand
   while they run, and other jobs do as they like.
   */
  ghost predicate FailsGenerically(cfg: Config, states: seq<Sys>, events: seq<Event>, id: nat) {
    && IsRun(cfg, states, events)
    && (forall k | 0 <= k < |states| :: id in states[k].rows)
    && !RunsAlready(states[0], id)
    && (forall k | 0 <= k < |events| :: OnlyGenericFailures(states[k], events[k], states[k + 1], id))
  }

  lemma GenericAt(cfg: Config, states: seq<Sys>, events: seq<Event>, id: nat, k: nat)
    requires FailsGenerically(cfg, states, events, id) && k < |events|
    ensures |states| == |events| + 1
    ensures Step(cfg, states[k], events[k], states[k + 1])
    ensures OnlyGenericFailures(states[k], events[k], states[k + 1], id)
    ensures id in states[k].rows && id in states[k + 1].rows
  {
    hide Step, OnlyGenericFailures;
  }

  lemma {:induction false} AlwaysRunsOnce(cfg: Config, states: seq<Sys>, events: seq<Event>, id: nat, k: nat)
    requires FailsGenerically(cfg, states, events, id) && k < |states|
    ensures RunsOnce(states[k], id)
  {
    if k > 0 {
      AlwaysRunsOnce(cfg, states, events, id, k - 1);
      hide Step, FailsGenerically, RunsOnce;
      GenericLength(cfg, states, events, id);
      GenericAt(cfg, states, events, id, k - 1);
      StepRunsOnce(cfg, states[k - 1], events[k - 1], states[k], id);
    }
  }

  lemma GenericLength(cfg: Config, states: seq<Sys>, events: seq<Event>, id: nat)
    requires FailsGenerically(cfg, states, events, id)
    ensures |states| == |events| + 1
  {
    hide Step, OnlyGenericFailures;
  }

  /** In such a run, what counts is a generic failure. */
  lemma CountedGenerically(cfg: Config, states: seq<Sys>, events: seq<Event>, id: nat, k: nat)
    requires FailsGenerically(cfg, states, events, id)
    requires k < |events| && |states| == |events| + 1 && Counts(states[k], events[k], states[k + 1], id)
    ensures Ends(states[k], events[k], id) && events[k].outcome.Generic?
  {
    hide FailsGenerically;
    GenericAt(cfg, states, events, id, k);
  }

  /** Before the first failure nothing has been counted. */
  lemma {:induction false} NothingCountedYet(cfg: Config, states: seq<Sys>, events: seq<Event>, id: nat, n: nat)
    requires FailsGenerically(cfg, states, events, id) && n < |states|
    requires Counted(states, events, n, id) == 0
    ensures states[n].rows[id].attempts == states[0].rows[id].attempts
  {
    if n > 0 {
      NothingCountedYet(cfg, states, events, id, n - 1);
      GenericAt(cfg, states, events, id, n - 1);
      hide Step, FailsGenerically;
      StepSpendsBudget(cfg, states[n - 1], events[n - 1], states[n], id);
    }
  }

  lemma NothingUnchecked(cfg: Config, states: seq<Sys>, events: seq<Event>, id: nat)
    requires FailsGenerically(cfg, states, events, id)
    ensures forall k | 0 <= k < |events| :: !CountsUnchecked(states[k], events[k], id)
  {
    forall k | 0 <= k < |events| ensures !CountsUnchecked(states[k], events[k], id) {
      assert OnlyGenericFailures(states[k], events[k], states[k + 1], id);
    }
  }

  lemma FirstFailureSpaces(cfg: Config, states: seq<Sys>, events: seq<Event>, id: nat, f: nat)
    requires FailsGenerically(cfg, states, events, id) && f < |events|
    requires states[0].rows[id].attempts == Some(0)
    requires Counted(states, events, f, id) == 0 && Counts(states[f], events[f], states[f + 1], id)
    ensures Spaced(states[f + 1], id, 1, states[f].now + BackoffSum(1, cfg.maxBackoff))
  {
    hide *;
    GenericLength(cfg, states, events, id);
    NothingCountedYet(cfg, states, events, id, f);
    GenericAt(cfg, states, events, id, f);
    BackoffSumFirst(cfg.maxBackoff);
    CountedGenerically(cfg, states, events, id, f);
    AlwaysRunsOnce(cfg, states, events, id, f);
    FailureSpaces(cfg, states[f], events[f], states[f + 1], id, 0, states[f].now);
  }

  lemma {:induction false} SpacedAfter(
    cfg: Config, states: seq<Sys>, events: seq<Event>, id: nat, f: nat, n: nat)
    requires FailsGenerically(cfg, states, events, id) && f < n < |states|
    requires states[0].rows[id].attempts == Some(0)
    requires Counted(states, events, f, id) == 0 && Counts(states[f], events[f], states[f + 1], id)
    ensures
      var count := Counted(states, events, n, id);
      count >= 1 && Spaced(states[n], id, count, states[f].now + BackoffSum(count, cfg.maxBackoff))
  {
    hide *;
    GenericLength(cfg, states, events, id);
    CountedNext(states, events, n - 1, id);
    var s, event, s' := states[n - 1], events[n - 1], states[n];
    GenericAt(cfg, states, events, id, n - 1);
    if n - 1 == f {
      FirstFailureSpaces(cfg, states, events, id, f);
    } else {
      SpacedAfter(cfg, states, events, id, f, n - 1);
      var count := Counted(states, events, n - 1, id);
      BackoffSumNext(count, cfg.maxBackoff);
      AlwaysRunsOnce(cfg, states, events, id, n - 1);
      StepStaysSpaced(cfg, s, event, s', id, count, states[f].now + BackoffSum(count, cfg.maxBackoff));
    }
  }

  /** The n-th failure after the first comes at least the first n backoffs later. */
  lemma FailuresAreSpaced(cfg: Config, states: seq<Sys>, events: seq<Event>, id: nat, f: nat, n: nat)
    requires FailsGenerically(cfg, states, events, id) && f < n < |events|
    requires states[0].rows[id].attempts == Some(0)
    requires Counted(states, events, f, id) == 0 && Counts(states[f], events[f], states[f + 1], id)
    requires Counts(states[n], events[n], states[n + 1], id)
    ensures states[n].now >= states[f].now + BackoffSum(Counted(states, events, n, id), cfg.maxBackoff)
  {
    hide *;
    GenericLength(cfg, states, events, id);
    SpacedAfter(cfg, states, events, id, f, n);
    GenericAt(cfg, states, events, id, n);
    AlwaysRunsOnce(cfg, states, events, id, n);
    var count := Counted(states, events, n, id);
    StepStaysSpaced(cfg, states[n], events[n], states[n + 1], id, count,
                    states[f].now + BackoffSum(count, cfg.maxBackoff));
  }

  /** The permanent failure of a job with budget m comes at least all m backoffs after its first failure. */
  lemma PermanentFailureIsSpaced(
    cfg: Config, states: seq<Sys>, events: seq<Event>, id: nat, f: nat, n: nat, m: nat)
    requires FailsGenerically(cfg, states, events, id) && f < n < |events|
    requires Budgeted(cfg, states, events, id, m)
    requires Counted(states, events, f, id) == 0 && Counts(states[f], events[f], states[f + 1], id)
    requires forall k | 0 <= k <= n :: states[k].rows[id].state != Failed
    requires Counts(states[n], events[n], states[n + 1], id) && states[n + 1].rows[id].state == Failed
    ensures states[n].now - states[f].now >= BackoffSum(m, cfg.maxBackoff)
  {
    var count := Counted(states, events, n, id);
    assert Counted(states, events, n + 1, id) == count + 1;
    hide *;
    FailuresAreSpaced(cfg, states, events, id, f, n);
    NothingUnchecked(cfg, states, events, id);
    RetryBudget(cfg, states, events, n, id, m);
  }
}
