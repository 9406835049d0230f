/** The queue drains: a measure on the table that every acquire and every ending attempt lowers. */
module Draining {
  import opened JobTable
  import opened Intake
  import opened WorkerRows
  import opened Settling
  import opened Protocol
  import opened Steps
  import opened Lease

  predicate Budgeted(job: Job) { job.maxRetries.Some? && job.maxRetries.value > 0 }

  /** Failures the budget still allows to be retried. */
  function Left(job: Job): nat {
    if Budgeted(job) && OrElse(job.attempts, 0) < job.maxRetries.value
    then job.maxRetries.value - OrElse(job.attempts, 0) else 0
  }

  function Rank(job: Job): nat {
    match job.state
    case Waiting => 2 * Left(job) + 3
    case Pending => 2 * Left(job) + 2
    case Started => 2 * Left(job) + 1
    case _ => 0
  }

  function RankAt(t: Table, id: nat): nat { if id in t then Rank(t[id]) else 0 }

  /** The ranks of all rows whose id is below `bound`. */
  function Total(t: Table, bound: nat): nat {
    if bound == 0 then 0 else Total(t, bound - 1) + RankAt(t, bound - 1)
  }

  ghost predicate NoRankRises(t: Table, t': Table) {
    forall x: nat :: RankAt(t', x) <= RankAt(t, x)
  }

  lemma {:induction false} TotalFalls(t: Table, t': Table, bound: nat)
    requires NoRankRises(t, t')
    ensures Total(t', bound) <= Total(t, bound)
    ensures forall x: nat | x < bound && RankAt(t', x) < RankAt(t, x) :: Total(t', bound) < Total(t, bound)
  {
    if bound > 0 {
      TotalFalls(t, t', bound - 1);
    }
  }

  lemma KeptTermsRank(t: Table, t': Table)
    requires KeepsTerms(t, t')
    ensures NoRankRises(t, t')
  {}

  /** An attempt's end lowers its row's rank exactly when the row was still active. */
  lemma EndingLowersExactly(cfg: Config, job: Job, outcome: Outcome, now: int)
    requires Budgeted(job) && (outcome.Success? || outcome.Generic?)
    ensures Rank(EndedRow(cfg, job, outcome, now)) < Rank(job) <==> job.Active()
  {}

  lemma AcquiringLowers(job: Job, worker: nat, now: int)
    requires Budgeted(job) && (job.state == Pending || job.state == Started)
    ensures Rank(AcquiredRow(job, worker, now)) < Rank(job)
  {}

  lemma WritesLower(t: Table, id: nat, row: Job, t': Table)
    requires Writes(t, id, row, t') && Rank(row) < Rank(t[id])
    ensures NoRankRises(t, t') && RankAt(t', id) < RankAt(t, id)
  {
    forall x: nat ensures RankAt(t', x) <= RankAt(t, x) {
      if x in t && x != id { assert Settles(t[x], t'[x]); }
    }
  }

  /** Success and generic failure only: no requeue, no retryable error, no new jobs. */
  predicate Drains(event: Event) {
    && !event.Insert? && !event.RequeuePressed?
    && (event.Finish? ==> event.outcome.Success? || event.outcome.Generic?)
  }

  /** An acquire that took or failed a row, or the end of an attempt. */
  predicate Works(s: Sys, event: Event, s': Sys) {
    event.Finish? || (event.Acquire? && s'.rows != s.rows)
  }

  ghost predicate AllBudgeted(t: Table) { forall x | x in t :: Budgeted(t[x]) }

  lemma AcquireLowers(cfg: Config, s: Sys, event: Event, s': Sys) returns (id: nat)
    requires Step(cfg, s, event, s') && event.Acquire? && AllBudgeted(s.rows) && s'.rows != s.rows
    ensures NoRankRises(s.rows, s'.rows) && id in s.rows && RankAt(s'.rows, id) < RankAt(s.rows, id)
  {
    hide Step;
    var taken := AcquireTakes(cfg, s, event, s');
    id := taken.value;
    AcquiringLowers(s.rows[id], event.who, s.now);
    WritesLower(s.rows, id, AcquiredRow(s.rows[id], event.who, s.now), s'.rows);
  }

  lemma FinishLowers(cfg: Config, s: Sys, event: Event, s': Sys) returns (id: nat)
    requires Step(cfg, s, event, s') && event.Finish? && AllBudgeted(s.rows)
    requires Drains(event) && EndsActive(s, event)
    ensures NoRankRises(s.rows, s'.rows) && id in s.rows && RankAt(s'.rows, id) < RankAt(s.rows, id)
  {
    FinishWrites(cfg, s, event, s');
    assert event.attempt in s.attempts;
    hide Step;
    id := s.attempts[event.attempt].job;
    EndingLowersExactly(cfg, s.rows[id], event.outcome, s.now);
    WritesLower(s.rows, id, EndedRow(cfg, s.rows[id], event.outcome, s.now), s'.rows);
  }

  lemma QuietRank(cfg: Config, s: Sys, event: Event, s': Sys)
    requires Step(cfg, s, event, s')
    requires event.Tick? || event.Heartbeat? || event.HeartbeatAll? || event.Overrun? || event.LetGo? || event.Vanish?
    ensures NoRankRises(s.rows, s'.rows)
  {}

  /** One step: the total never rises, and falls on every step that works. */
  lemma StepDrains(cfg: Config, s: Sys, event: Event, s': Sys, bound: nat)
    requires Step(cfg, s, event, s') && Drains(event) && EndsActive(s, event) && AllBudgeted(s.rows)
    requires forall x | x in s.rows :: x < bound
    ensures Total(s'.rows, bound) + (if Works(s, event, s') then 1 else 0) <= Total(s.rows, bound)
  {
    hide Step, EndsActive, AllBudgeted, NoRankRises, RankAt;
    if event.Finish? {
      var id := FinishLowers(cfg, s, event, s');
      TotalFalls(s.rows, s'.rows, bound);
    } else if event.Acquire? {
      if s'.rows != s.rows {
        var id := AcquireLowers(cfg, s, event, s');
        TotalFalls(s.rows, s'.rows, bound);
      }
    } else if event.CancelPressed? || event.SetFailedPressed? || event.SetDonePressed? || event.Autovacuum? {
      ButtonKeepsTerms(cfg, s, event, s');
      KeptTermsRank(s.rows, s'.rows);
      TotalFalls(s.rows, s'.rows, bound);
    } else {
      QuietRank(cfg, s, event, s');
      TotalFalls(s.rows, s'.rows, bound);
    }
  }

  /** No budget is rewritten and no row appears. */
  ghost predicate SameBudgets(t: Table, t': Table) {
    forall x | x in t' :: x in t && t'[x].maxRetries == t[x].maxRetries
  }

  lemma StepKeepsBudgets(cfg: Config, s: Sys, event: Event, s': Sys)
    requires Step(cfg, s, event, s') && Drains(event)
    ensures SameBudgets(s.rows, s'.rows)
  {
    if event.Acquire? || event.Finish? {
      WorkKeepsBudgets(cfg, s, event, s');
    } else if event.CancelPressed? || event.SetFailedPressed? || event.SetDonePressed? || event.Autovacuum? {
      hide Step;
      ButtonKeepsTerms(cfg, s, event, s');
    } else {
      hide EndAttempt, Acquires, Backoff, PacesAfterTimeout;
    }
  }

  lemma WorkKeepsBudgets(cfg: Config, s: Sys, event: Event, s': Sys)
    requires Step(cfg, s, event, s') && (event.Acquire? || event.Finish?)
    ensures SameBudgets(s.rows, s'.rows)
  {
    hide Step, Eligible;
    if event.Acquire? {
      var taken := AcquireTakes(cfg, s, event, s');
      if taken.Some? {
        WritesKeepBudgets(s.rows, taken.value, AcquiredRow(s.rows[taken.value], event.who, s.now), s'.rows);
      }
    } else {
      FinishFinds(cfg, s, event, s');
      FinishWrites(cfg, s, event, s');
      var id := s.attempts[event.attempt].job;
      WritesKeepBudgets(s.rows, id, EndedRow(cfg, s.rows[id], event.outcome, s.now), s'.rows);
    }
  }

  lemma WritesKeepBudgets(t: Table, id: nat, row: Job, t': Table)
    requires Writes(t, id, row, t') && row.maxRetries == t[id].maxRetries
    ensures SameBudgets(t, t')
  {
    forall x | x in t' ensures x in t && t'[x].maxRetries == t[x].maxRetries {
      if x != id { assert Settles(t[x], t'[x]); }
    }
  }

  /** Budgets stay positive, and ids below `bound`, throughout a draining run. */
  lemma {:induction false} BudgetsStay(cfg: Config, states: seq<Sys>, events: seq<Event>, n: nat, bound: nat)
    requires IsRun(cfg, states, events) && n < |states|
    requires forall k | 0 <= k < |events| :: Drains(events[k])
    requires AllBudgeted(states[0].rows) && forall x | x in states[0].rows :: x < bound
    ensures AllBudgeted(states[n].rows) && forall x | x in states[n].rows :: x < bound
  {
    hide Step, Drains;
    if n > 0 {
      BudgetsStay(cfg, states, events, n - 1, bound);
      StepKeepsBudgets(cfg, states[n - 1], events[n - 1], states[n]);
    }
  }

  ghost function WorkDone(states: seq<Sys>, events: seq<Event>, n: nat): nat
    requires n < |states| && n <= |events|
  {
    if n == 0 then 0
    else WorkDone(states, events, n - 1) + if Works(states[n - 1], events[n - 1], states[n]) then 1 else 0
  }

  /**
   Draining: with positive budgets and no requeue, retryable error or new job,
   the number of acquires and endings in any run, however long and whatever
   heartbeats, timeouts and buttons come in between, is bounded by the ranks
   in the initial table.
   */
  lemma {:induction false} WorkIsBounded(cfg: Config, states: seq<Sys>, events: seq<Event>, n: nat, bound: nat)
    requires IsRun(cfg, states, events) && n < |states|
    requires forall k | 0 <= k < |events| :: Drains(events[k]) && EndsActive(states[k], events[k])
    requires AllBudgeted(states[0].rows) && forall x | x in states[0].rows :: x < bound
    ensures WorkDone(states, events, n) + Total(states[n].rows, bound) <= Total(states[0].rows, bound)
  {
    hide Step, EndsActive, AllBudgeted, Drains, Total, Works;
    if n > 0 {
      WorkIsBounded(cfg, states, events, n - 1, bound);
      BudgetsStay(cfg, states, events, n - 1, bound);
      StepDrains(cfg, states[n - 1], events[n - 1], states[n], bound);
    }
  }

  /** In runs that keep the leases, attempts end on active rows, and nothing else is asked of them. */
  lemma WorkIsBoundedWhenLeased(cfg: Config, states: seq<Sys>, events: seq<Event>, n: nat, bound: nat)
    requires IsRun(cfg, states, events) && n < |states|
    requires forall k | 0 <= k < |events| :: Drains(events[k]) && Spares(states[k], events[k])
    requires forall k | 0 <= k < |states| :: Beating(cfg, states[k])
    requires Leased(states[0]) && Exclusive(states[0])
    requires AllBudgeted(states[0].rows) && forall x | x in states[0].rows :: x < bound
    ensures WorkDone(states, events, n) + Total(states[n].rows, bound) <= Total(states[0].rows, bound)
  {
    hide Step, Spares, Beating, Leased, Exclusive, EndsActive, AllBudgeted, Drains, Total, WorkDone;
    forall k | 0 <= k < |events| ensures EndsActive(states[k], events[k]) {
      NoJobRunsTwice(cfg, states, events, k);
      LeasedEndsActive(states[k], events[k]);
    }
    WorkIsBounded(cfg, states, events, n, bound);
  }
}
