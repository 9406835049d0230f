/** The two steps that run cascades, seen row by row: one row is written, the others only settle. */
module Steps {
  import opened Reach
  import opened JobTable
  import opened Cancel
  import opened Outcomes
  import opened Intake
  import opened WorkerRows
  import opened Settling
  import opened Protocol

  /** The row an ending attempt writes. */
  function EndedRow(cfg: Config, job: Job, outcome: Outcome, now: int): Job {
    if outcome.Success? then DoneRow(job, now) else ExceptionRow(cfg, job, outcome, now)
  }

  /** `t'` is `t` with `row` at `id`, and waiting rows settled. */
  ghost predicate Writes(t: Table, id: nat, row: Job, t': Table) {
    && id in t && t'.Keys == t.Keys
    && t'[id] == row && row.state != Waiting
    && forall x | x in t && x != id :: Settles(t[x], t'[x])
  }

  lemma SettledWrites(t: Table, id: nat, row: Job, t': Table)
    requires id in t && row.state != Waiting && OnlySettles(t[id := row], t')
    ensures Writes(t, id, row, t')
  {
    forall x | x in t ensures if x == id then t'[x] == row else Settles(t[x], t'[x]) {
      assert Settles(t[id := row][x], t'[x]);
    }
  }

  lemma FinishWrites(cfg: Config, s: Sys, event: Event, s': Sys)
    requires Step(cfg, s, event, s') && event.Finish?
    ensures
      var id := s.attempts[event.attempt].job;
      Writes(s.rows, id, EndedRow(cfg, s.rows[id], event.outcome, s.now), s'.rows)
  {
    var id := s.attempts[event.attempt].job;
    EndAttemptSettles(cfg, s.rows, id, event.outcome, s.now);
    SettledWrites(s.rows, id, EndedRow(cfg, s.rows[id], event.outcome, s.now), s'.rows);
  }

  lemma FinishFinds(cfg: Config, s: Sys, event: Event, s': Sys)
    requires Step(cfg, s, event, s') && event.Finish?
    ensures event.attempt in s.attempts && s.attempts[event.attempt].job in s.rows
  {
    hide EndAttempt;
  }

  lemma WritesAt(t: Table, id: nat, row: Job, t': Table, x: nat)
    requires Writes(t, id, row, t') && x in t
    ensures x in t' && if x == id then t'[x] == row else Settles(t[x], t'[x])
  {
    hide Settles;
  }

  /** `taken` is the row an acquire selected, if any; it starts an attempt unless it was exhausted. */
  ghost predicate Takes(cfg: Config, s: Sys, event: Event, s': Sys, taken: Option<nat>)
    requires event.Acquire?
  {
    if taken.None? then s' == s
    else
      var id := taken.value;
      && Eligible(cfg, s.rows, s.now, event.throttled, id)
      && var row := AcquiredRow(s.rows[id], event.who, s.now);
         && Writes(s.rows, id, row, s'.rows)
         && s'.now == s.now
         && s'.attempts == if row.state == Started
              then s.attempts[event.slot := Attempt(id, event.who, false)] else s.attempts
  }

  /** The row an acquire takes is the next one, and only that. */
  lemma AcquireTakesNext(cfg: Config, s: Sys, event: Event, s': Sys) returns (taken: Option<nat>)
    requires Step(cfg, s, event, s') && event.Acquire?
    ensures event.slot !in s.attempts && Takes(cfg, s, event, s', taken)
    ensures forall id | id in s.rows :: IsNext(cfg, s.rows, s.now, event.throttled, id) <==> taken == Some(id)
  {
    hide AcquireRow, OnlySettles, Writes, Eligible, IsNext;
    NextExists(cfg, s.rows, s.now, event.throttled);
    var got :|
      && Acquires(cfg, s.rows, event.who, s.now, event.throttled, s'.rows, got)
      && s'.attempts == if got.Some? then s.attempts[event.slot := Attempt(got.value, event.who, false)] else s.attempts;
    if id :| (
      && id in s.rows
      && IsNext(cfg, s.rows, s.now, event.throttled, id)
      && s'.rows == AcquireRow(s.rows, id, event.who, s.now).0
      && got == if AcquireRow(s.rows, id, event.who, s.now).1 then Some(id) else None)
    {
      taken := Some(id);
      NextIsEligible(cfg, s.rows, s.now, event.throttled, id);
      AcquireSettles(s.rows, id, event.who, s.now);
      SettledWrites(s.rows, id, AcquiredRow(s.rows[id], event.who, s.now), s'.rows);
    } else {
      taken := None;
    }
  }

  lemma AcquireTakes(cfg: Config, s: Sys, event: Event, s': Sys) returns (taken: Option<nat>)
    requires Step(cfg, s, event, s') && event.Acquire?
    ensures event.slot !in s.attempts
    ensures Takes(cfg, s, event, s', taken)
  {
    hide *;
    taken := AcquireTakesNext(cfg, s, event, s');
  }

  /** No button puts a row into execution. */
  lemma ButtonStartsNothing(cfg: Config, s: Sys, event: Event, s': Sys)
    requires Step(cfg, s, event, s')
    requires event.CancelPressed? || event.SetFailedPressed? || event.SetDonePressed?
          || event.RequeuePressed? || event.Autovacuum? || event.Insert?
    ensures NothingStarts(s.rows, s'.rows) && s'.now == s.now && s'.attempts == s.attempts
  {
    hide CancelButton, SetFailedButton, SetDoneButton, RequeueEach, Acquires, EndAttempt, Beat, BeatAll,
         HoldAfterTimeout, ClearOwner, Reused, Closure;
    match event
    case CancelPressed(ids) =>
      CancelButtonIsReachability(s.rows, (set x | x in ids), s.now);
    case SetFailedPressed(ids) => SetFailedButtonStartsNothing(s.rows, ids, s.now);
    case SetDonePressed(ids) => SetDoneButtonStartsNothing(s.rows, ids, s.now);
    case RequeuePressed(ids) => RequeueStartsNothing(s.rows, ids);
    case _ =>
  }

  /** The buttons that end jobs, and the autovacuum, revive nothing and rewrite no job's terms. */
  lemma ButtonKeepsTerms(cfg: Config, s: Sys, event: Event, s': Sys)
    requires Step(cfg, s, event, s')
    requires event.CancelPressed? || event.SetFailedPressed? || event.SetDonePressed? || event.Autovacuum?
    ensures KeepsTerms(s.rows, s'.rows) && s'.now == s.now && s'.attempts == s.attempts
  {
    hide CancelButton, SetFailedButton, SetDoneButton, RequeueEach, Acquires, EndAttempt, Beat, BeatAll,
         HoldAfterTimeout, ClearOwner, Reused, Closure, NewRow;
    match event
    case CancelPressed(ids) =>
      CancelButtonIsReachability(s.rows, (set x | x in ids), s.now);
    case SetFailedPressed(ids) => SetFailedButtonKeepsTerms(s.rows, ids, s.now);
    case SetDonePressed(ids) => SetDoneButtonKeepsTerms(s.rows, ids, s.now);
    case _ =>
  }

  /** A press only settles the rows it does not name. */
  lemma PressSettlesOutside(cfg: Config, s: Sys, event: Event, s': Sys)
    requires Step(cfg, s, event, s') && Presses(event)
    ensures SettlesOutside(s.rows, s'.rows, Ids(event.ids)) && s'.now == s.now && s'.attempts == s.attempts
  {
    hide CancelButton, SetFailedButton, SetDoneButton, RequeueEach, SettlesOutside, Acquires, EndAttempt, Beat, BeatAll,
         HoldAfterTimeout, ClearOwner, Reused, NewRow;
    match event
    case CancelPressed(ids) => CancelButtonSettlesOutside(s.rows, Ids(ids), s.now);
    case SetFailedPressed(ids) => SetFailedButtonSettlesOutside(s.rows, ids, s.now);
    case SetDonePressed(ids) => SetDoneButtonSettlesOutside(s.rows, ids, s.now);
    case RequeuePressed(ids) => RequeueSettlesOutside(s.rows, ids);
    case _ =>
  }

  /** The attempt that ends still finds its row active; Lease.LeasedEndsActive gives this. */
  predicate EndsActive(s: Sys, event: Event) {
    event.Finish? && event.attempt in s.attempts ==> IsActive(s.rows, s.attempts[event.attempt].job)
  }
}
