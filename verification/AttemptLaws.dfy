/** What starting, reclaiming and ending an attempt leaves in the table, column by column and for every other row. */
module AttemptLaws {
  import opened JobTable
  import opened Outcomes
  import opened Intake
  import opened WorkerRows
  import opened CascadeLaws
  import opened Settling

  /** The row changes as given and no other row does. */
  ghost predicate OnlyRow(t: Table, id: nat, row: Job, t': Table) { id in t && t' == t[id := row] }

  /** The delay after `attempts` counted ones: 10 seconds, doubled each time, up to the cap. */
  function PauseAfter(attempts: int, cap: nat): int {
    if attempts <= 1 then Min(10, cap) else Min(10 * Pow2(attempts - 1), cap)
  }

  lemma PauseIsBackoff(attempts: int, cap: nat)
    ensures PauseAfter(attempts, cap) == Backoff(attempts, cap)
  {
    assert Pow2(0) == 1;
  }

  /**
   A model missing from the registry: while the job is younger than the limit
   it is tried again without counting, after the seconds asked for or the
   checking interval; from the limit on it fails with its dependents.
   */
  lemma MissingRegistryExactly(cfg: Config, t: Table, id: nat, seconds: Option<int>, now: int)
    requires id in t
    ensures
      var t' := EndAttempt(cfg, t, id, RegistryMissing(seconds), now);
      if now < t[id].createdAt + cfg.registryMaxAge then
        var wait := if seconds.Some? && seconds.value != 0 then seconds.value else cfg.registryInterval;
        OnlyRow(t, id, t[id].(state := Pending, scheduledAt := Some(now + wait), worker := None, heartbeat := None,
                              exc := [Raised]), t')
      else
        FailsForGood(t, id, t[id].attempts, now, t')
  {
    if now >= t[id].createdAt + cfg.registryMaxAge { GivenUp(t, id, t[id].attempts, now); }
    hide FailBelow;
  }

  /** A job that asks to be tried again is, whatever its budget, after the time it names or the usual delay. */
  lemma RetryableExactly(cfg: Config, t: Table, id: nat, seconds: Option<int>, ignoreRetry: bool, now: int)
    requires id in t
    ensures
      var t' := EndAttempt(cfg, t, id, Retryable(seconds, ignoreRetry), now);
      var attempts := if ignoreRetry then t[id].attempts else Some(OrElse(t[id].attempts, 0) + 1);
      var wait := if seconds.Some? then seconds.value else PauseAfter(OrElse(attempts, 0), cfg.maxBackoff);
      OnlyRow(t, id, t[id].(state := Pending, attempts := attempts, scheduledAt := Some(now + wait), worker := None,
                            heartbeat := None, exc := [Raised]), t')
  {
    PauseIsBackoff(OrElse(t[id].attempts, 0), cfg.maxBackoff);
    PauseIsBackoff(OrElse(t[id].attempts, 0) + 1, cfg.maxBackoff);
    hide FailBelow, PauseAfter, Backoff, Pow2;
  }

  /** Any other error counts; the job is tried again unless it has a budget, not zero, and the count is above it. */
  lemma GenericExactly(cfg: Config, t: Table, id: nat, now: int)
    requires id in t
    ensures
      var t' := EndAttempt(cfg, t, id, Generic, now);
      var count := OrElse(t[id].attempts, 0) + 1;
      if t[id].maxRetries == None || t[id].maxRetries == Some(0) || count <= t[id].maxRetries.value then
        OnlyRow(t, id, t[id].(state := Pending, attempts := Some(count),
                              scheduledAt := Some(now + PauseAfter(count, cfg.maxBackoff)), worker := None,
                              heartbeat := None, exc := [Raised]), t')
      else
        FailsForGood(t, id, Some(count), now, t')
  {
    PauseIsBackoff(OrElse(t[id].attempts, 0) + 1, cfg.maxBackoff);
    if GivesUp(cfg, t[id], Generic, now) { GivenUp(t, id, Some(OrElse(t[id].attempts, 0) + 1), now); }
    hide FailBelow, FailsForGood, PauseAfter, Backoff, Pow2;
  }

  /** The row fails with a completion time, and what waits for it fails or runs as `CascadeLaws.FailureExactly` says. */
  ghost predicate FailsForGood(t: Table, id: nat, attempts: Option<int>, now: int, t': Table) {
    && id in t && t'.Keys == t.Keys
    && t'[id] == t[id].(state := Failed, attempts := attempts, completedAt := Some(now), scheduledAt := None,
                        worker := None, heartbeat := None, exc := [Raised])
    && t' == FailBelow(t[id := t'[id]], id)
  }

  lemma GivenUp(t: Table, id: nat, attempts: Option<int>, now: int)
    requires id in t
    ensures FailsForGood(t, id, attempts, now, FailBelow(t[id := FailedRow(t[id], attempts, now)], id))
  {
    var written := t[id := FailedRow(t[id], attempts, now)];
    FailureExactly(written, id, id);
    hide FailBelow;
  }

  /** A success leaves the row done and released; what waits for it is decided as `CascadeLaws.CompletionExactly` says. */
  lemma SuccessWrites(cfg: Config, t: Table, id: nat, now: int)
    requires id in t
    ensures
      var t' := EndAttempt(cfg, t, id, Success, now);
      t'.Keys == t.Keys
      && t'[id] == t[id].(state := Done, completedAt := Some(now), worker := None, heartbeat := None)
  {
    EndAttemptSettles(cfg, t, id, Success, now);
    hide EndAttempt;
  }

  /**
   What `acquire_job_lock` does with the row it selected: a pending one starts;
   a started one starts again with its attempt counted, or, if that exceeds its
   budget, fails, and of the rows one link behind it those that wait fail or run.
   */
  lemma AcquireExactly(t: Table, id: nat, who: nat, now: int)
    requires id in t && (t[id].state == Pending || t[id].state == Started)
    ensures
      var (t', taken) := AcquireRow(t, id, who, now);
      var count := OrElse(t[id].attempts, 0) + 1;
      if t[id].state == Pending then
        && taken
        && OnlyRow(t, id, t[id].(state := Started, heartbeat := Some(now), worker := Some(who),
                                 startedAt := Some(now)), t')
      else if t[id].maxRetries == None || t[id].maxRetries == Some(0) || count <= t[id].maxRetries.value then
        && taken
        && OnlyRow(t, id, t[id].(heartbeat := Some(now), worker := Some(who), startedAt := Some(now),
                                 attempts := Some(count)), t')
      else
        && !taken && t'.Keys == t.Keys
        && t'[id] == t[id].(state := Failed, attempts := Some(count), exc := t[id].exc + [WorkerDied],
                            completedAt := Some(now), worker := None, heartbeat := None)
        && forall x | x in t && x != id :: t'[x] ==
             if t[x].state != Waiting || !(t[x].parent == Some(id) || id in t[x].deps) then t[x]
             else if t[x].runOnFailure then t[x].(state := Pending)
             else t[x].(state := Failed, exc := [ParentDied(id)])
  {}
}
