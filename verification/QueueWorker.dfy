/** `QueueWorker`: one process's writes to the shared table, and the set of jobs it is running. */
module QueueWorker {
  import opened JobTable
  import opened Outcomes
  import opened JobStore
  import opened WorkerRows
  import opened Intake

  /** How often the first delay of ten seconds has doubled. */
  function Exponent(attempts: int): nat { if attempts <= 1 then 0 else attempts - 1 }

  class Worker {
    const cfg: Config
    const uuid: nat
    const store: Store
    const concurrency: nat
    var activeJobIds: set<nat>

    constructor (cfg: Config, uuid: nat, store: Store, concurrency: int)
      ensures this.cfg == cfg && this.uuid == uuid && this.store == store
      ensures this.concurrency >= 1 && activeJobIds == {}
    {
      this.cfg, this.uuid, this.store := cfg, uuid, store;
      this.concurrency := if concurrency < 1 then 1 else concurrency;
      activeJobIds := {};
    }

    /** The ordered query of `acquire_job_lock`. */
    method SelectNext(now: int, throttled: set<Option<string>>) returns (selected: Option<nat>)
      ensures selected.None? ==> forall x | x in store.rows :: !Eligible(cfg, store.rows, now, throttled, x)
      ensures selected.Some? ==>
        selected.value in store.rows && IsNext(cfg, store.rows, now, throttled, selected.value)
      ensures selected.Some? ==>
        forall y | y in store.rows && Eligible(cfg, store.rows, now, throttled, y) ::
          var first, other := store.rows[selected.value], store.rows[y];
          && first.priority <= other.priority
          && (first.priority == other.priority && other.scheduledAt.Some? ==>
                first.scheduledAt.Some? && first.scheduledAt.value <= other.scheduledAt.value)
          && (first.priority == other.priority && first.scheduledAt == other.scheduledAt ==> selected.value <= y)
    {
      NextExists(cfg, store.rows, now, throttled);
      if id :| id in store.rows && IsNext(cfg, store.rows, now, throttled, id) {
        forall y | y in store.rows && Eligible(cfg, store.rows, now, throttled, y) ensures true {
          NextIsFirst(cfg, store.rows, now, throttled, id, y);
        }
        return Some(id);
      }
      return None;
    }

    /** Takes the next eligible row, or fails it when reclaiming it exhausts its budget. */
    method AcquireJobLock(now: int, throttled: set<Option<string>>) returns (got: Option<nat>)
      modifies store`rows
      ensures Acquires(cfg, old(store.rows), uuid, now, throttled, store.rows, got)
      ensures got.Some? ==>
        var id := got.value;
        && id in old(store.rows) && Eligible(cfg, old(store.rows), now, throttled, id)
        && (forall y | y in old(store.rows) && Eligible(cfg, old(store.rows), now, throttled, y) ::
              old(store.rows)[id].priority <= old(store.rows)[y].priority)
        && store.rows == old(store.rows)[id := old(store.rows)[id].(
             state := Started, heartbeat := Some(now), worker := Some(uuid), startedAt := Some(now),
             attempts := if old(store.rows)[id].state == Started then Some(OrElse(old(store.rows)[id].attempts, 0) + 1)
                         else old(store.rows)[id].attempts)]
    {
      var selected := SelectNext(now, throttled);
      hide Before, Eligible, IsNext, Exhausted, ReclaimCascade, DiedRow;
      if selected.None? {
        return None;
      }
      NextIsEligible(cfg, store.rows, now, throttled, selected.value);
      var id := selected.value;
      var job := store.rows[id];
      if job.state != Started {
        store.rows := store.rows[id := StartRow(job, uuid, now)];
        return Some(id);
      }
      var attempts := OrElse(job.attempts, 0) + 1;
      if Exhausted(job.maxRetries, attempts) {
        store.rows := store.rows[id := DiedRow(job, attempts, now)];
        store.rows := ReclaimCascade(store.rows, id);
        return None;
      }
      store.rows := store.rows[id := StartRow(job, uuid, now).(attempts := Some(attempts))];
      return Some(id);
    }

    /** Refreshes the heartbeat of `id` if this worker still runs it, and no other column or row. */
    method HeartbeatJob(id: nat, now: int)
      modifies store`rows
      ensures store.rows.Keys == old(store.rows).Keys
      ensures forall x | x in store.rows ::
        store.rows[x] ==
          if x == id && old(store.rows)[x].state == Started && old(store.rows)[x].worker == Some(uuid)
          then old(store.rows)[x].(heartbeat := Some(now)) else old(store.rows)[x]
      ensures store.rows == Beat(old(store.rows), id, uuid, now)
    {
      if id in store.rows && store.rows[id].state == Started && store.rows[id].worker == Some(uuid) {
        store.rows := store.rows[id := store.rows[id].(heartbeat := Some(now))];
      }
    }

    /** Refreshes every active job that this worker owns, whatever its state, and no other column or row. */
    method UpdateHeartbeats(now: int)
      modifies store`rows
      ensures store.rows.Keys == old(store.rows).Keys
      ensures forall x | x in store.rows ::
        store.rows[x] ==
          if x in activeJobIds && old(store.rows)[x].worker == Some(uuid)
          then old(store.rows)[x].(heartbeat := Some(now)) else old(store.rows)[x]
      ensures store.rows == BeatAll(old(store.rows), activeJobIds, uuid, now)
    {
      var left := activeJobIds;
      while left != {}
        invariant store.rows.Keys == old(store.rows).Keys
        invariant forall x | x in store.rows ::
          store.rows[x] ==
            if x in activeJobIds && x !in left && old(store.rows)[x].worker == Some(uuid)
            then old(store.rows)[x].(heartbeat := Some(now)) else old(store.rows)[x]
        decreases left
      {
        var x :| x in left;
        left := left - {x};
        if x in store.rows && store.rows[x].worker == Some(uuid) {
          store.rows := store.rows[x := store.rows[x].(heartbeat := Some(now))];
        }
      }
    }

    /**
     Stamps the timeout on a row this worker still runs and paces its next
     attempt if there will be one; state, owner and heartbeat are left alone.
     */
    method HandleTimeout(id: nat, now: int, seconds: nat)
      modifies store`rows
      ensures store.rows.Keys == old(store.rows).Keys
      ensures forall x | x in store.rows && x != id :: store.rows[x] == old(store.rows)[x]
      ensures id in store.rows ==>
        var job, job' := old(store.rows)[id], store.rows[id];
        if job.state != Started || job.worker != Some(uuid) then job' == job
        else
          && job' == job.(exc := [TimedOut(seconds)], scheduledAt := job'.scheduledAt)
          && job'.scheduledAt ==
               if job.maxRetries == Some(0) || (job.maxRetries.Some? && OrElse(job.attempts, 1) < job.maxRetries.value)
               then Some(now + Min(10 * Pow2(Exponent(OrElse(job.attempts, 1))), cfg.maxBackoff))
               else job.scheduledAt
      ensures store.rows == HoldAfterTimeout(cfg, old(store.rows), id, uuid, now, seconds)
    {
      if id !in store.rows {
        return;
      }
      var job := store.rows[id];
      if job.state == Started && job.worker == Some(uuid) {
        var at := job.scheduledAt;
        if PacesAfterTimeout(job.maxRetries, job.attempts) {
          at := Some(now + Backoff(OrElse(job.attempts, 1), cfg.maxBackoff));
        }
        store.rows := store.rows[id := job.(exc := [TimedOut(seconds)], scheduledAt := at)];
      }
    }

    /** Gives up this worker's own claim on `id`, and nobody else's; the row stays started. */
    method ClearWorkerOwnership(id: nat)
      modifies store`rows
      ensures store.rows.Keys == old(store.rows).Keys
      ensures forall x | x in store.rows ::
        store.rows[x] ==
          if x == id && old(store.rows)[x].worker == Some(uuid)
          then old(store.rows)[x].(worker := None, heartbeat := None) else old(store.rows)[x]
      ensures store.rows == ClearOwner(old(store.rows), id, uuid)
    {
      if id in store.rows && store.rows[id].worker == Some(uuid) {
        store.rows := store.rows[id := store.rows[id].(worker := None, heartbeat := None)];
      }
    }

    /** `finalize_job` after the method returned, `handle_exception` after it raised. */
    method FinishAttempt(id: nat, outcome: Outcome, now: int)
      requires id in store.rows
      modifies store`rows, this`activeJobIds
      ensures store.rows == EndAttempt(cfg, old(store.rows), id, outcome, now)
      ensures activeJobIds == old(activeJobIds) - {id}
    {
      if outcome.Success? {
        store.Complete(id, now);
      } else {
        HandleException(id, outcome, now);
      }
      activeJobIds := activeJobIds - {id};
    }

    /** The field assignments of `handle_exception`, branch by branch. */
    method RecordException(job: Job, outcome: Outcome, now: int) returns (row: Job, gaveUp: bool)
      requires !outcome.Success?
      ensures row == ExceptionRow(cfg, job, outcome, now)
      ensures gaveUp == GivesUp(cfg, job, outcome, now)
      ensures row == job.(state := row.state, attempts := row.attempts, scheduledAt := row.scheduledAt,
                          completedAt := row.completedAt, worker := None, heartbeat := None, exc := [Raised])
      ensures gaveUp ==> row.state == Failed && row.completedAt == Some(now) && row.scheduledAt.None?
      ensures !gaveUp ==> row.state == Pending && row.completedAt == job.completedAt && row.scheduledAt.Some?
      ensures outcome.RegistryMissing? ==>
        && row.attempts == job.attempts && (gaveUp <==> now >= job.createdAt + cfg.registryMaxAge)
        && (!gaveUp && outcome.seconds.Some? && outcome.seconds.value != 0 ==>
              row.scheduledAt.value == now + outcome.seconds.value)
        && (!gaveUp && (outcome.seconds.Some? ==> outcome.seconds.value == 0) ==>
              row.scheduledAt.value == now + cfg.registryInterval)
      ensures outcome.Retryable? ==>
        && !gaveUp && row.attempts == (if outcome.ignoreRetry then job.attempts else Some(OrElse(job.attempts, 0) + 1))
        && (outcome.seconds.Some? ==> row.scheduledAt.value == now + outcome.seconds.value)
        && (outcome.seconds.None? ==>
              row.scheduledAt.value == now + Min(10 * Pow2(Exponent(OrElse(row.attempts, 0))), cfg.maxBackoff))
      ensures outcome.Generic? ==>
        && row.attempts == Some(OrElse(job.attempts, 0) + 1)
        && (gaveUp <==>
              job.maxRetries.Some? && job.maxRetries.value != 0 && job.maxRetries.value < OrElse(job.attempts, 0) + 1)
        && (!gaveUp ==> row.scheduledAt.value == now + Min(10 * Pow2(Exponent(row.attempts.value)), cfg.maxBackoff))
    {
      var delay;
      row, gaveUp := job.(exc := [Raised]), false;
      match outcome {
        case RegistryMissing(seconds) =>
          gaveUp := now - row.createdAt >= cfg.registryMaxAge;
          delay := if seconds.None? || seconds.value == 0 then cfg.registryInterval else seconds.value;
        case Retryable(seconds, ignoreRetry) =>
          if !ignoreRetry {
            row := row.(attempts := Some(OrElse(row.attempts, 0) + 1));
          }
          delay := OrElse(seconds, Backoff(OrElse(row.attempts, 0), cfg.maxBackoff));
        case Generic =>
          row := row.(attempts := Some(OrElse(row.attempts, 0) + 1));
          gaveUp := Exhausted(row.maxRetries, row.attempts.value);
          delay := Backoff(row.attempts.value, cfg.maxBackoff);
      }
      if gaveUp {
        row := row.(state := Failed, completedAt := Some(now), scheduledAt := None);
      } else {
        row := row.(state := Pending, scheduledAt := Some(now + delay));
      }
      row := row.(worker := None, heartbeat := None);
    }

    method HandleException(id: nat, outcome: Outcome, now: int)
      requires id in store.rows && !outcome.Success?
      modifies store`rows
      ensures store.rows == EndAttempt(cfg, old(store.rows), id, outcome, now)
    {
      var row, gaveUp := RecordException(store.rows[id], outcome, now);
      store.rows := store.rows[id := row];
      if gaveUp {
        store.CascadeChildrenOnParentFailure(id);
        ghost var t := store.rows;
        store.FailDependentsOf([id]);
        assert [id][..0] == [] && FailDependentsEach(t, []) == t;
      }
    }
  }
}
