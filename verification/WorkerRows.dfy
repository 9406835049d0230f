/** The row updates of a queue worker: acquire, heartbeat, timeout hold, release, retry, fail. */
module WorkerRows {
  import opened JobTable
  import opened Outcomes
  import opened Intake

  datatype Config = Config(
    staleAfter: nat,
    maxBackoff: nat,
    registryInterval: nat,
    registryMaxAge: nat,
    limits: map<string, nat>
  ) {
    /** What the constructor's clamping guarantees. */
    predicate Valid() { staleAfter >= 1 && maxBackoff >= 10 && registryInterval >= 5 }
  }

  // ---- eligibility and order ------------------------------------------------

  predicate Fresh(cfg: Config, job: Job, now: int) {
    job.state == Started && job.heartbeat.Some? && job.heartbeat.value > now - cfg.staleAfter
  }

  predicate Stale(cfg: Config, job: Job, now: int) {
    job.state == Started && (job.heartbeat.None? || job.heartbeat.value < now - cfg.staleAfter)
  }

  function FreshIn(cfg: Config, t: Table, channel: string, now: int): set<nat> {
    set x | x in t && t[x].channel == Some(channel) && Fresh(cfg, t[x], now)
  }

  /** SQL never joins a NULL channel, so such a row sees no running jobs and the default limit. */
  function Running(cfg: Config, t: Table, channel: Option<string>, now: int): nat {
    if channel.None? then 0 else |FreshIn(cfg, t, channel.value, now)|
  }

  function Limit(cfg: Config, channel: Option<string>): nat {
    if channel.Some? && channel.value in cfg.limits then cfg.limits[channel.value] else 1
  }

  predicate Eligible(cfg: Config, t: Table, now: int, throttled: set<Option<string>>, id: nat) {
    && id in t
    && (t[id].state == Pending || Stale(cfg, t[id], now))
    && (t[id].scheduledAt.None? || t[id].scheduledAt.value <= now)
    && Running(cfg, t, t[id].channel, now) < Limit(cfg, t[id].channel)
    && t[id].channel !in throttled
  }

  /** `scheduled_at ASC`: NULL sorts last. */
  predicate Earlier(a: Option<int>, b: Option<int>) {
    a.Some? && (b.None? || a.value < b.value)
  }

  predicate Before(t: Table, x: nat, y: nat)
    requires x in t && y in t
  {
    || t[x].priority < t[y].priority
    || (t[x].priority == t[y].priority && Earlier(t[x].scheduledAt, t[y].scheduledAt))
    || (t[x].priority == t[y].priority && t[x].scheduledAt == t[y].scheduledAt && x < y)
  }

  predicate IsNext(cfg: Config, t: Table, now: int, throttled: set<Option<string>>, id: nat) {
    && Eligible(cfg, t, now, throttled, id)
    && forall y | y in t && Eligible(cfg, t, now, throttled, y) && y != id :: Before(t, id, y)
  }

  lemma {:induction false} FirstOf(t: Table, ids: set<nat>) returns (first: nat)
    requires ids != {} && ids <= t.Keys
    ensures first in ids && forall y | y in ids && y != first :: Before(t, first, y)
    decreases ids
  {
    var x :| x in ids;
    if ids == {x} {
      first := x;
    } else {
      var rest := FirstOf(t, ids - {x});
      first := if Before(t, x, rest) then x else rest;
      forall y | y in ids && y != first ensures Before(t, first, y) {
        assert y == x || y in ids - {x};
      }
    }
  }

  lemma NextIsEligible(cfg: Config, t: Table, now: int, throttled: set<Option<string>>, id: nat)
    requires IsNext(cfg, t, now, throttled, id)
    ensures Eligible(cfg, t, now, throttled, id)
  {
    hide Eligible, Before;
  }

  /** The ordered query finds a row exactly when some row is eligible, and only one row can be first. */
  lemma NextExists(cfg: Config, t: Table, now: int, throttled: set<Option<string>>)
    ensures (exists x | x in t :: IsNext(cfg, t, now, throttled, x))
       <==> (exists x | x in t :: Eligible(cfg, t, now, throttled, x))
    ensures forall x, y | x in t && y in t
       && IsNext(cfg, t, now, throttled, x) && IsNext(cfg, t, now, throttled, y) :: x == y
  {
    var ids := set x | x in t && Eligible(cfg, t, now, throttled, x);
    if x :| x in t && Eligible(cfg, t, now, throttled, x) {
      assert x in ids;
      var first := FirstOf(t, ids);
      assert IsNext(cfg, t, now, throttled, first);
    }
  }

  /**
   Which rows a worker may take: pending ones, and started ones whose heartbeat
   is missing or older than the stale window, once their time has come, while
   fewer rows of their channel are started and beating than it allows (one, if
   nothing is said), unless the channel is throttled.
   */
  lemma EligibleExactly(cfg: Config, t: Table, now: int, throttled: set<Option<string>>, id: nat)
    requires id in t
    ensures
      var job := t[id];
      var beating := set x | x in t && job.channel.Some? && t[x].channel == job.channel && t[x].state == Started
        && t[x].heartbeat.Some? && t[x].heartbeat.value + cfg.staleAfter > now;
      Eligible(cfg, t, now, throttled, id) <==>
        && (job.state == Pending
            || (job.state == Started && (job.heartbeat.Some? ==> job.heartbeat.value + cfg.staleAfter < now)))
        && (job.scheduledAt.Some? ==> now >= job.scheduledAt.value)
        && job.channel !in throttled
        && |beating| < if job.channel.Some? && job.channel.value in cfg.limits then cfg.limits[job.channel.value] else 1
  {
    var job := t[id];
    var beating := set x | x in t && job.channel.Some? && t[x].channel == job.channel && t[x].state == Started
      && t[x].heartbeat.Some? && t[x].heartbeat.value + cfg.staleAfter > now;
    if job.channel.Some? {
      assert beating == FreshIn(cfg, t, job.channel.value, now);
    } else {
      assert beating == {};
    }
  }

  /** The row taken has the least priority value, among those the earliest time with none last, among those the least id. */
  lemma NextIsFirst(cfg: Config, t: Table, now: int, throttled: set<Option<string>>, x: nat, y: nat)
    requires x in t && y in t && IsNext(cfg, t, now, throttled, x) && Eligible(cfg, t, now, throttled, y)
    ensures t[x].priority <= t[y].priority
    ensures t[x].priority == t[y].priority && t[y].scheduledAt.Some? ==>
      t[x].scheduledAt.Some? && t[x].scheduledAt.value <= t[y].scheduledAt.value
    ensures t[x].priority == t[y].priority && t[x].scheduledAt == t[y].scheduledAt ==> x <= y
  {}

  /** A new job can be taken from the time it asks for on, if it follows nothing and its channel, or "root", has room. */
  lemma NewRowDueExactly(cfg: Config, t: Table, id: nat, req: Request, at: int, now: int, throttled: set<Option<string>>)
    requires id !in t
    ensures
      var channel := if req.channel.None? || req.channel.value == "" then Some("root") else req.channel;
      Eligible(cfg, t[id := NewRow(req, at)], now, throttled, id) <==>
        && req.parent.None? && req.deps == []
        && (req.scheduledAt.Some? ==> req.scheduledAt.value <= now)
        && channel !in throttled && Running(cfg, t, channel, now) < Limit(cfg, channel)
  {
    var channel := if req.channel.None? || req.channel.value == "" then "root" else req.channel.value;
    assert FreshIn(cfg, t[id := NewRow(req, at)], channel, now) == FreshIn(cfg, t, channel, now);
  }

  // ---- attempts and backoff -------------------------------------------------

  function Pow2(n: nat): nat { if n == 0 then 1 else 2 * Pow2(n - 1) }

  function Min(a: int, b: int): int { if a < b then a else b }

  /** Seconds before the next try once `attempts` have been counted. */
  function Backoff(attempts: int, cap: nat): int {
    Min(10 * Pow2(if attempts <= 1 then 0 else attempts - 1), cap)
  }

  /** `max_retries` set and exceeded; 0 and NULL mean retry for ever. */
  predicate Exhausted(maxRetries: Option<int>, attempts: int) {
    maxRetries.Some? && maxRetries.value != 0 && attempts > maxRetries.value
  }

  /** The CASE guard of `_handle_timeout`, with SQL's three-valued reading of NULL. */
  predicate PacesAfterTimeout(maxRetries: Option<int>, attempts: Option<int>) {
    maxRetries.Some? && (maxRetries.value == 0 || OrElse(attempts, 1) < maxRetries.value)
  }

  // ---- acquire --------------------------------------------------------------

  function StartRow(job: Job, worker: nat, now: int): Job {
    job.(state := Started, heartbeat := Some(now), worker := Some(worker), startedAt := Some(now))
  }

  /** The SQL cascade of an exhausted reclaim: children one hop down, then barriers. */
  function ReclaimCascade(t: Table, id: nat): Table {
    map x | x in t ::
      if t[x].state == Waiting && (t[x].parent == Some(id) || id in t[x].deps) then
        if t[x].runOnFailure then Promote(t[x])
        else t[x].(state := Failed, exc := [ParentDied(id)])
      else t[x]
  }

  function DiedRow(job: Job, attempts: int, now: int): Job {
    job.(state := Failed, attempts := Some(attempts), exc := job.exc + [WorkerDied],
         completedAt := Some(now), worker := None, heartbeat := None)
  }

  /** `acquire_job_lock` on the row its query selected; the flag says whether the job was taken. */
  function AcquireRow(t: Table, id: nat, worker: nat, now: int): (Table, bool)
    requires id in t
  {
    if t[id].state != Started then (t[id := StartRow(t[id], worker, now)], true)
    else
      var attempts := OrElse(t[id].attempts, 0) + 1;
      if Exhausted(t[id].maxRetries, attempts) then
        (ReclaimCascade(t[id := DiedRow(t[id], attempts, now)], id), false)
      else (t[id := StartRow(t[id], worker, now).(attempts := Some(attempts))], true)
  }

  /** Reclaiming the row would exceed its budget, so it is failed instead of started again. */
  predicate GivesUpReclaiming(t: Table, id: nat) {
    id in t && t[id].state == Started && Exhausted(t[id].maxRetries, OrElse(t[id].attempts, 0) + 1)
  }

  /** One call of `acquire_job_lock`: at most one row is selected, and it is the next one. */
  ghost predicate Acquires(cfg: Config, t: Table, worker: nat, now: int, throttled: set<Option<string>>,
                           t': Table, got: Option<nat>)
  {
    || (exists id | id in t ::
          && IsNext(cfg, t, now, throttled, id)
          && t' == AcquireRow(t, id, worker, now).0
          && got == if AcquireRow(t, id, worker, now).1 then Some(id) else None)
    || ((forall x | x in t :: !Eligible(cfg, t, now, throttled, x)) && t' == t && got == None)
  }

  // ---- while an attempt runs ------------------------------------------------

  /** `_heartbeat_job` */
  function Beat(t: Table, id: nat, worker: nat, now: int): Table {
    if id in t && t[id].state == Started && t[id].worker == Some(worker)
    then t[id := t[id].(heartbeat := Some(now))] else t
  }

  /** `update_heartbeats`: guarded by owner but not by state. */
  function BeatAll(t: Table, ids: set<nat>, worker: nat, now: int): Table {
    map x | x in t ::
      if x in ids && t[x].worker == Some(worker) then t[x].(heartbeat := Some(now)) else t[x]
  }

  /** `_handle_timeout`: the row keeps its state, owner and heartbeat. */
  function HoldAfterTimeout(cfg: Config, t: Table, id: nat, worker: nat, now: int, seconds: nat): Table {
    if id in t && t[id].state == Started && t[id].worker == Some(worker) then
      t[id := t[id].(
        exc := [TimedOut(seconds)],
        scheduledAt :=
          if PacesAfterTimeout(t[id].maxRetries, t[id].attempts)
          then Some(now + Backoff(OrElse(t[id].attempts, 1), cfg.maxBackoff))
          else t[id].scheduledAt)]
    else t
  }

  /** `_clear_worker_ownership` */
  function ClearOwner(t: Table, id: nat, worker: nat): Table {
    if id in t && t[id].worker == Some(worker)
    then t[id := t[id].(worker := None, heartbeat := None)] else t
  }

  // ---- how an attempt ends --------------------------------------------------

  datatype Outcome =
    | Success
    | Generic
    | Retryable(seconds: Option<int>, ignoreRetry: bool)
    | RegistryMissing(seconds: Option<int>)

  function RetryRow(job: Job, attempts: Option<int>, at: int): Job {
    job.(state := Pending, attempts := attempts, scheduledAt := Some(at),
         worker := None, heartbeat := None, exc := [Raised])
  }

  function FailedRow(job: Job, attempts: Option<int>, now: int): Job {
    job.(state := Failed, attempts := attempts, completedAt := Some(now), scheduledAt := None,
         worker := None, heartbeat := None, exc := [Raised])
  }

  /** Whether `handle_exception` gives up on the job. */
  predicate GivesUp(cfg: Config, job: Job, outcome: Outcome, now: int) {
    match outcome
    case RegistryMissing(_) => now - job.createdAt >= cfg.registryMaxAge
    case Generic => Exhausted(job.maxRetries, OrElse(job.attempts, 0) + 1)
    case _ => false
  }

  /** The row `handle_exception` writes. */
  function ExceptionRow(cfg: Config, job: Job, outcome: Outcome, now: int): Job {
    var counted := OrElse(job.attempts, 0) + 1;
    match outcome
    case Success => job
    case RegistryMissing(seconds) =>
      if GivesUp(cfg, job, outcome, now) then FailedRow(job, job.attempts, now)
      else
        var delay := if seconds.None? || seconds.value == 0 then cfg.registryInterval else seconds.value;
        RetryRow(job, job.attempts, now + delay)
    case Retryable(seconds, ignoreRetry) =>
      var attempts := if ignoreRetry then job.attempts else Some(counted);
      RetryRow(job, attempts, now + OrElse(seconds, Backoff(OrElse(attempts, 0), cfg.maxBackoff)))
    case Generic =>
      if GivesUp(cfg, job, outcome, now) then FailedRow(job, Some(counted), now)
      else RetryRow(job, Some(counted), now + Backoff(counted, cfg.maxBackoff))
  }

  /** `finalize_job` or `handle_exception`; neither looks at the row's state or owner. */
  ghost function EndAttempt(cfg: Config, t: Table, id: nat, outcome: Outcome, now: int): Table
    requires id in t
  {
    if outcome.Success? then Succeed(t, id, now)
    else
      var t' := t[id := ExceptionRow(cfg, t[id], outcome, now)];
      if GivesUp(cfg, t[id], outcome, now) then FailBelow(t', id) else t'
  }
}
