/**
 The whole queue as one state machine: the table, a clock, and the attempts
 whose job method may still be running.  Each committed transaction is one step.
 */
module Protocol {
  import opened JobTable
  import opened Cancel
  import opened Outcomes
  import opened Intake
  import opened WorkerRows

  /** A pool thread inside a job; `timedOut` once its heartbeat loop has given up on it. */
  datatype Attempt = Attempt(job: nat, worker: nat, timedOut: bool)

  datatype Sys = Sys(rows: Table, now: int, attempts: map<nat, Attempt>)

  datatype Event =
    | Tick(elapsed: nat)
    | Insert(id: nat, req: Request)
    | Acquire(who: nat, throttled: set<Option<string>>, slot: nat)
    | Heartbeat(attempt: nat)
    | HeartbeatAll(who: nat, jobs: set<nat>)
    | Overrun(attempt: nat, seconds: nat)
    | Finish(attempt: nat, outcome: Outcome)
    | LetGo(attempt: nat)
    | Vanish(attempt: nat)
    | CancelPressed(ids: seq<nat>)
    | SetFailedPressed(ids: seq<nat>)
    | SetDonePressed(ids: seq<nat>)
    | RequeuePressed(ids: seq<nat>)
    | Autovacuum(cutoff: int)

  /** An operator's press names its jobs. */
  predicate Presses(event: Event) {
    event.CancelPressed? || event.SetFailedPressed? || event.SetDonePressed? || event.RequeuePressed?
  }

  predicate Names(event: Event, id: nat) { Presses(event) && id in event.ids }

  ghost predicate Step(cfg: Config, s: Sys, event: Event, s': Sys) {
    match event
    case Tick(elapsed) => s' == s.(now := s.now + elapsed)
    // ids come from a sequence, so none is handed out again while its job runs
    case Insert(id, req) =>
      && id !in s.rows && (forall a | a in s.attempts :: s.attempts[a].job != id)
      && !Reused(s.rows, NewRow(req, s.now))
      && s' == s.(rows := s.rows[id := NewRow(req, s.now)])
    case Acquire(who, throttled, slot) =>
      && slot !in s.attempts
      && s'.now == s.now
      && exists got ::
           && Acquires(cfg, s.rows, who, s.now, throttled, s'.rows, got)
           && s'.attempts == if got.Some? then s.attempts[slot := Attempt(got.value, who, false)] else s.attempts
    case Heartbeat(a) =>
      a in s.attempts && s' == s.(rows := Beat(s.rows, s.attempts[a].job, s.attempts[a].worker, s.now))
    case HeartbeatAll(who, jobs) =>
      && (forall j | j in jobs :: exists a | a in s.attempts :: s.attempts[a].job == j && s.attempts[a].worker == who)
      && s' == s.(rows := BeatAll(s.rows, jobs, who, s.now))
    case Overrun(a, seconds) =>
      && a in s.attempts && !s.attempts[a].timedOut
      && s' == s.(
           rows := HoldAfterTimeout(cfg, s.rows, s.attempts[a].job, s.attempts[a].worker, s.now, seconds),
           attempts := s.attempts[a := s.attempts[a].(timedOut := true)])
    case Finish(a, outcome) =>
      && a in s.attempts && !s.attempts[a].timedOut && s.attempts[a].job in s.rows
      && s' == s.(
           rows := EndAttempt(cfg, s.rows, s.attempts[a].job, outcome, s.now),
           attempts := s.attempts - {a})
    // a timed-out method returned or raised: the claim is released, the result dropped
    case LetGo(a) =>
      && a in s.attempts && s.attempts[a].timedOut
      && s' == s.(
           rows := ClearOwner(s.rows, s.attempts[a].job, s.attempts[a].worker),
           attempts := s.attempts - {a})
    // the process died, or the timeout fired between the side-effect commit and the finalize
    case Vanish(a) => a in s.attempts && s' == s.(attempts := s.attempts - {a})
    case CancelPressed(ids) =>
      Existing(s.rows, ids) && s' == s.(rows := CancelButton(s.rows, (set x | x in ids), s.now))
    case SetFailedPressed(ids) =>
      Existing(s.rows, ids) && s' == s.(rows := SetFailedButton(s.rows, ids, s.now))
    case SetDonePressed(ids) =>
      Existing(s.rows, ids) && s' == s.(rows := SetDoneButton(s.rows, ids, s.now))
    case RequeuePressed(ids) =>
      Existing(s.rows, ids) && s' == s.(rows := RequeueEach(s.rows, ids))
    case Autovacuum(cutoff) =>
      s' == s.(rows := Unlink(s.rows, ExpiredIds(s.rows, cutoff)))
  }

  predicate Existing(t: Table, ids: seq<nat>) { forall id | id in ids :: id in t }

  /** A finite run: one more state than events. */
  ghost predicate IsRun(cfg: Config, states: seq<Sys>, events: seq<Event>) {
    && |states| == |events| + 1
    && forall i | 0 <= i < |events| :: Step(cfg, states[i], events[i], states[i + 1])
  }
}
