/** The state machine moves: when each of its steps can be taken, and what it does to clock and attempts. */
module Machine {
  import opened JobTable
  import opened Outcomes
  import opened Intake
  import opened WorkerRows
  import opened Cancel
  import opened Protocol

  /** When the program can take the step. */
  ghost predicate Possible(s: Sys, event: Event) {
    match event
    case Insert(id, req) =>
      && id !in s.rows && (forall a | a in s.attempts :: s.attempts[a].job != id)
      && !KeyIsLive(s.rows, req.identityKey)
    case Acquire(_, _, slot) => slot !in s.attempts
    case Heartbeat(a) => a in s.attempts
    case HeartbeatAll(who, jobs) =>
      forall j | j in jobs :: exists a | a in s.attempts :: s.attempts[a].job == j && s.attempts[a].worker == who
    case Overrun(a, _) => a in s.attempts && !s.attempts[a].timedOut
    case Finish(a, _) => a in s.attempts && !s.attempts[a].timedOut && s.attempts[a].job in s.rows
    case LetGo(a) => a in s.attempts && s.attempts[a].timedOut
    case Vanish(a) => a in s.attempts
    case Tick(_) => true
    case Autovacuum(_) => true
    case CancelPressed(ids) => forall id | id in ids :: id in s.rows
    case SetFailedPressed(ids) => forall id | id in ids :: id in s.rows
    case SetDonePressed(ids) => forall id | id in ids :: id in s.rows
    case RequeuePressed(ids) => forall id | id in ids :: id in s.rows
  }

  lemma AcquireMoves(cfg: Config, s: Sys, event: Event) returns (s': Sys)
    requires event.Acquire? && event.slot !in s.attempts
    ensures Step(cfg, s, event, s')
  {
    hide IsNext, Eligible, AcquireRow;
    if id :| id in s.rows && IsNext(cfg, s.rows, s.now, event.throttled, id) {
      var (t', taken) := AcquireRow(s.rows, id, event.who, s.now);
      var got := if taken then Some(id) else None;
      s' := Sys(t', s.now, if taken then s.attempts[event.slot := Attempt(id, event.who, false)] else s.attempts);
      assert Acquires(cfg, s.rows, event.who, s.now, event.throttled, t', got);
    } else {
      s' := s;
      NextExists(cfg, s.rows, s.now, event.throttled);
      assert Acquires(cfg, s.rows, event.who, s.now, event.throttled, s.rows, None);
    }
  }

  /** A step is possible exactly then, so that no law about runs holds for want of runs. */
  lemma MovesExactly(cfg: Config, s: Sys, event: Event)
    ensures (exists s' :: Step(cfg, s, event, s')) <==> Possible(s, event)
  {
    hide CancelButton, SetFailedButton, SetDoneButton, RequeueEach, EndAttempt, Acquires, Reused, Beat, BeatAll,
         HoldAfterTimeout, ClearOwner, Unlink, ExpiredIds;
    if Possible(s, event) && event.Acquire? {
      var s' := AcquireMoves(cfg, s, event);
    } else if Possible(s, event) {
      var s' := After(cfg, s, event);
      InsertReuses(s, event);
      assert Step(cfg, s, event, s');
    } else {
      InsertReuses(s, event);
    }
  }

  lemma InsertReuses(s: Sys, event: Event)
    ensures event.Insert? ==> (Reused(s.rows, NewRow(event.req, s.now)) <==> KeyIsLive(s.rows, event.req.identityKey))
  {
    if event.Insert? { ReusedExactly(s.rows, NewRow(event.req, s.now)); }
  }

  /** The state after any possible step but an acquire, in terms of the methods' table functions. */
  ghost function After(cfg: Config, s: Sys, event: Event): Sys
    requires Possible(s, event) && !event.Acquire?
  {
    match event
    case Tick(elapsed) => Sys(s.rows, s.now + elapsed, s.attempts)
    case Insert(id, req) => Sys(s.rows[id := NewRow(req, s.now)], s.now, s.attempts)
    case Heartbeat(a) => Sys(Beat(s.rows, s.attempts[a].job, s.attempts[a].worker, s.now), s.now, s.attempts)
    case HeartbeatAll(who, jobs) => Sys(BeatAll(s.rows, jobs, who, s.now), s.now, s.attempts)
    case Overrun(a, seconds) =>
      var one := s.attempts[a];
      Sys(HoldAfterTimeout(cfg, s.rows, one.job, one.worker, s.now, seconds), s.now,
          s.attempts[a := Attempt(one.job, one.worker, true)])
    case Finish(a, outcome) => Sys(EndAttempt(cfg, s.rows, s.attempts[a].job, outcome, s.now), s.now, s.attempts - {a})
    case LetGo(a) => Sys(ClearOwner(s.rows, s.attempts[a].job, s.attempts[a].worker), s.now, s.attempts - {a})
    case Vanish(a) => Sys(s.rows, s.now, s.attempts - {a})
    case CancelPressed(ids) => Sys(CancelButton(s.rows, (set x | x in ids), s.now), s.now, s.attempts)
    case SetFailedPressed(ids) => Sys(SetFailedButton(s.rows, ids, s.now), s.now, s.attempts)
    case SetDonePressed(ids) => Sys(SetDoneButton(s.rows, ids, s.now), s.now, s.attempts)
    case RequeuePressed(ids) => Sys(RequeueEach(s.rows, ids), s.now, s.attempts)
    case Autovacuum(cutoff) => Sys(Unlink(s.rows, ExpiredIds(s.rows, cutoff)), s.now, s.attempts)
    case _ => s
  }

  /** But for an acquire, that is the only state after it. */
  lemma MovesToExactly(cfg: Config, s: Sys, event: Event, s': Sys)
    requires !event.Acquire?
    ensures Step(cfg, s, event, s') <==> Possible(s, event) && s' == After(cfg, s, event)
  {
    hide CancelButton, SetFailedButton, SetDoneButton, RequeueEach, EndAttempt, Acquires, Reused, Beat, BeatAll,
         HoldAfterTimeout, ClearOwner, Unlink, ExpiredIds;
    InsertReuses(s, event);
  }
}
