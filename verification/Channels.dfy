/** Per-channel concurrency limits, over whole runs with serialised acquires. */
module Channels {
  import opened JobTable
  import opened WorkerRows
  import opened Protocol
  import opened Steps

  ghost predicate WithinLimits(cfg: Config, s: Sys) {
    forall channel :: |FreshIn(cfg, s.rows, channel, s.now)| <= Limit(cfg, Some(channel))
  }

  /** A heartbeat by the owner refreshes only rows that are still fresh; others write nothing. */
  ghost predicate BeatsInTime(cfg: Config, s: Sys, event: Event) {
    match event
    case Heartbeat(a) => a in s.attempts ==> NotLate(cfg, s, s.attempts[a].job, s.attempts[a].worker)
    case HeartbeatAll(who, jobs) => forall j | j in jobs :: NotLate(cfg, s, j, who)
    case _ => true
  }

  predicate NotLate(cfg: Config, s: Sys, id: nat, who: nat) {
    id in s.rows && s.rows[id].state == Started && s.rows[id].worker == Some(who) ==> Fresh(cfg, s.rows[id], s.now)
  }

  /** Every fresh row outside `extra` was already fresh, in the same channel. */
  ghost predicate FreshOnlyFrom(cfg: Config, s: Sys, s': Sys, extra: set<nat>) {
    forall x | x in s'.rows && x !in extra && Fresh(cfg, s'.rows[x], s'.now) ::
      x in s.rows && Fresh(cfg, s.rows[x], s.now) && s.rows[x].channel == s'.rows[x].channel
  }

  lemma FreshBound(cfg: Config, s: Sys, s': Sys, extra: set<nat>, channel: string)
    requires FreshOnlyFrom(cfg, s, s', extra)
    ensures |FreshIn(cfg, s'.rows, channel, s'.now)| <= |FreshIn(cfg, s.rows, channel, s.now) + extra|
  {
    var after := FreshIn(cfg, s'.rows, channel, s'.now);
    var before := FreshIn(cfg, s.rows, channel, s.now) + extra;
    assert after <= before;
    assert before == after + (before - after);
  }

  lemma NoFreshRows(cfg: Config, s: Sys, s': Sys)
    requires WithinLimits(cfg, s) && FreshOnlyFrom(cfg, s, s', {})
    ensures WithinLimits(cfg, s')
  {
    forall channel ensures |FreshIn(cfg, s'.rows, channel, s'.now)| <= Limit(cfg, Some(channel)) {
      FreshBound(cfg, s, s', {}, channel);
      assert FreshIn(cfg, s.rows, channel, s.now) + {} == FreshIn(cfg, s.rows, channel, s.now);
    }
  }

  lemma AcquireWithinLimits(cfg: Config, s: Sys, event: Event, s': Sys)
    requires Step(cfg, s, event, s') && event.Acquire? && WithinLimits(cfg, s)
    ensures WithinLimits(cfg, s')
  {
    hide Step;
    var taken := AcquireTakes(cfg, s, event, s');
    if taken.Some? {
      var id := taken.value;
      assert FreshOnlyFrom(cfg, s, s', {id});
      assert s'.rows[id].channel == s.rows[id].channel;
      forall channel ensures |FreshIn(cfg, s'.rows, channel, s'.now)| <= Limit(cfg, Some(channel)) {
        if s.rows[id].channel == Some(channel) {
          FreshBound(cfg, s, s', {id}, channel);
        } else {
          var after, before := FreshIn(cfg, s'.rows, channel, s'.now), FreshIn(cfg, s.rows, channel, s.now);
          assert after <= before;
          assert before == after + (before - after);
        }
      }
    }
  }

  lemma OtherStepAddsNoFresh(cfg: Config, s: Sys, event: Event, s': Sys)
    requires Step(cfg, s, event, s') && BeatsInTime(cfg, s, event)
    requires !event.Acquire?
    ensures FreshOnlyFrom(cfg, s, s', {})
  {
    hide Step;
    if event.Finish? {
      FinishAddsNoFresh(cfg, s, event, s');
    } else if event.CancelPressed? || event.SetFailedPressed? || event.SetDonePressed?
            || event.RequeuePressed? || event.Autovacuum? || event.Insert? {
      ButtonStartsNothing(cfg, s, event, s');
    } else {
      WorkerStepAddsNoFresh(cfg, s, event, s');
    }
  }

  lemma FinishAddsNoFresh(cfg: Config, s: Sys, event: Event, s': Sys)
    requires Step(cfg, s, event, s') && event.Finish?
    ensures FreshOnlyFrom(cfg, s, s', {})
  {
    FinishWrites(cfg, s, event, s');
    assert s'.now == s.now;
    hide Step;
  }

  lemma WorkerStepAddsNoFresh(cfg: Config, s: Sys, event: Event, s': Sys)
    requires Step(cfg, s, event, s') && BeatsInTime(cfg, s, event)
    requires event.Tick? || event.Heartbeat? || event.HeartbeatAll? || event.Overrun? || event.LetGo? || event.Vanish?
    ensures FreshOnlyFrom(cfg, s, s', {})
  {}

  /**
   In every run whose heartbeats come in time, buttons and autovacuum
   included, no named channel ever has more fresh started rows than its limit
   (1 for a channel without a limit row).
   */
  lemma {:induction false} LimitsHold(cfg: Config, states: seq<Sys>, events: seq<Event>, i: nat)
    requires IsRun(cfg, states, events) && i < |states|
    requires forall k | 0 <= k < |events| :: BeatsInTime(cfg, states[k], events[k])
    requires WithinLimits(cfg, states[0])
    ensures WithinLimits(cfg, states[i])
  {
    hide Step, WithinLimits, BeatsInTime;
    if i > 0 {
      LimitsHold(cfg, states, events, i - 1);
      if events[i - 1].Acquire? {
        AcquireWithinLimits(cfg, states[i - 1], events[i - 1], states[i]);
      } else {
        OtherStepAddsNoFresh(cfg, states[i - 1], events[i - 1], states[i]);
        NoFreshRows(cfg, states[i - 1], states[i]);
      }
    }
  }

  predicate Revives(cfg: Config, s: Sys, attempt: Attempt) {
    && attempt.job in s.rows
    && s.rows[attempt.job].state == Started
    && s.rows[attempt.job].worker == Some(attempt.worker)
    && !Fresh(cfg, s.rows[attempt.job], s.now)
  }

  lemma FreshAfterBeat(cfg: Config, s: Sys, attempt: Attempt, channel: string)
    requires cfg.Valid()
    ensures
      var before := FreshIn(cfg, s.rows, channel, s.now);
      var after := FreshIn(cfg, Beat(s.rows, attempt.job, attempt.worker, s.now), channel, s.now);
      if Revives(cfg, s, attempt) && s.rows[attempt.job].channel == Some(channel)
      then attempt.job !in before && after == before + {attempt.job}
      else after == before
  {}

  /**
   Why heartbeats must come in time: a late one breaks the limit exactly when
   it revives a row that had gone quiet in a channel already at its limit.
   */
  lemma LateHeartbeatExceedsExactly(cfg: Config, s: Sys, event: Event, s': Sys)
    requires Step(cfg, s, event, s') && event.Heartbeat? && WithinLimits(cfg, s)
    requires cfg.Valid()
    ensures
      var attempt := s.attempts[event.attempt];
      WithinLimits(cfg, s') <==>
        !(&& Revives(cfg, s, attempt)
          && var channel := s.rows[attempt.job].channel;
             channel.Some? && Running(cfg, s.rows, channel, s.now) == Limit(cfg, channel))
  {
    var attempt := s.attempts[event.attempt];
    assert s'.rows == Beat(s.rows, attempt.job, attempt.worker, s.now) && s'.now == s.now;
    assert Revives(cfg, s, attempt) ==> attempt.job in s.rows;
    hide Step, Beat, FreshIn, Revives, Limit;
    forall channel
      ensures
        var before := FreshIn(cfg, s.rows, channel, s.now);
        |FreshIn(cfg, s'.rows, channel, s'.now)| ==
          if Revives(cfg, s, attempt) && s.rows[attempt.job].channel == Some(channel) then |before| + 1 else |before|
    {
      FreshAfterBeat(cfg, s, attempt, channel);
    }
  }
}
