/**
 A timed-out attempt keeps its row, so that only the end of its thread or a
 stale heartbeat gives the job away.  When does that heartbeat go stale?
 */
module Backstop {
  import opened JobTable
  import opened Intake
  import opened WorkerRows
  import opened Settling
  import opened Protocol
  import opened Steps

  /** Worker `who` has started row `id` and given it a heartbeat. */
  predicate Held(t: Table, id: nat, who: nat) {
    id in t && t[id].state == Started && t[id].worker == Some(who) && t[id].heartbeat.Some?
  }

  /** The attempts at `id` do not end, no press names it, and no acquire selects it. */
  ghost predicate LeavesHeld(cfg: Config, s: Sys, event: Event, id: nat) {
    && !Names(event, id)
    && (event.Finish? || event.LetGo? ==> event.attempt in s.attempts ==> s.attempts[event.attempt].job != id)
    && (event.Acquire? ==> !IsNext(cfg, s.rows, s.now, event.throttled, id))
  }

  /** Worker `who` writes the heartbeat of `id`, on its own or in its batch of active jobs. */
  predicate Beats(s: Sys, event: Event, id: nat, who: nat) {
    || (event.Heartbeat? && event.attempt in s.attempts
        && s.attempts[event.attempt].job == id && s.attempts[event.attempt].worker == who)
    || (event.HeartbeatAll? && event.who == who && id in event.jobs)
  }

  /** The row is held as before, and only such a heartbeat moves its own. */
  predicate HeldOn(s: Sys, event: Event, s': Sys, id: nat, who: nat)
    requires id in s.rows
  {
    && Held(s'.rows, id, who) && s.now <= s'.now
    && s'.rows[id].heartbeat == if Beats(s, event, id, who) then Some(s.now) else s.rows[id].heartbeat
  }

  lemma AcquireHolds(cfg: Config, s: Sys, event: Event, s': Sys, id: nat, who: nat)
    requires Step(cfg, s, event, s') && event.Acquire? && Held(s.rows, id, who) && LeavesHeld(cfg, s, event, id)
    ensures HeldOn(s, event, s', id, who)
  {
    hide Step, IsNext, Eligible, AcquiredRow;
    var taken := AcquireTakesNext(cfg, s, event, s');
    if taken.Some? {
      WritesAt(s.rows, taken.value, AcquiredRow(s.rows[taken.value], event.who, s.now), s'.rows, id);
    }
  }

  lemma FinishHolds(cfg: Config, s: Sys, event: Event, s': Sys, id: nat, who: nat)
    requires Step(cfg, s, event, s') && event.Finish? && Held(s.rows, id, who) && LeavesHeld(cfg, s, event, id)
    ensures HeldOn(s, event, s', id, who)
  {
    FinishFinds(cfg, s, event, s');
    FinishWrites(cfg, s, event, s');
    assert s'.now == s.now;
    hide Step, EndedRow;
    var job := s.attempts[event.attempt].job;
    WritesAt(s.rows, job, EndedRow(cfg, s.rows[job], event.outcome, s.now), s'.rows, id);
  }

  lemma PressHolds(cfg: Config, s: Sys, event: Event, s': Sys, id: nat, who: nat)
    requires Step(cfg, s, event, s') && Presses(event) && Held(s.rows, id, who) && LeavesHeld(cfg, s, event, id)
    ensures HeldOn(s, event, s', id, who)
  {
    hide Step;
    PressSettlesOutside(cfg, s, event, s');
    assert Settles(s.rows[id], s'.rows[id]);
  }

  lemma StepHolds(cfg: Config, s: Sys, event: Event, s': Sys, id: nat, who: nat)
    requires Step(cfg, s, event, s') && Held(s.rows, id, who) && LeavesHeld(cfg, s, event, id)
    ensures HeldOn(s, event, s', id, who)
  {
    if event.Acquire? {
      AcquireHolds(cfg, s, event, s', id, who);
    } else if event.Finish? {
      FinishHolds(cfg, s, event, s', id, who);
    } else if Presses(event) {
      PressHolds(cfg, s, event, s', id, who);
    } else {
      hide Backoff, PacesAfterTimeout, Reused, NewRow;
    }
  }

  /** A run in which `who` holds `id` from the start and nothing takes it away. */
  ghost predicate Holding(cfg: Config, states: seq<Sys>, events: seq<Event>, id: nat, who: nat) {
    && IsRun(cfg, states, events)
    && Held(states[0].rows, id, who) && states[0].rows[id].heartbeat.value <= states[0].now
    && forall k | 0 <= k < |events| :: LeavesHeld(cfg, states[k], events[k], id)
  }

  /** Up to state `i` the heartbeats of `who` all came before `bound`. */
  ghost predicate SilentSince(states: seq<Sys>, events: seq<Event>, id: nat, who: nat, bound: int, i: nat)
    requires i <= |events| && i <= |states|
  {
    forall k | 0 <= k < i && Beats(states[k], events[k], id, who) :: states[k].now < bound
  }

  lemma {:induction false} HeartbeatsSince(
    cfg: Config, states: seq<Sys>, events: seq<Event>, id: nat, who: nat, bound: int, i: nat)
    requires Holding(cfg, states, events, id, who) && i < |states|
    ensures Held(states[i].rows, id, who) && states[i].rows[id].heartbeat.value <= states[i].now
    ensures states[i].rows[id].heartbeat.value < bound <==>
      states[0].rows[id].heartbeat.value < bound && SilentSince(states, events, id, who, bound, i)
    decreases i
  {
    if i > 0 {
      var k := i - 1;
      HeartbeatsSince(cfg, states, events, id, who, bound, k);
      assert Step(cfg, states[k], events[k], states[i]) && LeavesHeld(cfg, states[k], events[k], id);
      hide Step, LeavesHeld, Beats;
      StepHolds(cfg, states[k], events[k], states[i], id, who);
    }
  }

  /**
   However long its thread has overrun, a held row is stale exactly if it has
   got no heartbeat for the stale window: while the worker goes on writing its
   batch of active jobs, which the attempt leaves only when its thread returns,
   the reclaim does not come.
   */
  lemma HeldGoesStaleExactly(cfg: Config, states: seq<Sys>, events: seq<Event>, id: nat, who: nat, i: nat)
    requires Holding(cfg, states, events, id, who) && i < |states|
    ensures id in states[i].rows
    ensures
      var bound := states[i].now - cfg.staleAfter;
      Stale(cfg, states[i].rows[id], states[i].now) <==>
        && states[0].rows[id].heartbeat.value < bound
        && forall k | 0 <= k < i && Beats(states[k], events[k], id, who) :: states[k].now < bound
  {
    hide Holding, Beats;
    HeartbeatsSince(cfg, states, events, id, who, states[i].now - cfg.staleAfter, i);
  }
}
