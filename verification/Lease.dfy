/** When a started job may change hands, and why no job runs twice at once while heartbeats are kept up. */
module Lease {
  import opened JobTable
  import opened Cancel
  import opened Outcomes
  import opened Intake
  import opened WorkerRows
  import opened Settling
  import opened Protocol
  import opened Steps

  /** No press names the job of a running attempt. */
  ghost predicate Spares(s: Sys, event: Event) {
    forall a | a in s.attempts :: !Names(event, s.attempts[a].job)
  }

  /** Every running attempt owns a started row that carries a heartbeat. */
  ghost predicate Leased(s: Sys) {
    forall a | a in s.attempts :: Owns(s, s.attempts[a])
  }

  predicate Owns(s: Sys, attempt: Attempt) {
    && attempt.job in s.rows
    && s.rows[attempt.job].state == Started
    && s.rows[attempt.job].worker == Some(attempt.worker)
    && s.rows[attempt.job].heartbeat.Some?
  }

  ghost predicate Exclusive(s: Sys) {
    forall a, b | a in s.attempts && b in s.attempts && a != b :: s.attempts[a].job != s.attempts[b].job
  }

  predicate Overdue(cfg: Config, s: Sys, id: nat) {
    && id in s.rows && s.rows[id].heartbeat.Some?
    && s.rows[id].heartbeat.value < s.now - cfg.staleAfter
  }

  /** Heartbeats are kept up: no running attempt's last write has aged past the window. */
  ghost predicate Beating(cfg: Config, s: Sys) {
    forall a | a in s.attempts :: !Overdue(cfg, s, s.attempts[a].job)
  }

  /** Writes that leave a started row's state, owner and claim alone keep every lease. */
  ghost predicate KeepsClaims(t: Table, t': Table, except: set<nat>) {
    forall x | x in t && x !in except && t[x].state == Started && t[x].heartbeat.Some? ::
      && x in t' && t'[x].state == Started && t'[x].worker == t[x].worker && t'[x].heartbeat.Some?
  }

  lemma WritesKeepClaims(t: Table, id: nat, row: Job, t': Table)
    requires Writes(t, id, row, t')
    ensures KeepsClaims(t, t', {id})
  {}

  lemma LeaseKept(s: Sys, s': Sys, except: set<nat>)
    requires Leased(s) && Exclusive(s)
    requires KeepsClaims(s.rows, s'.rows, except)
    requires forall a | a in s'.attempts ::
      && a in s.attempts && s'.attempts[a].job == s.attempts[a].job
      && s'.attempts[a].worker == s.attempts[a].worker && s.attempts[a].job !in except
    ensures Leased(s') && Exclusive(s')
  {
    forall a | a in s'.attempts ensures Owns(s', s'.attempts[a]) {
      assert Owns(s, s.attempts[a]);
    }
  }

  lemma AcquireKeepsLease(cfg: Config, s: Sys, event: Event, s': Sys)
    requires Step(cfg, s, event, s') && event.Acquire?
    requires Leased(s) && Exclusive(s) && Beating(cfg, s)
    ensures Leased(s') && Exclusive(s')
  {
    hide Step;
    var taken := AcquireTakes(cfg, s, event, s');
    if taken.Some? {
      var id := taken.value;
      forall a | a in s.attempts ensures s.attempts[a].job != id {
        assert Owns(s, s.attempts[a]) && !Overdue(cfg, s, s.attempts[a].job);
      }
      hide Eligible, Beating, Settles;
      WritesKeepClaims(s.rows, id, AcquiredRow(s.rows[id], event.who, s.now), s'.rows);
      LeaseKept(s, s'.(attempts := s.attempts), {id});
      forall a | a in s'.attempts ensures Owns(s', s'.attempts[a]) {
        if a != event.slot { assert Owns(s'.(attempts := s.attempts), s.attempts[a]); }
      }
    }
  }

  lemma FinishKeepsLease(cfg: Config, s: Sys, event: Event, s': Sys)
    requires Step(cfg, s, event, s') && event.Finish?
    requires Leased(s) && Exclusive(s)
    ensures Leased(s') && Exclusive(s')
  {
    FinishWrites(cfg, s, event, s');
    hide EndAttempt;
    var id := s.attempts[event.attempt].job;
    WritesKeepClaims(s.rows, id, EndedRow(cfg, s.rows[id], event.outcome, s.now), s'.rows);
    LeaseKept(s, s', {id});
  }

  lemma StepKeepsLease(cfg: Config, s: Sys, event: Event, s': Sys)
    requires Step(cfg, s, event, s') && Spares(s, event)
    requires Leased(s) && Exclusive(s) && Beating(cfg, s)
    ensures Leased(s') && Exclusive(s')
  {
    hide Step, Leased, Exclusive, Beating, Spares;
    if event.Acquire? {
      AcquireKeepsLease(cfg, s, event, s');
    } else if event.Finish? {
      FinishKeepsLease(cfg, s, event, s');
    } else if event.LetGo? {
      LetGoKeepsLease(cfg, s, event, s');
    } else if Presses(event) {
      PressKeepsLease(cfg, s, event, s');
    } else {
      QuietStepKeepsLease(cfg, s, event, s');
    }
  }

  lemma LetGoKeepsLease(cfg: Config, s: Sys, event: Event, s': Sys)
    requires Step(cfg, s, event, s') && event.LetGo? && Leased(s) && Exclusive(s)
    ensures Leased(s') && Exclusive(s')
  {
    LeaseKept(s, s', {s.attempts[event.attempt].job});
  }

  lemma PressKeepsLease(cfg: Config, s: Sys, event: Event, s': Sys)
    requires Step(cfg, s, event, s') && Presses(event) && Spares(s, event) && Leased(s) && Exclusive(s)
    ensures Leased(s') && Exclusive(s')
  {
    hide Step, Leased, Exclusive;
    PressSettlesOutside(cfg, s, event, s');
    LeaseKept(s, s', Ids(event.ids));
  }

  lemma QuietStepKeepsLease(cfg: Config, s: Sys, event: Event, s': Sys)
    requires Step(cfg, s, event, s') && !Presses(event)
    requires !event.Acquire? && !event.Finish? && !event.LetGo? && Leased(s) && Exclusive(s)
    ensures Leased(s') && Exclusive(s')
  {
    hide Leased, Exclusive, Acquires, EndAttempt, CancelButton, SetFailedButton, SetDoneButton, RequeueEach,
         Backoff, PacesAfterTimeout, Reused;
    LeaseKept(s, s', {});
  }

  /**
   No double execution: in every run in which no operator's press names a
   running job and running attempts keep their heartbeats up, no job ever has
   two running attempts, and each running attempt is the owner of its row.
   */
  lemma {:induction false} NoJobRunsTwice(cfg: Config, states: seq<Sys>, events: seq<Event>, i: nat)
    requires IsRun(cfg, states, events) && i < |states|
    requires forall k | 0 <= k < |events| :: Spares(states[k], events[k])
    requires forall k | 0 <= k < |states| :: Beating(cfg, states[k])
    requires Leased(states[0]) && Exclusive(states[0])
    ensures Leased(states[i]) && Exclusive(states[i])
  {
    hide Step, Spares, Beating, Leased, Exclusive;
    if i > 0 {
      NoJobRunsTwice(cfg, states, events, i - 1);
      StepKeepsLease(cfg, states[i - 1], events[i - 1], states[i]);
    }
  }

  predicate RunsAlready(s: Sys, id: nat) { exists a | a in s.attempts :: s.attempts[a].job == id }

  /**
   Exactly when an acquire starts a second attempt: the row that is next in line
   has a running one and a budget for more.  Its heartbeat is then overdue.
   */
  lemma AcquireOverlapsExactly(cfg: Config, s: Sys, event: Event, s': Sys)
    requires Step(cfg, s, event, s') && event.Acquire?
    requires Leased(s) && Exclusive(s)
    ensures Exclusive(s') <==>
      !(exists id | id in s.rows && IsNext(cfg, s.rows, s.now, event.throttled, id) ::
          !GivesUpReclaiming(s.rows, id) && RunsAlready(s, id))
    ensures forall id | id in s.rows && IsNext(cfg, s.rows, s.now, event.throttled, id) && RunsAlready(s, id) ::
      Overdue(cfg, s, id)
  {
    hide Step, IsNext, Running, Limit, Writes;
    var taken := AcquireTakesNext(cfg, s, event, s');
    if taken.Some? {
      var id := taken.value;
      if RunsAlready(s, id) {
        var a :| a in s.attempts && s.attempts[a].job == id;
        assert Owns(s, s.attempts[a]);
        if !GivesUpReclaiming(s.rows, id) {
          assert s'.attempts[a].job == s'.attempts[event.slot].job;
        }
      } else {
        forall a | a in s.attempts ensures s.attempts[a].job != id {}
      }
    }
  }

  // ---- takeover, with no assumption about heartbeats ------------------------

  /** A started row without a heartbeat, which any worker may take at once. */
  predicate Claimless(t: Table, id: nat) {
    id in t && t[id].state == Started && t[id].heartbeat.None?
  }

  /** At step `k` the owner's attempt, whose method had returned, let the row go. */
  ghost predicate LetGoAt(states: seq<Sys>, events: seq<Event>, k: nat, id: nat)
    requires k < |events| && k < |states|
  {
    && events[k].LetGo? && events[k].attempt in states[k].attempts
    && var attempt := states[k].attempts[events[k].attempt];
       && attempt.job == id
       && id in states[k].rows && states[k].rows[id].worker == Some(attempt.worker)
  }

  lemma QuietStepMakesClaimless(cfg: Config, s: Sys, event: Event, s': Sys, id: nat)
    requires Step(cfg, s, event, s') && !Presses(event) && Claimless(s'.rows, id)
    requires !event.Acquire? && !event.Finish?
    ensures Claimless(s.rows, id) || LetGoAt([s], [event], 0, id)
  {}

  lemma StepMakesClaimless(cfg: Config, s: Sys, event: Event, s': Sys, id: nat)
    requires Step(cfg, s, event, s') && !Names(event, id) && Claimless(s'.rows, id)
    ensures Claimless(s.rows, id) || LetGoAt([s], [event], 0, id)
  {
    hide Step;
    if event.Acquire? {
      var taken := AcquireTakes(cfg, s, event, s');
    } else if event.Finish? {
      FinishWrites(cfg, s, event, s');
    } else if Presses(event) {
      PressSettlesOutside(cfg, s, event, s');
    } else {
      QuietStepMakesClaimless(cfg, s, event, s', id);
    }
  }

  /** A claimless row was let go by its owner, and nothing has touched its claim since. */
  lemma {:induction false} ClaimlessWasLetGo(cfg: Config, states: seq<Sys>, events: seq<Event>, i: nat, id: nat)
    returns (k: nat)
    requires IsRun(cfg, states, events) && i < |states|
    requires forall m | 0 <= m < |events| :: !Names(events[m], id)
    requires !Claimless(states[0].rows, id) && Claimless(states[i].rows, id)
    ensures k < i && LetGoAt(states, events, k, id)
    ensures forall m | k < m <= i :: Claimless(states[m].rows, id)
  {
    StepMakesClaimless(cfg, states[i - 1], events[i - 1], states[i], id);
    if Claimless(states[i - 1].rows, id) {
      k := ClaimlessWasLetGo(cfg, states, events, i - 1, id);
    } else {
      k := i - 1;
    }
  }

  /**
   How a started job changes hands in any run in which no press names it: its
   owner's last heartbeat write is older than the window, or the owner let it
   go after its method had returned and no one has claimed it since.
   */
  lemma TakeoverNeedsSilenceOrRelease(cfg: Config, states: seq<Sys>, events: seq<Event>, i: nat, id: nat)
    requires IsRun(cfg, states, events) && i < |events|
    requires forall m | 0 <= m < |events| :: !Names(events[m], id)
    requires !Claimless(states[0].rows, id)
    requires events[i].Acquire? && events[i].slot in states[i + 1].attempts
    requires states[i + 1].attempts[events[i].slot].job == id
    requires id in states[i].rows && states[i].rows[id].state == Started
    ensures
      || Overdue(cfg, states[i], id)
      || exists k | 0 <= k < i ::
           && LetGoAt(states, events, k, id)
           && forall m | k < m <= i :: Claimless(states[m].rows, id)
  {
    var s, event, s' := states[i], events[i], states[i + 1];
    assert Step(cfg, s, event, s');
    hide Step;
    var taken := AcquireTakes(cfg, s, event, s');
    if !Overdue(cfg, s, id) {
      var k := ClaimlessWasLetGo(cfg, states, events, i, id);
    }
  }

  lemma LeasedEndsActive(s: Sys, event: Event)
    requires Leased(s)
    ensures EndsActive(s, event)
  {
    if event.Finish? && event.attempt in s.attempts {
      assert Owns(s, s.attempts[event.attempt]);
    }
  }
}
