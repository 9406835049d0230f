/** At most one active job per identity key, over whole runs and without the database constraint's help. */
module Identity {
  import opened JobTable
  import opened Intake
  import opened WorkerRows
  import opened Settling
  import opened Protocol
  import opened Steps
  import opened Lease

  lemma KeptTermsActivateNothing(t: Table, t': Table)
    requires KeepsTerms(t, t')
    ensures ActivatesNothing(t, t')
  {}

  lemma WritesActivateNothing(t: Table, id: nat, row: Job, t': Table)
    requires Writes(t, id, row, t')
    requires row.identityKey == t[id].identityKey && (row.Active() ==> t[id].Active())
    ensures ActivatesNothing(t, t')
  {
    forall x | x in t' && t'[x].Active() ensures HoldsKey(t, x, t'[x].identityKey) {
      if x != id { assert Settles(t[x], t'[x]); }
    }
  }

  lemma AcquireActivatesNothing(cfg: Config, s: Sys, event: Event, s': Sys)
    requires Step(cfg, s, event, s') && event.Acquire?
    ensures ActivatesNothing(s.rows, s'.rows)
  {
    hide Step;
    var taken := AcquireTakes(cfg, s, event, s');
    if taken.Some? {
      WritesActivateNothing(s.rows, taken.value, AcquiredRow(s.rows[taken.value], event.who, s.now), s'.rows);
    }
  }

  lemma FinishActivatesNothing(cfg: Config, s: Sys, event: Event, s': Sys)
    requires Step(cfg, s, event, s') && event.Finish? && EndsActive(s, event)
    ensures ActivatesNothing(s.rows, s'.rows)
  {
    FinishWrites(cfg, s, event, s');
    assert event.attempt in s.attempts;
    hide Step;
    var id := s.attempts[event.attempt].job;
    WritesActivateNothing(s.rows, id, EndedRow(cfg, s.rows[id], event.outcome, s.now), s'.rows);
  }

  lemma QuietActivatesNothing(cfg: Config, s: Sys, event: Event, s': Sys)
    requires Step(cfg, s, event, s')
    requires event.Tick? || event.Heartbeat? || event.HeartbeatAll? || event.Overrun? || event.LetGo? || event.Vanish?
    ensures ActivatesNothing(s.rows, s'.rows)
  {}

  lemma StepKeepsUnique(cfg: Config, s: Sys, event: Event, s': Sys)
    requires Step(cfg, s, event, s') && EndsActive(s, event) && UniqueActiveKeys(s.rows)
    ensures UniqueActiveKeys(s'.rows)
  {
    if event.Insert? {
      EnqueueKeepsUnique(s.rows, event.id, NewRow(event.req, s.now));
    } else if event.RequeuePressed? {
      RequeueKeepsUnique(s.rows, event.ids);
    } else {
      hide Step, EndsActive, UniqueActiveKeys, ActivatesNothing;
      if event.Acquire? {
        AcquireActivatesNothing(cfg, s, event, s');
      } else if event.Finish? {
        FinishActivatesNothing(cfg, s, event, s');
      } else if event.CancelPressed? || event.SetFailedPressed? || event.SetDonePressed? || event.Autovacuum? {
        ButtonKeepsTerms(cfg, s, event, s');
        KeptTermsActivateNothing(s.rows, s'.rows);
      } else {
        QuietActivatesNothing(cfg, s, event, s');
      }
      UniqueSurvives(s.rows, s'.rows);
    }
  }

  /** No run of any events ever has two active jobs under one key, as long as attempts end on active rows. */
  lemma {:induction false} UniqueInEveryRun(cfg: Config, states: seq<Sys>, events: seq<Event>, i: nat)
    requires IsRun(cfg, states, events) && i < |states|
    requires forall k | 0 <= k < |events| :: EndsActive(states[k], events[k])
    requires UniqueActiveKeys(states[0].rows)
    ensures UniqueActiveKeys(states[i].rows)
  {
    hide Step, EndsActive, UniqueActiveKeys;
    if i > 0 {
      UniqueInEveryRun(cfg, states, events, i - 1);
      StepKeepsUnique(cfg, states[i - 1], events[i - 1], states[i]);
    }
  }

  /** In runs that keep the leases, attempts end on active rows, and nothing else is asked of them. */
  lemma UniqueInLeasedRuns(cfg: Config, states: seq<Sys>, events: seq<Event>, i: nat)
    requires IsRun(cfg, states, events) && i < |states|
    requires forall k | 0 <= k < |events| :: Spares(states[k], events[k])
    requires forall k | 0 <= k < |states| :: Beating(cfg, states[k])
    requires Leased(states[0]) && Exclusive(states[0]) && UniqueActiveKeys(states[0].rows)
    ensures UniqueActiveKeys(states[i].rows)
  {
    hide Step, Spares, Beating, Leased, Exclusive, EndsActive, UniqueActiveKeys;
    forall k | 0 <= k < |events| ensures EndsActive(states[k], events[k]) {
      NoJobRunsTwice(cfg, states, events, k);
      LeasedEndsActive(states[k], events[k]);
    }
    UniqueInEveryRun(cfg, states, events, i);
  }

  /**
   Without that: an ending attempt breaks uniqueness exactly when its job had
   already ended, it asks for a retry, and another job has taken the key since.
   */
  lemma StragglerDuplicatesExactly(cfg: Config, s: Sys, event: Event, s': Sys)
    requires Step(cfg, s, event, s') && event.Finish? && UniqueActiveKeys(s.rows)
    ensures
      var id := s.attempts[event.attempt].job;
      UniqueActiveKeys(s'.rows) <==>
        !(&& s.rows[id].Terminal()
          && !event.outcome.Success? && !GivesUp(cfg, s.rows[id], event.outcome, s.now)
          && Reused(s.rows, s.rows[id]))
  {
    var id := s.attempts[event.attempt].job;
    FinishWrites(cfg, s, event, s');
    var row := EndedRow(cfg, s.rows[id], event.outcome, s.now);
    assert row.identityKey == s.rows[id].identityKey;
    if row.Active() && !s.rows[id].Active() {
      assert s'.rows == s.rows[id := row];
      hide Step, EndAttempt;
      RevivedUnique(s.rows, id, row);
    } else {
      hide Step, EndAttempt;
      WritesActivateNothing(s.rows, id, row, s'.rows);
      UniqueSurvives(s.rows, s'.rows);
    }
  }

  lemma RevivedUnique(t: Table, id: nat, row: Job)
    requires UniqueActiveKeys(t) && id in t && t[id].Terminal()
    requires row.Active() && row.identityKey == t[id].identityKey
    ensures UniqueActiveKeys(t[id := row]) <==>
      !Reused(t, row)
  {
    var t' := t[id := row];
    forall x, y | x in t' && y in t' && x != y && Keyed(t'[x]) && t'[x].Active() && !Reused(t, row)
      ensures !HoldsKey(t', y, t'[x].identityKey)
    {
      assert y != id ==> HoldsKey(t', y, t'[x].identityKey) == HoldsKey(t, y, t'[x].identityKey);
      if y == id && HoldsKey(t', y, t'[x].identityKey) {
        assert HoldsKey(t, x, row.identityKey);
      }
    }
    if Keyed(row) {
      if x :| x in t && HoldsKey(t, x, row.identityKey) {
        assert x != id && HoldsKey(t', x, t'[id].identityKey);
      }
    }
  }
}
