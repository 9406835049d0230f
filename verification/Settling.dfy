/** What all cascades have in common: they settle waiting rows and touch nothing else. */
module Settling {
  import opened Reach
  import opened JobTable
  import opened Cancel
  import opened Outcomes
  import opened WorkerRows
  import opened Intake

  /** `job'` is `job`, or a waiting `job` with its fate decided or its countdown lowered. */
  predicate Settles(job: Job, job': Job) {
    || job' == job
    || (&& job.state == Waiting
        && !job'.state.Started? && !job'.state.Done?
        && job' == job.(state := job'.state, countdown := job'.countdown,
                        cancelledAt := job'.cancelledAt, exc := job'.exc))
  }

  ghost predicate OnlySettles(t: Table, t': Table) {
    t'.Keys == t.Keys && forall x | x in t :: Settles(t[x], t'[x])
  }

  lemma SettlesTransitive(a: Table, b: Table, c: Table)
    requires OnlySettles(a, b) && OnlySettles(b, c)
    ensures OnlySettles(a, c)
  {
    forall x | x in a ensures Settles(a[x], c[x]) {
      assert Settles(a[x], b[x]) && Settles(b[x], c[x]);
    }
  }

  lemma CancelSettles(t: Table, ids: set<nat>, now: int)
    requires ids <= WaitingIds(t)
    ensures OnlySettles(t, CancelRows(t, ids, now))
  {}

  lemma SuccessChildrenSettles(t: Table, id: nat, now: int)
    ensures OnlySettles(t, SuccessChildren(t, id, now))
  {
    var t' := PromoteRows(t, Promoted(t, id));
    assert OnlySettles(t, t');
    CancelSettles(t', ChainReach(t', {id}), now);
    SettlesTransitive(t, t', SuccessChildren(t, id, now));
  }

  lemma FailChainSettles(t: Table, ended: set<nat>)
    ensures OnlySettles(t, FailChain(t, ended))
  {}

  lemma ReleaseSettles(t: Table, id: nat, now: int)
    ensures OnlySettles(t, Release(t, id, now))
  {}

  lemma FailDependentsSettles(t: Table, id: nat)
    ensures OnlySettles(t, FailDependents(t, id))
  {}

  lemma FailBelowSettles(t: Table, id: nat)
    ensures OnlySettles(t, FailBelow(t, id))
  {
    FailChainSettles(t, {id});
    FailDependentsSettles(FailChain(t, {id}), id);
    SettlesTransitive(t, FailChain(t, {id}), FailBelow(t, id));
  }

  lemma ReclaimCascadeSettles(t: Table, id: nat)
    ensures OnlySettles(t, ReclaimCascade(t, id))
  {}

  /** Apart from the finished row itself, an attempt's end only settles rows. */
  lemma EndAttemptSettles(cfg: Config, t: Table, id: nat, outcome: Outcome, now: int)
    requires id in t
    ensures
      var row := if outcome.Success? then DoneRow(t[id], now) else ExceptionRow(cfg, t[id], outcome, now);
      OnlySettles(t[id := row], EndAttempt(cfg, t, id, outcome, now))
  {
    if outcome.Success? {
      var done := t[id := DoneRow(t[id], now)];
      SuccessChildrenSettles(done, id, now);
      ReleaseSettles(SuccessChildren(done, id, now), id, now);
      SettlesTransitive(done, SuccessChildren(done, id, now), EndAttempt(cfg, t, id, outcome, now));
    } else {
      FailBelowSettles(t[id := ExceptionRow(cfg, t[id], outcome, now)], id);
    }
  }

  /** The row an acquire writes; everything else it does is settling. */
  function AcquiredRow(job: Job, worker: nat, now: int): Job {
    if job.state != Started then StartRow(job, worker, now)
    else
      var attempts := OrElse(job.attempts, 0) + 1;
      if Exhausted(job.maxRetries, attempts) then DiedRow(job, attempts, now)
      else StartRow(job, worker, now).(attempts := Some(attempts))
  }

  lemma AcquireSettles(t: Table, id: nat, worker: nat, now: int)
    requires id in t
    ensures
      var row := AcquiredRow(t[id], worker, now);
      && OnlySettles(t[id := row], AcquireRow(t, id, worker, now).0)
      && AcquireRow(t, id, worker, now).1 == (row.state == Started)
  {
    var attempts := OrElse(t[id].attempts, 0) + 1;
    ReclaimCascadeSettles(t[id := DiedRow(t[id], attempts, now)], id);
  }

  // ---- buttons --------------------------------------------------------------

  /** A row that is started afterwards was started before, under the same claim. */
  ghost predicate NothingStarts(t: Table, t': Table) {
    forall x | x in t' && t'[x].state == Started ::
      x in t && t[x] == t'[x].(parent := t[x].parent)
  }

  lemma SettlingStartsNothing(t: Table, t': Table)
    requires OnlySettles(t, t')
    ensures NothingStarts(t, t')
  {
    forall x | x in t' && t'[x].state == Started ensures t[x] == t'[x] {
      assert Settles(t[x], t'[x]);
    }
  }

  lemma {:induction false} SetFailedStartsNothing(t: Table, ids: seq<nat>, now: int)
    ensures NothingStarts(t, SetFailedEach(t, ids, now))
  {
    if ids != [] {
      var t' := SetFailedEach(t, ids[..|ids| - 1], now);
      var id := ids[|ids| - 1];
      SetFailedStartsNothing(t, ids[..|ids| - 1], now);
      if id in t' {
        var written := t'[id := EndRow(t'[id], Failed, now)];
        hide FailChain;
        FailChainSettles(written, {id});
        SettlingStartsNothing(written, FailChain(written, {id}));
      }
    }
  }

  lemma {:induction false} FailDependentsStartsNothing(t: Table, ids: seq<nat>)
    ensures NothingStarts(t, FailDependentsEach(t, ids))
  {
    if ids != [] {
      FailDependentsStartsNothing(t, ids[..|ids| - 1]);
    }
  }

  lemma {:induction false} ReleaseStartsNothing(t: Table, ids: seq<nat>, now: int)
    ensures NothingStarts(t, ReleaseEach(t, ids, now))
  {
    if ids != [] {
      ReleaseStartsNothing(t, ids[..|ids| - 1], now);
    }
  }

  lemma {:induction false} RequeueStartsNothing(t: Table, ids: seq<nat>)
    ensures NothingStarts(t, RequeueEach(t, ids))
  {
    if ids != [] {
      RequeueStartsNothing(t, ids[..|ids| - 1]);
    }
  }

  lemma SetFailedButtonStartsNothing(t: Table, ids: seq<nat>, now: int)
    ensures NothingStarts(t, SetFailedButton(t, ids, now))
  {
    SetFailedStartsNothing(t, ids, now);
    FailDependentsStartsNothing(SetFailedEach(t, ids, now), ids);
  }

  lemma SetDoneButtonStartsNothing(t: Table, ids: seq<nat>, now: int)
    ensures NothingStarts(t, SetDoneButton(t, ids, now))
  {
    ReleaseStartsNothing(SetDoneRows(t, (set x | x in ids), now), ids, now);
  }

  // ---- buttons, seen from the rows they do not name -------------------------

  /** Outside `ids`, rows only settle. */
  ghost predicate SettlesOutside(t: Table, t': Table, ids: set<nat>) {
    t'.Keys == t.Keys && forall x | x in t && x !in ids :: Settles(t[x], t'[x])
  }

  lemma SettlesOutsideMore(a: Table, b: Table, c: Table, ids: set<nat>, more: set<nat>)
    requires SettlesOutside(a, b, ids) && SettlesOutside(b, c, more)
    ensures SettlesOutside(a, c, ids + more)
  {
    forall x | x in a && x !in ids + more ensures Settles(a[x], c[x]) {
      assert Settles(a[x], b[x]) && Settles(b[x], c[x]);
    }
  }

  lemma SettlesOutsideNone(t: Table, t': Table)
    requires OnlySettles(t, t')
    ensures SettlesOutside(t, t', {})
  {
    hide Settles;
  }

  lemma WriteSettlesOutside(t: Table, id: nat, row: Job)
    requires id in t
    ensures SettlesOutside(t, t[id := row], {id})
  {}

  lemma CancelButtonSettlesOutside(t: Table, ids: set<nat>, now: int)
    ensures SettlesOutside(t, CancelButton(t, ids, now), ids)
  {
    hide Settles;
    CancelButtonIsReachability(t, ids, now);
    var cascading := set id | id in ids && id in t && !t[id].Terminal();
    var reached := Closure(AllEdges(t), WaitingIds(t), Successors(AllEdges(t), cascading));
    assert reached <= WaitingIds(t);
    hide Closure, CancelButton;
    CancelRowsSettleOutside(t, ids, reached, now);
  }

  lemma CancelRowsSettleOutside(t: Table, ids: set<nat>, reached: set<nat>, now: int)
    requires reached <= WaitingIds(t)
    ensures SettlesOutside(t, CancelRows(t, ids + reached, now), ids)
  {}

  lemma {:induction false} SetFailedSettlesOutside(t: Table, ids: seq<nat>, now: int)
    ensures SettlesOutside(t, SetFailedEach(t, ids, now), Ids(ids))
  {
    if ids != [] {
      var front, id := ids[..|ids| - 1], ids[|ids| - 1];
      var t' := SetFailedEach(t, front, now);
      SetFailedSettlesOutside(t, front, now);
      assert Ids(ids) == Ids(front) + {id} + {};
      hide FailChain, SettlesOutside, OnlySettles, Ids;
      if id in t' {
        var written := t'[id := EndRow(t'[id], Failed, now)];
        WriteSettlesOutside(t', id, EndRow(t'[id], Failed, now));
        FailChainSettles(written, {id});
        SettlesOutsideNone(written, FailChain(written, {id}));
        SettlesOutsideMore(t, t', written, Ids(front), {id});
        SettlesOutsideMore(t, written, FailChain(written, {id}), Ids(front) + {id}, {});
      } else {
        NothingSettlesOutside(t');
        SettlesOutsideMore(t, t', t', Ids(front), {id} + {});
        assert Ids(front) + ({id} + {}) == Ids(ids);
      }
    }
  }

  lemma NothingSettlesOutside(t: Table)
    ensures forall ids :: SettlesOutside(t, t, ids)
  {}

  lemma {:induction false} FailDependentsEachSettles(t: Table, ids: seq<nat>)
    ensures OnlySettles(t, FailDependentsEach(t, ids))
  {
    if ids != [] {
      var t' := FailDependentsEach(t, ids[..|ids| - 1]);
      FailDependentsEachSettles(t, ids[..|ids| - 1]);
      FailDependentsSettles(t', ids[|ids| - 1]);
      hide OnlySettles, FailDependents;
      SettlesTransitive(t, t', FailDependentsEach(t, ids));
    }
  }

  lemma {:induction false} ReleaseEachSettles(t: Table, ids: seq<nat>, now: int)
    ensures OnlySettles(t, ReleaseEach(t, ids, now))
  {
    if ids != [] {
      var t' := ReleaseEach(t, ids[..|ids| - 1], now);
      ReleaseEachSettles(t, ids[..|ids| - 1], now);
      ReleaseSettles(t', ids[|ids| - 1], now);
      hide OnlySettles, Release;
      SettlesTransitive(t, t', ReleaseEach(t, ids, now));
    }
  }

  lemma SetFailedButtonSettlesOutside(t: Table, ids: seq<nat>, now: int)
    ensures SettlesOutside(t, SetFailedButton(t, ids, now), Ids(ids))
  {
    hide SettlesOutside, OnlySettles, SetFailedEach, FailDependentsEach, Ids;
    var t' := SetFailedEach(t, ids, now);
    SetFailedSettlesOutside(t, ids, now);
    FailDependentsEachSettles(t', ids);
    SettlesOutsideNone(t', FailDependentsEach(t', ids));
    SettlesOutsideMore(t, t', FailDependentsEach(t', ids), Ids(ids), {});
    assert Ids(ids) + {} == Ids(ids);
  }

  lemma SetDoneButtonSettlesOutside(t: Table, ids: seq<nat>, now: int)
    ensures SettlesOutside(t, SetDoneButton(t, ids, now), Ids(ids))
  {
    var done := SetDoneRows(t, Ids(ids), now);
    assert SettlesOutside(t, done, Ids(ids));
    hide SettlesOutside, OnlySettles, ReleaseEach, SetDoneRows;
    ReleaseEachSettles(done, ids, now);
    SettlesOutsideNone(done, ReleaseEach(done, ids, now));
    SettlesOutsideMore(t, done, ReleaseEach(done, ids, now), Ids(ids), {});
    assert Ids(ids) + {} == Ids(ids);
  }

  lemma {:induction false} RequeueLeavesOthers(t: Table, ids: seq<nat>, id: nat)
    requires id !in ids
    ensures RequeueEach(t, ids).Keys == t.Keys && (id in t ==> RequeueEach(t, ids)[id] == t[id])
  {
    if ids != [] {
      RequeueLeavesOthers(t, ids[..|ids| - 1], id);
      assert ids[|ids| - 1] in ids;
    }
  }

  lemma {:induction false} RequeueKeepsKeys(t: Table, ids: seq<nat>)
    ensures RequeueEach(t, ids).Keys == t.Keys
  {
    if ids != [] {
      RequeueKeepsKeys(t, ids[..|ids| - 1]);
      hide RequeueBlocked;
    }
  }

  lemma RequeueSettlesOutside(t: Table, ids: seq<nat>)
    ensures SettlesOutside(t, RequeueEach(t, ids), Ids(ids))
  {
    RequeueKeepsKeys(t, ids);
    forall x | x in t && x !in Ids(ids) ensures Settles(t[x], RequeueEach(t, ids)[x]) {
      RequeueLeavesOthers(t, ids, x);
    }
  }

  // ---- what no cascade and no button but requeue rewrites -------------------

  predicate SameTerms(job: Job, job': Job) {
    && job'.attempts == job.attempts && job'.maxRetries == job.maxRetries
    && job'.scheduledAt == job.scheduledAt && job'.identityKey == job.identityKey
    && (job'.Active() ==> job.Active())
    && (job'.state.Waiting? ==> job.state.Waiting? && job'.completedAt == job.completedAt)
    && (job'.state.Pending? ==> job.state.Pending? || job.state.Waiting?)
  }

  ghost predicate KeepsTerms(t: Table, t': Table) {
    forall x | x in t' :: x in t && SameTerms(t[x], t'[x])
  }

  lemma SettlingKeepsTerms(t: Table, t': Table)
    requires OnlySettles(t, t')
    ensures KeepsTerms(t, t')
  {
    forall x | x in t' ensures SameTerms(t[x], t'[x]) {
      assert Settles(t[x], t'[x]);
    }
  }

  lemma EndingKeepsTerms(t: Table, id: nat, state: State, now: int)
    requires id in t && (state.Done? || state.Failed?)
    ensures KeepsTerms(t, t[id := EndRow(t[id], state, now)])
  {}

  lemma KeepsTermsTransitive(a: Table, b: Table, c: Table)
    requires KeepsTerms(a, b) && KeepsTerms(b, c)
    ensures KeepsTerms(a, c)
  {}

  lemma {:induction false} SetFailedKeepsTerms(t: Table, ids: seq<nat>, now: int)
    ensures KeepsTerms(t, SetFailedEach(t, ids, now))
  {
    if ids != [] {
      var t' := SetFailedEach(t, ids[..|ids| - 1], now);
      var id := ids[|ids| - 1];
      SetFailedKeepsTerms(t, ids[..|ids| - 1], now);
      if id in t' {
        var written := t'[id := EndRow(t'[id], Failed, now)];
        hide FailChain, KeepsTerms, EndRow;
        EndingKeepsTerms(t', id, Failed, now);
        FailChainSettles(written, {id});
        SettlingKeepsTerms(written, FailChain(written, {id}));
        KeepsTermsTransitive(t, t', written);
        KeepsTermsTransitive(t, written, FailChain(written, {id}));
      }
    }
  }

  lemma {:induction false} FailDependentsKeepsTerms(t: Table, ids: seq<nat>)
    ensures KeepsTerms(t, FailDependentsEach(t, ids))
  {
    if ids != [] {
      FailDependentsKeepsTerms(t, ids[..|ids| - 1]);
    }
  }

  lemma {:induction false} ReleaseKeepsTerms(t: Table, ids: seq<nat>, now: int)
    ensures KeepsTerms(t, ReleaseEach(t, ids, now))
  {
    if ids != [] {
      var t' := ReleaseEach(t, ids[..|ids| - 1], now);
      ReleaseKeepsTerms(t, ids[..|ids| - 1], now);
      ReleaseSettles(t', ids[|ids| - 1], now);
      SettlingKeepsTerms(t', ReleaseEach(t, ids, now));
      hide Release, KeepsTerms, OnlySettles;
      KeepsTermsTransitive(t, t', ReleaseEach(t, ids, now));
    }
  }

  lemma SetFailedButtonKeepsTerms(t: Table, ids: seq<nat>, now: int)
    ensures KeepsTerms(t, SetFailedButton(t, ids, now))
  {
    SetFailedKeepsTerms(t, ids, now);
    FailDependentsKeepsTerms(SetFailedEach(t, ids, now), ids);
  }

  lemma SetDoneButtonKeepsTerms(t: Table, ids: seq<nat>, now: int)
    ensures KeepsTerms(t, SetDoneButton(t, ids, now))
  {
    var done := SetDoneRows(t, (set x | x in ids), now);
    assert KeepsTerms(t, done);
    ReleaseKeepsTerms(done, ids, now);
    KeepsTermsTransitive(t, done, SetDoneButton(t, ids, now));
  }
}
