/** The steps of the success and failure worklists. */
module OutcomeWalk {
  import opened JobTable
  import opened Cancel
  import opened CancelWalk
  import opened Outcomes

  /** The direct children of a completed job: on_done ones run, on_error ones are cancelled. */
  function SettleChildren(t: Table, ids: set<nat>, now: int): Table {
    map x | x in t ::
      if x !in ids then t[x]
      else if t[x].runOnFailure then CancelRow(t[x], now)
      else Promote(t[x])
  }

  lemma SettledChildren(t: Table, id: nat, children: seq<nat>, queue: seq<nat>, now: int)
    requires Ids(children) == Children(t, {id}) * WaitingIds(t)
    requires Ids(queue) == set x | x in Ids(children[..|children|]) && x in t && t[x].runOnFailure
    ensures CancelChain(SettleChildren(t, Ids(children[..|children|]), now), Ids(queue), now)
         == SuccessChildren(t, id, now)
  {
    assert children[..|children|] == children;
    var promoted := PromoteRows(t, Promoted(t, id));
    assert Ids(queue) == Children(promoted, {id}) * WaitingIds(promoted);
    assert SettleChildren(t, Ids(children), now) == CancelRows(promoted, Ids(queue), now);
    hide *;
    ChainPop(promoted, id, {}, now);
    assert {id} + {} == {id} && Ids(queue) + {} == Ids(queue);
    ChainFromSettled(t, id, now);
  }

  lemma ChainFromSettled(t: Table, id: nat, now: int)
    ensures SuccessChildren(t, id, now) == CancelChain(PromoteRows(t, Promoted(t, id)), {id}, now)
  {}

  lemma CancelledFewer(t: Table, gone: seq<nat>, now: int)
    requires Ids(gone) <= WaitingIds(t)
    ensures
      var t' := CancelRows(t, Ids(gone), now);
      |WaitingIds(t')| < |WaitingIds(t)| || (|WaitingIds(t')| <= |WaitingIds(t)| && gone == [])
  {
    CancelRowsKeepsGraph(t, Ids(gone), now);
    CountWaiting(t, CancelRows(t, Ids(gone), now));
    FirstId(gone);
    if gone != [] { FewerWaiting(t, CancelRows(t, Ids(gone), now), gone[0]); }
  }

  lemma ChainOfNoIds(t: Table, now: int)
    ensures CancelChain(t, Ids([]), now) == t
  {
    assert Ids([]) == {};
    ChainOfNothing(t, now);
  }

  function FailSome(t: Table, ids: set<nat>): Table {
    map x | x in t :: if x in ids && t[x].parent.Some? then FailChild(t[x]) else t[x]
  }

  lemma NoneFailedYet(t: Table, children: seq<nat>)
    ensures FailSome(t, Ids(children[..0])) == t && Ids([]) == Ids(children[..0]) * FailableIds(t)
  {}

  lemma FailSomeMore(t: Table, ids: set<nat>, child: nat)
    requires child in t && t[child].parent.Some? && child !in ids
    ensures child in FailSome(t, ids) && FailSome(t, ids)[child] == t[child]
    ensures FailSome(t, ids + {child}) == FailSome(t, ids)[child := FailChild(t[child])]
  {}

  /** One turn of the loop over the waiting children of a failed job. */
  lemma FailStep(t: Table, job: nat, children: seq<nat>, i: nat, failed: seq<nat>)
    requires Ids(children) == Children(t, {job}) * WaitingIds(t) && Distinct(children) && i < |children|
    requires Ids(failed) == Ids(children[..i]) * FailableIds(t)
    ensures
      var child := children[i];
      && child in t && t[child].parent == Some(job)
      && child in FailSome(t, Ids(children[..i])) && FailSome(t, Ids(children[..i]))[child] == t[child]
      && FailSome(t, Ids(children[..i + 1])) == FailSome(t, Ids(children[..i]))[child := FailChild(t[child])]
      && Ids(if t[child].runOnFailure then failed else failed + [child]) == Ids(children[..i + 1]) * FailableIds(t)
  {
    var child := children[i];
    IdsOfPrefix(children, i);
    IdsOfConcat(failed, [child]);
    assert child in Ids(children);
    assert child !in Ids(children[..i]);
    hide FailSome;
    FailSomeMore(t, Ids(children[..i]), child);
  }

  lemma FailSomeIsFailOnce(t: Table, job: nat, ids: set<nat>)
    requires ids == Children(t, {job}) * WaitingIds(t)
    ensures FailSome(t, ids) == FailOnce(t, {job})
    ensures ids * FailableIds(t) == Children(t, {job}) * FailableIds(t)
  {}

  lemma FailedFewer(t: Table, job: nat, failed: seq<nat>)
    requires Ids(failed) == Children(t, {job}) * FailableIds(t)
    ensures
      var t' := FailOnce(t, {job});
      |WaitingIds(t')| < |WaitingIds(t)| || (|WaitingIds(t')| <= |WaitingIds(t)| && failed == [])
  {
    var t' := FailOnce(t, {job});
    FailOnceKeepsGraph(t, {job});
    CountWaiting(t, t');
    FirstId(failed);
    if failed != [] { FewerWaiting(t, t', failed[0]); }
  }

  lemma FailPopSelf(t: Table, id: nat)
    ensures FailChain(FailOnce(t, {id}), Children(t, {id}) * FailableIds(t)) == FailChain(t, {id})
  {
    hide *;
    FailPop(t, id, {});
    assert {id} + {} == {id};
    assert Children(t, {id}) * FailableIds(t) + {} == Children(t, {id}) * FailableIds(t);
  }

  lemma FailOfNoIds(t: Table)
    ensures FailChain(t, Ids([])) == t
  {
    assert Ids([]) == {};
    FailOfNothing(t);
  }
}
