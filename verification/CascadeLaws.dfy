/** What the end of a job decides, row by row, and when the reclaiming worker's SQL decides the same. */
module CascadeLaws {
  import opened Reach
  import opened JobTable
  import opened Outcomes
  import opened WorkerRows
  import opened Stranding

  /** A chain of waiting on_done jobs leads along `parent_id` from a child of `id` to `x`. */
  ghost predicate FailsBelow(t: Table, id: nat, x: nat) {
    exists path :: IsPath(ParentEdges(t), FailableIds(t), path)
      && path[0] in Children(t, {id}) && path[|path| - 1] == x
  }

  /** The parent whose failure reaches row `x`: the failed job itself, or one that fails with it. */
  ghost predicate UnderFailure(t: Table, id: nat, x: nat) {
    x in t && t[x].parent.Some? && (t[x].parent.value == id || FailsBelow(t, id, t[x].parent.value))
  }

  lemma FailReachIs(t: Table, id: nat, x: nat)
    ensures x in FailReach(t, {id}) <==> FailsBelow(t, id, x)
  {
    if FailsBelow(t, id, x) {
      var path :| IsPath(ParentEdges(t), FailableIds(t), path)
        && path[0] in Children(t, {id}) && path[|path| - 1] == x;
      assert Reaches(ParentEdges(t), FailableIds(t), Children(t, {id}), x);
    }
  }

  lemma PathHasParent(t: Table, id: nat, x: nat)
    requires FailsBelow(t, id, x)
    ensures CanFail(t, x) && UnderFailure(t, id, x)
  {
    var path :| IsPath(ParentEdges(t), FailableIds(t), path)
      && path[0] in Children(t, {id}) && path[|path| - 1] == x;
    assert path[|path| - 1] in FailableIds(t);
    if |path| > 1 {
      var front := path[..|path| - 1];
      assert IsPath(ParentEdges(t), FailableIds(t), front);
      assert (front[|front| - 1], x) in ParentEdges(t);
      hide IsPath;
      assert FailsBelow(t, id, front[|front| - 1]);
    }
  }

  /** A failable row fails exactly when its parent is the failed job or fails too. */
  lemma FailsWithParent(t: Table, id: nat, x: nat)
    ensures FailsBelow(t, id, x) <==> CanFail(t, x) && UnderFailure(t, id, x)
  {
    var reach := FailReach(t, {id});
    hide Closure, FailReach, FailsBelow;
    FailReachIs(t, id, x);
    if x in t && t[x].parent.Some? { FailReachIs(t, id, t[x].parent.value); }
    if FailsBelow(t, id, x) {
      PathHasParent(t, id, x);
    } else if CanFail(t, x) && UnderFailure(t, id, x) {
      FailReachTakesChild(t, id, x);
    }
  }

  lemma FailReachTakesChild(t: Table, id: nat, x: nat)
    requires CanFail(t, x) && t[x].parent.Some? && t[x].parent.value in {id} + FailReach(t, {id})
    ensures x in FailReach(t, {id})
  {
    WalkTakesChildren(t, FailableIds(t), id, FailReach(t, {id}));
    hide Closure, FailReach;
    assert x in FailableIds(t);
  }

  /**
   After `id` failed: its waiting on_done descendants along chains of such
   failed with it, on_error children of failed jobs run, waiting barriers that
   list `id` went the same two ways, and every other row is as it was.
   */
  lemma FailureExactly(t: Table, id: nat, x: nat)
    requires x in t
    ensures
      var t' := FailBelow(t, id);
      && t'.Keys == t.Keys
      && (t[x].state == Waiting && UnderFailure(t, id, x) ==>
            t'[x] == if t[x].runOnFailure then t[x].(state := Pending)
                     else t[x].(state := Failed, exc := [ParentFailed(t[x].parent.value)]))
      && (t[x].state == Waiting && !UnderFailure(t, id, x) && id in t[x].deps ==>
            t'[x] == if t[x].runOnFailure then t[x].(state := Pending)
                     else t[x].(state := Failed, exc := [ParentFailed(id)]))
      && (t[x].state != Waiting || (!UnderFailure(t, id, x) && id !in t[x].deps) ==> t'[x] == t[x])
  {
    var reach := FailReach(t, {id});
    if t[x].parent.Some? { FailReachIs(t, id, t[x].parent.value); }
    hide FailReach, FailsBelow;
    assert x in Children(t, {id} + reach) <==> UnderFailure(t, id, x);
  }

  /** `path` leads down `parent_id` links, and `id` is not on it. */
  predicate LeadsDown(t: Table, id: nat, path: seq<nat>) {
    && path != []
    && (forall i | 0 <= i < |path| :: path[i] in t && path[i] != id)
    && (forall i | 0 < i < |path| :: t[path[i]].parent == Some(path[i - 1]))
  }

  lemma {:induction false} NothingFailsBelowHandler(t: Table, id: nat, path: seq<nat>)
    requires LeadsDown(t, id, path) && IsWaiting(t, path[0]) && t[path[0]].runOnFailure
    ensures !FailsBelow(t, id, path[|path| - 1])
    ensures |path| > 1 ==> !UnderFailure(t, id, path[|path| - 1])
    decreases |path|
  {
    FailsWithParent(t, id, path[|path| - 1]);
    if |path| > 1 {
      var front := path[..|path| - 1];
      assert forall i | 0 <= i < |front| :: front[i] == path[i];
      NothingFailsBelowHandler(t, id, front);
      hide FailsBelow;
    }
  }

  /**
   An on_error handler that the failure reaches runs, and everything below it
   is left to the handler's own end: any path down from it that avoids `id` ends
   in a row left as it was, unless that row is a barrier that lists `id` itself.
   */
  lemma PromotedSubtreeUntouched(t: Table, id: nat, path: seq<nat>)
    requires LeadsDown(t, id, path) && IsWaiting(t, path[0]) && t[path[0]].runOnFailure
    ensures
      var t' := FailBelow(t, id);
      var x := path[|path| - 1];
      && t'.Keys == t.Keys
      && (UnderFailure(t, id, path[0]) || id in t[path[0]].deps ==> t'[path[0]] == t[path[0]].(state := Pending))
      && (|path| > 1 && id !in t[x].deps ==> t'[x] == t[x])
  {
    NothingFailsBelowHandler(t, id, path);
    hide FailBelow, UnderFailure;
    FailureExactly(t, id, path[0]);
    FailureExactly(t, id, path[|path| - 1]);
  }

  // ---- the SQL of a reclaim against the ORM ---------------------------------

  ghost predicate SameStates(t: Table, t': Table) {
    t.Keys == t'.Keys && forall x | x in t :: t[x].state == t'[x].state
  }

  /** No waiting row that the SQL passes over hangs under a row that the ORM walk fails. */
  ghost predicate OneHopEnough(t: Table, id: nat) {
    forall y | IsWaiting(t, y) && t[y].parent.Some? && t[y].parent.value != id && id !in t[y].deps ::
      !FailsBelow(t, id, t[y].parent.value)
  }

  /** The two statements of the reclaim decide what the ORM calls decide exactly when one hop is enough. */
  lemma SqlAgreesExactly(t: Table, id: nat)
    ensures SameStates(ReclaimCascade(t, id), FailBelow(t, id)) <==> OneHopEnough(t, id)
  {
    var sql, orm := ReclaimCascade(t, id), FailBelow(t, id);
    forall x | x in t
      ensures x in orm && x in sql
      ensures sql[x].state == orm[x].state <==>
        !(t[x].state == Waiting && t[x].parent.Some? && t[x].parent.value != id && id !in t[x].deps
          && FailsBelow(t, id, t[x].parent.value))
    {
      hide FailsBelow;
      FailureExactly(t, id, x);
    }
    hide ReclaimCascade, FailBelow, FailsBelow;
    assert sql.Keys == t.Keys && orm.Keys == t.Keys by { KeysOfBoth(t, id); }
    if !OneHopEnough(t, id) {
      var y :| IsWaiting(t, y) && t[y].parent.Some? && t[y].parent.value != id && id !in t[y].deps
        && FailsBelow(t, id, t[y].parent.value);
      assert sql[y].state != orm[y].state;
    }
  }

  /** A look at two links: no on_done child of `id` has a waiting child that the SQL passes over. */
  ghost predicate NoGrandchildLeft(t: Table, id: nat) {
    forall y | IsWaiting(t, y) && t[y].parent.Some? && id !in t[y].deps ::
      !(CanFail(t, t[y].parent.value) && t[t[y].parent.value].parent == Some(id))
  }

  /** In a wired table a row left out anywhere below `id` means one left out two links below. */
  lemma {:induction false} LeftOutAtTwoLinks(t: Table, id: nat, y: nat)
    requires Wired(t) && !IsWaiting(t, id) && IsWaiting(t, y) && id !in t[y].deps
    requires t[y].parent.Some? && FailsBelow(t, id, t[y].parent.value)
    ensures !NoGrandchildLeft(t, id)
    decreases y
  {
    var p := t[y].parent.value;
    FailsWithParent(t, id, p);
    hide FailsBelow;
    if t[p].parent != Some(id) {
      assert !t[p].IsBarrier();
      LeftOutAtTwoLinks(t, id, p);
    }
  }

  /** For the row of a dead worker in a wired table, that look decides whether the SQL is enough. */
  lemma OneHopEnoughExactly(t: Table, id: nat)
    requires Wired(t) && !IsWaiting(t, id)
    ensures OneHopEnough(t, id) <==> NoGrandchildLeft(t, id)
  {
    if !NoGrandchildLeft(t, id) {
      var y :| IsWaiting(t, y) && t[y].parent.Some? && id !in t[y].deps
        && CanFail(t, t[y].parent.value) && t[t[y].parent.value].parent == Some(id);
      FailsWithParent(t, id, t[y].parent.value);
    } else if !OneHopEnough(t, id) {
      var y :| IsWaiting(t, y) && t[y].parent.Some? && t[y].parent.value != id && id !in t[y].deps
        && FailsBelow(t, id, t[y].parent.value);
      hide FailsBelow, NoGrandchildLeft;
      LeftOutAtTwoLinks(t, id, y);
    }
  }

  lemma KeysOfBoth(t: Table, id: nat)
    ensures ReclaimCascade(t, id).Keys == t.Keys && FailBelow(t, id).Keys == t.Keys
  {}

  // ---- success --------------------------------------------------------------

  /** Waiting rows lead along `parent_id` from an on_error child of `id` to `x`. */
  ghost predicate CancelsBelow(t: Table, id: nat, x: nat) {
    exists path :: IsPath(ParentEdges(t), WaitingIds(t) - Promoted(t, id), path)
      && path[0] in Children(t, {id}) && path[|path| - 1] == x
  }

  lemma PromoteKeepsGraph(t: Table, ids: set<nat>)
    requires ids <= WaitingIds(t)
    ensures SameGraph(t, PromoteRows(t, ids))
    ensures WaitingIds(PromoteRows(t, ids)) == WaitingIds(t) - ids
  {}

  lemma ChainReachIs(t: Table, id: nat, x: nat)
    ensures x in ChainReach(PromoteRows(t, Promoted(t, id)), {id}) <==> CancelsBelow(t, id, x)
  {
    var promoted := PromoteRows(t, Promoted(t, id));
    PromoteKeepsGraph(t, Promoted(t, id));
    SameGraphSameEdges(t, promoted);
    SameGraphSameHeirs(t, promoted, {id});
    hide ParentEdges, WaitingIds, Children, PromoteRows, Promoted;
    if CancelsBelow(t, id, x) {
      var path :| IsPath(ParentEdges(t), WaitingIds(t) - Promoted(t, id), path)
        && path[0] in Children(t, {id}) && path[|path| - 1] == x;
      assert Reaches(ParentEdges(promoted), WaitingIds(promoted), Children(promoted, {id}), x);
    }
  }

  /**
   After `id` completed: its waiting on_done children are pending, every chain
   of waiting rows that starts with an on_error child is cancelled, and no other
   row has changed; the rows below a promoted child still wait for it.
   */
  lemma SuccessExactly(t: Table, id: nat, now: int, x: nat)
    requires x in t
    ensures
      var t' := SuccessChildren(t, id, now);
      && t'.Keys == t.Keys
      && t'[x] ==
           if IsWaiting(t, x) && t[x].parent == Some(id) && !t[x].runOnFailure then t[x].(state := Pending)
           else if CancelsBelow(t, id, x) then t[x].(state := Cancelled, cancelledAt := Some(now))
           else t[x]
  {
    ChainReachIs(t, id, x);
    if x in Promoted(t, id) { PromotedNotCancelled(t, id, x); }
    hide ChainReach, CancelsBelow;
  }

  /**
   All that a completion does to another row: what it does along parents comes
   first, and a row that still waits and lists the job loses one of its count;
   with none left it runs, or is cancelled if it is an error handler.
   */
  lemma CompletionExactly(t: Table, id: nat, now: int, x: nat)
    requires id in t && x in t && x != id
    ensures
      var t', done := Succeed(t, id, now), t[id := DoneRow(t[id], now)];
      && t'.Keys == t.Keys
      && t'[x] ==
           if IsWaiting(t, x) && t[x].parent == Some(id) && !t[x].runOnFailure then t[x].(state := Pending)
           else if CancelsBelow(done, id, x) then t[x].(state := Cancelled, cancelledAt := Some(now))
           else if IsWaiting(t, x) && id in t[x].deps then
             (if t[x].countdown > 1 then t[x].(countdown := t[x].countdown - 1)
              else if t[x].runOnFailure then
                t[x].(countdown := t[x].countdown - 1, state := Cancelled, cancelledAt := Some(now))
              else t[x].(countdown := t[x].countdown - 1, state := Pending))
           else t[x]
  {
    var done := t[id := DoneRow(t[id], now)];
    SuccessExactly(done, id, now, x);
    if CancelsBelow(done, id, x) { CancelledWaited(done, id, x); }
    hide SuccessChildren, CancelsBelow;
  }

  lemma CancelledWaited(t: Table, id: nat, x: nat)
    requires CancelsBelow(t, id, x)
    ensures IsWaiting(t, x)
  {
    var path :| IsPath(ParentEdges(t), WaitingIds(t) - Promoted(t, id), path)
      && path[0] in Children(t, {id}) && path[|path| - 1] == x;
    assert path[|path| - 1] in WaitingIds(t);
  }

  lemma PromotedNotCancelled(t: Table, id: nat, x: nat)
    requires x in Promoted(t, id)
    ensures !CancelsBelow(t, id, x)
  {
    hide Promoted;
  }
}
