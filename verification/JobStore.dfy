/** `queue.job` as a mutable table: the cascades, the operator buttons, enqueue and the autovacuum. */
module JobStore {
  import opened JobTable
  import opened Cancel
  import opened CancelWalk
  import opened Intake
  import opened Outcomes
  import opened OutcomeWalk

  const CHUNK_SIZE := 1000

  class Store {
    var rows: Table
    var nextId: nat

    ghost predicate Valid()
      reads this
    {
      forall id | id in rows :: id < nextId
    }

    constructor ()
      ensures Valid() && rows == map[]
    {
      rows, nextId := map[], 0;
    }

    /** The recordset of rows in `ids`, in some order. */
    method Browse(ids: set<nat>) returns (found: seq<nat>)
      ensures Ids(found) == ids && Distinct(found)
    {
      found := [];
      var left := ids;
      while left != {}
        invariant left <= ids && Ids(found) == ids - left && Distinct(found)
        decreases left
      {
        var x :| x in left;
        IdsOfConcat(found, [x]);
        found, left := found + [x], left - {x};
      }
    }

    method WaitingChildren(id: nat) returns (found: seq<nat>)
      ensures Ids(found) == Children(rows, {id}) * WaitingIds(rows) && Distinct(found)
    {
      found := Browse(Children(rows, {id}) * WaitingIds(rows));
    }

    // ---- cancel: both axes, mutually recursive, no visited set --------------

    method CancelDependents(ids: seq<nat>, now: int)
      modifies this`rows
      ensures rows == CancelFrom(old(rows), Dependents(old(rows), Ids(ids)), now)
      decreases |WaitingIds(rows)|, 0
    {
      ghost var t := rows;
      var cancelledIds: seq<nat> := [];
      CancelHitsNothing(t, ids, now);
      hide *;
      for i := 0 to |ids|
        invariant Ids(cancelledIds) == Dependents(t, Ids(ids[..i])) * WaitingIds(t)
        invariant rows == CancelRows(t, Ids(cancelledIds), now)
      {
        var hit := Dependents(rows, {ids[i]}) * WaitingIds(rows);
        CancelHit(t, ids, i, Ids(cancelledIds), now);
        rows := CancelRows(rows, hit, now);
        var returned := Browse(hit);
        IdsOfConcat(cancelledIds, returned);
        cancelledIds := cancelledIds + returned;
      }
      CancelHits(t, ids, cancelledIds, now);
      if cancelledIds != [] {
        CancelNewly(t, cancelledIds, now);
      }
    }

    /** The recursion of `_cancel_dependents`, across both axes, from the rows it has just cancelled. */
    method CancelNewly(ghost t: Table, newly: seq<nat>, now: int)
      requires Ids(newly) <= WaitingIds(t) && rows == CancelRows(t, Ids(newly), now)
      modifies this`rows
      ensures rows == CancelFrom(t, Ids(newly), now)
      decreases |WaitingIds(rows)|, 2
    {
      ghost var t' := rows;
      CancelRowsKeepsGraph(t, Ids(newly), now);
      NoChildrenYet(t', newly, now);
      forall i | 0 <= i < |newly| ensures !IsWaiting(t', newly[i]) { assert newly[i] in Ids(newly); }
      hide *;
      for i := 0 to |newly|
        invariant WaitingIds(rows) <= WaitingIds(t')
        invariant rows == CancelFrom(t', Children(t', Ids(newly[..i])), now)
      {
        CascadeNext(t', newly, i, now);
        CountWaiting(t', rows);
        CascadeChildrenOnParentCancelled(newly[i], now);
      }
      CascadedAll(t, t', newly, now);
      CountWaiting(t', rows);
      CancelDependents(newly, now);
    }

    method CascadeChildrenOnParentCancelled(id: nat, now: int)
      requires !IsWaiting(rows, id)
      modifies this`rows
      ensures rows == CancelFrom(old(rows), Children(old(rows), {id}), now)
      decreases |WaitingIds(rows)|, 1
    {
      ghost var t := rows;
      var queue := WaitingChildren(id);
      InitialQueue(t, id, queue, now);
      hide *;
      while queue != []
        invariant WaitingIds(rows) <= WaitingIds(t)
        invariant CancelFrom(rows, Ids(queue), now) == CancelFrom(t, Children(t, {id}), now)
        invariant Frontier(rows, queue, now)
        decreases |WaitingIds(rows)|, |queue|
      {
        ghost var before, rest := rows, queue[1..];
        var job := queue[0];
        assert queue == [job] + rest;
        FrontierHead(before, job, rest, now);
        rows := CancelRows(rows, {job}, now);
        CancelRowsKeepsGraph(before, {job}, now);
        CountWaiting(t, before);
        CountWaiting(before, rows);
        var children := WaitingChildren(job);
        queue := queue[1..] + children;
        CancelDependents([job], now);
        if before[job].state == Waiting {
          LiveStep(before, job, rest, children, now);
          FewerWaiting(before, rows, job);
        } else {
          DeadStep(before, job, rest, children, now);
        }
      }
      CancelNoIds(rows, now);
    }

    /** `button_cancelled`; see Cancel.CancelButtonIsReachability for what the result means. */
    method ButtonCancelled(ids: seq<nat>, now: int)
      requires forall id | id in ids :: id in rows
      modifies this`rows
      ensures rows == CancelButton(old(rows), Ids(ids), now)
    {
      ghost var t := rows;
      var cascading: seq<nat> := [];
      for i := 0 to |ids|
        invariant rows == t
        invariant Ids(cascading) == set id | id in Ids(ids[..i]) && id in t && !t[id].Terminal()
      {
        var job := ids[i];
        assert job in ids;
        IdsOfPrefix(ids, i);
        IdsOfConcat(cascading, [job]);
        if !rows[job].Terminal() {
          cascading := cascading + [job];
        }
      }
      assert rows == CancelRows(t, Ids(ids[..0]), now);
      for i := 0 to |ids|
        invariant rows == CancelRows(t, Ids(ids[..i]), now)
      {
        IdsOfPrefix(ids, i);
        assert ids[i] in ids;
        rows := rows[ids[i] := CancelRow(rows[ids[i]], now)];
      }
      ghost var t' := rows;
      ButtonWritten(t, ids, cascading, now);
      hide *;
      for i := 0 to |cascading|
        invariant rows == CancelFrom(t', Children(t', Ids(cascading[..i])), now)
      {
        CascadeNext(t', cascading, i, now);
        CascadeChildrenOnParentCancelled(cascading[i], now);
      }
      CascadedBoth(t', cascading, now);
      CancelDependents(cascading, now);
    }

    // ---- success and failure along parents ----------------------------------

    /** Cancels the waiting children of `job` and hands them back as the next frontier. */
    method CancelWaitingChildren(job: nat, now: int) returns (gone: seq<nat>)
      modifies this`rows
      ensures Ids(gone) == Children(old(rows), {job}) * WaitingIds(old(rows))
      ensures rows == CancelRows(old(rows), Ids(gone), now)
    {
      ghost var t := rows;
      gone := WaitingChildren(job);
      for i := 0 to |gone|
        invariant rows == CancelRows(t, Ids(gone[..i]), now)
      {
        IdsOfPrefix(gone, i);
        assert gone[i] in Ids(gone);
        rows := rows[gone[i] := CancelRow(rows[gone[i]], now)];
      }
      assert gone[..|gone|] == gone;
    }

    /** The direct children: on_done ones are promoted, on_error ones cancelled and queued. */
    method SettleWaitingChildren(id: nat, now: int) returns (queue: seq<nat>)
      modifies this`rows
      ensures CancelChain(rows, Ids(queue), now) == SuccessChildren(old(rows), id, now)
    {
      ghost var t := rows;
      var children := WaitingChildren(id);
      queue := [];
      for i := 0 to |children|
        invariant rows == SettleChildren(t, Ids(children[..i]), now)
        invariant Ids(queue) == set x | x in Ids(children[..i]) && x in t && t[x].runOnFailure
      {
        var child := children[i];
        IdsOfPrefix(children, i);
        IdsOfConcat(queue, [child]);
        assert child in Ids(children);
        if rows[child].runOnFailure {
          rows := rows[child := CancelRow(rows[child], now)];
          queue := queue + [child];
        } else {
          rows := rows[child := Promote(rows[child])];
        }
      }
      hide CancelChain, SuccessChildren;
      SettledChildren(t, id, children, queue, now);
    }

    method CascadeChildrenOnParentSuccess(id: nat, now: int)
      modifies this`rows
      ensures rows == SuccessChildren(old(rows), id, now)
    {
      ghost var t := rows;
      var queue := SettleWaitingChildren(id, now);
      hide *;
      while queue != []
        invariant CancelChain(rows, Ids(queue), now) == SuccessChildren(t, id, now)
        decreases |WaitingIds(rows)|, |queue|
      {
        var job := queue[0];
        IdsOfTail(queue);
        queue := queue[1..];
        ghost var before := rows;
        ChainPop(before, job, Ids(queue), now);
        var gone := CancelWaitingChildren(job, now);
        CancelledFewer(before, gone, now);
        IdsOfConcat(gone, queue);
        IdsOfConcat(queue, gone);
        assert Ids(queue + gone) == Ids(gone) + Ids(queue);
        queue := queue + gone;
      }
      ChainOfNoIds(rows, now);
    }

    /** Fails or promotes the waiting children of `job`; the failed ones are the next frontier. */
    method FailWaitingChildren(job: nat) returns (failed: seq<nat>)
      modifies this`rows
      ensures rows == FailOnce(old(rows), {job})
      ensures Ids(failed) == Children(old(rows), {job}) * FailableIds(old(rows))
    {
      ghost var t := rows;
      var children := WaitingChildren(job);
      failed := [];
      NoneFailedYet(t, children);
      hide FailSome, Ids, Children, WaitingIds, FailableIds, Distinct;
      for i := 0 to |children|
        invariant rows == FailSome(t, Ids(children[..i]))
        invariant Ids(failed) == Ids(children[..i]) * FailableIds(t)
      {
        var child := children[i];
        FailStep(t, job, children, i, failed);
        if rows[child].runOnFailure {
          rows := rows[child := Promote(rows[child])];
        } else {
          rows := rows[child := rows[child].(state := Failed, exc := [ParentFailed(job)])];
          failed := failed + [child];
        }
      }
      assert children[..|children|] == children;
      FailSomeIsFailOnce(t, job, Ids(children));
    }

    method CascadeChildrenOnParentFailure(id: nat)
      modifies this`rows
      ensures rows == FailChain(old(rows), {id})
    {
      ghost var t := rows;
      hide *;
      FailPopSelf(t, id);
      var queue := FailWaitingChildren(id);
      while queue != []
        invariant FailChain(rows, Ids(queue)) == FailChain(t, {id})
        decreases |WaitingIds(rows)|, |queue|
      {
        var job := queue[0];
        IdsOfTail(queue);
        queue := queue[1..];
        ghost var before := rows;
        FailPop(before, job, Ids(queue));
        var failed := FailWaitingChildren(job);
        FailedFewer(before, job, failed);
        IdsOfConcat(queue, failed);
        assert Ids(queue + failed) == Ids(failed) + Ids(queue);
        queue := queue + failed;
      }
      FailOfNoIds(rows);
    }

    // ---- the dependency axis ------------------------------------------------

    method ReleaseDependents(ids: seq<nat>, now: int)
      modifies this`rows
      ensures rows == ReleaseEach(old(rows), ids, now)
    {
      for i := 0 to |ids|
        invariant rows == ReleaseEach(old(rows), ids[..i], now)
      {
        assert ids[..i + 1][..i] == ids[..i];
        rows := Release(rows, ids[i], now);
      }
      assert ids[..|ids|] == ids;
    }

    method FailDependentsOf(ids: seq<nat>)
      modifies this`rows
      ensures rows == FailDependentsEach(old(rows), ids)
    {
      for i := 0 to |ids|
        invariant rows == FailDependentsEach(old(rows), ids[..i])
      {
        assert ids[..i + 1][..i] == ids[..i];
        rows := FailDependents(rows, ids[i]);
      }
      assert ids[..|ids|] == ids;
    }

    // ---- whole transitions --------------------------------------------------

    /** The row write and both cascades of a job that completed (`run_now`, `finalize_job`). */
    method Complete(id: nat, now: int)
      requires id in rows
      modifies this`rows
      ensures rows == Succeed(old(rows), id, now)
    {
      rows := rows[id := DoneRow(rows[id], now)];
      CascadeChildrenOnParentSuccess(id, now);
      ghost var t := rows;
      ReleaseDependents([id], now);
      assert [id][..0] == [] && ReleaseEach(t, [], now) == t;
    }

    method ButtonSetToFailed(ids: seq<nat>, now: int)
      requires forall id | id in ids :: id in rows
      modifies this`rows
      ensures rows == SetFailedButton(old(rows), ids, now)
    {
      ghost var t := rows;
      for i := 0 to |ids|
        invariant rows == SetFailedEach(t, ids[..i], now)
        invariant rows.Keys == t.Keys
      {
        assert ids[..i + 1][..i] == ids[..i];
        rows := rows[ids[i] := EndRow(rows[ids[i]], Failed, now)];
        CascadeChildrenOnParentFailure(ids[i]);
      }
      assert ids[..|ids|] == ids;
      FailDependentsOf(ids);
    }

    method ButtonSetToDone(ids: seq<nat>, now: int)
      requires forall id | id in ids :: id in rows
      modifies this`rows
      ensures rows == SetDoneButton(old(rows), ids, now)
    {
      for i := 0 to |ids|
        invariant rows == SetDoneRows(old(rows), Ids(ids[..i]), now)
      {
        IdsOfPrefix(ids, i);
        rows := rows[ids[i] := EndRow(rows[ids[i]], Done, now)];
      }
      assert ids[..|ids|] == ids;
      ReleaseDependents(ids, now);
    }

    // ---- intake -------------------------------------------------------------

    method ButtonRequeue(ids: seq<nat>)
      requires forall id | id in ids :: id in rows
      modifies this`rows
      ensures rows == RequeueEach(old(rows), ids)
      ensures rows.Keys == old(rows).Keys
      ensures forall x | x in rows ::
        rows[x] == if BringsBack(old(rows), ids, x) then
          old(rows)[x].(state := Pending, attempts := Some(0), exc := [], scheduledAt := None, worker := None,
                        heartbeat := None, startedAt := None, completedAt := None, cancelledAt := None)
        else old(rows)[x]
    {
      for i := 0 to |ids|
        invariant rows == RequeueEach(old(rows), ids[..i])
        invariant rows.Keys == old(rows).Keys
      {
        assert ids[..i + 1][..i] == ids[..i];
        var job := ids[i];
        assert job in ids;
        if Keyed(rows[job]) {
          if exists x | x in rows :: x != job && HoldsKey(rows, x, rows[job].identityKey) {
            continue;
          }
        }
        rows := rows[job := RequeueRow(rows[job])];
      }
      assert ids[..|ids|] == ids;
      hide BringsBack;
      forall x | x in rows { RequeueExactly(old(rows), ids, x); }
    }

    /**
     Returns a job already active under the same key, or creates the row.
     Either way the caller gets an active row that carries the key.
     */
    method Enqueue(req: Request, now: int) returns (id: nat)
      requires Valid()
      modifies this
      ensures Valid()
      ensures
        var row := NewRow(req, now);
        && HoldsKey(rows, id, row.identityKey)
        && (Reused(old(rows), row) ==> rows == old(rows) && nextId == old(nextId))
        && (!Reused(old(rows), row) ==> id == old(nextId) && rows == old(rows)[id := row] && nextId == id + 1)
      ensures KeyIsLive(old(rows), req.identityKey) ==>
        rows == old(rows) && LiveUnder(rows, id, req.identityKey.value)
      ensures !KeyIsLive(old(rows), req.identityKey) ==>
        && id !in old(rows) && id in rows && rows == old(rows)[id := rows[id]] && AsRequested(rows[id], req, now)
    {
      var row := NewRow(req, now);
      NewRowIsAsRequested(req, now);
      ReusedExactly(rows, row);
      if Keyed(row) {
        if x :| x in rows && HoldsKey(rows, x, row.identityKey) {
          return x;
        }
      }
      id := nextId;
      rows, nextId := rows[id := row], id + 1;
    }

    /** At most `limit` of the expired rows, as one `search` returns them. */
    method SearchExpired(cutoff: int, limit: nat) returns (found: set<nat>)
      ensures found <= ExpiredIds(rows, cutoff)
      ensures |found| < limit ==> found == ExpiredIds(rows, cutoff)
      ensures |found| <= limit
      ensures forall x | x in found :: x in rows && EndedUntil(rows[x], cutoff)
      ensures |found| < limit ==> forall x | x in rows && EndedUntil(rows[x], cutoff) :: x in found
    {
      found := {};
      var left := ExpiredIds(rows, cutoff);
      while left != {} && |found| < limit
        invariant found + left == ExpiredIds(rows, cutoff)
        invariant |found| <= limit
        decreases left
      {
        var x :| x in left;
        found, left := found + {x}, left - {x};
      }
    }

    /** Chunk by chunk, exactly the rows older than `cutoff` go. */
    method GcOldJobs(cutoff: int)
      modifies this`rows
      ensures rows == Unlink(old(rows), ExpiredIds(old(rows), cutoff))
      ensures forall x :: x in rows <==> x in old(rows) && !EndedUntil(old(rows)[x], cutoff)
      ensures forall x | x in rows ::
        var parent := old(rows)[x].parent;
        rows[x] == if parent.Some? && parent.value in old(rows) && EndedUntil(old(rows)[parent.value], cutoff)
                   then old(rows)[x].(parent := None) else old(rows)[x]
    {
      ghost var t := rows;
      ghost var gone: set<nat> := {};
      UnlinkNothing(t);
      hide Unlink, ExpiredIds;
      while true
        invariant gone <= ExpiredIds(t, cutoff)
        invariant rows == Unlink(t, gone)
        decreases ExpiredIds(t, cutoff) - gone
      {
        UnlinkExpired(t, gone, cutoff);
        var jobs := SearchExpired(cutoff, CHUNK_SIZE);
        if jobs == {} {
          break;
        }
        UnlinkTwice(t, gone, jobs);
        gone := gone + jobs;
        rows := Unlink(rows, jobs);
        if |jobs| < CHUNK_SIZE {
          break;
        }
      }
      assert gone == ExpiredIds(t, cutoff);
      UnlinkedAt(t, cutoff);
    }
  }
}
