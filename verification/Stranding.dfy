/** No job waits for ever: the invariant that ties every waiting row to work that can still happen. */
module Stranding {
  import opened Reach
  import opened JobTable
  import opened Cancel
  import opened CancelWalk
  import opened Outcomes

  /** Ids only point backwards, barriers have no heirs, and barrier members have no parent. */
  ghost predicate Wired(t: Table) {
    && (forall y | y in t :: t[y].parent.Some? ==> t[y].parent.value < y)
    && (forall y | y in t :: forall d | d in t[y].deps :: d < y && (d in t ==> t[d].parent.None?))
    && (forall b, y | b in t && y in t && t[b].IsBarrier() :: t[y].parent != Some(b) && b !in t[y].deps)
  }

  function ActiveMembers(t: Table, deps: seq<nat>): set<nat> { set d | d in deps && IsActive(t, d) }

  /** Row `y` waits for something that can still happen. */
  ghost predicate Served(t: Table, y: nat)
    requires y in t
  {
    && (t[y].parent.Some? || t[y].IsBarrier())
    && (t[y].parent.Some? ==> IsActive(t, t[y].parent.value))
    && (t[y].IsBarrier() ==> 1 <= t[y].countdown <= |ActiveMembers(t, t[y].deps)|)
  }

  ghost predicate NoneStranded(t: Table) {
    forall y | y in t && t[y].state == Waiting :: Served(t, y)
  }

  ghost predicate Sound(t: Table) { Wired(t) && NoneStranded(t) }

  // ---- what the invariant gives ---------------------------------------------

  predicate Runnable(t: Table, id: nat) { id in t && (t[id].state == Pending || t[id].state == Started) }

  function ActiveIds(t: Table): set<nat> { set x | x in t && t[x].Active() }

  /**
   Every waiting job is at the end of a path of active rows along parents and
   dependencies that begins with one that can run and goes on with waiting ones.
   */
  lemma {:induction false} WaitingHasRunnable(t: Table, y: nat) returns (path: seq<nat>)
    requires Sound(t) && IsWaiting(t, y)
    ensures IsPath(AllEdges(t), ActiveIds(t), path) && Runnable(t, path[0]) && path[|path| - 1] == y
    ensures forall i | 0 < i < |path| :: IsWaiting(t, path[i])
    decreases y
  {
    var next := NextActive(t, y);
    if IsWaiting(t, next) {
      path := WaitingHasRunnable(t, next);
    } else {
      path := [next];
    }
    hide AllEdges, Sound;
    path := path + [y];
  }

  lemma NextActive(t: Table, y: nat) returns (x: nat)
    requires Sound(t) && IsWaiting(t, y)
    ensures x < y && IsActive(t, x) && (x, y) in AllEdges(t)
  {
    assert Served(t, y);
    if t[y].parent.Some? {
      x := t[y].parent.value;
    } else {
      var members := ActiveMembers(t, t[y].deps);
      assert members != {};
      x :| x in members;
    }
    EdgeAbove(t, x, y);
  }

  lemma DrainedMeansSettled(t: Table)
    requires Sound(t) && forall x | x in t :: !Runnable(t, x)
    ensures forall y | y in t :: t[y].Terminal()
  {
    forall y | y in t ensures t[y].Terminal() {
      if IsWaiting(t, y) { var path := WaitingHasRunnable(t, y); }
    }
  }

  // ---- preservation, in general ---------------------------------------------

  lemma SameGraphStaysWired(t: Table, t': Table)
    requires Wired(t) && SameGraph(t, t')
    ensures Wired(t')
  {
    forall y | y in t' ensures forall d | d in t'[y].deps :: d < y && (d in t' ==> t'[d].parent.None?) {
      assert y in t;
    }
  }

  /**
   What still waits lost none of what it waits for, except that the barriers
   of `done`, if given, may have counted one member down.
   */
  ghost predicate Supports(t: Table, t': Table, y: nat, done: Option<nat>)
    requires y in t && y in t'
  {
    && IsWaiting(t, y)
    && (t[y].parent.Some? && IsActive(t, t[y].parent.value) ==> IsActive(t', t[y].parent.value))
    && (forall d | d in t[y].deps && IsActive(t, d) && Some(d) != done :: IsActive(t', d))
    && (t[y].IsBarrier() ==>
          && t'[y].countdown >= 1
          && t'[y].countdown == if done.Some? && done.value in t[y].deps then t[y].countdown - 1 else t[y].countdown)
  }

  lemma SupportedStaysServed(t: Table, t': Table, y: nat, done: Option<nat>)
    requires SameGraph(t, t') && y in t && y in t' && NoneStranded(t) && Supports(t, t', y, done)
    ensures Served(t', y)
  {
    assert Served(t, y);
    if t[y].IsBarrier() {
      var before, after := ActiveMembers(t, t[y].deps), ActiveMembers(t', t[y].deps);
      if done.Some? && done.value in t[y].deps {
        assert before - {done.value} <= after;
        SubsetSize(before - {done.value}, after);
        assert before - {done.value} + {done.value} >= before;
        SubsetSize(before, before - {done.value} + {done.value});
      } else {
        assert before <= after;
        SubsetSize(before, after);
      }
    }
  }

  lemma SupportedStaysSound(t: Table, t': Table, done: Option<nat>)
    requires Sound(t) && SameGraph(t, t')
    requires forall y | IsWaiting(t', y) :: y in t && Supports(t, t', y, done)
    ensures Sound(t')
  {
    hide Wired, Supports, Served;
    SameGraphStaysWired(t, t');
    forall y | IsWaiting(t', y) ensures Served(t', y) {
      SupportedStaysServed(t, t', y, done);
    }
  }

  /** Rows that stop being active leave no heir waiting. */
  ghost predicate ClosedLoss(t: Table, t': Table) {
    && SameGraph(t, t')
    && forall y | y in t' && t'[y].state == Waiting ::
         && t[y].state == Waiting && t'[y].countdown == t[y].countdown
         && (forall x: nat | IsActive(t, x) && (t[y].parent == Some(x) || x in t[y].deps) :: IsActive(t', x))
  }

  lemma ClosedLossStaysSound(t: Table, t': Table)
    requires Sound(t) && ClosedLoss(t, t')
    ensures Sound(t')
  {
    forall y | y in t' && t'[y].state == Waiting ensures Supports(t, t', y, None) {
      assert Served(t, y);
    }
    SupportedStaysSound(t, t', None);
  }

  /** The wiring seen from one row: what it waits for comes earlier and is no barrier. */
  lemma WiredAt(t: Table, y: nat)
    requires Wired(t) && y in t
    ensures t[y].parent.Some? && t[y].parent.value in t ==> t[t[y].parent.value].deps == []
    ensures forall d | d in t[y].deps && d in t :: t[d].parent.None? && t[d].deps == []
  {
    forall d | d in t[y].deps && d in t ensures !t[d].IsBarrier() {}
  }

  lemma SoundIsWired(t: Table)
    requires Sound(t)
    ensures Wired(t)
    ensures forall y | y in t && t[y].state == Waiting :: Served(t, y)
  {}

  // ---- cancel ---------------------------------------------------------------

  lemma CancelStaysSound(t: Table, ids: set<nat>, now: int)
    requires Sound(t)
    ensures Sound(CancelButton(t, ids, now))
  {
    hide *;
    CancelButtonIsReachability(t, ids, now);
    CancelClosesLoss(t, ids, now);
    ClosedLossStaysSound(t, CancelButton(t, ids, now));
  }

  lemma CancelClosesLoss(t: Table, ids: set<nat>, now: int)
    ensures
      var cascading := set id | id in ids && id in t && !t[id].Terminal();
      var reached := Closure(AllEdges(t), WaitingIds(t), Successors(AllEdges(t), cascading));
      ClosedLoss(t, CancelRows(t, ids + reached, now))
  {
    var cascading := set id | id in ids && id in t && !t[id].Terminal();
    var heirs := Successors(AllEdges(t), cascading);
    var reached := Closure(AllEdges(t), WaitingIds(t), heirs);
    assert reached <= WaitingIds(t);
    hide Closure, AllEdges, Successors, ClosedLoss, CancelRows;
    ClosureHasSeeds(AllEdges(t), WaitingIds(t), heirs);
    ClosureIsClosed(AllEdges(t), WaitingIds(t), heirs);
    forall y, x: nat | IsWaiting(t, y) && x in cascading + reached && (t[y].parent == Some(x) || x in t[y].deps)
      ensures y in reached
    {
      EdgeAbove(t, x, y);
      if x in cascading { EdgeLeads(AllEdges(t), cascading, x, y); }
    }
    CutClosesLoss(t, ids, cascading, reached, now);
  }

  lemma CutClosesLoss(t: Table, ids: set<nat>, cascading: set<nat>, reached: set<nat>, now: int)
    requires forall id | id in ids && IsActive(t, id) :: id in cascading
    requires forall y, x: nat | IsWaiting(t, y) && x in cascading + reached && (t[y].parent == Some(x) || x in t[y].deps) ::
      y in reached
    ensures ClosedLoss(t, CancelRows(t, ids + reached, now))
  {}

  lemma EdgeLeads(edges: Edges, sources: set<nat>, x: nat, y: nat)
    requires (x, y) in edges && x in sources
    ensures y in Successors(edges, sources)
  {}

  lemma EdgeAbove(t: Table, x: nat, y: nat)
    requires y in t && (t[y].parent == Some(x) || x in t[y].deps)
    ensures (x, y) in AllEdges(t)
  {}

  // ---- success --------------------------------------------------------------

  /** What a walk along parents from `id` leaves behind. */
  ghost predicate ChainLoss(t: Table, id: nat, t': Table) {
    && SameGraph(t, t')
    && (forall y | y in t' && t'[y].state == Waiting :: StillFed(t, id, t', y))
    && (forall x | x in t && t[x].parent.None? && IsActive(t, x) :: IsActive(t', x))
  }

  predicate StillFed(t: Table, id: nat, t': Table, y: nat) {
    && y in t && y in t' && t'[y] == t[y] && t[y].parent != Some(id)
    && (t[y].parent.Some? && IsActive(t, t[y].parent.value) ==> IsActive(t', t[y].parent.value))
  }

  lemma ChainLossAt(t: Table, id: nat, t': Table, y: nat)
    requires ChainLoss(t, id, t') && IsWaiting(t', y)
    ensures StillFed(t, id, t', y)
    ensures forall d | d in t && t[d].parent.None? && IsActive(t, d) :: IsActive(t', d)
  {}

  lemma GoneHaveParents(t: Table, live: set<nat>, ended: set<nat>)
    ensures forall x | x in Closure(ParentEdges(t), live, Children(t, ended)) && x in t :: t[x].parent.Some?
  {
    var parented := set x | x in t && t[x].parent.Some?;
    assert Closed(ParentEdges(t), live, parented);
    ClosureIsLeast(ParentEdges(t), live, Children(t, ended), parented);
  }

  /** A walk down from `id` through `live` rows takes every live child of what it takes. */
  lemma WalkTakesChildren(t: Table, live: set<nat>, id: nat, gone: set<nat>)
    requires gone == Closure(ParentEdges(t), live, Children(t, {id}))
    ensures forall y | y in live && y in t && t[y].parent.Some? :: t[y].parent.value in {id} + gone ==> y in gone
    ensures forall x | x in gone && x in t :: t[x].parent.Some?
    ensures gone <= live
  {
    ClosureHasSeeds(ParentEdges(t), live, Children(t, {id}));
    ClosureIsClosed(ParentEdges(t), live, Children(t, {id}));
    GoneHaveParents(t, live, {id});
    assert gone <= live;
    hide Closure;
    forall y | y in live && y in t && t[y].parent.Some? && t[y].parent.value in {id} + gone ensures y in gone {
      assert (t[y].parent.value, y) in ParentEdges(t);
    }
  }

  lemma PromoteCancelLoss(t: Table, id: nat, gone: set<nat>, now: int)
    requires
      var promoted := PromoteRows(t, Promoted(t, id));
      && (forall y | y in WaitingIds(promoted) && promoted[y].parent.Some? :: promoted[y].parent.value in {id} + gone ==> y in gone)
      && (forall x | x in gone && x in promoted :: promoted[x].parent.Some?)
    ensures ChainLoss(t, id, CancelRows(PromoteRows(t, Promoted(t, id)), gone, now))
  {
    var promoted := PromoteRows(t, Promoted(t, id));
    var t' := CancelRows(promoted, gone, now);
    forall y | IsWaiting(t', y) ensures StillFed(t, id, t', y) {
      assert y in WaitingIds(promoted) && y !in gone;
      assert promoted[y].parent == t[y].parent;
    }
  }

  lemma SuccessChildrenLoss(t: Table, id: nat, now: int)
    ensures ChainLoss(t, id, SuccessChildren(t, id, now))
  {
    var promoted := PromoteRows(t, Promoted(t, id));
    var gone := ChainReach(promoted, {id});
    WalkTakesChildren(promoted, WaitingIds(promoted), id, gone);
    hide Closure, ChainReach, ChainLoss, PromoteRows, Promoted, CancelRows;
    PromoteCancelLoss(t, id, gone, now);
  }

  /** What one row needs from a table change to stay served. */
  lemma SupportsFrom(t: Table, t': Table, y: nat, done: Option<nat>)
    requires y in t && y in t' && IsWaiting(t, y) && Served(t, y)
    requires t[y].parent.Some? && IsActive(t, t[y].parent.value) ==> IsActive(t', t[y].parent.value)
    requires forall d | d in t[y].deps && IsActive(t, d) && Some(d) != done :: IsActive(t', d)
    requires t'[y].countdown == if done.Some? && done.value in t[y].deps then t[y].countdown - 1 else t[y].countdown
    requires done.Some? && done.value in t[y].deps ==> t'[y].countdown >= 1
    ensures Supports(t, t', y, done)
  {}

  lemma StillFedAt(t: Table, id: nat, t': Table, y: nat)
    requires StillFed(t, id, t', y) && IsWaiting(t', y)
    ensures IsWaiting(t, y) && y in t && y in t' && t'[y] == t[y] && t[y].parent != Some(id)
    ensures t[y].parent.Some? && IsActive(t, t[y].parent.value) ==> IsActive(t', t[y].parent.value)
  {}

  lemma ReleaseAt(t: Table, id: nat, now: int, y: nat)
    requires IsWaiting(Release(t, id, now), y)
    ensures IsWaiting(t, y) && y in t && y in Release(t, id, now)
    ensures Release(t, id, now)[y].countdown == if id in t[y].deps then t[y].countdown - 1 else t[y].countdown
    ensures id in t[y].deps ==> t[y].countdown > 1
  {}

  lemma DoneKeepsRest(t: Table, id: nat, now: int)
    requires id in t
    ensures SameGraph(t, t[id := DoneRow(t[id], now)])
    ensures !IsWaiting(t[id := DoneRow(t[id], now)], id)
    ensures forall x | x in t && x != id && IsActive(t, x) :: IsActive(t[id := DoneRow(t[id], now)], x)
  {}

  lemma GraphAt(t: Table, t': Table, x: nat)
    requires SameGraph(t, t') && x in t
    ensures x in t' && t'[x].parent == t[x].parent && t'[x].deps == t[x].deps
  {}

  lemma WaitingIsIn(t: Table, x: nat)
    ensures IsWaiting(t, x) ==> IsActive(t, x)
    ensures IsActive(t, x) ==> x in t
  {}

  /** A row above a waiting one stays active through a completion, unless it is the completed job. */
  lemma SucceedKeepsActive(t: Table, id: nat, now: int, settled: Table, x: nat)
    requires id in t && x != id && IsActive(t, x) && x in t && t[x].deps == []
    requires var done := t[id := DoneRow(t[id], now)];
      ChainLoss(done, id, settled) && (t[x].parent.None? || (IsActive(done, x) ==> IsActive(settled, x)))
    ensures IsActive(Release(settled, id, now), x)
  {
    hide *;
    var done := t[id := DoneRow(t[id], now)];
    DoneKeepsRest(t, id, now);
    ChainKeepsGraph(done, id, settled);
    GraphAt(t, done, x);
    GraphAt(done, settled, x);
    if t[x].parent.None? {
      ChainKeepsRoot(done, id, settled, x);
    }
    ReleaseKeepsPlain(settled, id, now, x);
  }

  lemma ChainKeepsRoot(t: Table, id: nat, t': Table, x: nat)
    requires ChainLoss(t, id, t') && x in t && t[x].parent.None? && IsActive(t, x)
    ensures IsActive(t', x)
  {}

  lemma ReleaseKeepsPlain(t: Table, id: nat, now: int, x: nat)
    requires IsActive(t, x) && t[x].deps == []
    ensures IsActive(Release(t, id, now), x)
  {}

  lemma SucceedSupports(t: Table, id: nat, now: int, settled: Table, y: nat)
    requires Wired(t) && NoneStranded(t) && id in t
    requires ChainLoss(t[id := DoneRow(t[id], now)], id, settled)
    requires IsWaiting(Release(settled, id, now), y)
    ensures y in t && Supports(t, Release(settled, id, now), y, Some(id))
  {
    hide *;
    var done := t[id := DoneRow(t[id], now)];
    var t' := Release(settled, id, now);
    DoneKeepsRest(t, id, now);
    ReleaseAt(settled, id, now, y);
    ChainLossAt(done, id, settled, y);
    StillFedAt(done, id, settled, y);
    WaitingIsIn(done, y);
    assert y != id;
    WiredAt(t, y);
    ServedAt(t, y);
    if t[y].parent.Some? && IsActive(t, t[y].parent.value) {
      WaitingIsIn(t, t[y].parent.value);
      SucceedKeepsActive(t, id, now, settled, t[y].parent.value);
    }
    forall d | d in t[y].deps && IsActive(t, d) && d != id ensures IsActive(t', d) {
      WaitingIsIn(t, d);
      SucceedKeepsActive(t, id, now, settled, d);
    }
    SupportsFrom(t, t', y, Some(id));
  }

  lemma ServedAt(t: Table, y: nat)
    requires NoneStranded(t) && y in t && t[y].state == Waiting
    ensures IsWaiting(t, y) && Served(t, y)
  {}

  lemma SucceedStaysSound(t: Table, id: nat, now: int)
    requires Sound(t) && id in t
    ensures Sound(Succeed(t, id, now))
  {
    SoundIsWired(t);
    hide *;
    var done := t[id := DoneRow(t[id], now)];
    var settled := SuccessChildren(done, id, now);
    SuccessChildrenLoss(done, id, now);
    var t' := Release(settled, id, now);
    DoneKeepsRest(t, id, now);
    ChainKeepsGraph(done, id, settled);
    ReleaseKeepsGraph(settled, id, now);
    SameGraphTransitive(t, done, settled);
    SameGraphTransitive(t, settled, t');
    forall y | IsWaiting(t', y) ensures y in t && Supports(t, t', y, Some(id)) {
      SucceedSupports(t, id, now, settled, y);
    }
    SupportedStaysSound(t, t', Some(id));
    SucceedIs(t, id, now);
  }

  lemma SucceedIs(t: Table, id: nat, now: int)
    requires id in t
    ensures Succeed(t, id, now) == Release(SuccessChildren(t[id := DoneRow(t[id], now)], id, now), id, now)
  {
    hide SuccessChildren, Release, DoneRow;
  }

  lemma ReleaseKeepsGraph(t: Table, id: nat, now: int)
    ensures SameGraph(t, Release(t, id, now))
  {}

  lemma ChainKeepsGraph(t: Table, id: nat, t': Table)
    requires ChainLoss(t, id, t')
    ensures SameGraph(t, t')
  {}

  // ---- failure --------------------------------------------------------------

  lemma FailChainLoss(t: Table, id: nat)
    ensures ChainLoss(t, id, FailChain(t, {id}))
  {
    var gone := FailReach(t, {id});
    WalkTakesChildren(t, FailableIds(t), id, gone);
    assert TakesFailable(t, id, gone);
    hide *;
    FailOnceLoss(t, id, gone);
    FailChainIs(t, id);
  }

  /** `gone` takes every on_done child of `id` and of its own rows. */
  ghost predicate TakesFailable(t: Table, id: nat, gone: set<nat>) {
    && (forall y | y in t && CanFail(t, y) && t[y].parent.Some? :: t[y].parent.value in {id} + gone ==> y in gone)
    && (forall x | x in gone && x in t :: t[x].parent.Some?)
  }

  lemma FailOnceSpares(t: Table, ended: set<nat>, y: nat)
    requires IsWaiting(FailOnce(t, ended), y)
    ensures IsWaiting(t, y) && FailOnce(t, ended)[y] == t[y]
    ensures t[y].parent.Some? ==> t[y].parent.value !in ended
  {}

  lemma FailOnceKeeps(t: Table, id: nat, gone: set<nat>, x: nat)
    requires TakesFailable(t, id, gone) && IsActive(t, x) && x !in gone
    ensures IsActive(FailOnce(t, {id} + gone), x)
  {
    assert x in Children(t, {id} + gone) ==> !CanFail(t, x);
  }

  lemma FailChainIs(t: Table, id: nat)
    ensures FailChain(t, {id}) == FailOnce(t, {id} + FailReach(t, {id}))
  {}

  lemma FailOnceLoss(t: Table, id: nat, gone: set<nat>)
    requires TakesFailable(t, id, gone)
    ensures ChainLoss(t, id, FailOnce(t, {id} + gone))
  {
    var t' := FailOnce(t, {id} + gone);
    FailOnceKeepsGraph(t, {id} + gone);
    assert forall x | x in gone && x in t :: t[x].parent.Some?;
    hide FailOnce, TakesFailable, FailableIds, WaitingIds, Children;
    forall y | IsWaiting(t', y) ensures StillFed(t, id, t', y) {
      FailOnceSpares(t, {id} + gone, y);
      if t[y].parent.Some? && IsActive(t, t[y].parent.value) {
        FailOnceKeeps(t, id, gone, t[y].parent.value);
      }
    }
    forall x | x in t && t[x].parent.None? && IsActive(t, x) ensures IsActive(t', x) {
      FailOnceKeeps(t, id, gone, x);
    }
  }

  /** Jobs in `failed` have ended; only barriers that list one of them may have lost a member. */
  ghost predicate LossBut(t: Table, t': Table, failed: set<nat>) {
    && SameGraph(t, t')
    && forall y | y in t' && t'[y].state == Waiting :: FedBut(t, t', y, failed)
  }

  predicate FedBut(t: Table, t': Table, y: nat, failed: set<nat>) {
    && y in t && y in t' && t'[y] == t[y]
    && (t[y].parent.Some? && IsActive(t, t[y].parent.value) ==> IsActive(t', t[y].parent.value))
    && (forall d | d in t[y].deps && IsActive(t, d) && d !in failed :: IsActive(t', d))
  }

  lemma LossButKeepsGraph(t: Table, t': Table, failed: set<nat>)
    requires LossBut(t, t', failed)
    ensures SameGraph(t, t')
    ensures forall y | IsWaiting(t', y) :: FedBut(t, t', y, failed)
  {}

  /** Row `id` has ended as `row`; the others are as they were. */
  lemma EndedKeepsRest(t: Table, id: nat, row: Job)
    requires id in t && row.Terminal() && row.parent == t[id].parent && row.deps == t[id].deps
    ensures SameGraph(t, t[id := row]) && !IsActive(t[id := row], id) && !IsWaiting(t[id := row], id)
    ensures forall x | x in t && x != id && IsActive(t, x) :: IsActive(t[id := row], x)
    ensures forall x | x != id && IsWaiting(t[id := row], x) :: IsWaiting(t, x)
  {}

  lemma FailOneMoreAt(t: Table, t': Table, failed: set<nat>, id: nat, row: Job, t'': Table, y: nat)
    requires Wired(t) && LossBut(t, t', failed) && id in t'
    requires row.Terminal() && row.parent == t'[id].parent && row.deps == t'[id].deps
    requires ChainLoss(t'[id := row], id, t'') && IsWaiting(t'', y)
    ensures FedBut(t, t'', y, failed + {id})
  {
    hide LossBut, ChainLoss, Wired, SameGraph;
    var written := t'[id := row];
    LossButKeepsGraph(t, t', failed);
    ChainLossAt(written, id, t'', y);
    assert IsWaiting(t', y);
    WiredAt(t, y);
    forall d | d in t[y].deps && IsActive(t, d) && d !in failed + {id} ensures IsActive(t'', d) {
      GraphAt(t, t', d);
    }
  }

  lemma FailOneMore(t: Table, t': Table, failed: set<nat>, id: nat, row: Job)
    requires Wired(t) && LossBut(t, t', failed) && id in t'
    requires row.Terminal() && row.parent == t'[id].parent && row.deps == t'[id].deps
    ensures LossBut(t, FailChain(t'[id := row], {id}), failed + {id})
  {
    hide FailChain, Wired, LossBut, ChainLoss, SameGraph, FedBut;
    var written := t'[id := row];
    var t'' := FailChain(written, {id});
    FailChainLoss(written, id);
    LossButKeepsGraph(t, t', failed);
    EndedKeepsRest(t', id, row);
    ChainKeepsGraph(written, id, t'');
    SameGraphTransitive(t, t', written);
    SameGraphTransitive(t, written, t'');
    forall y | IsWaiting(t'', y) ensures FedBut(t, t'', y, failed + {id}) {
      FailOneMoreAt(t, t', failed, id, row, t'', y);
    }
    LossButFrom(t, t'', failed + {id});
  }

  lemma LossButFrom(t: Table, t': Table, failed: set<nat>)
    requires SameGraph(t, t') && forall y | IsWaiting(t', y) :: FedBut(t, t', y, failed)
    ensures LossBut(t, t', failed)
  {}

  lemma FailDependentsAt(t: Table, id: nat, y: nat)
    requires IsWaiting(FailDependents(t, id), y)
    ensures IsWaiting(t, y) && id !in t[y].deps && FailDependents(t, id)[y] == t[y]
    ensures forall d | d in t && t[d].deps == [] && IsActive(t, d) :: IsActive(FailDependents(t, id), d)
  {}

  lemma FailDependentsOneMore(t: Table, t': Table, failed: set<nat>, id: nat)
    requires Wired(t) && LossBut(t, t', failed)
    ensures LossBut(t, FailDependents(t', id), failed)
    ensures forall y | IsWaiting(FailDependents(t', id), y) :: IsWaiting(t', y) && y in t && id !in t[y].deps
  {
    var t'' := FailDependents(t', id);
    LossButKeepsGraph(t, t', failed);
    assert SameGraph(t, t'');
    hide FailDependents, Wired, LossBut;
    forall y | IsWaiting(t'', y) ensures FedBut(t, t'', y, failed) && IsWaiting(t', y) && y in t && id !in t[y].deps {
      FailDependentsAt(t', id, y);
      WiredAt(t, y);
    }
    LossButFrom(t, t'', failed);
  }

  /** Once no waiting barrier lists a failed job, nothing that waits has lost anything. */
  lemma LossButSound(t: Table, t': Table, failed: set<nat>)
    requires Sound(t) && LossBut(t, t', failed)
    requires forall y | IsWaiting(t', y) :: y in t && forall d | d in t[y].deps :: d !in failed
    ensures Sound(t')
  {
    ClosedLossStaysSound(t, t');
  }

  lemma FailBelowStaysSound(t: Table, id: nat, row: Job)
    requires Sound(t) && id in t
    requires row.Terminal() && row.parent == t[id].parent && row.deps == t[id].deps
    ensures Sound(FailBelow(t[id := row], id))
  {
    hide FailChain, Sound, Wired, LossBut, FailDependents, NoneStranded, SameGraph;
    SoundIsWired(t);
    NothingLostYet(t);
    var failed := FailChain(t[id := row], {id});
    FailOneMore(t, t, {}, id, row);
    FailDependentsOneMore(t, failed, {} + {id}, id);
    LossButSound(t, FailDependents(failed, id), {} + {id});
  }

  lemma NothingLostYet(t: Table)
    ensures LossBut(t, t, {})
  {}

  lemma {:induction false} SetFailedEachLoss(t: Table, ids: seq<nat>, now: int)
    requires Wired(t)
    ensures LossBut(t, SetFailedEach(t, ids, now), Ids(ids))
  {
    if ids != [] {
      var front, id := ids[..|ids| - 1], ids[|ids| - 1];
      SetFailedEachLoss(t, front, now);
      var t' := SetFailedEach(t, front, now);
      assert ids == front + [id];
      IdsOfConcat(front, [id]);
      assert Ids([id]) == {id};
      hide FailChain, LossBut, Wired;
      if id in t' {
        FailOneMore(t, t', Ids(front), id, EndRow(t'[id], Failed, now));
      } else {
        LossButWidens(t, t', Ids(front), Ids(ids));
      }
    }
  }

  lemma LossButWidens(t: Table, t': Table, failed: set<nat>, failed': set<nat>)
    requires LossBut(t, t', failed) && failed <= failed'
    ensures LossBut(t, t', failed')
  {}

  lemma {:induction false} FailDependentsEachLoss(t: Table, t': Table, failed: set<nat>, ids: seq<nat>)
    requires Wired(t) && LossBut(t, t', failed)
    ensures LossBut(t, FailDependentsEach(t', ids), failed)
    ensures forall y | IsWaiting(FailDependentsEach(t', ids), y) ::
      y in t && forall d | d in t[y].deps :: d !in Ids(ids)
  {
    if ids == [] {
      LossButKeepsGraph(t, t', failed);
    } else {
      var front, id := ids[..|ids| - 1], ids[|ids| - 1];
      FailDependentsEachLoss(t, t', failed, front);
      assert ids == front + [id];
      IdsOfConcat(front, [id]);
      assert Ids([id]) == {id};
      hide LossBut, FailDependents, Wired, Ids;
      FailDependentsOneMore(t, FailDependentsEach(t', front), failed, id);
    }
  }

  lemma SetFailedStaysSound(t: Table, ids: seq<nat>, now: int)
    requires Sound(t)
    ensures Sound(SetFailedButton(t, ids, now))
  {
    SoundIsWired(t);
    SetFailedEachLoss(t, ids, now);
    FailDependentsEachLoss(t, SetFailedEach(t, ids, now), Ids(ids), ids);
    hide SetFailedEach, FailDependentsEach, Sound, LossBut;
    LossButSound(t, SetFailedButton(t, ids, now), Ids(ids));
  }
}
