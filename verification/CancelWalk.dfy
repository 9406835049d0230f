/**
 The steps of the cancelling worklists.  `_cancel_dependents` and
 `_cascade_children_on_parent_cancelled` call each other; each lemma says what
 one stretch of one of the two loops contributes to the closure they compute.
 */
module CancelWalk {
  import opened JobTable
  import opened Cancel


  lemma IdsOfConcat(a: seq<nat>, b: seq<nat>)
    ensures Ids(a + b) == Ids(a) + Ids(b)
  {}

  lemma IdsOfPrefix(a: seq<nat>, i: nat)
    requires i < |a|
    ensures Ids(a[..i + 1]) == Ids(a[..i]) + {a[i]}
  {
    assert a[..i + 1] == a[..i] + [a[i]];
  }

  ghost predicate Distinct(ids: seq<nat>) {
    forall i, j | 0 <= i < j < |ids| :: ids[i] != ids[j]
  }

  lemma IdsOfTail(a: seq<nat>)
    requires a != []
    ensures Ids(a) == {a[0]} + Ids(a[1..])
  {
    assert a == [a[0]] + a[1..];
  }

  // ---- bookkeeping for the bulk update over `self` --------------------------

  lemma CancelHitsNothing(t: Table, ids: seq<nat>, now: int)
    ensures Ids([]) == Dependents(t, Ids(ids[..0])) * WaitingIds(t)
    ensures t == CancelRows(t, Ids([]), now)
  {}

  lemma CancelHit(t: Table, ids: seq<nat>, i: nat, gone: set<nat>, now: int)
    requires i < |ids|
    requires gone == Dependents(t, Ids(ids[..i])) * WaitingIds(t)
    ensures
      var t' := CancelRows(t, gone, now);
      var hit := Dependents(t', {ids[i]}) * WaitingIds(t');
      && CancelRows(t', hit, now) == CancelRows(t, gone + hit, now)
      && gone + hit == Dependents(t, Ids(ids[..i + 1])) * WaitingIds(t)
  {
    var t' := CancelRows(t, gone, now);
    var hit := Dependents(t', {ids[i]}) * WaitingIds(t');
    hide *;
    CancelRowsKeepsGraph(t, gone, now);
    SameGraphSameHeirs(t, t', {ids[i]});
    IdsOfPrefix(ids, i);
    HeirsOfUnion(t, Ids(ids[..i]), {ids[i]});
    CancelRowsTwice(t, gone, hit, now);
  }

  lemma CancelHits(t: Table, ids: seq<nat>, hits: seq<nat>, now: int)
    requires Ids(hits) == Dependents(t, Ids(ids[..|ids|])) * WaitingIds(t)
    ensures CancelFrom(t, Ids(hits), now) == CancelFrom(t, Dependents(t, Ids(ids)), now)
    ensures Ids(hits) <= WaitingIds(t)
    ensures hits == [] ==> CancelRows(t, Ids(hits), now) == CancelFrom(t, Ids(hits), now)
    ensures hits != [] ==> |WaitingIds(CancelRows(t, Ids(hits), now))| < |WaitingIds(t)|
  {
    assert ids[..|ids|] == ids;
    var t' := CancelRows(t, Ids(hits), now);
    CancelRowsKeepsGraph(t, Ids(hits), now);
    FirstId(hits);
    if hits == [] {
      assert t' == t;
      CancelNothing(t, Ids(hits), now);
    } else {
      FewerWaiting(t, t', hits[0]);
    }
    hide *;
    CancelLiveSeeds(t, Dependents(t, Ids(ids)), Ids(hits), now);
  }

  // ---- bookkeeping for the recursion over the newly cancelled ---------------

  lemma NoChildrenYet(t: Table, newly: seq<nat>, now: int)
    ensures t == CancelFrom(t, Children(t, Ids(newly[..0])), now)
  {
    CancelNothing(t, Children(t, Ids(newly[..0])), now);
  }

  lemma CascadeNext(t: Table, newly: seq<nat>, i: nat, now: int)
    requires i < |newly| && !IsWaiting(t, newly[i])
    ensures
      var before := CancelFrom(t, Children(t, Ids(newly[..i])), now);
      var after := CancelFrom(before, Children(before, {newly[i]}), now);
      && !IsWaiting(before, newly[i])
      && after == CancelFrom(t, Children(t, Ids(newly[..i + 1])), now)
      && WaitingIds(after) <= WaitingIds(before) <= WaitingIds(t)
  {
    var before := CancelFrom(t, Children(t, Ids(newly[..i])), now);
    NotWaitingStays(t, Children(t, Ids(newly[..i])), newly[i], now);
    hide *;
    CancelFromCloses(t, Children(t, Ids(newly[..i])), now);
    SameGraphSameHeirs(t, before, {newly[i]});
    CancelFromCloses(before, Children(t, {newly[i]}), now);
    IdsOfPrefix(newly, i);
    HeirsOfUnion(t, Ids(newly[..i]), {newly[i]});
    CancelTwice(t, Children(t, Ids(newly[..i])), Children(t, {newly[i]}), now);
  }

  lemma NotWaitingStays(t: Table, seeds: set<nat>, id: nat, now: int)
    requires !IsWaiting(t, id)
    ensures !IsWaiting(CancelFrom(t, seeds, now), id)
  {
    hide CancelReach;
  }

  /** Children first, dependents after: together the walk from all heirs. */
  lemma CascadedBoth(t: Table, newly: seq<nat>, now: int)
    ensures
      var after := CancelFrom(t, Children(t, Ids(newly[..|newly|])), now);
      CancelFrom(after, Dependents(after, Ids(newly)), now) == CancelFrom(t, Heirs(t, Ids(newly)), now)
  {
    assert newly[..|newly|] == newly;
    var ids := Ids(newly);
    var after := CancelFrom(t, Children(t, ids), now);
    assert Heirs(t, ids) == Children(t, ids) + Dependents(t, ids);
    hide *;
    CancelFromCloses(t, Children(t, ids), now);
    SameGraphSameHeirs(t, after, ids);
    CancelTwice(t, Children(t, ids), Dependents(t, ids), now);
  }

  lemma CascadedAll(t: Table, t': Table, newly: seq<nat>, now: int)
    requires Ids(newly) <= WaitingIds(t) && t' == CancelRows(t, Ids(newly), now)
    ensures
      var after := CancelFrom(t', Children(t', Ids(newly[..|newly|])), now);
      CancelFrom(after, Dependents(after, Ids(newly)), now) == CancelFrom(t, Ids(newly), now)
  {
    var ids := Ids(newly);
    hide *;
    CascadedBoth(t', newly, now);
    CancelPop(t, ids, {}, now);
    assert Heirs(t', ids) + {} == Heirs(t', ids);
    assert ids + {} == ids;
  }

  lemma ButtonWritten(t: Table, ids: seq<nat>, cascading: seq<nat>, now: int)
    requires forall id | id in ids :: id in t
    requires Ids(cascading) == set id | id in Ids(ids[..|ids|]) && id in t && !t[id].Terminal()
    ensures
      var t' := CancelRows(t, Ids(ids[..|ids|]), now);
      && (forall i | 0 <= i < |cascading| :: !IsWaiting(t', cascading[i]))
      && t' == CancelFrom(t', Children(t', Ids(cascading[..0])), now)
      && CancelButton(t, Ids(ids), now) == CancelFrom(t', Heirs(t', Ids(cascading)), now)
  {
    assert ids[..|ids|] == ids;
    var t' := CancelRows(t, Ids(ids), now);
    NoChildrenYet(t', cascading, now);
    forall i | 0 <= i < |cascading| ensures !IsWaiting(t', cascading[i]) {
      assert cascading[i] in Ids(cascading);
    }
  }

  // ---- bookkeeping for the walk along parents -------------------------------

  lemma InitialQueue(t: Table, id: nat, queue: seq<nat>, now: int)
    requires !IsWaiting(t, id) && Distinct(queue)
    requires Ids(queue) == Children(t, {id}) * WaitingIds(t)
    ensures CancelFrom(t, Ids(queue), now) == CancelFrom(t, Children(t, {id}), now)
    ensures Frontier(t, queue, now)
  {
    CancelLiveSeeds(t, Children(t, {id}), Ids(queue), now);
    hide CancelFrom;
    forall q | q in queue ensures Queued(t, q, now) {
      assert q in Ids(queue);
    }
  }

  lemma FrontierHead(t: Table, job: nat, rest: seq<nat>, now: int)
    requires Frontier(t, [job] + rest, now)
    ensures Queued(t, job, now) && job in t
    ensures t[job].state == Waiting ==> IsWaiting(t, job)
  {
    assert job == ([job] + rest)[0];
    assert job in [job] + rest;
  }

  lemma CancelNoIds(t: Table, now: int)
    ensures CancelFrom(t, Ids([]), now) == t
  {
    CancelNothing(t, Ids([]), now);
  }

  lemma CountWaiting(t: Table, t': Table)
    requires WaitingIds(t') <= WaitingIds(t)
    ensures |WaitingIds(t')| <= |WaitingIds(t)|
  {
    SubsetSize(WaitingIds(t'), WaitingIds(t));
  }

  lemma FewerWaiting(t: Table, t': Table, id: nat)
    requires WaitingIds(t') <= WaitingIds(t) && IsWaiting(t, id) && !IsWaiting(t', id)
    ensures |WaitingIds(t')| < |WaitingIds(t)|
  {
    SubsetSize(WaitingIds(t'), WaitingIds(t) - {id});
  }

  lemma SubsetSize(a: set<nat>, b: set<nat>)
    requires a <= b
    ensures |a| <= |b|
  {
    assert b == (b - a) + a;
  }

  /**
   A queued row is still waiting, or the other axis cancelled it before it was
   popped; in that case nothing that waits for it is left waiting.
   */
  ghost predicate Queued(t: Table, id: nat, now: int) {
    && id in t
    && t[id].parent.Some? && !IsWaiting(t, t[id].parent.value)
    && (t[id].state != Waiting ==>
          && t[id] == CancelRow(t[id], now)
          && Heirs(t, {id}) * WaitingIds(t) == {})
  }

  ghost predicate Frontier(t: Table, queue: seq<nat>, now: int) {
    Distinct(queue) && forall q | q in queue :: Queued(t, q, now)
  }

  lemma FirstId(ids: seq<nat>)
    ensures ids != [] ==> ids[0] in Ids(ids)
  {}

  lemma DeadStep(t: Table, job: nat, rest: seq<nat>, children: seq<nat>, now: int)
    requires Frontier(t, [job] + rest, now) && job in t && t[job].state != Waiting
    requires
      var written := CancelRows(t, {job}, now);
      Ids(children) == Children(written, {job}) * WaitingIds(written)
    ensures
      var written := CancelRows(t, {job}, now);
      CancelFrom(written, Dependents(written, Ids([job])), now) == t
    ensures children == [] && Frontier(t, rest + children, now)
    ensures CancelFrom(t, Ids(rest + children), now) == CancelFrom(t, Ids([job] + rest), now)
  {
    FrontierHead(t, job, rest, now);
    var queue := [job] + rest;
    assert forall i | 0 <= i < |rest| :: rest[i] == queue[i + 1];
    assert forall q | q in rest :: q in queue;
    assert CancelRows(t, {job}, now) == t;
    FirstId(children);
    assert children == [];
    assert rest + children == rest;
    assert Ids([job]) == {job};
    IdsOfConcat([job], rest);
    CancelNothing(t, Dependents(t, {job}), now);
    assert (Ids(rest)) * WaitingIds(t) == ({job} + Ids(rest)) * WaitingIds(t);
    hide *;
    CancelLiveSeeds(t, Ids(rest), {job} + Ids(rest), now);
  }

  lemma LiveStepSeeds(rest: set<nat>, kids: set<nat>, children: set<nat>, live: set<nat>, live': set<nat>)
    requires children == kids * live && live' <= live
    ensures (rest + kids) * live' == (rest + children) * live'
  {}

  lemma HeirsShuffle(t: Table, ids: set<nat>, rest: set<nat>)
    ensures Heirs(t, ids) + rest == Dependents(t, ids) + (rest + Children(t, ids))
  {}

  lemma LiveStepWalk(t: Table, job: nat, rest: set<nat>, children: set<nat>, now: int)
    requires IsWaiting(t, job)
    requires children == Children(t, {job}) * (WaitingIds(t) - {job})
    ensures
      var written := CancelRows(t, {job}, now);
      var t' := CancelFrom(written, Dependents(written, {job}), now);
      && SameGraph(t, t') && WaitingIds(t') <= WaitingIds(t) - {job}
      && CancelFrom(t', rest + children, now) == CancelFrom(t, {job} + rest, now)
  {
    var written := CancelRows(t, {job}, now);
    assert {job} <= WaitingIds(t);
    hide *;
    CancelRowsKeepsGraph(t, {job}, now);
    SameGraphSameHeirs(t, written, {job});
    CancelFromCloses(written, Dependents(t, {job}), now);
    var t' := CancelFrom(written, Dependents(t, {job}), now);
    SameGraphTransitive(t, written, t');
    var kids := Children(t, {job});
    CancelPop(t, {job}, rest, now);
    CancelTwice(written, Dependents(t, {job}), rest + kids, now);
    HeirsShuffle(t, {job}, rest);
    LiveStepSeeds(rest, kids, children, WaitingIds(t) - {job}, WaitingIds(t'));
    CancelLiveSeeds(t', rest + kids, rest + children, now);
  }

  /** What the nested dependency walk leaves of a row that stays in the queue. */
  lemma WalkKeepsQueued(t: Table, seeds: set<nat>, q: nat, now: int)
    requires IsWaiting(t, q) || (q in t && t[q] == CancelRow(t[q], now) && Heirs(t, {q}) * WaitingIds(t) == {})
    ensures
      var t' := CancelFrom(t, seeds, now);
      t'[q].state != Waiting ==>
        t'[q] == CancelRow(t'[q], now) && Heirs(t', {q}) * WaitingIds(t') == {}
  {
    var gone := CancelReach(t, seeds);
    var t' := CancelFrom(t, seeds, now);
    assert q !in gone ==> t'[q] == t[q];
    assert q in gone ==> t'[q] == CancelRow(t[q], now);
    hide CancelReach, CancelRows, Heirs, SameGraph, CancelFrom;
    CancelFromCloses(t, seeds, now);
    SameGraphSameHeirs(t, t', {q});
    if q in gone {
      HeirsMonotone(t, {q}, gone);
    }
  }

  lemma HeirsMonotone(t: Table, ids: set<nat>, ids': set<nat>)
    requires ids <= ids'
    ensures Heirs(t, ids) <= Heirs(t, ids')
  {}

  lemma LiveStepKeepsQueued(t: Table, job: nat, q: nat, now: int)
    requires IsWaiting(t, job) && q != job
    requires Queued(t, q, now) || (IsWaiting(t, q) && t[q].parent == Some(job))
    ensures
      var written := CancelRows(t, {job}, now);
      Queued(CancelFrom(written, Dependents(written, {job}), now), q, now)
  {
    var written := CancelRows(t, {job}, now);
    CancelRowsKeepsGraph(t, {job}, now);
    SameGraphSameHeirs(t, written, {q});
    SameGraphSameHeirs(t, written, {job});
    assert written[q] == t[q] && !IsWaiting(written, t[q].parent.value);
    assert t[q].state == Waiting ==> IsWaiting(written, q);
    assert q in WaitingIds(t) ==> q in t;
    var seeds := Dependents(written, {job});
    hide Heirs, CancelFrom, CancelReach, Dependents, Children, CancelRows, WaitingIds, IsWaiting;
    HeirsStayIdle(t, written, q);
    WalkKeepsQueued(written, seeds, q, now);
    NotWaitingStays(written, seeds, t[q].parent.value, now);
    CancelFromCloses(written, seeds, now);
  }

  lemma HeirsStayIdle(t: Table, t': Table, id: nat)
    requires SameGraph(t, t') && WaitingIds(t') <= WaitingIds(t)
    ensures Heirs(t, {id}) * WaitingIds(t) == {} ==> Heirs(t', {id}) * WaitingIds(t') == {}
  {
    SameGraphSameHeirs(t, t', {id});
  }

  lemma LiveStep(t: Table, job: nat, rest: seq<nat>, children: seq<nat>, now: int)
    requires IsWaiting(t, job) && Frontier(t, [job] + rest, now)
    requires Distinct(children)
    requires
      var written := CancelRows(t, {job}, now);
      Ids(children) == Children(written, {job}) * WaitingIds(written)
    ensures
      var written := CancelRows(t, {job}, now);
      var t' := CancelFrom(written, Dependents(written, Ids([job])), now);
      && WaitingIds(t') <= WaitingIds(t) && !IsWaiting(t', job)
      && CancelFrom(t', Ids(rest + children), now) == CancelFrom(t, Ids([job] + rest), now)
      && Frontier(t', rest + children, now)
  {
    var written := CancelRows(t, {job}, now);
    CancelRowsKeepsGraph(t, {job}, now);
    SameGraphSameHeirs(t, written, {job});
    assert Ids([job]) == {job};
    IdsOfConcat([job], rest);
    IdsOfConcat(rest, children);
    NotWaitingStays(written, Dependents(written, {job}), job, now);
    LiveStepQueue(t, job, rest, children, now);
    hide CancelFrom, CancelRows, Dependents, Children, Queued, SameGraph, WaitingIds, Ids, IsWaiting;
    LiveStepWalk(t, job, Ids(rest), Ids(children), now);
    forall q | q in rest + children
      ensures Queued(CancelFrom(written, Dependents(written, {job}), now), q, now)
    {
      LiveStepKeepsQueued(t, job, q, now);
    }
  }

  lemma DistinctConcat(a: seq<nat>, b: seq<nat>)
    requires Distinct(a) && Distinct(b) && forall q | q in a :: q !in b
    ensures Distinct(a + b)
  {
    forall i, j | 0 <= i < j < |a + b| ensures (a + b)[i] != (a + b)[j] {
      if i < |a| <= j {
        assert a[i] in a && b[j - |a|] in b;
      }
    }
  }

  lemma LiveStepQueue(t: Table, job: nat, rest: seq<nat>, children: seq<nat>, now: int)
    requires IsWaiting(t, job) && Frontier(t, [job] + rest, now)
    requires Distinct(children)
    requires Ids(children) == Children(t, {job}) * (WaitingIds(t) - {job})
    ensures Distinct(rest + children)
    ensures forall q | q in rest + children ::
      q != job && (Queued(t, q, now) || (IsWaiting(t, q) && t[q].parent == Some(job)))
  {
    var queue := [job] + rest;
    assert forall i | 0 <= i < |rest| :: rest[i] == queue[i + 1] && rest[i] != queue[0];
    assert Distinct(rest);
    forall q | q in rest ensures q != job && Queued(t, q, now) && q !in children {
      assert q in queue;
      assert q !in Ids(children);
    }
    forall q | q in children ensures q != job && IsWaiting(t, q) && t[q].parent == Some(job) {
      assert q in Ids(children);
    }
    DistinctConcat(rest, children);
  }
}
