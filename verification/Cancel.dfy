/** What cancelling a set of waiting rows does to the table, as a function of reachability. */
module Cancel {
  import opened Reach
  import opened JobTable

  function CancelRow(job: Job, now: int): Job {
    job.(state := Cancelled, cancelledAt := Some(now))
  }

  function CancelRows(t: Table, ids: set<nat>, now: int): Table {
    map id | id in t :: if id in ids then CancelRow(t[id], now) else t[id]
  }

  /** The waiting rows that a walk over both kinds of edge reaches from `seeds`. */
  ghost function CancelReach(t: Table, seeds: set<nat>): set<nat> {
    Closure(AllEdges(t), WaitingIds(t), seeds)
  }

  ghost function CancelFrom(t: Table, seeds: set<nat>, now: int): Table {
    CancelRows(t, CancelReach(t, seeds), now)
  }

  /** The table after `button_cancelled` on `ids`. */
  ghost function CancelButton(t: Table, ids: set<nat>, now: int): Table {
    var cascading := set id | id in ids && id in t && !t[id].Terminal();
    var written := CancelRows(t, ids, now);
    CancelFrom(written, Heirs(written, cascading), now)
  }

  lemma CancelRowsKeepsGraph(t: Table, ids: set<nat>, now: int)
    ensures SameGraph(t, CancelRows(t, ids, now))
    ensures WaitingIds(CancelRows(t, ids, now)) == WaitingIds(t) - ids
  {}

  lemma CancelNothing(t: Table, seeds: set<nat>, now: int)
    requires seeds * WaitingIds(t) == {}
    ensures CancelFrom(t, seeds, now) == t
  {
    ClosureOfNothing(AllEdges(t), WaitingIds(t), seeds);
  }

  lemma CancelLiveSeeds(t: Table, seeds: set<nat>, seeds': set<nat>, now: int)
    requires seeds * WaitingIds(t) == seeds' * WaitingIds(t)
    ensures CancelFrom(t, seeds, now) == CancelFrom(t, seeds', now)
  {
    ClosureOfLiveSeeds(AllEdges(t), WaitingIds(t), seeds, seeds');
  }

  lemma CancelRowsTwice(t: Table, first: set<nat>, second: set<nat>, now: int)
    ensures CancelRows(CancelRows(t, first, now), second, now) == CancelRows(t, first + second, now)
  {}

  /** Two walks in a row cancel what one walk from both seed sets cancels. */
  lemma CancelTwice(t: Table, first: set<nat>, second: set<nat>, now: int)
    ensures CancelFrom(CancelFrom(t, first, now), second, now) == CancelFrom(t, first + second, now)
  {
    var one := CancelReach(t, first);
    var t' := CancelFrom(t, first, now);
    hide Closure, AllEdges, SameGraph, WaitingIds, CancelRows;
    CancelRowsKeepsGraph(t, one, now);
    SameGraphSameEdges(t, t');
    ClosureSplits(AllEdges(t), WaitingIds(t), WaitingIds(t'), first, second);
    CancelRowsTwice(t, one, CancelReach(t', second), now);
  }

  /** One worklist step: cancel the popped rows by hand, then walk on from their heirs. */
  lemma CancelPop(t: Table, popped: set<nat>, rest: set<nat>, now: int)
    requires popped <= WaitingIds(t)
    ensures var t' := CancelRows(t, popped, now);
            CancelFrom(t', Heirs(t', popped) + rest, now) == CancelFrom(t, popped + rest, now)
  {
    var t' := CancelRows(t, popped, now);
    hide Closure, AllEdges, SameGraph, WaitingIds, CancelRows, Heirs;
    CancelRowsKeepsGraph(t, popped, now);
    SameGraphSameEdges(t, t');
    SameGraphSameHeirs(t, t', popped);
    AllSuccessors(t, popped);
    ClosurePop(AllEdges(t), WaitingIds(t), popped, rest);
    CancelRowsTwice(t, popped, CancelReach(t', Heirs(t', popped) + rest), now);
  }

  /** A walk leaves no waiting row behind any row it cancelled. */
  lemma CancelFromCloses(t: Table, seeds: set<nat>, now: int)
    ensures var t' := CancelFrom(t, seeds, now);
            && SameGraph(t, t')
            && WaitingIds(t') == WaitingIds(t) - CancelReach(t, seeds)
            && Heirs(t, CancelReach(t, seeds)) * WaitingIds(t') == {}
            && seeds * WaitingIds(t') == {}
  {
    var gone := CancelReach(t, seeds);
    CancelRowsKeepsGraph(t, gone, now);
    ClosureHasSeeds(AllEdges(t), WaitingIds(t), seeds);
    ClosureIsClosed(AllEdges(t), WaitingIds(t), seeds);
    AllSuccessors(t, gone);
    forall y | y in Heirs(t, gone) && IsWaiting(t, y) ensures y in gone {
      var e :| e in AllEdges(t) && e.0 in gone && e.1 == y;
      assert (e.0, y) in AllEdges(t);
    }
  }

  /**
   `button_cancelled` is reachability: the rows it cancels are the ones it was
   given and every row that a path of waiting rows connects to one of them
   that had not already ended.  No other row changes at all.
   */
  lemma CancelButtonIsReachability(t: Table, ids: set<nat>, now: int)
    ensures
      var cascading := set id | id in ids && id in t && !t[id].Terminal();
      var reached := Closure(AllEdges(t), WaitingIds(t), Successors(AllEdges(t), cascading));
      CancelButton(t, ids, now) == CancelRows(t, ids + reached, now)
  {
    var cascading := set id | id in ids && id in t && !t[id].Terminal();
    var written := CancelRows(t, ids, now);
    CancelRowsKeepsGraph(t, ids, now);
    SameGraphSameEdges(t, written);
    SameGraphSameHeirs(t, written, cascading);
    AllSuccessors(t, cascading);
    assert ids * WaitingIds(t) <= cascading;
    hide Closure, AllEdges, SameGraph, WaitingIds, CancelRows, Heirs, Successors;
    SuccessorsMonotone(AllEdges(t), ids * WaitingIds(t), cascading);
    ClosureSkips(AllEdges(t), WaitingIds(t), ids, Successors(AllEdges(t), cascading));
    CancelRowsTwice(t, ids, CancelReach(written, Heirs(written, cascading)), now);
  }

  /** Seen from outside: which rows are cancelled afterwards, and what the others look like. */
  lemma CancelButtonExactly(t: Table, ids: set<nat>, now: int, id: nat)
    requires id in t
    ensures
      var cascading := set k | k in ids && k in t && !t[k].Terminal();
      var reached := exists path ::
        && IsPath(AllEdges(t), WaitingIds(t), path)
        && path[0] in Successors(AllEdges(t), cascading)
        && path[|path| - 1] == id;
      var t' := CancelButton(t, ids, now);
      && t'.Keys == t.Keys
      && (id in ids || reached ==> t'[id] == t[id].(state := Cancelled, cancelledAt := Some(now)))
      && (id !in ids && !reached ==> t'[id] == t[id])
  {
    CancelButtonIsReachability(t, ids, now);
    var cascading := set k | k in ids && k in t && !t[k].Terminal();
    if path :| (
      && IsPath(AllEdges(t), WaitingIds(t), path)
      && path[0] in Successors(AllEdges(t), cascading)
      && path[|path| - 1] == id)
    {
      assert Reaches(AllEdges(t), WaitingIds(t), Successors(AllEdges(t), cascading), id);
    }
  }
}
