/**
 The conditions of `Wired` are needed: a graph that breaks one of them, served
 as it may be, is stranded by one way or the other that its jobs can end.
 */
module BadWiring {
  import opened Reach
  import opened JobTable
  import opened CancelWalk
  import opened Outcomes
  import opened Intake
  import opened Stranding
  import opened StrandingRuns
  import opened Barriers

  // ---- members listed twice -------------------------------------------------

  /** A new barrier over active members is served exactly when it lists none of them twice. */
  lemma DuplicatesStrandExactly(t: Table, id: nat, req: Request, now: int)
    requires id !in t && req.parent.None? && req.deps != []
    requires forall d | d in req.deps :: IsActive(t, d)
    ensures Served(t[id := NewRow(req, now)], id) <==> Distinct(req.deps)
  {
    var t' := t[id := NewRow(req, now)];
    assert ActiveMembers(t', req.deps) == Ids(req.deps);
    if Distinct(req.deps) {
      DistinctCount(req.deps);
    } else {
      RepeatedCount(req.deps);
    }
  }

  lemma {:induction false} CountAtMost(ids: seq<nat>)
    ensures |Ids(ids)| <= |ids|
  {
    if ids != [] {
      CountAtMost(ids[..|ids| - 1]);
      assert Ids(ids) == Ids(ids[..|ids| - 1]) + {ids[|ids| - 1]};
    }
  }

  lemma {:induction false} RepeatedCount(ids: seq<nat>)
    requires !Distinct(ids)
    ensures |Ids(ids)| < |ids|
  {
    var front, last := ids[..|ids| - 1], ids[|ids| - 1];
    CountAtMost(front);
    if last in front {
      assert Ids(ids) == Ids(front);
    } else {
      assert !Distinct(front);
      RepeatedCount(front);
      assert Ids(ids) == Ids(front) + {last};
    }
  }

  // ---- rows that an end does not reach --------------------------------------

  /** Job `d` is none of what row `x` waits for; that is a barrier `b`, if it is a parent at all. */
  predicate Unconcerned(t: Table, d: nat, b: nat, x: nat) {
    && b in t && t[b].parent.None? && b != d
    && x in t && x != d && d !in t[x].deps && (t[x].parent.None? || t[x].parent == Some(b))
  }

  lemma UnconcernedBySuccess(t: Table, d: nat, b: nat, x: nat, now: int)
    requires d in t && Unconcerned(t, d, b, x)
    ensures x in Succeed(t, d, now) && Succeed(t, d, now)[x] == t[x]
  {
    var done := t[d := DoneRow(t[d], now)];
    var promoted := PromoteRows(done, Promoted(done, d));
    var gone := ChainReach(promoted, {d});
    GoneHaveParents(promoted, WaitingIds(promoted), {d});
    WalkLeadsDown(promoted, WaitingIds(promoted), d);
    hide Closure, ChainReach;
    assert b !in gone;
    assert x !in gone;
    assert promoted[x] == t[x];
  }

  lemma UnconcernedByFailure(t: Table, d: nat, b: nat, x: nat, row: Job)
    requires d in t && Unconcerned(t, d, b, x)
    ensures
      var t' := FailBelow(t[d := row], d);
      x in t' && t'[x] == t[x]
  {
    var written := t[d := row];
    GoneHaveParents(written, FailableIds(written), {d});
    hide Closure;
  }

  /** A walk from `id` takes only children of `id` and of what it takes. */
  lemma WalkLeadsDown(t: Table, live: set<nat>, id: nat)
    ensures
      var gone := Closure(ParentEdges(t), live, Children(t, {id}));
      forall x | x in gone && x in t :: t[x].parent.Some? && t[x].parent.value in {id} + gone
  {
    var gone := Closure(ParentEdges(t), live, Children(t, {id}));
    var fed := set x | x in gone && (x in t ==> t[x].parent.Some? && t[x].parent.value in {id} + gone);
    assert Closed(ParentEdges(t), live, fed) by {
      ClosureIsClosed(ParentEdges(t), live, Children(t, {id}));
    }
    ClosureHasSeeds(ParentEdges(t), live, Children(t, {id}));
    ClosureIsLeast(ParentEdges(t), live, Children(t, {id}), fed);
  }

  // ---- a barrier with a child -----------------------------------------------

  /** `y` waits below the barrier `b`: `group(d, ..).on_done(chain(b, y))`. */
  predicate BelowBarrier(t: Table, b: nat, y: nat) {
    && IsWaiting(t, b) && t[b].IsBarrier() && t[b].parent.None?
    && IsWaiting(t, y) && t[y].parent == Some(b) && t[y].deps == []
  }

  /**
   When a member of its barrier fails, the child goes on waiting, and it is
   served afterwards exactly when the barrier is an on_error one, which runs; an
   on_done barrier fails, and the walk does not go on to the child.  When the
   last member completes it is the other way round: an on_error barrier is
   cancelled, and nothing walks on from it either.
   */
  lemma BarrierChildServedExactly(t: Table, d: nat, b: nat, y: nat, row: Job, now: int)
    requires BelowBarrier(t, b, y) && d in t && d in t[b].deps && d != b && d != y
    ensures Served(t, y)
    ensures
      var t' := FailBelow(t[d := row], d);
      IsWaiting(t', y) && (Served(t', y) <==> t[b].runOnFailure)
    ensures
      var t' := Succeed(t, d, now);
      IsWaiting(t', y) && (Served(t', y) <==> t[b].countdown > 1 || !t[b].runOnFailure)
  {
    UnconcernedByFailure(t, d, b, y, row);
    UnconcernedBySuccess(t, d, b, y, now);
    FailRoot(t, d, row, b);
    SucceedRoot(t, d, now, b);
    hide FailBelow, Succeed;
  }

  // ---- a member that something else decides ---------------------------------

  /** A parentless barrier `b` that waits for exactly as many members as are active, `m` among them. */
  ghost predicate TightOver(t: Table, b: nat, m: nat) {
    && IsWaiting(t, b) && t[b].parent.None? && m in t[b].deps && m != b && IsActive(t, m)
    && t[b].countdown == |ActiveMembers(t, t[b].deps)|
    && forall d | d in t[b].deps && d in t && d != m :: t[d].parent.None? && t[d].deps == []
  }

  /** If nothing else changes for it, a tight barrier is served exactly while `m` stays active. */
  lemma ServedWhileActive(t: Table, t': Table, b: nat, m: nat)
    requires TightOver(t, b, m) && b in t' && t'[b] == t[b]
    requires forall d | d in t[b].deps && d != m :: IsActive(t', d) <==> IsActive(t, d)
    ensures Served(t, b) && (Served(t', b) <==> IsActive(t', m))
  {
    var before, after := ActiveMembers(t, t[b].deps), ActiveMembers(t', t[b].deps);
    assert m in before;
    EmptyCount(before);
    assert m in after <==> IsActive(t', m);
    if IsActive(t', m) { assert after == before; } else { assert after == before - {m}; }
  }

  /** The end of a job that is no member of a tight barrier reaches neither the barrier nor its members but `m`. */
  lemma TightThroughEnd(t: Table, id: nat, b: nat, m: nat, row: Job, now: int)
    requires TightOver(t, b, m) && id in t && id != b && id !in t[b].deps
    ensures
      var t' := Succeed(t, id, now);
      IsWaiting(t', b) && (Served(t', b) <==> IsActive(t', m))
    ensures
      var t' := FailBelow(t[id := row], id);
      IsWaiting(t', b) && (Served(t', b) <==> IsActive(t', m))
  {
    var won, lost := Succeed(t, id, now), FailBelow(t[id := row], id);
    SucceedRoot(t, id, now, b);
    FailRoot(t, id, row, b);
    SucceedDone(t, id, now, b);
    FailBelowKeys(t[id := row], id);
    hide Succeed, FailBelow;
    forall d | d in t[b].deps && d != m
      ensures (IsActive(won, d) <==> IsActive(t, d)) && (IsActive(lost, d) <==> IsActive(t, d))
    {
      if d in t {
        SucceedRoot(t, id, now, d);
        FailRoot(t, id, row, d);
      }
    }
    ServedWhileActive(t, won, b, m);
    ServedWhileActive(t, lost, b, m);
  }

  /**
   A barrier member with a parent: `d.on_done(group(m, ..).on_done(b))`.  When
   the parent completes, the barrier goes on waiting, and it is served
   afterwards exactly when the member is an on_done job, which runs; an on_error
   one is cancelled without ever counting down.  When the parent fails it is the
   other way round: an on_done member fails, and no failure reaches the barrier.
   */
  lemma MemberWithParentServedExactly(t: Table, id: nat, m: nat, b: nat, row: Job, now: int)
    requires TightOver(t, b, m) && id in t && id != b && id !in t[b].deps
    requires IsWaiting(t, m) && t[m].parent == Some(id)
    ensures Served(t, b)
    ensures
      var t' := Succeed(t, id, now);
      IsWaiting(t', b) && (Served(t', b) <==> !t[m].runOnFailure)
    ensures
      var t' := FailBelow(t[id := row], id);
      IsWaiting(t', b) && (Served(t', b) <==> t[m].runOnFailure)
  {
    ServedWhileActive(t, t, b, m);
    TightThroughEnd(t, id, b, m, row, now);
    var done := t[id := DoneRow(t[id], now)];
    SuccessOnMember(done, id, m, now);
    SucceedIs(t, id, now);
    hide SuccessChildren, Succeed, FailReach;
  }

  /**
   A barrier `b` among the members of another one, `o`.  When a member of `b`
   fails, `o` goes on waiting, and it is served afterwards exactly when `b` is an
   on_error barrier; when the last member of `b` completes, exactly when it is an
   on_done one.
   */
  lemma BarrierOfBarrierServedExactly(t: Table, d: nat, b: nat, o: nat, row: Job, now: int)
    requires TightOver(t, o, b) && d in t && d != o && d !in t[o].deps
    requires IsWaiting(t, b) && d in t[b].deps && t[b].parent.None?
    ensures Served(t, o)
    ensures
      var t' := FailBelow(t[d := row], d);
      IsWaiting(t', o) && (Served(t', o) <==> t[b].runOnFailure)
    ensures
      var t' := Succeed(t, d, now);
      IsWaiting(t', o) && (Served(t', o) <==> t[b].countdown > 1 || !t[b].runOnFailure)
  {
    ServedWhileActive(t, t, o, b);
    TightThroughEnd(t, d, o, b, row, now);
    FailRoot(t, d, row, b);
    SucceedRoot(t, d, now, b);
    hide FailBelow, Succeed;
  }

  lemma SuccessOnMember(t: Table, id: nat, m: nat, now: int)
    requires IsWaiting(t, m) && t[m].parent == Some(id)
    ensures
      var t' := SuccessChildren(t, id, now);
      m in t' && t'[m].deps == t[m].deps && t'[m].state == if t[m].runOnFailure then Cancelled else Pending
  {
    var promoted := PromoteRows(t, Promoted(t, id));
    ClosureHasSeeds(ParentEdges(promoted), WaitingIds(promoted), Children(promoted, {id}));
    PromotedNotWaiting(t, id);
    WalkTakesChildren(promoted, WaitingIds(promoted), id, ChainReach(promoted, {id}));
    hide Closure;
    assert t[m].runOnFailure ==> m in Children(promoted, {id}) * WaitingIds(promoted);
  }

  lemma PromotedNotWaiting(t: Table, id: nat)
    ensures Promoted(t, id) !! WaitingIds(PromoteRows(t, Promoted(t, id)))
  {}

  // ---- each such wiring strands ---------------------------------------------

  /** The members of a parentless waiting barrier wait for nothing themselves, and enough of them are active. */
  ghost predicate Grouped(t: Table, b: nat) {
    && IsWaiting(t, b) && t[b].parent.None? && t[b].IsBarrier() && Served(t, b)
    && forall d | d in t[b].deps :: d != b && (d in t ==> t[d].parent.None? && t[d].deps == [])
  }

  /** Row `x` waits for no member of `b`; it may be one, or a child of `b`. */
  predicate Aside(t: Table, b: nat, x: nat)
    requires b in t
  {
    && x in t && x != b && (t[x].parent.None? || t[x].parent == Some(b))
    && forall d | d in t[x].deps :: d !in t[b].deps
  }

  /** The active members `gone` of `b` have ended, and `b` has counted each of them. */
  ghost predicate CountedDown(t: Table, b: nat, gone: set<nat>, t': Table)
    requires b in t
  {
    && t'.Keys == t.Keys && gone <= ActiveMembers(t, t[b].deps)
    && t'[b] == t[b].(countdown := t[b].countdown - |gone|)
    && (forall d | d in gone :: IsDone(t', d))
    && (forall x | Aside(t, b, x) && x !in gone :: t'[x] == t[x])
  }

  /** The jobs of `ends` are active members of `b`, each once. */
  ghost predicate EndsOf(t: Table, b: nat, ends: seq<End>)
    requires b in t
  {
    && EndsOnce(ends, t[b].deps)
    && forall i | 0 <= i < |ends| :: ends[i].job in ActiveMembers(t, t[b].deps)
  }

  ghost function Jobs(ends: seq<End>): set<nat> { set i | 0 <= i < |ends| :: ends[i].job }

  lemma OneMoreEnds(t: Table, b: nat, ends: seq<End>, end: End)
    requires b in t && EndsOf(t, b, ends) && end.job in ActiveMembers(t, t[b].deps) - Jobs(ends)
    ensures EndsOf(t, b, ends + [end]) && Jobs(ends + [end]) == Jobs(ends) + {end.job}
  {
    var ends' := ends + [end];
    assert forall i | 0 <= i < |ends| :: ends'[i] == ends[i];
    assert forall i | 0 <= i < |ends| :: ends[i].job in Jobs(ends);
    assert ends'[|ends|] == end;
  }

  /** A barrier that waits on has an active member left, and the next one to complete is counted as well. */
  lemma OneMoreCounted(t: Table, b: nat, gone: set<nat>, t': Table, d: nat, now: int)
    requires Grouped(t, b) && CountedDown(t, b, gone, t') && |gone| + 1 < t[b].countdown
    requires d in ActiveMembers(t, t[b].deps) - gone
    ensures CountedDown(t, b, gone + {d}, Succeed(t', d, now))
  {
    hide *;
    MemberLeft(t, b, gone, t', d);
    var t'' := Succeed(t', d, now);
    OneFewer(t, b, gone, t', d, now);
    SucceedDone(t', d, now, d);
    forall x | x in gone ensures IsDone(t'', x) { SucceedDone(t', d, now, x); }
    forall x | Aside(t, b, x) && x !in gone + {d} ensures x in t'' && t''[x] == t[x] {
      AsideThroughEnd(t, b, t', d, x, now);
    }
    CountedFrom(t, b, gone + {d}, t'');
  }

  lemma MemberLeft(t: Table, b: nat, gone: set<nat>, t': Table, d: nat)
    requires Grouped(t, b) && CountedDown(t, b, gone, t') && d in ActiveMembers(t, t[b].deps) - gone
    ensures b in t && b in t' && d in t' && t'.Keys == t.Keys && d !in gone && d in t[b].deps && d != b
    ensures t[b].state == Waiting && t[b].parent.None?
    ensures t'[b] == t[b].(countdown := t[b].countdown - |gone|) && gone + {d} <= ActiveMembers(t, t[b].deps)
    ensures forall x | x in gone :: IsDone(t', x)
    ensures forall x | Aside(t, b, x) && x !in gone :: x in t' && t'[x] == t[x]
  {}

  lemma CountedFrom(t: Table, b: nat, gone: set<nat>, t': Table)
    requires b in t && t'.Keys == t.Keys && gone <= ActiveMembers(t, t[b].deps)
    requires t'[b] == t[b].(countdown := t[b].countdown - |gone|) && forall d | d in gone :: IsDone(t', d)
    requires forall x | Aside(t, b, x) && x !in gone :: x in t' && t'[x] == t[x]
    ensures CountedDown(t, b, gone, t')
  {}

  lemma OneFewer(t: Table, b: nat, gone: set<nat>, t': Table, d: nat, now: int)
    requires b in t && b in t' && t'[b] == t[b].(countdown := t[b].countdown - |gone|) && d in t' && d != b
    requires t[b].state == Waiting && t[b].parent.None? && |gone| + 1 < t[b].countdown && d in t[b].deps && d !in gone
    ensures
      var t'' := Succeed(t', d, now);
      b in t'' && t''[b] == t[b].(countdown := t[b].countdown - |gone + {d}|)
  {
    SucceedRoot(t', d, now, b);
  }

  lemma AsideThroughEnd(t: Table, b: nat, t': Table, d: nat, x: nat, now: int)
    requires b in t && b in t' && t[b].parent.None? && t'[b].parent.None? && b != d && d in t' && d in t[b].deps
    requires Aside(t, b, x) && x != d && x in t' && t'[x] == t[x]
    ensures x in Succeed(t', d, now) && Succeed(t', d, now)[x] == t[x]
  {
    hide Succeed;
    UnconcernedBySuccess(t', d, b, x, now);
  }

  lemma LeftOver(t: Table, b: nat, gone: set<nat>)
    requires Grouped(t, b) && gone <= ActiveMembers(t, t[b].deps) && |gone| < t[b].countdown
    ensures exists d: nat :: d in ActiveMembers(t, t[b].deps) - gone
  {
    var active := ActiveMembers(t, t[b].deps);
    hide ActiveMembers;
    if active <= gone {
      SubsetSize(active, gone);
    } else {
      var d: nat :| d in active && d !in gone;
      assert d in active - gone;
    }
  }

  /** All but the last of the members that a barrier still needs can complete one after another. */
  lemma {:induction false} CountDown(t: Table, b: nat, n: nat, now: int) returns (ends: seq<End>)
    requires Grouped(t, b) && n < t[b].countdown
    ensures EndsOf(t, b, ends) && |Jobs(ends)| == n && CountedDown(t, b, Jobs(ends), Play(t, ends, now))
  {
    assert b in t;
    hide Grouped, CountedDown, PlayOne, EndsOf;
    if n == 0 {
      ends := [];
      assert Jobs([]) == {};
      NothingCounted(t, b);
    } else {
      ends := CountDown(t, b, n - 1, now);
      ActiveJobs(t, b, ends);
      LeftOver(t, b, Jobs(ends));
      var d: nat :| d in ActiveMembers(t, t[b].deps) - Jobs(ends);
      var before := Play(t, ends, now);
      OneMoreCounted(t, b, Jobs(ends), before, d, now);
      OneMoreEnds(t, b, ends, End(d, true));
      PlayedOn(t, b, ends, End(d, true), now);
      ends := ends + [End(d, true)];
    }
  }

  lemma NothingCounted(t: Table, b: nat)
    requires b in t
    ensures EndsOf(t, b, []) && CountedDown(t, b, {}, t)
  {}

  lemma ActiveJobs(t: Table, b: nat, ends: seq<End>)
    requires b in t && EndsOf(t, b, ends)
    ensures Jobs(ends) <= ActiveMembers(t, t[b].deps)
  {}

  lemma PlayedOn(t: Table, b: nat, ends: seq<End>, end: End, now: int)
    requires b in t && CountedDown(t, b, Jobs(ends), Play(t, ends, now)) && end.job in t
    ensures
      var t' := Play(t, ends, now);
      end.job in t' && Play(t, ends + [end], now) ==
        if end.ok then Succeed(t', end.job, now)
        else FailBelow(t'[end.job := EndRow(t'[end.job], Failed, now)], end.job)
  {
    assert (ends + [end])[..|ends|] == ends;
    hide Succeed, FailBelow;
  }

  /** The ends that decide a barrier against what waits behind it: the last success, or the first failure. */
  lemma Decided(t: Table, b: nat, now: int) returns (ends: seq<End>, last: End)
    requires Grouped(t, b)
    ensures EndsOf(t, b, ends + [last]) && last.job in ActiveMembers(t, t[b].deps) - Jobs(ends)
    ensures last.ok == t[b].runOnFailure && |Jobs(ends)| == if last.ok then t[b].countdown - 1 else 0
    ensures CountedDown(t, b, Jobs(ends), Play(t, ends, now))
  {
    ends := CountDown(t, b, if t[b].runOnFailure then t[b].countdown - 1 else 0, now);
    hide CountedDown, Play, EndsOf;
    ActiveJobs(t, b, ends);
    LeftOver(t, b, Jobs(ends));
    var d: nat :| d in ActiveMembers(t, t[b].deps) - Jobs(ends);
    last := End(d, t[b].runOnFailure);
    OneMoreEnds(t, b, ends, last);
  }

  /** Whatever kind of barrier it is, its members can end so that its child waits for ever. */
  lemma BarrierChildStrands(t: Table, b: nat, y: nat, now: int) returns (ends: seq<End>)
    requires Grouped(t, b) && BelowBarrier(t, b, y) && y !in t[b].deps
    ensures EndsOf(t, b, ends)
    ensures
      var t' := Play(t, ends, now);
      IsWaiting(t', y) && !Served(t', y)
  {
    var last;
    ends, last := Decided(t, b, now);
    var t' := Play(t, ends, now);
    assert Aside(t, b, y) && Aside(t, b, last.job);
    PlayedOn(t, b, ends, last, now);
    BarrierChildServedExactly(t', last.job, b, y, EndRow(t'[last.job], Failed, now), now);
    hide Play, EndsOf;
    ends := ends + [last];
  }

  /** So can the parent of a member: it completes if the member is an on_error job, and fails if not. */
  lemma MemberWithParentStrands(t: Table, id: nat, m: nat, b: nat, now: int) returns (end: End)
    requires TightOver(t, b, m) && id in t && id != b && id !in t[b].deps
    requires IsWaiting(t, m) && t[m].parent == Some(id)
    ensures end.job == id
    ensures
      var t' := PlayOne(t, end, now);
      IsWaiting(t', b) && !Served(t', b)
  {
    end := End(id, t[m].runOnFailure);
    hide Succeed, FailBelow, TightOver;
    MemberWithParentServedExactly(t, id, m, b, EndRow(t[id], Failed, now), now);
  }

  /** So can the members of a barrier within a barrier, if the two share none. */
  lemma BarrierOfBarrierStrands(t: Table, b: nat, o: nat, now: int) returns (ends: seq<End>)
    requires Grouped(t, b) && TightOver(t, o, b) && forall d | d in t[b].deps :: d !in t[o].deps
    ensures EndsOf(t, b, ends)
    ensures
      var t' := Play(t, ends, now);
      IsWaiting(t', o) && !Served(t', o)
  {
    var last;
    ends, last := Decided(t, b, now);
    var t' := Play(t, ends, now);
    StaysTight(t, b, o, Jobs(ends), t');
    PlayedOn(t, b, ends, last, now);
    BarrierOfBarrierServedExactly(t', last.job, b, o, EndRow(t'[last.job], Failed, now), now);
    hide Play, EndsOf;
    ends := ends + [last];
  }

  lemma StaysTight(t: Table, b: nat, o: nat, gone: set<nat>, t': Table)
    requires Grouped(t, b) && TightOver(t, o, b) && forall d | d in t[b].deps :: d !in t[o].deps
    requires CountedDown(t, b, gone, t') && |gone| < t[b].countdown
    ensures TightOver(t', o, b) && IsWaiting(t', b) && t'[o] == t[o] && o !in t[b].deps
  {
    assert Aside(t, b, o);
    forall d | d in t[o].deps && d != b ensures d in t ==> t'[d] == t[d] {
      if d in t { assert Aside(t, b, d); }
    }
    assert ActiveMembers(t', t[o].deps) == ActiveMembers(t, t[o].deps);
  }
}
