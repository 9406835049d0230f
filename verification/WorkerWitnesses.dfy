/** Small runs from the empty table on which the conditions of the worker protocol are broken. */
module WorkerWitnesses {
  import opened JobTable
  import opened Outcomes
  import opened Intake
  import opened WorkerRows
  import opened Settling
  import opened Protocol
  import opened Lease
  import opened Channels
  import opened Witnesses

  /** A run from the empty table that ends in `s`. */
  ghost predicate RunTo(states: seq<Sys>, events: seq<Event>, s: Sys) {
    IsRun(DEFAULTS, states, events) && states[0] == EMPTY && states[|states| - 1] == s
  }

  lemma NothingYet()
    ensures RunTo([EMPTY], [], EMPTY)
  {}

  lemma Further(states: seq<Sys>, events: seq<Event>, s: Sys, event: Event, s': Sys)
    requires RunTo(states, events, s) && Step(DEFAULTS, s, event, s')
    ensures RunTo(states + [s'], events + [event], s') && |states| == |events| + 1
  {
    hide Step;
    GoesOn(states, events, event, s');
  }

  function TakenBy(t: Table, id: nat, who: nat, now: int): Table
    requires id in t
  {
    t[id := AcquiredRow(t[id], who, now)]
  }

  lemma Takes(t: Table, now: int, attempts: map<nat, Attempt>, id: nat, who: nat, slot: nat)
    requires slot !in attempts && id in t && IsNext(DEFAULTS, t, now, {}, id)
    requires AcquiredRow(t[id], who, now).state == Started
    ensures Step(DEFAULTS, Sys(t, now, attempts), Acquire(who, {}, slot),
                 Sys(TakenBy(t, id, who, now), now, attempts[slot := Attempt(id, who, false)]))
  {
    hide IsNext;
    var t' := TakenBy(t, id, who, now);
    assert t' == AcquireRow(t, id, who, now).0 && AcquireRow(t, id, who, now).1;
    assert Acquires(DEFAULTS, t, who, now, {}, t', Some(id));
  }

  const PLAIN := Plain(None, [], 5)
  const ONE: Table := map[0 := NewRow(PLAIN, 0)]
  const BY_7: map<nat, Attempt> := map[0 := Attempt(0, 7, false)]

  lemma FirstIn()
    ensures Step(DEFAULTS, EMPTY, Insert(0, PLAIN), Sys(ONE, 0, map[]))
  {
    assert ONE == map[][0 := NewRow(PLAIN, 0)];
  }

  lemma FirstTaken()
    ensures Step(DEFAULTS, Sys(ONE, 0, map[]), Acquire(7, {}, 0), Sys(TakenBy(ONE, 0, 7, 0), 0, BY_7))
  {
    assert FreshIn(DEFAULTS, ONE, "root", 0) == {};
    assert IsNext(DEFAULTS, ONE, 0, {}, 0);
    Takes(ONE, 0, map[], 0, 7, 0);
  }

  lemma Passes(s: Sys, elapsed: nat)
    ensures Step(DEFAULTS, s, Tick(elapsed), s.(now := s.now + elapsed))
  {}

  // ---- two attempts at one job ----------------------------------------------

  lemma SecondTaken(t: Table)
    requires t == TakenBy(ONE, 0, 7, 0)
    ensures Step(DEFAULTS, Sys(t, 61, BY_7), Acquire(8, {}, 1),
                 Sys(TakenBy(t, 0, 8, 61), 61, BY_7[1 := Attempt(0, 8, false)]))
    ensures Leased(Sys(t, 61, BY_7)) && Exclusive(Sys(t, 61, BY_7)) && Overdue(DEFAULTS, Sys(t, 61, BY_7), 0)
  {
    assert FreshIn(DEFAULTS, t, "root", 61) == {};
    assert IsNext(DEFAULTS, t, 61, {}, 0);
    Takes(t, 61, BY_7, 0, 8, 1);
  }

  /** A worker that misses its heartbeats for 61 seconds finds its job running a second time elsewhere. */
  lemma Overlaps() returns (states: seq<Sys>, events: seq<Event>)
    ensures IsRun(DEFAULTS, states, events) && |states| == |events| + 1 == 5 && states[0] == EMPTY
    ensures Leased(states[3]) && Exclusive(states[3]) && Overdue(DEFAULTS, states[3], 0) && events[3].Acquire?
    ensures states[4].attempts == map[0 := Attempt(0, 7, false), 1 := Attempt(0, 8, false)] && !Exclusive(states[4])
  {
    hide Step, IsRun, NewRow, AcquiredRow;
    var t := TakenBy(ONE, 0, 7, 0);
    var s1, s2, s3 := Sys(ONE, 0, map[]), Sys(t, 0, BY_7), Sys(t, 61, BY_7);
    var s4 := Sys(TakenBy(t, 0, 8, 61), 61, BY_7[1 := Attempt(0, 8, false)]);
    NothingYet();
    FirstIn();
    Further([EMPTY], [], EMPTY, Insert(0, PLAIN), s1);
    FirstTaken();
    Further([EMPTY] + [s1], [] + [Insert(0, PLAIN)], s1, Acquire(7, {}, 0), s2);
    Passes(s2, 61);
    Further([EMPTY] + [s1] + [s2], [] + [Insert(0, PLAIN)] + [Acquire(7, {}, 0)], s2, Tick(61), s3);
    SecondTaken(t);
    states := [EMPTY] + [s1] + [s2] + [s3];
    events := [] + [Insert(0, PLAIN)] + [Acquire(7, {}, 0)] + [Tick(61)];
    Further(states, events, s3, Acquire(8, {}, 1), s4);
    states, events := states + [s4], events + [Acquire(8, {}, 1)];
    assert s4.attempts[0].job == s4.attempts[1].job;
  }

  // ---- a timed-out job that is kept -----------------------------------------

  const OVER: Attempt := Attempt(0, 7, true)

  lemma RunsOver(t: Table)
    requires t == TakenBy(ONE, 0, 7, 0)
    ensures
      var held := HoldAfterTimeout(DEFAULTS, t, 0, 7, 0, 30);
      && Step(DEFAULTS, Sys(t, 0, BY_7), Overrun(0, 30), Sys(held, 0, BY_7[0 := OVER]))
      && Step(DEFAULTS, Sys(held, 60, BY_7[0 := OVER]), HeartbeatAll(7, {0}),
              Sys(BeatAll(held, {0}, 7, 60), 60, BY_7[0 := OVER]))
      && 0 in held && !Stale(DEFAULTS, BeatAll(held, {0}, 7, 60)[0], 120) && Stale(DEFAULTS, held[0], 120)
  {
    hide Backoff, PacesAfterTimeout;
    assert BY_7[0 := OVER][0] == OVER;
  }

  /**
   Two minutes after its timeout a job whose method has not returned is not
   stale, because the batch of active jobs has refreshed it; without that it
   would have been.
   */
  lemma BatchKeepsHeld() returns (states: seq<Sys>, events: seq<Event>)
    ensures IsRun(DEFAULTS, states, events) && |states| == |events| + 1 == 7 && states[0] == EMPTY
    ensures events[2] == Overrun(0, 30) && events[4] == HeartbeatAll(7, {0})
    ensures states[6].now == 120 && states[6].attempts == map[0 := OVER]
    ensures 0 in states[6].rows && !Stale(DEFAULTS, states[6].rows[0], 120)
    ensures 0 in states[3].rows && Stale(DEFAULTS, states[3].rows[0], 120)
  {
    hide Step, IsRun, NewRow, AcquiredRow, Stale, HoldAfterTimeout;
    var t := TakenBy(ONE, 0, 7, 0);
    var held, over := HoldAfterTimeout(DEFAULTS, t, 0, 7, 0, 30), BY_7[0 := OVER];
    var s1, s2, s3, s4 := Sys(ONE, 0, map[]), Sys(t, 0, BY_7), Sys(held, 0, over), Sys(held, 60, over);
    var s5 := s4.(rows := BeatAll(held, {0}, 7, 60));
    var s6 := s5.(now := 120);
    NothingYet();
    FirstIn();
    Further([EMPTY], [], EMPTY, Insert(0, PLAIN), s1);
    states, events := [EMPTY] + [s1], [] + [Insert(0, PLAIN)];
    FirstTaken();
    Further(states, events, s1, Acquire(7, {}, 0), s2);
    states, events := states + [s2], events + [Acquire(7, {}, 0)];
    RunsOver(t);
    Further(states, events, s2, Overrun(0, 30), s3);
    states, events := states + [s3], events + [Overrun(0, 30)];
    Passes(s3, 60);
    Further(states, events, s3, Tick(60), s4);
    states, events := states + [s4], events + [Tick(60)];
    Further(states, events, s4, HeartbeatAll(7, {0}), s5);
    states, events := states + [s5], events + [HeartbeatAll(7, {0})];
    Passes(s5, 60);
    Further(states, events, s5, Tick(60), s6);
    states, events := states + [s6], events + [Tick(60)];
    assert over == map[0 := OVER];
  }

  // ---- a channel above its limit --------------------------------------------

  const TWO: Table := ONE[1 := NewRow(PLAIN, 0)]

  lemma TwoIn()
    ensures Step(DEFAULTS, Sys(ONE, 0, map[]), Insert(1, PLAIN), Sys(TWO, 0, map[]))
  {}

  lemma FirstOfTwoTaken()
    ensures Step(DEFAULTS, Sys(TWO, 0, map[]), Acquire(7, {}, 0), Sys(TakenBy(TWO, 0, 7, 0), 0, BY_7))
  {
    assert FreshIn(DEFAULTS, TWO, "root", 0) == {};
    assert IsNext(DEFAULTS, TWO, 0, {}, 0);
    Takes(TWO, 0, map[], 0, 7, 0);
  }

  lemma OtherTaken(t: Table)
    requires t == TakenBy(TWO, 0, 7, 0)
    ensures Step(DEFAULTS, Sys(t, 60, BY_7), Acquire(8, {}, 1),
                 Sys(TakenBy(t, 1, 8, 60), 60, BY_7[1 := Attempt(1, 8, false)]))
  {
    assert FreshIn(DEFAULTS, t, "root", 60) == {};
    assert IsNext(DEFAULTS, t, 60, {}, 1);
    Takes(t, 60, BY_7, 1, 8, 1);
  }

  lemma Revived(t: Table)
    requires t == TakenBy(TakenBy(TWO, 0, 7, 0), 1, 8, 60)
    ensures
      var s := Sys(t, 60, BY_7[1 := Attempt(1, 8, false)]);
      var s' := s.(rows := Beat(t, 0, 7, 60));
      && Step(DEFAULTS, s, Heartbeat(0), s')
      && WithinLimits(DEFAULTS, s) && Revives(DEFAULTS, s, s.attempts[0])
      && Limit(DEFAULTS, Some("root")) == 1
      && FreshIn(DEFAULTS, s.rows, "root", 60) == {1} && FreshIn(DEFAULTS, s'.rows, "root", 60) == {0, 1}
  {
    var s := Sys(t, 60, BY_7[1 := Attempt(1, 8, false)]);
    assert FreshIn(DEFAULTS, t, "root", 60) == {1};
    forall channel ensures |FreshIn(DEFAULTS, t, channel, 60)| <= Limit(DEFAULTS, Some(channel)) {
      if channel != "root" { assert FreshIn(DEFAULTS, t, channel, 60) == {}; }
    }
  }

  /**
   A heartbeat that comes after exactly 60 seconds, when its row is quiet but
   not yet stale and another job has been given its place, puts two fresh jobs
   into a channel for one.
   */
  lemma LateBeatExceeds() returns (states: seq<Sys>, events: seq<Event>)
    ensures IsRun(DEFAULTS, states, events) && |states| == |events| + 1 == 7 && states[0] == EMPTY
    ensures events[5] == Heartbeat(0) && 0 in states[5].attempts && Revives(DEFAULTS, states[5], states[5].attempts[0])
    ensures WithinLimits(DEFAULTS, states[5]) && !WithinLimits(DEFAULTS, states[6])
  {
    hide Step, IsRun, NewRow, AcquiredRow, FreshIn, Revives;
    var t := TakenBy(TWO, 0, 7, 0);
    var two := BY_7[1 := Attempt(1, 8, false)];
    var s1, s2, s3, s4 := Sys(ONE, 0, map[]), Sys(TWO, 0, map[]), Sys(t, 0, BY_7), Sys(t, 60, BY_7);
    var s5 := Sys(TakenBy(t, 1, 8, 60), 60, two);
    var s6 := s5.(rows := Beat(s5.rows, 0, 7, 60));
    NothingYet();
    FirstIn();
    Further([EMPTY], [], EMPTY, Insert(0, PLAIN), s1);
    states, events := [EMPTY] + [s1], [] + [Insert(0, PLAIN)];
    TwoIn();
    Further(states, events, s1, Insert(1, PLAIN), s2);
    states, events := states + [s2], events + [Insert(1, PLAIN)];
    FirstOfTwoTaken();
    Further(states, events, s2, Acquire(7, {}, 0), s3);
    states, events := states + [s3], events + [Acquire(7, {}, 0)];
    Passes(s3, 60);
    Further(states, events, s3, Tick(60), s4);
    states, events := states + [s4], events + [Tick(60)];
    OtherTaken(t);
    Further(states, events, s4, Acquire(8, {}, 1), s5);
    states, events := states + [s5], events + [Acquire(8, {}, 1)];
    Revived(s5.rows);
    Further(states, events, s5, Heartbeat(0), s6);
    states, events := states + [s6], events + [Heartbeat(0)];
    assert |FreshIn(DEFAULTS, s6.rows, "root", 60)| == 2;
  }

  // ---- two holders of a key -------------------------------------------------

  const KEYED := PLAIN.(identityKey := Some("invoice"))
  const HELD: Table := map[0 := NewRow(KEYED, 0)]

  lemma KeyHeld()
    ensures 0 in HELD
  {}

  lemma KeyIn()
    ensures Step(DEFAULTS, EMPTY, Insert(0, KEYED), Sys(HELD, 0, map[]))
    ensures Step(DEFAULTS, Sys(HELD, 0, map[]), Acquire(7, {}, 0), Sys(TakenBy(HELD, 0, 7, 0), 0, BY_7))
  {
    assert HELD == map[][0 := NewRow(KEYED, 0)];
    assert FreshIn(DEFAULTS, HELD, "root", 0) == {};
    assert IsNext(DEFAULTS, HELD, 0, {}, 0);
    Takes(HELD, 0, map[], 0, 7, 0);
  }

  lemma SetDoneAlone(row: Job)
    requires row.deps == []
    ensures SetDoneButton(map[0 := row], [0], 0) == map[0 := EndRow(row, Done, 0)]
  {
    var t, done := map[0 := row], map[0 := EndRow(row, Done, 0)];
    var ids: seq<nat> := [0];
    assert (set x: nat | x in ids) == {0};
    assert SetDoneRows(t, (set x: nat | x in ids), 0) == done;
    assert ids[..|ids| - 1] == [];
    assert ReleaseEach(done, ids, 0) == Release(done, 0, 0) == done;
  }

  lemma KeyFreed(over: Job)
    requires over == EndRow(AcquiredRow(NewRow(KEYED, 0), 7, 0), Done, 0)
    ensures Step(DEFAULTS, Sys(TakenBy(HELD, 0, 7, 0), 0, BY_7), SetDonePressed([0]), Sys(map[0 := over], 0, BY_7))
  {
    SetDoneAlone(AcquiredRow(NewRow(KEYED, 0), 7, 0));
    assert TakenBy(HELD, 0, 7, 0) == map[0 := AcquiredRow(NewRow(KEYED, 0), 7, 0)];
    hide SetDoneButton, AcquiredRow, NewRow;
  }

  lemma KeyTakenAgain(over: Job)
    requires over == EndRow(AcquiredRow(NewRow(KEYED, 0), 7, 0), Done, 0)
    ensures
      var freed, both := map[0 := over], map[0 := over, 1 := NewRow(KEYED, 0)];
      var again := both[0 := ExceptionRow(DEFAULTS, over, Generic, 0)];
      && Step(DEFAULTS, Sys(freed, 0, BY_7), Insert(1, KEYED), Sys(both, 0, BY_7))
      && Step(DEFAULTS, Sys(both, 0, BY_7), Finish(0, Generic), Sys(again, 0, map[]))
      && UniqueActiveKeys(both) && !UniqueActiveKeys(again)
  {
    var freed, both := map[0 := over], map[0 := over, 1 := NewRow(KEYED, 0)];
    var again := both[0 := ExceptionRow(DEFAULTS, over, Generic, 0)];
    assert both == freed[1 := NewRow(KEYED, 0)];
    hide Backoff;
    assert Keyed(again[0]) && again[0].Active() && HoldsKey(again, 1, again[0].identityKey);
  }

  /**
   A job is set to done while it runs, another one is enqueued under its key,
   and then the first one's method raises: its retry makes two active holders.
   */
  lemma StragglerDuplicates() returns (states: seq<Sys>, events: seq<Event>)
    ensures IsRun(DEFAULTS, states, events) && |states| == |events| + 1 == 6 && states[0] == EMPTY
    ensures events[2] == SetDonePressed([0]) && events[4] == Finish(0, Generic)
    ensures UniqueActiveKeys(states[4].rows) && !UniqueActiveKeys(states[5].rows)
  {
    hide *;
    KeyHeld();
    var over := EndRow(AcquiredRow(NewRow(KEYED, 0), 7, 0), Done, 0);
    var freed, both := map[0 := over], map[0 := over, 1 := NewRow(KEYED, 0)];
    var again := both[0 := ExceptionRow(DEFAULTS, over, Generic, 0)];
    var s1, s2 := Sys(HELD, 0, map[]), Sys(TakenBy(HELD, 0, 7, 0), 0, BY_7);
    NothingYet();
    KeyIn();
    Further([EMPTY], [], EMPTY, Insert(0, KEYED), s1);
    states, events := [EMPTY] + [s1], [] + [Insert(0, KEYED)];
    Further(states, events, s1, Acquire(7, {}, 0), s2);
    states, events := states + [s2], events + [Acquire(7, {}, 0)];
    KeyFreed(over);
    KeyTakenAgain(over);
    Further(states, events, s2, SetDonePressed([0]), Sys(freed, 0, BY_7));
    states, events := states + [Sys(freed, 0, BY_7)], events + [SetDonePressed([0])];
    Further(states, events, Sys(freed, 0, BY_7), Insert(1, KEYED), Sys(both, 0, BY_7));
    states, events := states + [Sys(both, 0, BY_7)], events + [Insert(1, KEYED)];
    Further(states, events, Sys(both, 0, BY_7), Finish(0, Generic), Sys(again, 0, map[]));
    states, events := states + [Sys(again, 0, map[])], events + [Finish(0, Generic)];
    RunOnly(states, events, Sys(again, 0, map[]));
  }

  lemma RunOnly(states: seq<Sys>, events: seq<Event>, s: Sys)
    requires RunTo(states, events, s)
    ensures IsRun(DEFAULTS, states, events) && states[0] == EMPTY
  {}
}
