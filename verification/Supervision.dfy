/**
 One database as its supervisor sees it: a worker thread, the stamps of its
 recent deaths, and a quarantine.  The laws hold over every run of crashes,
 exits, health ticks and discovery passes with a monotone clock.
 */
module Supervision {
  import opened JobTable

  /** `counted`: this thread's death is already in the failure history. */
  datatype Thread = Thread(alive: bool, counted: bool)

  datatype Watch = Watch(thread: Option<Thread>, stamps: seq<int>, quarantined: bool)

  const NEWBORN := Watch(None, [], false)

  datatype Rule = Rule(maximum: int, window: nat)

  /** The stamps not older than `cutoff`, in order. */
  function Recent(stamps: seq<int>, cutoff: int): seq<int> {
    if stamps == [] then []
    else
      var last := stamps[|stamps| - 1];
      Recent(stamps[..|stamps| - 1], cutoff) + if last >= cutoff then [last] else []
  }

  function Pruned(rule: Rule, w: Watch, now: int): Watch {
    w.(stamps := Recent(w.stamps, now - rule.window))
  }

  /** `_record_failure` */
  function Record(rule: Rule, w: Watch, now: int): Watch {
    var kept := Recent(w.stamps + [now], now - rule.window);
    w.(stamps := kept, quarantined := w.quarantined || |kept| >= rule.maximum)
  }

  /** `_expire_quarantines` */
  function Expire(rule: Rule, w: Watch, now: int): Watch {
    if !w.quarantined then w
    else
      var w' := Pruned(rule, w, now);
      w'.(quarantined := |w'.stamps| >= rule.maximum)
  }

  function Launched(w: Watch): Watch { w.(thread := Some(Thread(true, false))) }

  predicate Restarts(rule: Rule, w: Watch, now: int) {
    && w.thread.Some? && !w.thread.value.alive && !w.quarantined
    && (w.thread.value.counted || !Record(rule, w, now).quarantined)
  }

  /** `_check_thread_health` */
  function Tick(rule: Rule, w: Watch, now: int): Watch {
    if w.thread.None? || w.thread.value.alive || w.quarantined then w
    else
      var w' := if w.thread.value.counted then w
                else Record(rule, w.(thread := Some(Thread(false, true))), now);
      if w'.quarantined then w' else Launched(w')
  }

  lemma TickNobody(rule: Rule, w: Watch, now: int)
    requires w.thread.None?
    ensures Tick(rule, w, now) == w
  {}

  /** The exception handler of the thread itself. */
  function Crash(rule: Rule, w: Watch, now: int): Watch
    requires w.thread.Some?
  {
    Record(rule, w.(thread := Some(w.thread.value.(counted := true))), now)
  }

  function Exit(w: Watch): Watch
    requires w.thread.Some?
  {
    w.(thread := Some(w.thread.value.(alive := false)))
  }

  /** A database without a thread gets one, if its lock is free. */
  function Offer(w: Watch, lockable: bool): Watch {
    if w.thread.None? && lockable then Launched(w) else w
  }

  /** `_stop_worker_thread`: history and quarantine go with the thread. */
  function Retire(w: Watch): Watch {
    if w.thread.Some? then NEWBORN else w
  }

  /** `discover_databases`: expire, start what is new and lockable, stop what is gone. */
  function Discover(rule: Rule, w: Watch, present: bool, lockable: bool, now: int): Watch {
    if present then Offer(Expire(rule, w, now), lockable) else Retire(Expire(rule, w, now))
  }

  /** A database that has gone leaves nothing behind; one that is served keeps its thread, or gets one if it can be locked. */
  lemma DiscoverExactly(rule: Rule, w: Watch, present: bool, lockable: bool, now: int)
    ensures
      var w' := Discover(rule, w, present, lockable, now);
      && (w.thread.Some? && !present ==> w' == Watch(None, [], false))
      && (w.thread.Some? && present ==> w'.thread == w.thread)
      && (w.thread.None? && present && lockable ==> w'.thread == Some(Thread(true, false)))
      && (w.thread.None? && !(present && lockable) ==> w'.thread.None?)
      && (w.thread.None? || present ==>
            if w.quarantined then
              && w'.stamps == Recent(w.stamps, now - rule.window)
              && (w'.quarantined <==> |w'.stamps| >= rule.maximum)
            else w'.stamps == w.stamps && !w'.quarantined)
  {
    hide Recent;
  }

  /**
   What a health tick does: it leaves a running thread, a quarantined database
   and one without a thread alone; otherwise it stamps the death unless that is
   counted, and puts a new thread in place unless the stamp quarantines.
   */
  lemma TickExactly(rule: Rule, w: Watch, now: int)
    ensures
      var w' := Tick(rule, w, now);
      var kept := Recent(w.stamps + [now], now - rule.window);
      if w.thread.None? || w.thread.value.alive || w.quarantined then w' == w
      else if w.thread.value.counted then w' == Watch(Some(Thread(true, false)), w.stamps, false)
      else if |kept| >= rule.maximum then w' == Watch(Some(Thread(false, true)), kept, true)
      else w' == Watch(Some(Thread(true, false)), kept, false)
  {
    hide Recent;
  }

  lemma {:induction false} RecentIsExact(stamps: seq<int>, cutoff: int, s: int)
    ensures multiset(Recent(stamps, cutoff))[s] == if s >= cutoff then multiset(stamps)[s] else 0
  {
    if stamps != [] {
      var front, last := stamps[..|stamps| - 1], stamps[|stamps| - 1];
      RecentIsExact(front, cutoff, s);
      assert stamps == front + [last];
    }
  }

  // ---- runs -----------------------------------------------------------------

  datatype Event = CrashEvent | ExitEvent | TickEvent | DiscoveryEvent(lockable: bool)

  /** A watch with everything that was ever stamped, and when it was restarted. */
  datatype Life = Life(watch: Watch, deaths: seq<int>, restarts: seq<int>, now: int)

  /** One event at `at`; the database stays present, so there is no hot removal. */
  ghost predicate Next(rule: Rule, a: Life, event: Event, at: int, b: Life) {
    && a.now <= at == b.now
    && match event
       case CrashEvent =>
         && a.watch.thread == Some(Thread(true, false))
         && b.watch == Crash(rule, a.watch, at) && b.deaths == a.deaths + [at] && b.restarts == a.restarts
       case ExitEvent =>
         && a.watch.thread.Some? && a.watch.thread.value.alive
         && b.watch == Exit(a.watch) && b.deaths == a.deaths && b.restarts == a.restarts
       case TickEvent =>
         && b.watch == Tick(rule, a.watch, at)
         && b.deaths == (if UncountedCorpse(a.watch) then a.deaths + [at] else a.deaths)
         && b.restarts == (if Restarts(rule, a.watch, at) then a.restarts + [at] else a.restarts)
       case DiscoveryEvent(lockable) =>
         && b.watch == Discover(rule, a.watch, true, lockable, at) && b.deaths == a.deaths && b.restarts == a.restarts
  }

  /** A thread that died without recording it, in a database that may be restarted. */
  predicate UncountedCorpse(w: Watch) {
    w.thread == Some(Thread(false, false)) && !w.quarantined
  }

  ghost predicate IsHistory(rule: Rule, lives: seq<Life>, events: seq<Event>) {
    && |lives| == |events| + 1
    && lives[0].watch == NEWBORN && lives[0].deaths == [] && lives[0].restarts == []
    && forall i | 0 <= i < |events| :: Next(rule, lives[i], events[i], lives[i + 1].now, lives[i + 1])
  }

  // ---- counting stamps ------------------------------------------------------

  lemma {:induction false} RecentOfRecent(stamps: seq<int>, early: int, late: int)
    requires early <= late
    ensures Recent(Recent(stamps, early), late) == Recent(stamps, late)
  {
    if stamps != [] {
      var front, last := stamps[..|stamps| - 1], stamps[|stamps| - 1];
      RecentOfRecent(front, early, late);
      if last >= early { RecentSnoc(Recent(front, early), last, late); }
      assert Recent(front, early) + [] == Recent(front, early);
    }
  }

  lemma RecentSnoc(stamps: seq<int>, last: int, cutoff: int)
    ensures Recent(stamps + [last], cutoff) == Recent(stamps, cutoff) + if last >= cutoff then [last] else []
  {
    assert (stamps + [last])[..|stamps|] == stamps;
  }

  lemma {:induction false} RecentShrinks(stamps: seq<int>, early: int, late: int)
    requires early <= late
    ensures |Recent(stamps, late)| <= |Recent(stamps, early)|
  {
    if stamps != [] { RecentShrinks(stamps[..|stamps| - 1], early, late); }
  }

  lemma {:induction false} NothingRecent(stamps: seq<int>, cutoff: int)
    requires forall s | s in stamps :: s < cutoff
    ensures Recent(stamps, cutoff) == []
  {
    if stamps != [] {
      var front, last := stamps[..|stamps| - 1], stamps[|stamps| - 1];
      assert last in stamps && forall s | s in front :: s in stamps;
      NothingRecent(front, cutoff);
    }
  }

  predicate Counted(w: Watch) { w.thread.Some? && w.thread.value.counted }

  // ---- the invariant --------------------------------------------------------

  /** The pruned history counts like the full one in this and every later window. */
  ghost predicate PrunedCountsAsFull(rule: Rule, life: Life) {
    forall cutoff | cutoff >= life.now - rule.window ::
      Recent(life.watch.stamps, cutoff) == Recent(life.deaths, cutoff)
  }

  /** In any tail of the run, restarts alternate with stamped deaths. */
  ghost predicate Alternate(life: Life) {
    && |life.deaths| == |life.restarts| + (if Counted(life.watch) then 1 else 0)
    && forall cutoff: int :: |Recent(life.restarts, cutoff)|
         <= |Recent(life.deaths, cutoff)| + (if Counted(life.watch) then 0 else 1)
  }

  ghost predicate Supervised(rule: Rule, life: Life) {
    && (forall s | s in life.deaths :: s <= life.now)
    && (forall s | s in life.restarts :: s <= life.now)
    && PrunedCountsAsFull(rule, life)
    && Alternate(life)
    && (life.watch.quarantined ==> Counted(life.watch))
    && (Counted(life.watch) && !life.watch.quarantined ==>
          |Recent(life.deaths, life.now - rule.window)| < rule.maximum)
  }

  // ---- preservation ---------------------------------------------------------

  lemma LaterPruned(rule: Rule, life: Life, at: int)
    requires PrunedCountsAsFull(rule, life) && life.now <= at
    ensures PrunedCountsAsFull(rule, life.(now := at))
    ensures PrunedCountsAsFull(rule, life.(now := at, watch := Pruned(rule, life.watch, at)))
  {
    forall cutoff | cutoff >= at - rule.window
      ensures Recent(Pruned(rule, life.watch, at).stamps, cutoff) == Recent(life.deaths, cutoff)
    {
      RecentOfRecent(life.watch.stamps, at - rule.window, cutoff);
    }
  }

  lemma RecordedPruned(rule: Rule, life: Life, at: int)
    requires PrunedCountsAsFull(rule, life) && life.now <= at
    ensures PrunedCountsAsFull(rule,
      life.(now := at, watch := Record(rule, life.watch, at), deaths := life.deaths + [at]))
  {
    var all := life.watch.stamps + [at];
    hide Recent;
    forall cutoff | cutoff >= at - rule.window
      ensures Recent(Recent(all, at - rule.window), cutoff) == Recent(life.deaths + [at], cutoff)
    {
      RecentOfRecent(all, at - rule.window, cutoff);
      RecentSnoc(life.watch.stamps, at, cutoff);
      RecentSnoc(life.deaths, at, cutoff);
    }
  }

  lemma LaterSupervised(rule: Rule, life: Life, at: int)
    requires Supervised(rule, life) && life.now <= at
    ensures Supervised(rule, life.(now := at))
  {
    LaterPruned(rule, life, at);
    RecentShrinks(life.deaths, life.now - rule.window, at - rule.window);
  }

  lemma StampAlternates(life: Life, w: Watch)
    requires Alternate(life) && !Counted(life.watch) && Counted(w)
    requires forall s | s in life.restarts :: s <= life.now
    ensures Alternate(life.(watch := w, deaths := life.deaths + [life.now]))
  {
    hide Recent;
    forall cutoff: int ensures |Recent(life.restarts, cutoff)| <= |Recent(life.deaths + [life.now], cutoff)| {
      RecentSnoc(life.deaths, life.now, cutoff);
      if cutoff > life.now { NothingRecent(life.restarts, cutoff); }
    }
  }

  /** A death is stamped once, and the thread is counted from then on. */
  lemma StampSupervised(rule: Rule, life: Life, thread: Thread)
    requires Supervised(rule, life) && !Counted(life.watch) && thread.counted
    ensures
      var w := Record(rule, life.watch.(thread := Some(thread)), life.now);
      Supervised(rule, life.(watch := w, deaths := life.deaths + [life.now]))
  {
    hide Recent;
    var w := Record(rule, life.watch.(thread := Some(thread)), life.now);
    var cutoff := life.now - rule.window;
    StampAlternates(life, w);
    RecordedPruned(rule, life, life.now);
    RecentOfRecent(life.watch.stamps + [life.now], cutoff, cutoff);
    hide Alternate;
    assert PrunedCountsAsFull(rule, life.(watch := w, deaths := life.deaths + [life.now]));
  }

  lemma RestartSupervised(rule: Rule, life: Life)
    requires Supervised(rule, life) && Counted(life.watch) && !life.watch.quarantined
    ensures Supervised(rule, life.(watch := Launched(life.watch), restarts := life.restarts + [life.now]))
  {
    var life' := life.(watch := Launched(life.watch), restarts := life.restarts + [life.now]);
    forall cutoff: int ensures |Recent(life'.restarts, cutoff)| <= |Recent(life.deaths, cutoff)| + 1 {
      RecentSnoc(life.restarts, life.now, cutoff);
    }
    assert PrunedCountsAsFull(rule, life');
  }

  lemma TickSupervised(rule: Rule, life: Life, life': Life)
    requires Supervised(rule, life) && Next(rule, life, TickEvent, life.now, life')
    ensures Supervised(rule, life')
  {
    hide Supervised, Recent, Alternate, PrunedCountsAsFull;
    var w := life.watch;
    if w.thread.Some? && !w.thread.value.alive && !w.quarantined {
      var counted := life;
      if !w.thread.value.counted {
        counted := life.(watch := Record(rule, w.(thread := Some(Thread(false, true))), life.now),
                         deaths := life.deaths + [life.now]);
        StampSupervised(rule, life, Thread(false, true));
      }
      if !counted.watch.quarantined { RestartSupervised(rule, counted); }
    }
  }

  lemma NextSupervised(rule: Rule, life: Life, event: Event, life': Life)
    requires Supervised(rule, life) && Next(rule, life, event, life'.now, life')
    ensures Supervised(rule, life')
  {
    var at := life'.now;
    LaterSupervised(rule, life, at);
    var later := life.(now := at);
    match event
    case CrashEvent =>
      hide Supervised, Recent;
      StampSupervised(rule, later, Thread(true, true));
    case ExitEvent => assert PrunedCountsAsFull(rule, life');
    case TickEvent =>
      hide Supervised, Recent;
      TickSupervised(rule, later, life');
    case DiscoveryEvent(_) => DiscoverySupervised(rule, later, event, life');
  }

  lemma DiscoverySupervised(rule: Rule, life: Life, event: Event, life': Life)
    requires Supervised(rule, life) && event.DiscoveryEvent? && Next(rule, life, event, life.now, life')
    ensures Supervised(rule, life')
  {
    var at := life.now;
    LaterPruned(rule, life, at);
    if life.watch.quarantined {
      assert PrunedCountsAsFull(rule, life.(now := at, watch := Pruned(rule, life.watch, at)));
      assert life'.watch.stamps == Pruned(rule, life.watch, at).stamps;
      RecentOfRecent(life.watch.stamps, at - rule.window, at - rule.window);
    }
    assert PrunedCountsAsFull(rule, life');
  }

  lemma {:induction false} AlwaysSupervised(rule: Rule, lives: seq<Life>, events: seq<Event>, i: nat)
    requires IsHistory(rule, lives, events) && i < |lives|
    ensures Supervised(rule, lives[i])
    decreases i
  {
    hide Supervised, Next;
    if i == 0 {
      NewbornSupervised(rule, lives[0]);
    } else {
      AlwaysSupervised(rule, lives, events, i - 1);
      NextSupervised(rule, lives[i - 1], events[i - 1], lives[i]);
    }
  }

  lemma NewbornSupervised(rule: Rule, life: Life)
    requires life.watch == NEWBORN && life.deaths == [] && life.restarts == []
    ensures Supervised(rule, life)
  {}

  // ---- the laws -------------------------------------------------------------

  /** The log is faithful: a tick restarts a dead thread exactly when it logs a restart. */
  lemma RestartsAreLogged(rule: Rule, life: Life, life': Life)
    requires Next(rule, life, TickEvent, life'.now, life')
    ensures |life'.restarts| > |life.restarts| <==>
      && life.watch.thread.Some? && !life.watch.thread.value.alive
      && life'.watch.thread == Some(Thread(true, false))
  {}

  /** One stamp per death: every restart was paid for by one stamp, and an unrestarted counted corpse by one more. */
  lemma OneStampPerDeath(rule: Rule, lives: seq<Life>, events: seq<Event>, i: nat)
    requires IsHistory(rule, lives, events) && i < |lives|
    ensures |lives[i].deaths| == |lives[i].restarts| + if Counted(lives[i].watch) then 1 else 0
  {
    AlwaysSupervised(rule, lives, events, i);
  }

  /** Pruning loses nothing that any later window could still see. */
  lemma PruningIsExact(rule: Rule, lives: seq<Life>, events: seq<Event>, i: nat, later: int)
    requires IsHistory(rule, lives, events) && i < |lives| && later >= lives[i].now
    ensures Recent(lives[i].watch.stamps, later - rule.window) == Recent(lives[i].deaths, later - rule.window)
  {
    AlwaysSupervised(rule, lives, events, i);
  }

  /** A discovery pass releases a quarantine exactly when fewer than `maximum` deaths are left in its window. */
  lemma ReleasedExactly(rule: Rule, lives: seq<Life>, events: seq<Event>, i: nat, lockable: bool, at: int)
    requires IsHistory(rule, lives, events) && i < |lives| && at >= lives[i].now
    requires lives[i].watch.quarantined
    ensures Discover(rule, lives[i].watch, true, lockable, at).quarantined
       <==> |Recent(lives[i].deaths, at - rule.window)| >= rule.maximum
  {
    AlwaysSupervised(rule, lives, events, i);
  }

  /**
   With a threshold of at least one, the first discovery pass later than the
   last death plus the window releases the database, and the next health tick
   that finds the thread ended restarts it without stamping or quarantining again.
   */
  lemma QuarantineIsFinite(rule: Rule, lives: seq<Life>, events: seq<Event>, i: nat, lockable: bool, at: int, tick: int)
    requires IsHistory(rule, lives, events) && i < |lives| && lives[i].now <= at <= tick
    requires rule.maximum >= 1 && lives[i].watch.quarantined
    requires forall s | s in lives[i].deaths :: s + rule.window < at
    ensures
      var released := Discover(rule, lives[i].watch, true, lockable, at);
      && !released.quarantined && released.thread.Some?
      && Tick(rule, Exit(released), tick) == Launched(Exit(released))
  {
    AlwaysSupervised(rule, lives, events, i);
    NothingRecent(lives[i].deaths, at - rule.window);
  }

  /** Any number of further events from `life` on. */
  ghost predicate Continues(rule: Rule, life: Life, lives: seq<Life>, events: seq<Event>) {
    && |lives| == |events| + 1 && lives[0] == life
    && forall i | 0 <= i < |events| :: Next(rule, lives[i], events[i], lives[i + 1].now, lives[i + 1])
  }

  lemma {:induction false} QuarantineLasts(rule: Rule, life: Life, lives: seq<Life>, events: seq<Event>, i: nat)
    requires Continues(rule, life, lives, events) && i < |lives|
    requires rule.maximum < 1 && life.watch.quarantined
    ensures lives[i].watch.quarantined
    decreases i
  {
    if i > 0 {
      QuarantineLasts(rule, life, lives, events, i - 1);
      var k := i - 1;
      assert Next(rule, lives[k], events[k], lives[k + 1].now, lives[k + 1]);
      hide Recent;
    }
  }

  /** Some way to go on from `life` leaves the quarantine. */
  ghost predicate CanEnd(rule: Rule, life: Life) {
    exists lives: seq<Life>, events: seq<Event> :: Continues(rule, life, lives, events) && !lives[|lives| - 1].watch.quarantined
  }

  function Latest(stamps: seq<int>, now: int): (t: int)
    ensures t >= now && forall s | s in stamps :: s <= t
  {
    if stamps == [] then now
    else
      var t, last := Latest(stamps[..|stamps| - 1], now), stamps[|stamps| - 1];
      assert forall s | s in stamps :: s in stamps[..|stamps| - 1] || s == last;
      if t < last then last else t
  }

  /**
   A quarantine that a run has reached can ever end exactly when the threshold
   is at least one; below that every later state of every run is quarantined.
   */
  lemma QuarantineEndsExactly(rule: Rule, lives: seq<Life>, events: seq<Event>, i: nat)
    requires IsHistory(rule, lives, events) && i < |lives| && lives[i].watch.quarantined
    ensures CanEnd(rule, lives[i]) <==> rule.maximum >= 1
  {
    var life := lives[i];
    AlwaysSupervised(rule, lives, events, i);
    if rule.maximum >= 1 {
      var at := Latest(life.deaths, life.now) + rule.window + 1;
      var later := life.(watch := Discover(rule, life.watch, true, false, at), now := at);
      NothingRecent(life.deaths, at - rule.window);
      assert Recent(life.watch.stamps, at - rule.window) == [];
      assert Next(rule, life, DiscoveryEvent(false), at, later);
      assert Continues(rule, life, [life, later], [DiscoveryEvent(false)]);
    } else if CanEnd(rule, life) {
      var lives': seq<Life>, events': seq<Event> :| Continues(rule, life, lives', events') && !lives'[|lives'| - 1].watch.quarantined;
      QuarantineLasts(rule, life, lives', events', |lives'| - 1);
    }
  }

  /** A restart happens only while fewer than `maximum` deaths lie in the window behind it. */
  lemma RestartNeedsRoom(rule: Rule, life: Life, at: int)
    requires Supervised(rule, life) && life.now <= at && Restarts(rule, life.watch, at)
    ensures |Recent(life.restarts, at - rule.window)| < rule.maximum
  {
    LaterSupervised(rule, life, at);
    var later := life.(now := at);
    if !Counted(life.watch) {
      StampSupervised(rule, later, Thread(false, true));
      var w := Record(rule, later.watch.(thread := Some(Thread(false, true))), at);
      var stamped := later.(watch := w, deaths := later.deaths + [at]);
      assert !w.quarantined && Counted(w);
      assert Alternate(stamped);
    }
  }

  /** How many of `times` lie in the closed interval. */
  function CountIn(times: seq<int>, from: int, to: int): nat {
    if times == [] then 0
    else CountIn(times[..|times| - 1], from, to) + if from <= times[|times| - 1] <= to then 1 else 0
  }

  lemma {:induction false} CountInBound(times: seq<int>, from: int, to: int)
    ensures CountIn(times, from, to) <= |Recent(times, from)|
  {
    if times != [] { CountInBound(times[..|times| - 1], from, to); }
  }

  /** In any closed interval as long as the window, a database is restarted at most `maximum` times. */
  lemma {:induction false} RestartRate(rule: Rule, lives: seq<Life>, events: seq<Event>, i: nat, from: int)
    requires IsHistory(rule, lives, events) && i < |lives|
    ensures CountIn(lives[i].restarts, from, from + rule.window) <= if rule.maximum > 0 then rule.maximum else 0
    decreases i
  {
    if i > 0 {
      var life, at := lives[i - 1], lives[i].now;
      RestartRate(rule, lives, events, i - 1, from);
      AlwaysSupervised(rule, lives, events, i - 1);
      assert Next(rule, life, events[i - 1], at, lives[i]);
      hide Supervised, Recent;
      if lives[i].restarts != life.restarts {
        RestartNeedsRoom(rule, life, at);
        CountInSnoc(life.restarts, at, from, from + rule.window);
        if at <= from + rule.window {
          CountInBound(life.restarts, from, from + rule.window);
          RecentShrinks(life.restarts, at - rule.window, from);
        }
      }
    }
  }

  lemma CountInSnoc(times: seq<int>, last: int, from: int, to: int)
    ensures CountIn(times + [last], from, to) == CountIn(times, from, to) + if from <= last <= to then 1 else 0
  {
    assert (times + [last])[..|times|] == times;
  }
}
