/** The upgrade gate: a cached probe, and a clock on the pause it may open. */
module UpgradeGate {
  import opened JobTable

  datatype Reason = ModulesInTransition | PartialUpdate | VersionSkew | ProbeBlocked

  datatype GateState = Open | Closed(reason: Reason)

  /** What one probe finds: the four columns of its query, or a database error. */
  datatype Finding =
    | Found(transient: seq<string>, partial: bool, skew: seq<string>)
    | TimedOut
    | Unreachable

  /** The log line a recorded probe may write. */
  datatype Line = Silent | Resumed | Paused | OverdueError | StillPaused

  datatype Settings = Settings(enabled: bool, interval: int, unhealthyAfter: int, remindEvery: int)

  datatype View = View(
    state: GateState, checkedAt: Option<int>, closedSince: Option<int>, remindedAt: Option<int>, overdueLogged: bool)

  const NEW_VIEW := View(Open, None, None, None, false)

  /** `probe` and `_probe_once`: `None` where the error propagates. */
  function Probe(finding: Finding): Option<GateState> {
    match finding
    case Found(transient, partial, skew) =>
      Some(if transient != [] then Closed(ModulesInTransition)
           else if partial then Closed(PartialUpdate)
           else if skew != [] then Closed(VersionSkew)
           else Open)
    case TimedOut => Some(Closed(ProbeBlocked))
    case Unreachable => None
  }

  /** The gate opens exactly when the probe was read and found nothing; a blocked probe fails closed. */
  lemma OpensExactly(finding: Finding)
    ensures Probe(finding) == Some(Open) <==>
      finding.Found? && finding.transient == [] && !finding.partial && finding.skew == []
    ensures Probe(finding) == None <==> finding.Unreachable?
    ensures Probe(finding) == Some(Closed(ModulesInTransition)) <==> finding.Found? && finding.transient != []
    ensures Probe(finding) == Some(Closed(PartialUpdate)) <==>
      finding.Found? && finding.transient == [] && finding.partial
    ensures Probe(finding) == Some(Closed(VersionSkew)) <==>
      finding.Found? && finding.transient == [] && !finding.partial && finding.skew != []
    ensures Probe(finding) == Some(Closed(ProbeBlocked)) <==> finding.TimedOut?
  {}

  function SecondsClosed(v: View, now: int): int {
    if v.closedSince.None? || now < v.closedSince.value then 0 else now - v.closedSince.value
  }

  predicate IsOverdue(s: Settings, v: View, now: int) {
    s.unhealthyAfter > 0 && v.closedSince.Some? && SecondsClosed(v, now) >= s.unhealthyAfter
  }

  /** A closed gate always knows since when, and when it last said so. */
  predicate Consistent(v: View) {
    && (v.state.Open? <==> v.closedSince.None?)
    && (v.state.Closed? ==> v.remindedAt.Some?)
  }

  /** `_record`; `later` is the clock when it asks whether the pause is overdue. */
  function Record(s: Settings, v: View, state: GateState, now: int, later: int): (View, Line)
    requires Consistent(v)
  {
    if state.Open? then
      (View(Open, v.checkedAt, None, None, false), if v.state.Open? then Silent else Resumed)
    else if v.state.Open? then
      (v.(state := state, closedSince := Some(now), remindedAt := Some(now)), Paused)
    else
      var v' := v.(state := state);
      if v.state.reason != state.reason then (v', Paused)
      else if IsOverdue(s, v', later) && !v.overdueLogged then (v'.(overdueLogged := true), OverdueError)
      else if now - v.remindedAt.value >= s.remindEvery then (v'.(remindedAt := Some(now)), StillPaused)
      else (v', Silent)
  }

  /** Whether `check` answers from its cache. */
  predicate Cached(s: Settings, v: View, now: int, force: bool) {
    !force && v.checkedAt.Some? && now - v.checkedAt.value < s.interval
  }

  // ---- runs -----------------------------------------------------------------

  /** One recorded probe and what it logged. */
  datatype Probed = Probed(at: int, state: GateState, line: Line, forced: bool)

  datatype Life = Life(view: View, log: seq<Probed>)

  /** One call of `check`. */
  ghost predicate Next(s: Settings, a: Life, now: int, later: int, force: bool, finding: Finding, b: Life) {
    && Consistent(a.view) && now <= later
    && if !s.enabled || Cached(s, a.view, now, force) || Probe(finding).None? then b == a
       else
         var state := Probe(finding).value;
         var (view, line) := Record(s, a.view, state, now, later);
         b == Life(view.(checkedAt := Some(now)), a.log + [Probed(now, state, line, force)])
  }

  datatype Call = Call(now: int, later: int, force: bool, finding: Finding)

  ghost predicate IsHistory(s: Settings, lives: seq<Life>, calls: seq<Call>) {
    && |lives| == |calls| + 1 && lives[0] == Life(NEW_VIEW, [])
    && forall i | 0 <= i < |calls| ::
         Next(s, lives[i], calls[i].now, calls[i].later, calls[i].force, calls[i].finding, lives[i + 1])
  }

  /** Probe number `start` began the pause that is still on. */
  predicate PauseBegan(log: seq<Probed>, start: nat) {
    && start < |log|
    && (forall i | start <= i < |log| :: log[i].state.Closed?)
    && (start > 0 ==> log[start - 1].state.Open?)
  }

  /** Probes `i` to `j` lie in one pause. */
  predicate OnePause(log: seq<Probed>, i: nat, j: nat) {
    i <= j < |log| && forall k | i <= k <= j :: log[k].state.Closed?
  }

  /** Probe `i` logged the overdue error in the pause that still lasted at probe `j`. */
  predicate OverdueIn(log: seq<Probed>, i: nat, j: nat) {
    OnePause(log, i, j) && log[i].line == OverdueError
  }

  /** Probe `i` logged the overdue error in the pause that is still on. */
  predicate OverdueNow(log: seq<Probed>, i: nat) { log != [] && OverdueIn(log, i, |log| - 1) }

  ghost predicate Tracked(s: Settings, life: Life) {
    && Consistent(life.view)
    && life.view.state == (if life.log == [] then Open else life.log[|life.log| - 1].state)
    && life.view.checkedAt == (if life.log == [] then None else Some(life.log[|life.log| - 1].at))
    && (life.view.closedSince.Some? ==>
          exists start: nat :: PauseBegan(life.log, start) && life.log[start].at == life.view.closedSince.value)
    && (life.view.overdueLogged <==>
          exists i: nat :: OverdueNow(life.log, i))
    && (forall i: nat, j: nat | i < j && OverdueIn(life.log, i, j) :: life.log[j].line != OverdueError)
  }

  lemma NextTracked(s: Settings, a: Life, call: Call, b: Life)
    requires Tracked(s, a) && Next(s, a, call.now, call.later, call.force, call.finding, b)
    ensures Tracked(s, b)
  {
    if b != a {
      var n, probed := |a.log|, b.log[|a.log|];
      assert b.log == a.log + [probed];
      PausesGrow(a.log, probed);
      LoggedOnce(s, a, probed, b);
    }
  }

  lemma PausesGrow(log: seq<Probed>, probed: Probed)
    ensures
      var log' := log + [probed];
      && (forall start: nat :: probed.state.Closed? && PauseBegan(log, start) ==> PauseBegan(log', start))
      && (probed.state.Closed? && (log == [] || log[|log| - 1].state.Open?) ==> PauseBegan(log', |log|))
  {
    var log' := log + [probed];
    forall start: nat | probed.state.Closed? && PauseBegan(log, start) ensures PauseBegan(log', start) {
      assert forall i | start <= i < |log'| :: log'[i].state.Closed?;
    }
  }

  lemma OverdueEarlier(log: seq<Probed>, probed: Probed, i: nat, j: nat)
    requires j < |log|
    ensures OverdueIn(log + [probed], i, j) <==> OverdueIn(log, i, j)
  {
    var log' := log + [probed];
    assert forall k | 0 <= k < |log| :: log'[k] == log[k];
    if OverdueIn(log', i, j) {
      forall k | i <= k <= j ensures log[k].state.Closed? { assert log'[k].state.Closed?; }
    }
  }

  lemma OverdueGrows(log: seq<Probed>, probed: Probed, i: nat)
    ensures OverdueNow(log + [probed], i) <==>
      && probed.state.Closed?
      && (if i == |log| then probed.line == OverdueError else OverdueNow(log, i))
  {
    var log', n := log + [probed], |log|;
    assert log'[n] == probed && forall k | 0 <= k < n :: log'[k] == log[k];
    if OverdueNow(log', i) {
      assert log'[n].state.Closed?;
      if i < n {
        forall k | i <= k < n ensures log[k].state.Closed? { assert log'[k].state.Closed?; }
      }
    }
    if probed.state.Closed? && i < n && OverdueNow(log, i) {
      forall k | i <= k <= n ensures log'[k].state.Closed? {
        if k < n { assert log[k].state.Closed?; }
      }
      assert OnePause(log', i, n);
    }
  }

  lemma LoggedOnce(s: Settings, a: Life, probed: Probed, b: Life)
    requires Tracked(s, a) && b.log == a.log + [probed] && b.view.state == probed.state
    requires probed.state.Closed? ==>
      (b.view.overdueLogged <==> probed.line == OverdueError || (a.view.state.Closed? && a.view.overdueLogged))
    requires probed.line == OverdueError ==> probed.state.Closed? && a.view.state.Closed? && !a.view.overdueLogged
    requires probed.state.Open? ==> !b.view.overdueLogged
    ensures b.view.overdueLogged <==> exists i: nat :: OverdueNow(b.log, i)
    ensures forall i: nat, j: nat | i < j && OverdueIn(b.log, i, j) :: b.log[j].line != OverdueError
  {
    var n := |a.log|;
    forall i: nat, j: nat | i < j && OverdueIn(b.log, i, j) ensures b.log[j].line != OverdueError {
      if j < n {
        OverdueEarlier(a.log, probed, i, j);
      } else {
        assert OverdueNow(b.log, i);
        OverdueGrows(a.log, probed, i);
      }
    }
    if b.view.overdueLogged {
      if probed.line == OverdueError {
        OverdueGrows(a.log, probed, n);
      } else {
        var i: nat :| OverdueNow(a.log, i);
        OverdueGrows(a.log, probed, i);
      }
    }
    forall i: nat | OverdueNow(b.log, i) ensures b.view.overdueLogged {
      OverdueGrows(a.log, probed, i);
    }
  }

  lemma {:induction false} AlwaysTracked(s: Settings, lives: seq<Life>, calls: seq<Call>, i: nat)
    requires IsHistory(s, lives, calls) && i < |lives|
    ensures Tracked(s, lives[i])
    decreases i
  {
    if i > 0 {
      AlwaysTracked(s, lives, calls, i - 1);
      hide Tracked, Next;
      NextTracked(s, lives[i - 1], calls[i - 1], lives[i]);
    }
  }

  // ---- the laws -------------------------------------------------------------

  /**
   The pause clock is unset exactly while the gate is open; otherwise it holds
   the time of the first closed probe since the gate was last open, through
   every change of reason and every probe that raised.
   */
  lemma PauseClock(s: Settings, lives: seq<Life>, calls: seq<Call>, i: nat)
    requires IsHistory(s, lives, calls) && i < |lives|
    ensures lives[i].view.closedSince.None? <==> lives[i].view.state.Open?
    ensures lives[i].view.closedSince.Some? ==>
      exists start: nat :: PauseBegan(lives[i].log, start) && lives[i].log[start].at == lives[i].view.closedSince.value
  {
    AlwaysTracked(s, lives, calls, i);
  }

  /** At most one overdue error per pause. */
  lemma OneErrorPerPause(s: Settings, lives: seq<Life>, calls: seq<Call>, i: nat, first: nat, second: nat)
    requires IsHistory(s, lives, calls) && i < |lives|
    requires first < second && OnePause(lives[i].log, first, second)
    ensures !(lives[i].log[first].line == OverdueError && lives[i].log[second].line == OverdueError)
  {
    AlwaysTracked(s, lives, calls, i);
    if lives[i].log[first].line == OverdueError { assert OverdueIn(lives[i].log, first, second); }
  }

  /** Unforced probes are at least an interval apart. */
  lemma {:induction false} ProbesAreSpaced(s: Settings, lives: seq<Life>, calls: seq<Call>, i: nat)
    requires IsHistory(s, lives, calls) && i < |lives|
    ensures forall k | 0 < k < |lives[i].log| && !lives[i].log[k].forced ::
      lives[i].log[k].at - lives[i].log[k - 1].at >= s.interval
    decreases i
  {
    if i > 0 {
      ProbesAreSpaced(s, lives, calls, i - 1);
      AlwaysTracked(s, lives, calls, i - 1);
      hide Record, Probe;
      assert Next(s, lives[i - 1], calls[i - 1].now, calls[i - 1].later, calls[i - 1].force, calls[i - 1].finding, lives[i]);
    }
  }

  /**
   Probing comes back: a call that is forced, or the first, or at least an
   interval after the last recorded probe, records what it finds; any other
   call, one of a gate that is off, and one whose probe raises change nothing.
   */
  lemma ProbesExactly(s: Settings, a: Life, call: Call, b: Life)
    requires Next(s, a, call.now, call.later, call.force, call.finding, b)
    ensures
      var due := call.force || a.view.checkedAt.None? || call.now >= a.view.checkedAt.value + s.interval;
      if s.enabled && due && !call.finding.Unreachable? then
        && Probe(call.finding) == Some(b.view.state) && b.view.checkedAt == Some(call.now)
        && |b.log| == |a.log| + 1 && a.log <= b.log
        && b.log[|a.log|].at == call.now && b.log[|a.log|].state == b.view.state
      else b == a
  {
    hide Record, Probe;
    assert Probe(call.finding).None? <==> call.finding.Unreachable? by { OpensExactly(call.finding); }
    RecordsState(s, a.view, call);
  }

  lemma RecordsState(s: Settings, v: View, call: Call)
    requires Consistent(v)
    ensures forall state :: Record(s, v, state, call.now, call.later).0.state == state
  {}

  /**
   What a recorded probe logs: the two changes of mind, a pause or a change of
   its reason, once per pause that it is overdue, and otherwise a reminder when
   the last one, or the start of the pause, lies a reminder's time back.
   */
  lemma LogsExactly(s: Settings, v: View, state: GateState, now: int, later: int)
    requires Consistent(v)
    ensures
      var line := Record(s, v, state, now, later).1;
      var stays := v.state.Closed? && state.Closed? && v.state.reason == state.reason;
      var overdue := stays && s.unhealthyAfter > 0 && !v.overdueLogged
        && later >= v.closedSince.value + s.unhealthyAfter;
      && (line == Resumed <==> v.state.Closed? && state.Open?)
      && (line == Paused <==> state.Closed? && !stays)
      && (line == OverdueError <==> overdue)
      && (line == StillPaused <==> stays && !overdue && now >= v.remindedAt.value + s.remindEvery)
  {}

  /** What it remembers. */
  lemma RemembersExactly(s: Settings, v: View, state: GateState, now: int, later: int)
    requires Consistent(v)
    ensures
      var (v', line) := Record(s, v, state, now, later);
      && v'.state == state && v'.checkedAt == v.checkedAt
      && v'.closedSince == (if state.Open? then None else if v.state.Open? then Some(now) else v.closedSince)
      && v'.remindedAt == (if state.Open? then None
                           else if v.state.Open? || line == StillPaused then Some(now) else v.remindedAt)
      && v'.overdueLogged == (state.Closed? && (v.overdueLogged || line == OverdueError))
  {}

  // ---- the object -----------------------------------------------------------

  class Gate {
    const settings: Settings
    var state: GateState
    var checkedAt: Option<int>
    var closedSince: Option<int>
    var lastReminderAt: Option<int>
    var overdueLogged: bool

    function Current(): View
      reads this
    {
      View(state, checkedAt, closedSince, lastReminderAt, overdueLogged)
    }

    ghost predicate Valid()
      reads this
    {
      Consistent(Current()) && settings.interval >= 1 && settings.unhealthyAfter >= 0
    }

    /** Times are in tenths of a second; intervals are raised to one of them, limits to zero. */
    constructor (settings: Settings)
      ensures Valid() && Current() == NEW_VIEW
      ensures this.settings == settings.(
        interval := if settings.interval < 1 then 1 else settings.interval,
        unhealthyAfter := if settings.unhealthyAfter < 0 then 0 else settings.unhealthyAfter)
    {
      this.settings := settings.(
        interval := if settings.interval < 1 then 1 else settings.interval,
        unhealthyAfter := if settings.unhealthyAfter < 0 then 0 else settings.unhealthyAfter);
      state, checkedAt, closedSince, lastReminderAt, overdueLogged := Open, None, None, None, false;
    }

    method Seconds(now: int) returns (seconds: int)
      ensures seconds == SecondsClosed(Current(), now) >= 0
      ensures closedSince.Some? && now >= closedSince.value ==> seconds == now - closedSince.value
      ensures closedSince.None? || now < closedSince.value ==> seconds == 0
    {
      if closedSince.None? {
        return 0;
      }
      seconds := now - closedSince.value;
      if seconds < 0 {
        seconds := 0;
      }
    }

    method Overdue(now: int) returns (overdue: bool)
      requires settings.unhealthyAfter >= 0
      ensures overdue == IsOverdue(settings, Current(), now)
      ensures overdue <==>
        settings.unhealthyAfter > 0 && closedSince.Some? && now >= closedSince.value + settings.unhealthyAfter
    {
      if settings.unhealthyAfter == 0 || closedSince.None? {
        return false;
      }
      var seconds := Seconds(now);
      return seconds >= settings.unhealthyAfter;
    }

    method RecordState(found: GateState, now: int, later: int) returns (line: Line)
      requires Valid()
      modifies this
      ensures Valid()
      ensures (Current(), line) == Record(settings, old(Current()), found, now, later)
      ensures state == found && checkedAt == old(checkedAt)
    {
      var previous := state;
      state := found;
      if found.Open? {
        line := if previous.Open? then Silent else Resumed;
        closedSince, lastReminderAt, overdueLogged := None, None, false;
        return;
      }
      if previous.Open? {
        closedSince, lastReminderAt := Some(now), Some(now);
      }
      if previous.Open? || previous.reason != found.reason {
        return Paused;
      }
      var overdue := Overdue(later);
      if overdue && !overdueLogged {
        overdueLogged := true;
        return OverdueError;
      }
      if now - lastReminderAt.value >= settings.remindEvery {
        lastReminderAt := Some(now);
        return StillPaused;
      }
      line := Silent;
    }

    /** `check`: `None` where the probe's error reaches the caller. */
    method Check(force: bool, now: int, later: int, finding: Finding) returns (answer: Option<GateState>, ghost line: Line)
      requires Valid() && now <= later
      modifies this
      ensures Valid()
      ensures forall log: seq<Probed> ::
        var log' := if !settings.enabled || Cached(settings, old(Current()), now, force) || Probe(finding).None? then log
                    else log + [Probed(now, Probe(finding).value, line, force)];
        Next(settings, Life(old(Current()), log), now, later, force, finding, Life(Current(), log'))
      ensures answer ==
        if !settings.enabled then Some(Open)
        else if Cached(settings, old(Current()), now, force) then Some(old(state))
        else Probe(finding)
      ensures
        var due := force || old(checkedAt).None? || now >= old(checkedAt).value + settings.interval;
        && (settings.enabled && due ==> answer == Probe(finding))
        && (settings.enabled && due && !finding.Unreachable? ==> checkedAt == Some(now) && Some(state) == answer)
        && (settings.enabled && !due ==> answer == Some(old(state)) && Current() == old(Current()))
        && (!settings.enabled ==> answer == Some(Open) && Current() == old(Current()))
    {
      line := Silent;
      if !settings.enabled {
        return Some(Open), line;
      }
      if !force && checkedAt.Some? && now - checkedAt.value < settings.interval {
        return Some(state), line;
      }
      answer := Probe(finding);
      if answer.None? {
        return;
      }
      checkedAt := Some(now);
      line := RecordState(answer.value, now, later);
    }
  }
}
