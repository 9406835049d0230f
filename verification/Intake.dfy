/** How rows enter the table, come back to life, and leave it. */
module Intake {
  import opened JobTable

  const DEFAULT_PRIORITY := 10
  const DEFAULT_MAX_RETRIES := 5

  /** The arguments of `enqueue` that decide what row is created. */
  datatype Request = Request(
    identityKey: Option<string>,
    parent: Option<nat>,
    deps: seq<nat>,
    runOnFailure: bool,
    graph: Option<nat>,
    priority: Option<int>,
    channel: Option<string>,
    maxRetries: Option<int>,
    scheduledAt: Option<int>
  )

  function OrElse<T>(value: Option<T>, default: T): T {
    if value.Some? then value.value else default
  }

  function NewRow(req: Request, now: int): Job {
    Job(
      if req.parent.Some? || req.deps != [] then Waiting else Pending,
      req.parent, req.deps, |req.deps|, req.runOnFailure, req.graph,
      if req.identityKey == Some("") then None else req.identityKey,
      OrElse(req.priority, DEFAULT_PRIORITY),
      Some(if req.channel == Some("") then "root" else OrElse(req.channel, "root")),
      req.scheduledAt, Some(0), Some(OrElse(req.maxRetries, DEFAULT_MAX_RETRIES)),
      now, None, None, None, None, None, [])
  }

  predicate Keyed(job: Job) { job.identityKey.Some? && job.identityKey.value != "" }

  predicate HoldsKey(t: Table, id: nat, key: Option<string>) {
    id in t && t[id].Active() && t[id].identityKey == key
  }

  /** `enqueue` hands back an existing job instead of creating `row`. */
  predicate Reused(t: Table, row: Job) {
    Keyed(row) && exists x | x in t :: HoldsKey(t, x, row.identityKey)
  }

  /** What `_check_identity_key_state_unique` and the partial unique index are there to keep. */
  ghost predicate UniqueActiveKeys(t: Table) {
    forall x, y | x in t && y in t && x != y && Keyed(t[x]) && t[x].Active() ::
      !HoldsKey(t, y, t[x].identityKey)
  }

  function RequeueRow(job: Job): Job {
    job.(state := Pending, attempts := Some(0), exc := [], scheduledAt := None, worker := None,
         heartbeat := None, startedAt := None, completedAt := None, cancelledAt := None)
  }

  predicate RequeueBlocked(t: Table, id: nat)
    requires id in t
  {
    Keyed(t[id]) && exists x | x in t :: x != id && HoldsKey(t, x, t[id].identityKey)
  }

  function RequeueOne(t: Table, id: nat): Table {
    if id !in t || RequeueBlocked(t, id) then t else t[id := RequeueRow(t[id])]
  }

  /** `button_requeue`, in recordset order: each row sees what the earlier ones wrote. */
  function RequeueEach(t: Table, ids: seq<nat>): Table {
    if ids == [] then t else RequeueOne(RequeueEach(t, ids[..|ids| - 1]), ids[|ids| - 1])
  }

  predicate Expired(job: Job, cutoff: int) {
    || ((job.state.Done? || job.state.Failed?) && job.completedAt.Some? && job.completedAt.value <= cutoff)
    || (job.state == Cancelled && job.cancelledAt.Some? && job.cancelledAt.value <= cutoff)
  }

  function ExpiredIds(t: Table, cutoff: int): set<nat> {
    set x | x in t && Expired(t[x], cutoff)
  }

  /** Deleting rows sets the `parent_id` of their children to NULL. */
  function Unlink(t: Table, ids: set<nat>): Table {
    map x | x in t && x !in ids ::
      if t[x].parent.Some? && t[x].parent.value in ids then t[x].(parent := None) else t[x]
  }

  lemma UnlinkNothing(t: Table)
    ensures Unlink(t, {}) == t
  {}

  lemma UnlinkTwice(t: Table, first: set<nat>, second: set<nat>)
    ensures Unlink(Unlink(t, first), second) == Unlink(t, first + second)
  {}

  lemma UnlinkExpired(t: Table, ids: set<nat>, cutoff: int)
    ensures ExpiredIds(Unlink(t, ids), cutoff) == ExpiredIds(t, cutoff) - ids
  {}

  // ---- identity keys --------------------------------------------------------

  /** Nothing that was inactive is active afterwards, and no key has changed. */
  ghost predicate ActivatesNothing(t: Table, t': Table) {
    forall x | x in t' && t'[x].Active() :: HoldsKey(t, x, t'[x].identityKey)
  }

  lemma UniqueSurvives(t: Table, t': Table)
    requires UniqueActiveKeys(t) && ActivatesNothing(t, t')
    ensures UniqueActiveKeys(t')
  {
    forall x, y | x in t' && y in t' && x != y && Keyed(t'[x]) && t'[x].Active()
      ensures !HoldsKey(t', y, t'[x].identityKey)
    {
      assert HoldsKey(t, x, t'[x].identityKey);
      assert HoldsKey(t', y, t'[x].identityKey) ==> HoldsKey(t, y, t'[y].identityKey);
    }
  }

  lemma EnqueueKeepsUnique(t: Table, id: nat, row: Job)
    requires UniqueActiveKeys(t) && id !in t
    requires !Reused(t, row)
    ensures UniqueActiveKeys(t[id := row])
  {
    var t' := t[id := row];
    forall x, y | x in t' && y in t' && x != y && Keyed(t'[x]) && t'[x].Active()
      ensures !HoldsKey(t', y, t'[x].identityKey)
    {
      if y == id && HoldsKey(t', y, t'[x].identityKey) {
        assert HoldsKey(t, x, row.identityKey);
      } else if y != id {
        assert HoldsKey(t', y, t'[x].identityKey) == HoldsKey(t, y, t'[x].identityKey);
      }
    }
  }

  lemma RequeueOneKeepsUnique(t: Table, id: nat)
    requires UniqueActiveKeys(t)
    ensures UniqueActiveKeys(RequeueOne(t, id))
  {
    var t' := RequeueOne(t, id);
    if t' != t {
      forall x, y | x in t' && y in t' && x != y && Keyed(t'[x]) && t'[x].Active()
        ensures !HoldsKey(t', y, t'[x].identityKey)
      {
        if x == id {
          assert !(y != id && HoldsKey(t, y, t[id].identityKey));
        } else if y == id && HoldsKey(t', y, t'[x].identityKey) {
          assert HoldsKey(t, x, t[id].identityKey);
        } else {
          assert HoldsKey(t', y, t'[x].identityKey) ==> HoldsKey(t, y, t[x].identityKey);
        }
      }
    }
  }

  /** Even a batch that names one key twice, or one row twice, revives at most one holder. */
  lemma {:induction false} RequeueKeepsUnique(t: Table, ids: seq<nat>)
    requires UniqueActiveKeys(t)
    ensures UniqueActiveKeys(RequeueEach(t, ids))
  {
    if ids != [] {
      RequeueKeepsUnique(t, ids[..|ids| - 1]);
      RequeueOneKeepsUnique(RequeueEach(t, ids[..|ids| - 1]), ids[|ids| - 1]);
    }
  }

  // ---- the same in the table's own columns ----------------------------------

  /** Row `y` waits, is pending or has started under `key`. */
  predicate LiveUnder(t: Table, y: nat, key: string) {
    y in t && t[y].identityKey == Some(key) && (t[y].state == Waiting || t[y].state == Pending || t[y].state == Started)
  }

  ghost predicate KeyIsLive(t: Table, key: Option<string>) {
    key.Some? && key.value != "" && exists x :: LiveUnder(t, x, key.value)
  }

  /** An active job is handed back exactly if the key is not empty and a live row carries it. */
  lemma ReusedExactly(t: Table, row: Job)
    ensures Reused(t, row) <==> KeyIsLive(t, row.identityKey)
  {
    if row.identityKey.Some? {
      assert forall x :: LiveUnder(t, x, row.identityKey.value) <==> HoldsKey(t, x, row.identityKey);
    }
  }

  /** No two live rows under one non-empty key: what is kept, without the words it is proved with. */
  lemma UniqueExactly(t: Table)
    ensures UniqueActiveKeys(t) <==>
      forall x, y, key | x != y && key != "" :: !(LiveUnder(t, x, key) && LiveUnder(t, y, key))
  {
    if UniqueActiveKeys(t) {
      forall x, y, key | x != y && key != "" && LiveUnder(t, x, key) ensures !LiveUnder(t, y, key) {
        assert !HoldsKey(t, y, t[x].identityKey);
      }
    } else {
      var x, y :| x in t && y in t && x != y && Keyed(t[x]) && t[x].Active() && HoldsKey(t, y, t[x].identityKey);
      assert LiveUnder(t, x, t[x].identityKey.value) && LiveUnder(t, y, t[x].identityKey.value);
    }
  }

  /** A row as a request asks for it, with the documented defaults for what it leaves out. */
  predicate AsRequested(job: Job, req: Request, now: int) {
    && job.parent == req.parent && job.deps == req.deps && job.countdown == |req.deps|
    && job.runOnFailure == req.runOnFailure && job.graph == req.graph
    && (job.state == Waiting <==> req.parent.Some? || req.deps != []) && (job.state == Waiting || job.state == Pending)
    && job.identityKey == (if req.identityKey == Some("") then None else req.identityKey)
    && (req.priority.Some? ==> job.priority == req.priority.value) && (req.priority.None? ==> job.priority == 10)
    && (req.channel.Some? && req.channel.value != "" ==> job.channel == req.channel)
    && (req.channel == None || req.channel == Some("") ==> job.channel == Some("root"))
    && (req.maxRetries.Some? ==> job.maxRetries == req.maxRetries) && (req.maxRetries.None? ==> job.maxRetries == Some(5))
    && job.scheduledAt == req.scheduledAt && job.attempts == Some(0) && job.createdAt == now && job.exc == []
    && job.startedAt.None? && job.completedAt.None? && job.cancelledAt.None? && job.heartbeat.None? && job.worker.None?
  }

  lemma NewRowIsAsRequested(req: Request, now: int)
    ensures AsRequested(NewRow(req, now), req, now)
  {}

  /** Done or failed by `cutoff`, or cancelled by then. */
  predicate EndedUntil(job: Job, cutoff: int) {
    match job.state
    case Done => job.completedAt.Some? && job.completedAt.value <= cutoff
    case Failed => job.completedAt.Some? && job.completedAt.value <= cutoff
    case Cancelled => job.cancelledAt.Some? && job.cancelledAt.value <= cutoff
    case _ => false
  }

  lemma UnlinkedAt(t: Table, cutoff: int)
    ensures
      var t' := Unlink(t, ExpiredIds(t, cutoff));
      && (forall x :: x in t' <==> x in t && !EndedUntil(t[x], cutoff))
      && forall x | x in t' ::
           var parent := t[x].parent;
           t'[x] == if parent.Some? && parent.value in t && EndedUntil(t[parent.value], cutoff)
                    then t[x].(parent := None) else t[x]
  {}

  /** The first of `ids` whose row carries `key`. */
  function Leader(t: Table, ids: seq<nat>, key: string): Option<nat> {
    if ids == [] then None
    else
      var earlier, last := Leader(t, ids[..|ids| - 1], key), ids[|ids| - 1];
      if earlier.Some? then earlier
      else if last in t && t[last].identityKey == Some(key) then Some(last)
      else None
  }

  /**
   Row `x` is among the requeued ones, and if it has a key then no other live
   row carries it, and `x` is live itself or the first of the batch with it.
   */
  ghost predicate BringsBack(t: Table, ids: seq<nat>, x: nat)
    requires x in t
  {
    && x in ids
    && (t[x].identityKey.Some? && t[x].identityKey.value != "" ==>
          var key := t[x].identityKey.value;
          && (forall y | y != x :: !LiveUnder(t, y, key))
          && (LiveUnder(t, x, key) || Leader(t, ids, key) == Some(x)))
  }

  lemma {:induction false} LeaderIs(t: Table, ids: seq<nat>, key: string)
    ensures Leader(t, ids, key).Some? ==>
      Leader(t, ids, key).value in ids && Leader(t, ids, key).value in t
      && t[Leader(t, ids, key).value].identityKey == Some(key)
    ensures Leader(t, ids, key).None? ==> forall x | x in ids && x in t :: t[x].identityKey != Some(key)
  {
    if ids != [] {
      LeaderIs(t, ids[..|ids| - 1], key);
      assert forall x :: x in ids <==> x in ids[..|ids| - 1] || x == ids[|ids| - 1];
    }
  }

  /** Which rows a batch brings back, and what each looks like then; no other row changes. */
  lemma {:induction false} RequeueExactly(t: Table, ids: seq<nat>, x: nat)
    requires x in t
    ensures
      var t' := RequeueEach(t, ids);
      && t'.Keys == t.Keys
      && t'[x] == if BringsBack(t, ids, x) then
           t[x].(state := Pending, attempts := Some(0), exc := [], scheduledAt := None, worker := None,
                 heartbeat := None, startedAt := None, completedAt := None, cancelledAt := None)
         else t[x]
  {
    if ids != [] {
      var front, last := ids[..|ids| - 1], ids[|ids| - 1];
      forall y | y in t ensures RequeueEach(t, front).Keys == t.Keys && RequeuedTo(t, front, y) {
        RequeueExactly(t, front, y);
      }
      RequeueExactly(t, front, x);
      assert forall y :: y in ids <==> y in front || y == last;
      if x == last {
        RequeuedLast(t, front, x);
      } else if t[x].identityKey.Some? {
        LeaderIs(t, front, t[x].identityKey.value);
      }
    }
  }

  ghost predicate RequeuedTo(t: Table, ids: seq<nat>, x: nat) {
    && x in t && x in RequeueEach(t, ids)
    && RequeueEach(t, ids)[x] == if BringsBack(t, ids, x) then RequeueRow(t[x]) else t[x]
  }

  lemma RequeuedLast(t: Table, front: seq<nat>, x: nat)
    requires x in t && RequeueEach(t, front).Keys == t.Keys
    requires forall y | y in t :: RequeuedTo(t, front, y)
    ensures RequeueBlocked(RequeueEach(t, front), x) ==> (BringsBack(t, front + [x], x) <==> BringsBack(t, front, x))
    ensures !RequeueBlocked(RequeueEach(t, front), x) ==> BringsBack(t, front + [x], x)
  {
    var t', ids := RequeueEach(t, front), front + [x];
    assert ids[..|ids| - 1] == front && ids[|ids| - 1] == x;
    if t[x].identityKey.Some? && t[x].identityKey.value != "" {
      var key := t[x].identityKey.value;
      LeaderIs(t, front, key);
      assert RequeuedTo(t, front, x);
      forall y | y in t && y != x
        ensures HoldsKey(t', y, t'[x].identityKey) <==>
          t[y].identityKey == Some(key) && (LiveUnder(t, y, key) || BringsBack(t, front, y))
      {
        assert RequeuedTo(t, front, y);
      }
    }
  }
}
