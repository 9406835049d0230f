/** The supervisor's dictionaries and sets, and the loops that keep them. */
module Runner {
  import opened JobTable
  import opened Supervision

  function Stamps(failures: map<string, seq<int>>, db: string): seq<int> {
    if db in failures then failures[db] else []
  }

  /** An empty history leaves no entry behind. */
  function Keep(failures: map<string, seq<int>>, db: string, stamps: seq<int>): map<string, seq<int>> {
    if stamps == [] then failures - {db} else failures[db := stamps]
  }

  class QueueJobRunner {
    const rule: Rule
    var threads: map<string, nat>
    var alive: set<nat>
    var failures: map<string, seq<int>>
    var quarantined: set<string>
    var deathsCounted: set<nat>
    var nextThread: nat

    /** Thread objects are distinct, and marks never outlive the threads they are about. */
    ghost predicate Valid()
      reads this
    {
      && (forall db | db in threads :: threads[db] < nextThread)
      && (forall a, b | a in threads && b in threads && a != b :: threads[a] != threads[b])
      && (forall thread | thread in alive :: thread < nextThread)
      && (forall thread | thread in deathsCounted :: thread < nextThread)
      && (forall db | db in failures :: failures[db] != [])
    }

    /** What the supervisor knows about one database. */
    function View(db: string): Watch
      reads this
    {
      Watch(
        if db in threads then Some(Thread(threads[db] in alive, threads[db] in deathsCounted)) else None,
        Stamps(failures, db),
        db in quarantined)
    }

    constructor (maximum: int, window: nat)
      ensures Valid() && rule == Rule(maximum, window)
      ensures forall db :: View(db) == NEWBORN
    {
      rule := Rule(maximum, window);
      threads, alive, failures, quarantined, deathsCounted, nextThread := map[], {}, map[], {}, {}, 0;
    }

    method RecentFailureCount(db: string, now: int) returns (count: nat)
      requires Valid()
      modifies this`failures
      ensures Valid() && count == |Stamps(failures, db)|
      ensures failures == Keep(old(failures), db, Recent(Stamps(old(failures), db), now - rule.window))
    {
      if db !in failures {
        assert failures - {db} == failures;
        return 0;
      }
      var timestamps, cutoff, remaining := failures[db], now - rule.window, [];
      for i := 0 to |timestamps|
        invariant remaining == Recent(timestamps[..i], cutoff)
      {
        assert timestamps[..i + 1][..i] == timestamps[..i];
        if timestamps[i] >= cutoff {
          remaining := remaining + [timestamps[i]];
        }
      }
      assert timestamps[..|timestamps|] == timestamps;
      if remaining != [] {
        failures := failures[db := remaining];
      } else {
        failures := failures - {db};
      }
      count := |remaining|;
    }

    method RecordFailure(db: string, now: int)
      requires Valid()
      modifies this`failures, this`quarantined
      ensures Valid()
      ensures
        var kept := Recent(Stamps(old(failures), db) + [now], now - rule.window);
        && failures == Keep(old(failures), db, kept)
        && quarantined == if |kept| >= rule.maximum then old(quarantined) + {db} else old(quarantined)
    {
      hide Recent;
      failures := failures[db := Stamps(failures, db) + [now]];
      var count := RecentFailureCount(db, now);
      if count >= rule.maximum {
        quarantined := quarantined + {db};
      }
    }

    method ExpireQuarantines(now: int)
      requires Valid()
      modifies this`failures, this`quarantined
      ensures Valid()
      ensures forall db :: View(db) == Expire(rule, old(View(db)), now)
    {
      var left := quarantined;
      forall db | db !in quarantined ensures Expire(rule, View(db), now) == View(db) {}
      hide Expire;
      while left != {}
        invariant Valid() && left <= quarantined
        invariant forall db :: db in left ==> View(db) == old(View(db))
        invariant forall db :: db !in left ==> View(db) == Expire(rule, old(View(db)), now)
        decreases left
      {
        var db :| db in left;
        left := left - {db};
        ExpireQuarantine(db, now);
      }
    }

    method ExpireQuarantine(db: string, now: int)
      requires Valid() && db in quarantined
      modifies this`failures, this`quarantined
      ensures Valid() && quarantined + {db} == old(quarantined)
      ensures View(db) == Expire(rule, old(View(db)), now)
      ensures forall other | other != db :: View(other) == old(View(other))
    {
      hide Recent;
      var count := RecentFailureCount(db, now);
      if count >= rule.maximum {
        return;
      }
      quarantined := quarantined - {db};
    }

    method StartWorkerThread(db: string)
      requires Valid() && db !in threads
      modifies this`threads, this`alive, this`nextThread
      ensures Valid()
      ensures threads == old(threads)[db := old(nextThread)] && alive == old(alive) + {old(nextThread)}
    {
      threads := threads[db := nextThread];
      alive := alive + {nextThread};
      nextThread := nextThread + 1;
    }

    method ForgetThread(db: string) returns (thread: Option<nat>)
      requires Valid()
      modifies this`threads, this`deathsCounted
      ensures Valid() && threads == old(threads) - {db}
      ensures thread == if db in old(threads) then Some(old(threads)[db]) else None
      ensures deathsCounted == if db in old(threads) then old(deathsCounted) - {old(threads)[db]} else old(deathsCounted)
    {
      if db !in threads {
        assert threads - {db} == threads;
        return None;
      }
      thread := Some(threads[db]);
      threads := threads - {db};
      deathsCounted := deathsCounted - {thread.value};
    }

    method StopWorkerThread(db: string)
      requires Valid()
      modifies this`threads, this`deathsCounted, this`failures, this`quarantined
      ensures Valid() && threads == old(threads) - {db}
      ensures View(db) == NEWBORN
      ensures forall other | other != db :: View(other) == old(View(other))
    {
      var thread := ForgetThread(db);
      failures := failures - {db};
      quarantined := quarantined - {db};
    }

    /** One health tick: each dead thread is counted once, and replaced unless its database is quarantined. */
    method CheckThreadHealth(now: int)
      requires Valid()
      modifies this
      ensures Valid() && threads.Keys == old(threads.Keys)
      ensures forall db :: View(db) == Tick(rule, old(View(db)), now)
    {
      hide Tick;
      forall db | db !in threads ensures Tick(rule, View(db), now) == View(db) {
        TickNobody(rule, View(db), now);
      }
      var left := threads.Keys;
      while left != {}
        invariant Valid() && left <= threads.Keys == old(threads.Keys)
        invariant forall db :: db in left ==> View(db) == old(View(db))
        invariant forall db :: db !in left ==> View(db) == Tick(rule, old(View(db)), now)
        decreases left
      {
        var db :| db in left;
        left := left - {db};
        CheckThread(db, now);
      }
    }

    method CheckThread(db: string, now: int)
      requires Valid() && db in threads
      modifies this
      ensures Valid() && threads.Keys == old(threads.Keys)
      ensures View(db) == Tick(rule, old(View(db)), now)
      ensures forall other | other != db :: View(other) == old(View(other))
    {
      hide Recent;
      var thread := threads[db];
      if thread in alive || db in quarantined {
        return;
      }
      if thread !in deathsCounted {
        CountDeath(db, now);
      }
      if db in quarantined {
        return;
      }
      ReplaceThread(db);
    }

    method CountDeath(db: string, now: int)
      requires Valid() && db in threads
      modifies this`deathsCounted, this`failures, this`quarantined
      ensures Valid()
      ensures View(db) == Record(rule, old(View(db)).(thread := Some(Thread(threads[db] in alive, true))), now)
      ensures forall other | other != db :: View(other) == old(View(other))
    {
      hide Recent;
      deathsCounted := deathsCounted + {threads[db]};
      RecordFailure(db, now);
    }

    method ReplaceThread(db: string)
      requires Valid() && db in threads
      modifies this`threads, this`alive, this`deathsCounted, this`nextThread
      ensures Valid() && threads.Keys == old(threads.Keys)
      ensures View(db) == Launched(old(View(db)))
      ensures forall other | other != db :: View(other) == old(View(other))
    {
      var thread := ForgetThread(db);
      StartWorkerThread(db);
    }

    /**
     The worker of `db` raised in `thread`, which claims the death and is still
     alive; after a hot removal it is no longer, or not the, thread of `db`.
     */
    method ThreadCrashed(db: string, thread: nat, now: int)
      requires Valid() && thread < nextThread
      requires forall other | other in threads && other != db :: threads[other] != thread
      modifies this`deathsCounted, this`failures, this`quarantined
      ensures Valid()
      ensures View(db) ==
        if db in threads && threads[db] == thread then Crash(rule, old(View(db)), now) else Record(rule, old(View(db)), now)
      ensures forall other | other != db :: View(other) == old(View(other))
    {
      hide Recent;
      deathsCounted := deathsCounted + {thread};
      RecordFailure(db, now);
    }

    /** The thread of `db` is over, cleanly or not. */
    method ThreadEnded(db: string)
      requires Valid() && db in threads
      modifies this`alive
      ensures Valid()
      ensures View(db) == Exit(old(View(db)))
      ensures forall other | other != db :: View(other) == old(View(other))
    {
      alive := alive - {threads[db]};
    }

    method OfferThread(db: string, lockable: bool)
      requires Valid()
      modifies this`threads, this`alive, this`nextThread
      ensures Valid()
      ensures View(db) == Offer(old(View(db)), lockable)
      ensures threads == if db !in old(threads) && lockable then old(threads)[db := old(nextThread)] else old(threads)
      ensures forall other | other != db :: View(other) == old(View(other))
    {
      if db in threads {
        return;
      }
      if !lockable {
        return;
      }
      StartWorkerThread(db);
    }

    /** `names`: the configured or listed databases; `present`: those with the module; `lockable`: free advisory locks. */
    method DiscoverDatabases(names: set<string>, present: set<string>, lockable: set<string>, now: int)
      requires Valid()
      modifies this
      ensures Valid()
      ensures forall db :: View(db) == Discover(rule, old(View(db)), db in names && db in present, db in lockable, now)
      ensures forall db | db in old(threads) && db !in names * present ::
        db !in threads && db !in failures && db !in quarantined
      ensures forall db | db in old(threads) && db in names * present :: db in threads && threads[db] == old(threads)[db]
    {
      hide Expire, Launched;
      ExpireQuarantines(now);
      var active: set<string> := {};
      var left := names;
      while left != {}
        invariant Valid() && left <= names && active == (names - left) * present
        invariant forall db :: db in active ==> View(db) == Offer(Expire(rule, old(View(db)), now), db in lockable)
        invariant forall db :: db !in active ==> View(db) == Expire(rule, old(View(db)), now)
        invariant forall db | db in old(threads) :: db in threads && threads[db] == old(threads)[db]
        decreases left
      {
        var db :| db in left;
        left := left - {db};
        if db in present {
          active := active + {db};
          OfferThread(db, db in lockable);
        }
      }
      HotRemove(active);
    }

    /** Stops the workers of databases that are no longer served. */
    method HotRemove(active: set<string>)
      requires Valid()
      modifies this`threads, this`deathsCounted, this`failures, this`quarantined
      ensures Valid()
      ensures forall db :: View(db) == if db in active then old(View(db)) else Retire(old(View(db)))
      ensures forall db | db in threads :: db in old(threads) && threads[db] == old(threads)[db]
    {
      var known := threads.Keys;
      while known != {}
        invariant Valid() && known <= threads.Keys
        invariant forall db | db in active || db in known :: View(db) == old(View(db))
        invariant forall db | db !in active && db !in known :: View(db) == Retire(old(View(db)))
        invariant forall db | db in threads :: db in old(threads) && threads[db] == old(threads)[db]
        decreases known
      {
        var db :| db in known;
        known := known - {db};
        if db !in active {
          StopWorkerThread(db);
        }
      }
    }
  }
}
