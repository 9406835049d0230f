/** Small inputs on which the conditions outside the queue's tables are broken. */
module AuxWitnesses {
  import opened JobTable
  import opened WorkerRows
  import opened Steps
  import opened CancelWalk
  import opened Draining
  import Supervision
  import DelayJobs
  import Payload

  /** With a threshold of zero a first crash quarantines a database for good. */
  lemma NeverReleased() returns (lives: seq<Supervision.Life>, events: seq<Supervision.Event>)
    ensures Supervision.IsHistory(Supervision.Rule(0, 3600), lives, events)
    ensures events == [Supervision.DiscoveryEvent(true), Supervision.CrashEvent]
    ensures lives[2].watch.quarantined && !Supervision.CanEnd(Supervision.Rule(0, 3600), lives[2])
  {
    var rule := Supervision.Rule(0, 3600);
    var born := Supervision.Life(Supervision.NEWBORN, [], [], 0);
    var up := born.(watch := Supervision.Launched(Supervision.NEWBORN));
    var down := up.(watch := Supervision.Crash(rule, up.watch, 0), deaths := [0]);
    lives, events := [born, up, down], [Supervision.DiscoveryEvent(true), Supervision.CrashEvent];
    assert Supervision.Next(rule, born, events[0], 0, up);
    assert Supervision.Next(rule, up, events[1], 0, down);
    hide Supervision.Next;
    Supervision.QuarantineEndsExactly(rule, lives, events, 2);
  }

  /** The failure of an attempt whose row is done already brings the row back, so that more work is left, not less. */
  lemma LateFailureRaises(job: Job, now: int)
    requires job.state == Done && job.maxRetries == Some(5) && job.attempts == Some(0)
    ensures Rank(job) == 0 && Rank(EndedRow(Config(60, 3600, 5, 3600, map[]), job, Generic, now)) == 10
  {}

  /** `group(a, a)` gives its barrier the same job twice. */
  lemma SameMemberTwice(id: nat)
    ensures DelayJobs.JobsOf(map[0 := id], [0, 0], [id, id]) && !Distinct([id, id])
  {
    assert [id, id][0] == [id, id][1];
  }

  /** `split(-1)` yields no chunk, so nothing of a recordset is worked on. */
  lemma NegativeSplitLoses()
    ensures DelayJobs.Split([1, 2], -1) == Some([]) && DelayJobs.Flat([]) != [1, 2]
  {}

  /** A user's dict that binds `__type__` to the tag of a date comes back as a date. */
  lemma TaggedDictIsNoDict(env: Payload.Env, text: string)
    requires env.parseDate(text) == Some(text)
    ensures
      var dict := Payload.Dict([Payload.Entry(Payload.TYPE, Payload.Text(Payload.DATE)),
                                Payload.Entry("value", Payload.Text(text))]);
      Payload.Fits(env, dict) && Payload.Decode(env, Payload.Encode(dict)) == Payload.Ok(Payload.Date(text))
  {
    var tag := Payload.Entry(Payload.TYPE, Payload.Text(Payload.DATE));
    var value := Payload.Entry("value", Payload.Text(text));
    var rest, entries := [value], [tag, value];
    assert entries[1..] == rest && rest[1..] == [];
    assert Payload.EntriesFit(env, [], false) && Payload.EntriesUntagged([], false);
    assert Payload.EntriesFit(env, rest, false) && Payload.EntriesUntagged(rest, false);
    Payload.EntriesRoundTrip(env, entries);
    assert Payload.NormalEntries(env, rest) == rest;
    assert Payload.NormalEntries(env, entries) == entries;
    assert Payload.Get(rest, "value") == Some(Payload.Text(text));
  }
}
