/** Compiling a job graph to rows: `delay()` on Delayables, groups and chains. */
module Delay {
  import opened JobTable
  import opened Intake
  import opened JobStore
  import opened DelayGraph
  import opened DelayJobs

  class Builder {
    const nodes: seq<Node>
    const store: Store
    var generated: map<nat, nat>
    var graphUuid: map<nat, nat>
    var parentJob: map<nat, nat>
    var dependencyJobs: map<nat, seq<nat>>
    var runOnFailure: set<nat>
    var nextUuid: nat

    function State(): Jobs
      reads this, store
    {
      Jobs(generated, store.rows, store.nextId)
    }

    function Wires(): Wiring
      reads this
    {
      Wiring(graphUuid, parentJob, dependencyJobs, runOnFailure)
    }

    /** Every job and every attribute so far is there because of a link of the graph. */
    ghost predicate Valid()
      reads this, store
    {
      && WellFormed(nodes) && store.Valid() && generated.Keys <= Leaves(nodes)
      && (forall x, y | x in generated && y in generated && x != y :: generated[x] != generated[y])
      && WiringFits(nodes, generated, Wires())
      && AllJustified(nodes, State())
    }

    /** A fresh set of delayables over an existing table. */
    constructor (nodes: seq<Node>, store: Store)
      requires WellFormed(nodes) && store.Valid()
      ensures Valid() && this.nodes == nodes && this.store == store
      ensures generated == map[] && Wires() == Wiring(map[], map[], map[], {})
    {
      this.nodes, this.store := nodes, store;
      generated, graphUuid, parentJob, dependencyJobs, runOnFailure := map[], map[], map[], map[], {};
      nextUuid := 0;
    }

    ghost function Ungenerated(): set<nat>
      reads this
    {
      Leaves(nodes) - generated.Keys
    }

    ghost function Rank(n: nat, rank: seq<nat>): nat
      requires n < |nodes| == |rank|
    {
      if nodes[n].Leaf? then 0 else 1 + rank[n]
    }

    // ---- the attributes that a scheduler writes on what it schedules --------

    method Wire(k: nat, uuid: nat, parent: Option<nat>, deps: Option<seq<nat>>, onError: bool)
      requires Valid()
      requires parent.Some? ==> ParentFits(nodes, generated, k, parent.value)
      requires deps.Some? ==> MembersFit(nodes, generated, k, deps.value)
      requires onError ==> ErrorFits(nodes, k)
      requires OnlyOnError(nodes, k) && (parent.Some? || deps.Some?) ==> onError
      modifies this`graphUuid, this`parentJob, this`dependencyJobs, this`runOnFailure
      ensures Valid() && graphUuid == old(graphUuid)[k := uuid]
      ensures parentJob == if parent.Some? then old(parentJob)[k := parent.value] else old(parentJob)
      ensures dependencyJobs == if deps.Some? then old(dependencyJobs)[k := deps.value] else old(dependencyJobs)
      ensures runOnFailure == if onError then old(runOnFailure) + {k} else old(runOnFailure)
    {
      hide ParentFits, MembersFit, ErrorFits, OnlyOnError, AllJustified, WellFormed, Leaves, WiringFits;
      graphUuid := graphUuid[k := uuid];
      if parent.Some? {
        parentJob := parentJob[k := parent.value];
      }
      if deps.Some? {
        dependencyJobs := dependencyJobs[k := deps.value];
      }
      if onError {
        runOnFailure := runOnFailure + {k};
      }
      WiredFits(nodes, generated, old(Wires()), Wires(), k, parent, deps, onError);
    }

    /** What member `k` inherits from the group or chain `n`: only what it has not got itself. */
    method Inherit(n: nat, k: nat, uuid: nat, first: bool)
      requires Valid() && n < |nodes| && !nodes[n].Leaf? && k in nodes[n].members
      requires first ==> k in Heads(nodes, n)
      modifies this`graphUuid, this`parentJob, this`dependencyJobs, this`runOnFailure
      ensures Valid() && Keeps(old(Wires()), Wires()) && graphUuid == old(graphUuid)[k := uuid]
      ensures parentJob ==
        if first && n in old(parentJob) && k !in old(parentJob) then old(parentJob)[k := old(parentJob)[n]] else old(parentJob)
      ensures dependencyJobs ==
        if first && n in old(dependencyJobs) && k !in old(dependencyJobs)
        then old(dependencyJobs)[k := old(dependencyJobs)[n]] else old(dependencyJobs)
      ensures runOnFailure == if n in old(runOnFailure) then old(runOnFailure) + {k} else old(runOnFailure)
      ensures first && Attached(old(Wires()), n) ==> Attached(Wires(), k)
    {
      InheritedFits(nodes, generated, Wires(), n, k);
      MemberNotOnlyOnError(nodes, n, k);
      hide WellFormed, WiringFits, AllJustified, ParentFits, MembersFit, ErrorFits, OnlyOnError;
      Wire(k, uuid,
           if first && n in parentJob && k !in parentJob then Some(parentJob[n]) else None,
           if first && n in dependencyJobs && k !in dependencyJobs then Some(dependencyJobs[n]) else None,
           n in runOnFailure);
    }

    /** The uuid handed down to the graph, or a new one. */
    method GraphUuid(n: nat) returns (uuid: nat)
      requires Valid()
      modifies this`nextUuid
      ensures Valid() && nextUuid >= old(nextUuid)
      ensures uuid == if n in graphUuid then graphUuid[n] else old(nextUuid)
    {
      if n in graphUuid {
        return graphUuid[n];
      }
      uuid := nextUuid;
      nextUuid := nextUuid + 1;
    }
  
    /** A single job needs no graph. */
    method LeafUuid(n: nat) returns (uuid: Option<nat>)
      requires Valid() && n < |nodes|
      modifies this`nextUuid
      ensures Valid()
      ensures n in graphUuid ==> uuid == Some(graphUuid[n])
      ensures n !in graphUuid ==> uuid == if nodes[n].Links() == [] then None else Some(old(nextUuid))
    {
      hide WellFormed, WiringFits, AllJustified;
      uuid := None;
      if n in graphUuid || nodes[n].next != [] || nodes[n].errors != [] {
        var own := GraphUuid(n);
        uuid := Some(own);
      }
    }

    /** The row of one Delayable, from the attributes it carries. */
    method Generate(n: nat, uuid: Option<nat>, now: int) returns (job: nat)
      requires Valid() && n < |nodes| && nodes[n].Leaf? && n !in generated
      modifies this`generated, store
      ensures Valid() && generated == old(generated)[n := job]
      ensures Delayed(nodes, old(State()), old(Wires()), State(), Wires(), {n}, uuid, Starters(nodes, old(Wires()), n))
      ensures store.rows == old(store.rows)[job := NewRow(RequestOf(nodes[n].settings, old(Wires()), n, uuid), now)]
    {
      hide WiringFits, AllJustified, ParentFits, MembersFit, ErrorFits, OnlyOnError, Delayed, NewRow, AsRequested;
      var req := RequestOf(nodes[n].settings, Wires(), n, uuid);
      RequestFits(nodes, State(), Wires(), n, req);
      JobsInRows(nodes, State());
      NoKeyNoReuse(store.rows, req, now);
      job := store.Enqueue(req, now);
      generated := generated[n := job];
      OneMoreJustified(nodes, old(State()), State(), n, req, now);
      WiringFitsLater(nodes, old(generated), generated, Wires());
      OneDelayed(nodes, old(State()), State(), Wires(), n, req, now);
    }

    // ---- delay() ------------------------------------------------------------

    /**
     `delay()` on node `n`.  It terminates although Delayables may link back to
     each other: the ones not generated yet get fewer, or the call goes to a
     node of lower rank.
     */
    method Delay(n: nat, ghost rank: seq<nat>, now: int) returns (job: Option<nat>, uuid: Option<nat>)
      requires Valid() && n < |nodes| == |rank| && Nested(nodes, rank)
      modifies this, store
      ensures Valid()
      ensures Delayed(nodes, old(State()), old(Wires()), State(), Wires(), Fresh(nodes, old(generated.Keys), {n}),
                      uuid, Starters(nodes, old(Wires()), n))
      ensures nodes[n].Leaf? <==> n in generated
      ensures job == if n in generated then Some(generated[n]) else None
      ensures n in old(graphUuid) ==> uuid == Some(old(graphUuid)[n])
      ensures n !in old(graphUuid) && n !in old(generated) ==>
        uuid == if nodes[n].Leaf? && nodes[n].Links() == [] then None else Some(old(nextUuid))
      decreases |Ungenerated()|, Rank(n, rank), 4
    {
      hide Delayed, Fresh, Starters, WellFormed, WiringFits, AllJustified, Nested, Keeps;
      if nodes[n].Leaf? {
        if n in generated {
          uuid := if n in graphUuid then Some(graphUuid[n]) else None;
          FreshOfOld(nodes, generated.Keys, n);
          KeepsItself(Wires());
          DelayedNot(nodes, State(), Wires(), Wires(), uuid, Starters(nodes, Wires(), n));
          return Some(generated[n]), uuid;
        }
        job, uuid := DelayLeaf(n, rank, now);
      } else {
        job := None;
        var own: nat;
        if nodes[n].Group? {
          own := DelayGroup(n, rank, now);
        } else {
          own := DelayChain(n, rank, now);
        }
        uuid := Some(own);
      }
    }

    method DelayLeaf(n: nat, ghost rank: seq<nat>, now: int) returns (job: Option<nat>, uuid: Option<nat>)
      requires Valid() && n < |nodes| == |rank| && Nested(nodes, rank)
      requires nodes[n].Leaf? && n !in generated
      modifies this, store
      ensures Valid()
      ensures Delayed(nodes, old(State()), old(Wires()), State(), Wires(), Fresh(nodes, old(generated.Keys), {n}),
                      uuid, Starters(nodes, old(Wires()), n))
      ensures n in generated && job == Some(generated[n])
      ensures n in old(graphUuid) ==> uuid == Some(old(graphUuid)[n])
      ensures n !in old(graphUuid) ==> uuid == if nodes[n].Links() == [] then None else Some(old(nextUuid))
      decreases |Ungenerated()|, 0, 1
    {
      hide Valid, Rank, Delayed, Fresh, Starters, WellFormed, WiringFits, AllJustified, Nested, Keeps, MaxOf, Leaves,
           Extends, ParentFits, Ids;
      ghost var start, wires := State(), Wires();
      uuid := LeafUuid(n);
      var id := Generate(n, uuid, now);
      job := Some(id);
      ghost var one, wires1 := State(), Wires();
      FewerStill(nodes, start, wires, one, wires1, n, uuid);
      if uuid.None? {
        LinklessDelayed(nodes, start, wires, one, wires1, n, Starters(nodes, wires, n));
        return;
      }
      DelayBoth(n, uuid.value, id, rank, now);
      DelayedKeys(nodes, one, wires1, State(), Wires(), Fresh(nodes, one.generated.Keys, Ids(nodes[n].Links())), uuid, {});
      ExtendsAt(one.generated, generated, n);
      LeafDelayed(nodes, start, wires, one, wires1, State(), Wires(), n, uuid, Starters(nodes, wires, n));
    }

    /** The links of a Delayable that has just got its job. */
    method DelayBoth(n: nat, uuid: nat, job: nat, ghost rank: seq<nat>, now: int)
      requires Valid() && n < |nodes| == |rank| && Nested(nodes, rank)
      requires nodes[n].Leaf? && n in generated && generated[n] == job
      modifies this, store
      ensures Valid()
      ensures Delayed(nodes, old(State()), old(Wires()), State(), Wires(),
                      Fresh(nodes, old(generated.Keys), Ids(nodes[n].Links())), Some(uuid), {})
      decreases |Ungenerated()|, MaxOf(rank) + 2, 2
    {
      hide Valid, Rank, Delayed, Fresh, Starters, WellFormed, WiringFits, AllJustified, Nested, Keeps, MaxOf, Leaves, Extends, ParentFits;
      ghost var level := MaxOf(rank) + 2;
      ghost var one, wires1 := State(), Wires();
      LinksOfLeaf(n, rank);
      LeafFeeds(nodes, generated, n);
      DelayLinks(n, false, uuid, Some(job), None, rank, level, now);
      ghost var two, wires2 := State(), Wires();
      DelayedKeys(nodes, one, wires1, two, wires2, Fresh(nodes, one.generated.Keys, Ids(nodes[n].next)), Some(uuid), {});
      ExtendsAt(one.generated, two.generated, n);
      LeafFeeds(nodes, generated, n);
      DelayLinks(n, true, uuid, Some(job), None, rank, level, now);
      DelayedBatches(nodes, one, wires1, two, wires2, State(), Wires(), nodes[n].next, nodes[n].errors, Some(uuid), {});
    }

    method DelayGroup(n: nat, ghost rank: seq<nat>, now: int) returns (uuid: nat)
      requires Valid() && n < |nodes| == |rank| && Nested(nodes, rank)
      requires nodes[n].Group?
      modifies this, store
      ensures Valid()
      ensures Delayed(nodes, old(State()), old(Wires()), State(), Wires(), Fresh(nodes, old(generated.Keys), {n}),
                      Some(uuid), Starters(nodes, old(Wires()), n))
      ensures uuid == if n in old(graphUuid) then old(graphUuid)[n] else old(nextUuid)
      decreases |Ungenerated()|, Rank(n, rank), 3
    {
      hide Valid, Delayed, Fresh, Starters, WellFormed, WiringFits, AllJustified, Nested, Keeps, Leaves, Extends, MembersFit, JobsOf;
      ghost var start, wires := State(), Wires();
      MembersAreLeaves(n);
      LinksOfGroup(n, rank);
      uuid := GraphUuid(n);
      var memberJobs := GroupMembers(n, uuid, rank, now);
      ghost var one, wires1 := State(), Wires();
      DelayedKeys(nodes, start, wires, one, wires1, Fresh(nodes, start.generated.Keys, Ids(nodes[n].members)),
                  Some(uuid), Starters(nodes, wires, n));
      DelayLinks(n, false, uuid, None, Some(memberJobs), rank, Rank(n, rank), now);
      ghost var two, wires2 := State(), Wires();
      DelayedKeys(nodes, one, wires1, two, wires2, Fresh(nodes, one.generated.Keys, Ids(nodes[n].next)), Some(uuid), {});
      JobsOfLater(one.generated, generated, nodes[n].members, memberJobs);
      DelayLinks(n, true, uuid, None, Some(memberJobs), rank, Rank(n, rank), now);
      GroupDelayed(nodes, start, wires, one, wires1, two, wires2, State(), Wires(), n, Some(uuid), Starters(nodes, wires, n));
    }

    method DelayChain(n: nat, ghost rank: seq<nat>, now: int) returns (uuid: nat)
      requires Valid() && n < |nodes| == |rank| && Nested(nodes, rank)
      requires nodes[n].Chain?
      modifies this, store
      ensures Valid()
      ensures Delayed(nodes, old(State()), old(Wires()), State(), Wires(), Fresh(nodes, old(generated.Keys), {n}),
                      Some(uuid), Starters(nodes, old(Wires()), n))
      ensures uuid == if n in old(graphUuid) then old(graphUuid)[n] else old(nextUuid)
      decreases |Ungenerated()|, Rank(n, rank), 3
    {
      hide Valid, Delayed, Fresh, Starters, WellFormed, WiringFits, AllJustified, Nested, Keeps, Leaves, Extends;
      ghost var start, wires := State(), Wires();
      MembersAreLeaves(n);
      LinksOfGroup(n, rank);
      uuid := GraphUuid(n);
      var previous := ChainMembers(n, uuid, rank, now);
      ghost var one, wires1 := State(), Wires();
      DelayedKeys(nodes, start, wires, one, wires1, Fresh(nodes, start.generated.Keys, Ids(nodes[n].members)),
                  Some(uuid), Starters(nodes, wires, n));
      DelayLinks(n, false, uuid, previous, None, rank, Rank(n, rank), now);
      ghost var two, wires2 := State(), Wires();
      DelayedKeys(nodes, one, wires1, two, wires2, Fresh(nodes, one.generated.Keys, Ids(nodes[n].next)), Some(uuid), {});
      if previous.Some? { ExtendsAt(one.generated, generated, nodes[n].members[|nodes[n].members| - 1]); }
      DelayLinks(n, true, uuid, previous, None, rank, Rank(n, rank), now);
      GroupDelayed(nodes, start, wires, one, wires1, two, wires2, State(), Wires(), n, Some(uuid), Starters(nodes, wires, n));
    }

    /** Member `i` of a group or chain: wired by what holds it or by the member before it, then delayed. */
    method DelayMember(n: nat, i: nat, uuid: nat, previous: Option<nat>, ghost rank: seq<nat>, now: int)
      returns (job: nat, ghost wired: Wiring)
      requires Valid() && n < |nodes| == |rank| && Nested(nodes, rank)
      requires !nodes[n].Leaf? && i < |nodes[n].members|
      requires previous.Some? ==>
        nodes[n].Chain? && i > 0 && nodes[n].members[i - 1] in generated && generated[nodes[n].members[i - 1]] == previous.value
      modifies this, store
      ensures Valid() && Keeps(old(Wires()), wired)
      ensures nodes[n].Group? || i == 0 ==> Attached(old(Wires()), n) ==> Attached(wired, nodes[n].members[i])
      ensures previous.Some? ==> nodes[n].members[i] in wired.parentJob
      ensures nodes[n].members[i] < |nodes| && nodes[nodes[n].members[i]].Leaf?
      ensures Delayed(nodes, old(State()), wired, State(), Wires(), Fresh(nodes, old(generated.Keys), {nodes[n].members[i]}),
                      Some(uuid), Starters(nodes, wired, nodes[n].members[i]))
      ensures nodes[n].members[i] in generated && job == generated[nodes[n].members[i]]
      decreases |Ungenerated()|, Rank(n, rank), 0
    {
      hide Valid, Delayed, Fresh, WellFormed, WiringFits, AllJustified, Nested, Keeps, Leaves, Extends, Heads, Attached, ParentFits,
           Starters;
      var k := nodes[n].members[i];
      MembersAreLeaves(n);
      MemberRank(n, rank);
      HeadOf(nodes, n, i);
      Inherit(n, k, uuid, nodes[n].Group? || i == 0);
      if previous.Some? {
        NextInChain(nodes, generated, n, i);
        MemberNotOnlyOnError(nodes, n, k);
        ghost var inherited := Wires();
        Wire(k, uuid, previous, None, false);
        ParentAttaches(old(Wires()), inherited, Wires(), k);
      }
      wired := Wires();
      var own, same := Delay(k, rank, now);
      job := own.value;
    }

    /** Every member of a group inherits its wiring, and is delayed. */
    method GroupMembers(n: nat, uuid: nat, ghost rank: seq<nat>, now: int) returns (memberJobs: seq<nat>)
      requires Valid() && n < |nodes| == |rank| && Nested(nodes, rank)
      requires nodes[n].Group?
      modifies this, store
      ensures Valid()
      ensures Delayed(nodes, old(State()), old(Wires()), State(), Wires(),
                      Fresh(nodes, old(generated.Keys), Ids(nodes[n].members)), Some(uuid), Starters(nodes, old(Wires()), n))
      ensures JobsOf(generated, nodes[n].members, memberJobs)
      decreases |Ungenerated()|, Rank(n, rank), 2
    {
      hide Valid, Delayed, Fresh, WellFormed, WiringFits, AllJustified, Nested, Keeps, Leaves, Extends, JobsSoFar, Attached, Starters,
           Ids, Heads, Rank;
      ghost var start, wires, starters := State(), Wires(), Starters(nodes, Wires(), n);
      KeepsItself(wires);
      NothingDelayed(nodes, start, wires, wires, nodes[n].members, Some(uuid), starters);
      var members := nodes[n].members;
      memberJobs := [];
      assert JobsSoFar(generated, members, memberJobs) by { NoJobsYet(generated, members); }
      for i := 0 to |members|
        invariant Valid()
        invariant Delayed(nodes, start, wires, State(), Wires(), Fresh(nodes, start.generated.Keys, Ids(members[..i])),
                          Some(uuid), starters)
        invariant |memberJobs| == i && JobsSoFar(generated, members, memberJobs)
      {
        DelayedKeys(nodes, start, wires, State(), Wires(), Fresh(nodes, start.generated.Keys, Ids(members[..i])),
                    Some(uuid), starters);
        var job := GroupMember(n, i, uuid, start, wires, memberJobs, rank, now);
        memberJobs := memberJobs + [job];
      }
      WholeBatch(members);
    }

    method GroupMember(n: nat, i: nat, uuid: nat, ghost start: Jobs, ghost wires: Wiring, ghost jobs: seq<nat>,
                       ghost rank: seq<nat>, now: int)
      returns (job: nat)
      requires Valid() && n < |nodes| == |rank| && Nested(nodes, rank)
      requires nodes[n].Group? && i == |jobs| < |nodes[n].members|
      requires Delayed(nodes, start, wires, State(), Wires(), Fresh(nodes, start.generated.Keys, Ids(nodes[n].members[..i])),
                       Some(uuid), Starters(nodes, wires, n))
      requires JobsSoFar(generated, nodes[n].members, jobs)
      modifies this, store
      ensures Valid()
      ensures Delayed(nodes, start, wires, State(), Wires(), Fresh(nodes, start.generated.Keys, Ids(nodes[n].members[..i + 1])),
                      Some(uuid), Starters(nodes, wires, n))
      ensures JobsSoFar(generated, nodes[n].members, jobs + [job])
      decreases |Ungenerated()|, Rank(n, rank), 1
    {
      hide Valid, Delayed, Fresh, WellFormed, WiringFits, AllJustified, Nested, Keeps, Leaves, JobsSoFar, Attached, Starters,
           Ids, Heads, Rank;
      ghost var wired: Wiring;
      job, wired := DelayMember(n, i, uuid, None, rank, now);
      GroupStep(nodes, start, wires, old(State()), old(Wires()), wired, State(), Wires(), n, i, Some(uuid), jobs);
    }

    /** Each member of a chain gets the one before it as its parent; the first inherits the chain's wiring. */
    method ChainMembers(n: nat, uuid: nat, ghost rank: seq<nat>, now: int) returns (previous: Option<nat>)
      requires Valid() && n < |nodes| == |rank| && Nested(nodes, rank)
      requires nodes[n].Chain?
      modifies this, store
      ensures Valid()
      ensures Delayed(nodes, old(State()), old(Wires()), State(), Wires(),
                      Fresh(nodes, old(generated.Keys), Ids(nodes[n].members)), Some(uuid), Starters(nodes, old(Wires()), n))
      ensures previous.None? <==> nodes[n].members == []
      ensures
        var members := nodes[n].members;
        previous.Some? ==> members[|members| - 1] in generated && generated[members[|members| - 1]] == previous.value
      decreases |Ungenerated()|, Rank(n, rank), 2
    {
      hide Valid, Delayed, Fresh, WellFormed, WiringFits, AllJustified, Nested, Keeps, Leaves, Extends, Attached, Starters, ParentFits;
      ghost var start, wires, starters := State(), Wires(), Starters(nodes, Wires(), n);
      KeepsItself(wires);
      NothingDelayed(nodes, start, wires, wires, nodes[n].members, Some(uuid), starters);
      var members := nodes[n].members;
      previous := None;
      for i := 0 to |members|
        invariant Valid()
        invariant Delayed(nodes, start, wires, State(), Wires(), Fresh(nodes, start.generated.Keys, Ids(members[..i])),
                          Some(uuid), starters)
        invariant previous.None? <==> i == 0
        invariant i > 0 ==> members[i - 1] in generated && Some(generated[members[i - 1]]) == previous
      {
        ghost var before, wires1 := State(), Wires();
        DelayedKeys(nodes, start, wires, before, wires1, Fresh(nodes, start.generated.Keys, Ids(members[..i])),
                    Some(uuid), starters);
        var job, wired := DelayMember(n, i, uuid, previous, rank, now);
        ChainStep(nodes, start, wires, before, wires1, wired, State(), Wires(), n, i, Some(uuid));
        previous := Some(job);
      }
      WholeBatch(members);
    }

    /** The links of node `n`, which is being delayed, wired to a parent or to its members. */
    method DelayLinks(n: nat, onError: bool, uuid: nat, parent: Option<nat>, deps: Option<seq<nat>>,
                      ghost rank: seq<nat>, ghost level: nat, now: int)
      requires Valid() && n < |nodes| == |rank| && Nested(nodes, rank)
      requires forall k | k in nodes[n].Links() :: k < |nodes| && Rank(k, rank) < level
      requires Feeds(nodes, generated, n, parent, deps)
      modifies this, store
      ensures Valid()
      ensures
        var links := if onError then nodes[n].errors else nodes[n].next;
        Delayed(nodes, old(State()), old(Wires()), State(), Wires(), Fresh(nodes, old(generated.Keys), Ids(links)),
                Some(uuid), {})
      decreases |Ungenerated()|, level, 1
    {
      hide Valid, Delayed, Fresh, WellFormed, WiringFits, AllJustified, Nested, Keeps, Leaves, Extends, Heads, Attached, ParentFits,
           MembersFit, ErrorFits, OnlyOnError, Feeds, Rank, Starters;
      var links := if onError then nodes[n].errors else nodes[n].next;
      ghost var start, wires := State(), Wires();
      KeepsItself(wires);
      NothingDelayed(nodes, start, wires, wires, links, Some(uuid), {});
      for i := 0 to |links|
        invariant Valid()
        invariant Delayed(nodes, start, wires, State(), Wires(), Fresh(nodes, start.generated.Keys, Ids(links[..i])),
                          Some(uuid), {})
      {
        ghost var before, wires1 := State(), Wires();
        DelayedKeys(nodes, start, wires, before, wires1, Fresh(nodes, start.generated.Keys, Ids(links[..i])), Some(uuid), {});
        FeedsLater(nodes, start.generated, generated, n, parent, deps);
        LinkIn(nodes, n, onError, i);
        ghost var wired := DelayLink(n, links[i], onError, uuid, parent, deps, rank, level, now);
        DelayedOneMore(nodes, start, wires, before, wires1, wired, State(), Wires(), links, i, Some(uuid), {},
                       Starters(nodes, wired, links[i]));
      }
      WholeBatch(links);
    }

    method DelayLink(n: nat, k: nat, onError: bool, uuid: nat, parent: Option<nat>, deps: Option<seq<nat>>,
                     ghost rank: seq<nat>, ghost level: nat, now: int)
      returns (ghost wired: Wiring)
      requires Valid() && n < |nodes| == |rank| && Nested(nodes, rank)
      requires k in (if onError then nodes[n].errors else nodes[n].next) && k < |nodes| && Rank(k, rank) < level
      requires Feeds(nodes, generated, n, parent, deps)
      modifies this, store
      ensures Valid() && Keeps(old(Wires()), wired) && Covered(nodes, Starters(nodes, wired, k), {})
      ensures Delayed(nodes, old(State()), wired, State(), Wires(), Fresh(nodes, old(generated.Keys), {k}),
                      Some(uuid), Starters(nodes, wired, k))
      decreases |Ungenerated()|, level, 0
    {
      hide Valid, Delayed, Fresh, WellFormed, WiringFits, AllJustified, Nested, Keeps, Leaves, Heads, Attached, ParentFits,
           MembersFit, ErrorFits, OnlyOnError, Feeds, Rank, Starters, Covered;
      LinkFits(nodes, generated, n, k, onError, parent, deps);
      Wire(k, uuid, parent, deps, onError);
      wired := Wires();
      LinkAttaches(nodes, generated, old(Wires()), wired, n, k, parent, deps);
      var job, same := Delay(k, rank, now);
    }

    // ---- bookkeeping --------------------------------------------------------

    lemma MembersAreLeaves(n: nat)
      requires Valid() && n < |nodes| && !nodes[n].Leaf?
      ensures n !in generated
      ensures forall k | k in nodes[n].members :: k < |nodes| && nodes[k].Leaf?
    {}

    lemma MemberRank(n: nat, rank: seq<nat>)
      requires n < |nodes| == |rank| && !nodes[n].Leaf?
      ensures forall k | 0 <= k < |nodes| && nodes[k].Leaf? :: Rank(k, rank) < Rank(n, rank)
    {}

    lemma LinksOfLeaf(n: nat, rank: seq<nat>)
      requires Valid() && n < |nodes| == |rank|
      ensures forall k | k in nodes[n].Links() :: k < |nodes| && Rank(k, rank) < MaxOf(rank) + 2
    {
      forall k | k in nodes[n].Links() ensures k < |nodes| && Rank(k, rank) < MaxOf(rank) + 2 {
        assert k in nodes[n].Out();
        assert rank[k] in rank;
      }
    }

    lemma LinksOfGroup(n: nat, rank: seq<nat>)
      requires Valid() && n < |nodes| == |rank| && Nested(nodes, rank) && !nodes[n].Leaf?
      ensures forall k | k in nodes[n].Links() :: k < |nodes| && Rank(k, rank) < Rank(n, rank)
    {
      forall k | k in nodes[n].Links() ensures k < |nodes| && Rank(k, rank) < Rank(n, rank) {
        assert k in nodes[n].Out();
      }
    }
  }
}
