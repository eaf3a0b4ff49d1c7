/** What a pass of the ghost reaper may and must remove. */
module ReaperSafety {
  import opened Basics
  import opened World
  import opened ReaperTrace
  import opened ReaperPass

  /** What stays true of a listed container, whatever happens to the daemon. */
  ghost predicate Known(d: Daemon, l: Local) {
    && l.id in d.used
    && (l.id in d.containers ==>
          && d.containers[l.id].name == l.name && d.containers[l.id].repo == l.repo
          && (l.running == Some(false) ==> !d.containers[l.id].running))
  }

  lemma KnownStays(a: Daemon, b: Daemon, l: Local)
    requires Known(a, l) && Evolves(a, b)
    ensures Known(b, l)
  {
  }

  /** What the listing says still holds when the inspect has answered. */
  lemma ListingIsTrue(p: Pass, es: seq<Event>, d0: Daemon, k: nat)
    requires Passed(p, es) && Trace(d0, es) && k < |p.ls|
    ensures Known(es[1].at, p.ls[k])
  {
    var ids, states := es[0].command.ids.value, es[1].command.states;
    var d := es[0].at;
    assert p.ls[k].id == ids[k];
    assert p.ls[k].name == d.containers[ids[k]].name && p.ls[k].repo == d.containers[ids[k]].repo;
    EventsEvolve(d0, es, 0, 1);
    assert ids[k] in d.used;
    TraceAt(d0, es, 1);
    if p.ls[k].running == Some(false) {
      assert states.Some? && !states.value[k];
      assert InspectTruthful(Before(d0, es, 1), es[1].at, ids, states.value);
    }
  }

  /** And at every later moment of the pass. */
  lemma KnownAt(p: Pass, es: seq<Event>, d0: Daemon, k: nat, i: nat)
    requires Passed(p, es) && Trace(d0, es) && k < |p.ls| && 2 <= i < |es|
    ensures Known(es[i].at, p.ls[k])
  {
    ListingIsTrue(p, es, d0, k);
    EventsEvolve(d0, es, 1, i);
    KnownStays(es[1].at, es[i].at, p.ls[k]);
  }

  // ----- safety -----

  /** Removal is justified at the moment it happens: the container does not run,
      or it was absent from its repo's snapshot and has reached the grace age. */
  predicate Justified(id: Id, at: Daemon, registered: Names, grace: int) {
    id in at.containers ==>
      var c := at.containers[id];
      !c.running || (Unregistered(c.repo, c.name, registered) && at.now - c.created >= grace)
  }

  predicate AgedOrGone(d: Daemon, id: Id, grace: int) {
    id in d.containers ==> d.now - d.containers[id].created >= grace
  }

  /** Ages only grow. */
  lemma OldStaysOld(a: Daemon, b: Daemon, id: Id)
    requires Consistent(a) && Evolves(a, b) && id in a.containers && id in b.containers
    ensures b.now - b.containers[id].created >= a.now - a.containers[id].created
  {
  }

  /** A container that was not listed as not running is only removed at grace age. */
  lemma RunningPathIsAged(p: Pass, es: seq<Event>, d0: Daemon, k: nat, i: nat)
    requires Passed(p, es) && Trace(d0, es) && k < |p.ls| && i == Round(p, k) + 1 < |es| && |Calls(p, k)| == 2
    ensures AgedOrGone(es[i].at, p.ls[k].id, p.grace)
  {
    var id := p.ls[k].id;
    RoundEvent(p, es, k, 0);
    assert es[i - 1].command == AgeOf(id, p.vs[k].age);
    TraceAt(d0, es, i - 1);
    EventsEvolve(d0, es, i - 1, i);
    if id in es[i].at.containers { OldStaysOld(es[i - 1].at, es[i].at, id); }
  }

  /** Reaper safety: under any interference, every `docker rm -f` is justified
      when it takes effect. */
  lemma PassIsJustified(p: Pass, es: seq<Event>, d0: Daemon, i: nat)
    requires Passed(p, es) && Trace(d0, es) && i < |es| && es[i].command.Rm?
    ensures Justified(es[i].command.id, es[i].at, p.registered, p.grace)
  {
    var k, j := EventRound(p, es, i);
    var l := p.ls[k];
    KnownAt(p, es, d0, k, i);
    if l.running != Some(false) { RunningPathIsAged(p, es, d0, k, i); }
  }

  /** GitHub was asked about this repo, answered, and did not know the name. */
  ghost predicate Unknown(repos: seq<RepoName>, replies: seq<Result<seq<string>>>, repo: RepoName, name: string)
    requires |repos| == |replies|
  {
    exists j :: 0 <= j < |repos| && repos[j] == repo && replies[j].Ok? && name !in replies[j].value
  }

  /** Reaper safety in terms of containers and answers: whatever is running when
      it is removed is unknown to GitHub; and whatever was not listed as not
      running is then at least g old, g being the grace. */
  ghost predicate RemovesOnlyGhosts(p: Pass, es: seq<Event>, repos: seq<RepoName>, replies: seq<Result<seq<string>>>,
                                    g: int)
    requires |repos| == |replies|
  {
    forall i | 0 <= i < |es| && es[i].command.Rm? && es[i].command.id in es[i].at.containers ::
      var id, now := es[i].command.id, es[i].at.now;
      var c := es[i].at.containers[id];
      && (c.running ==> Unknown(repos, replies, c.repo, c.name) && now - c.created >= g)
      && ((exists k :: 0 <= k < |p.ls| && p.ls[k].id == id && p.ls[k].running == Some(false)) || now - c.created >= g)
  }

  lemma RemovesOnlyGhostsAlways(p: Pass, es: seq<Event>, d0: Daemon, repos: seq<RepoName>,
                                replies: seq<Result<seq<string>>>)
    requires Passed(p, es) && Trace(d0, es)
    requires |repos| == |replies| && p.registered == Registered(repos, replies)
    ensures RemovesOnlyGhosts(p, es, repos, replies, p.grace)
  {
    forall i | 0 <= i < |es| && es[i].command.Rm? && es[i].command.id in es[i].at.containers
      ensures var id, now := es[i].command.id, es[i].at.now;
              var c := es[i].at.containers[id];
              && (c.running ==> Unknown(repos, replies, c.repo, c.name) && now - c.created >= p.grace)
              && ((exists k :: 0 <= k < |p.ls| && p.ls[k].id == id && p.ls[k].running == Some(false))
                  || now - c.created >= p.grace)
    {
      PassIsJustified(p, es, d0, i);
      var c := es[i].at.containers[es[i].command.id];
      if c.running { var j := RegisteredComesFromAFetch(repos, replies, c.repo); }
      var k, j := EventRound(p, es, i);
      if p.ls[k].running != Some(false) { RunningPathIsAged(p, es, d0, k, i); }
    }
  }

  // ----- what is removed -----

  predicate RmOk(c: Command) { c.Rm? && c.ok }

  /** The containers `docker rm -f` was asked to remove, and those it removed. */
  function Asked(es: seq<Event>): set<Id> {
    set i | 0 <= i < |es| && es[i].command.Rm? :: es[i].command.id
  }

  function Removed(es: seq<Event>): set<Id> {
    set i | 0 <= i < |es| && RmOk(es[i].command) :: es[i].command.id
  }

  function CountRemoved(cs: seq<Command>): nat {
    if cs == [] then 0 else CountRemoved(cs[..|cs| - 1]) + if RmOk(cs[|cs| - 1]) then 1 else 0
  }

  lemma {:induction false} CountRemovedConcat(a: seq<Command>, b: seq<Command>)
    ensures CountRemoved(a + b) == CountRemoved(a) + CountRemoved(b)
  {
    if b == [] {
      assert a + b == a;
    } else {
      var n := |b| - 1;
      CountRemovedConcat(a, b[..n]);
      assert (a + b)[..|a + b| - 1] == a + b[..n];
    }
  }

  ghost predicate RmsDiffer(es: seq<Event>) {
    forall i, j | 0 <= i < j < |es| && es[i].command.Rm? && es[j].command.Rm? :: es[i].command.id != es[j].command.id
  }

  lemma RemovedNext(es: seq<Event>, e: Event)
    ensures Removed(es + [e]) == Removed(es) + if RmOk(e.command) then {e.command.id} else {}
    ensures Commands(es + [e])[..|es|] == Commands(es)
  {
    var all := es + [e];
    forall id | id in Removed(es) ensures id in Removed(all) {
      var i :| 0 <= i < |es| && RmOk(es[i].command) && es[i].command.id == id;
      assert all[i] == es[i];
    }
    forall id | id in Removed(all) ensures id in Removed(es) + if RmOk(e.command) then {e.command.id} else {} {
      var i :| 0 <= i < |all| && RmOk(all[i].command) && all[i].command.id == id;
      if i < |es| { assert all[i] == es[i]; }
    }
    assert all[|es|] == e;
  }

  /** The last removal is of a container not removed before. */
  lemma RmsDifferBefore(es: seq<Event>)
    requires RmsDiffer(es) && es != []
    ensures var n := |es| - 1;
            RmsDiffer(es[..n]) && (RmOk(es[n].command) ==> es[n].command.id !in Removed(es[..n]))
  {
    var n := |es| - 1;
    forall i | 0 <= i < n ensures es[..n][i] == es[i] {}
  }

  lemma {:induction false} CountIsSize(es: seq<Event>)
    requires RmsDiffer(es)
    ensures CountRemoved(Commands(es)) == |Removed(es)|
  {
    if es == [] {
    } else {
      var n := |es| - 1;
      assert es == es[..n] + [es[n]];
      RmsDifferBefore(es);
      CountIsSize(es[..n]);
      RemovedNext(es[..n], es[n]);
    }
  }

  /** What a pass counts is the number of containers it removed. */
  lemma PassCounts(p: Pass, es: seq<Event>, d0: Daemon)
    requires Passed(p, es) && Trace(d0, es)
    ensures CountRemoved(Commands(es)) == |Removed(es)|
  {
    forall i, j | 0 <= i < j < |es| && es[i].command.Rm? && es[j].command.Rm?
      ensures es[i].command.id != es[j].command.id
    {
      RmOnce(p, es, d0, i, j);
    }
    CountIsSize(es);
  }

  /** The decision on one listed container, given the age Docker answered. */
  predicate ShouldReap(l: Local, registered: Names, age: Option<int>, grace: int) {
    l.running == Some(false) || (Unregistered(l.repo, l.name, registered) && age.Some? && age.value >= grace)
  }

  /** Exactness, under any interference and any failures: the pass removes the
      listed containers that meet the specification, on the answers Docker gave,
      and whose `rm` succeeded. */
  lemma RemovedExactly(p: Pass, es: seq<Event>, id: Id)
    requires Passed(p, es)
    ensures id in Removed(es) <==>
            exists k :: 0 <= k < |p.ls| && p.ls[k].id == id
                        && ShouldReap(p.ls[k], p.registered, p.vs[k].age, p.grace) && p.vs[k].rmOk
  {
    if id in Removed(es) {
      var i :| 0 <= i < |es| && RmOk(es[i].command) && es[i].command.id == id;
      var k, j := EventRound(p, es, i);
      assert p.ls[k].id == id;
    }
    if k :| 0 <= k < |p.ls| && p.ls[k].id == id
            && ShouldReap(p.ls[k], p.registered, p.vs[k].age, p.grace) && p.vs[k].rmOk {
      var j := |Calls(p, k)| - 1;
      assert Calls(p, k)[j] == Rm(id, true);
      RoundEvent(p, es, k, j);
    }
  }

  /** What has been removed stays away. */
  lemma RmOkIsGone(p: Pass, es: seq<Event>, d0: Daemon, i: nat)
    requires Passed(p, es) && Trace(d0, es) && i < |es| && RmOk(es[i].command)
    ensures es[i].command.id !in End(d0, es).containers
  {
    var k, j := EventRound(p, es, i);
    KnownAt(p, es, d0, k, i);
    TraceAt(d0, es, i);
    TraceEvolves(d0, es, i + 1, |es|);
    GoneStaysGone(es[i].after, End(d0, es), es[i].command.id);
  }

  lemma RemovedAreGone(p: Pass, es: seq<Event>, d0: Daemon)
    requires Passed(p, es) && Trace(d0, es)
    ensures Removed(es) !! End(d0, es).containers.Keys
  {
    forall id | id in Removed(es) ensures id !in End(d0, es).containers {
      var i :| 0 <= i < |es| && RmOk(es[i].command) && es[i].command.id == id;
      RmOkIsGone(p, es, d0, i);
    }
  }

  /** An id that is not there when a command runs is not there at the end. */
  lemma AbsentStaysAbsent(p: Pass, es: seq<Event>, d0: Daemon, k: nat, i: nat)
    requires Passed(p, es) && Trace(d0, es) && k < |p.ls| && 2 <= i < |es| && p.ls[k].id !in es[i].at.containers
    ensures p.ls[k].id !in End(d0, es).containers
  {
    KnownAt(p, es, d0, k, i);
    TraceEvolves(d0, es, i, i);
    TraceAt(d0, es, i);
    EventEvolves(Before(d0, es, i), es[i]);
    TraceEvolves(d0, es, i + 1, |es|);
    EvolvesTransitive(es[i].at, es[i].after, End(d0, es));
    GoneStaysGone(es[i].at, End(d0, es), p.ls[k].id);
  }

  lemma ReliableRmRemoves(p: Pass, es: seq<Event>, d0: Daemon, k: nat, i: nat)
    requires Passed(p, es) && Trace(d0, es) && AllReliable(es) && k < |p.ls| && 2 <= i < |es|
    requires es[i].command.Rm? && es[i].command.id == p.ls[k].id
    ensures p.ls[k].id !in End(d0, es).containers
  {
    if es[i].command.ok {
      RmOkIsGone(p, es, d0, i);
    } else {
      assert Reliable(es[i]);
      AbsentStaysAbsent(p, es, d0, k, i);
    }
  }

  /** Listed as not running: gone at the end, if commands only fail when they have to. */
  lemma CorpseGoes(p: Pass, es: seq<Event>, d0: Daemon, k: nat)
    requires Passed(p, es) && Trace(d0, es) && AllReliable(es) && k < |p.ls| && p.ls[k].running == Some(false)
    ensures p.ls[k].id !in End(d0, es).containers
  {
    RoundEvent(p, es, k, 0);
    ReliableRmRemoves(p, es, d0, k, Round(p, k));
  }

  /** A container that is in nobody's registrations and was old when the pass began. */
  predicate Orphan(d: Daemon, id: Id, registered: Names, grace: int) {
    && id in d.containers
    && Unregistered(d.containers[id].repo, d.containers[id].name, registered)
    && d.now - d.containers[id].created >= grace
  }

  lemma OrphanGoes(p: Pass, es: seq<Event>, d0: Daemon, k: nat)
    requires Passed(p, es) && Trace(d0, es) && AllReliable(es) && k < |p.ls|
    requires Orphan(d0, p.ls[k].id, p.registered, p.grace)
    ensures p.ls[k].id !in End(d0, es).containers
  {
    var l, i := p.ls[k], Round(p, k);
    if l.running == Some(false) {
      CorpseGoes(p, es, d0, k);
    } else {
      ListedAsItWas(p, es, d0, k);
      RoundEvent(p, es, k, 0);
      TraceAt(d0, es, i);
      if p.vs[k].age.Some? {
        TraceEvolves(d0, es, 0, i);
        EvolvesTransitive(d0, Before(d0, es, i), es[i].at);
        OldStaysOld(d0, es[i].at, l.id);
        RoundEvent(p, es, k, 1);
        ReliableRmRemoves(p, es, d0, k, i + 1);
      } else {
        assert Reliable(es[i]);
        AbsentStaysAbsent(p, es, d0, k, i);
      }
    }
  }

  /** A container there from the start is listed with the name and repo it had. */
  lemma ListedAsItWas(p: Pass, es: seq<Event>, d0: Daemon, k: nat)
    requires Passed(p, es) && Trace(d0, es) && k < |p.ls| && p.ls[k].id in d0.containers
    ensures p.ls[k].name == d0.containers[p.ls[k].id].name && p.ls[k].repo == d0.containers[p.ls[k].id].repo
  {
    TraceAt(d0, es, 0);
    assert p.ls[k].id == es[0].command.ids.value[k];
  }

  /** Whatever was there at the start and is there at the end was listed. */
  lemma SurvivorsWereListed(p: Pass, es: seq<Event>, d0: Daemon, id: Id) returns (k: nat)
    requires Passed(p, es) && Trace(d0, es) && es[0].command.ids.Some?
    requires id in d0.containers && id in End(d0, es).containers
    ensures k < |p.ls| && p.ls[k].id == id
  {
    TraceAt(d0, es, 0);
    TraceEvolves(d0, es, 1, |es|);
    TraceEvolves(d0, es, 0, 0);
    EventEvolves(d0, es[0]);
    GoneStaysGone(es[0].at, End(d0, es), id);
    var ids := es[0].command.ids.value;
    assert id in Elements(ids);
    k :| 0 <= k < |ids| && ids[k] == id;
    assert p.ls[k].id == id;
  }

  /** Completeness, under any interference: if commands fail only when they have
      to, no container that was an orphan when the pass began outlives the pass,
      and none that was listed as not running. */
  lemma ReliablePassCleansUp(p: Pass, es: seq<Event>, d0: Daemon)
    requires Passed(p, es) && Trace(d0, es) && AllReliable(es)
    ensures forall id | Orphan(d0, id, p.registered, p.grace) :: id !in End(d0, es).containers
    ensures forall k | 0 <= k < |p.ls| && p.ls[k].running == Some(false) :: p.ls[k].id !in End(d0, es).containers
  {
    forall id | Orphan(d0, id, p.registered, p.grace) ensures id !in End(d0, es).containers {
      assert Reliable(es[0]);
      if id in End(d0, es).containers {
        var k := SurvivorsWereListed(p, es, d0, id);
        OrphanGoes(p, es, d0, k);
      }
    }
    forall k | 0 <= k < |p.ls| && p.ls[k].running == Some(false) ensures p.ls[k].id !in End(d0, es).containers {
      CorpseGoes(p, es, d0, k);
    }
  }

  /** The same in terms of answers: a repo that was fetched, by every fetch that
      succeeded without this name, and a container old enough when the pass began. */
  lemma UnknownAndOldGo(p: Pass, es: seq<Event>, d0: Daemon, repos: seq<RepoName>,
                        replies: seq<Result<seq<string>>>, id: Id)
    requires Passed(p, es) && Trace(d0, es) && AllReliable(es)
    requires |repos| == |replies| && p.registered == Registered(repos, replies)
    requires id in d0.containers && d0.now - d0.containers[id].created >= p.grace
    requires exists j :: 0 <= j < |repos| && repos[j] == d0.containers[id].repo && replies[j].Ok?
    requires forall j | 0 <= j < |repos| && repos[j] == d0.containers[id].repo && replies[j].Ok? ::
               d0.containers[id].name !in replies[j].value
    ensures id !in End(d0, es).containers
  {
    var j :| 0 <= j < |repos| && repos[j] == d0.containers[id].repo && replies[j].Ok?;
    FetchedIsRegistered(repos, replies, j);
    var m := RegisteredComesFromAFetch(repos, replies, d0.containers[id].repo);
    assert Orphan(d0, id, p.registered, p.grace);
    ReliablePassCleansUp(p, es, d0);
  }
}
