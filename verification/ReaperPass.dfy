/** One pass of the ghost reaper, as a specification: which commands it issues on
    which answers, and what follows for the containers, whatever else goes on
    and whatever fails. */
module ReaperPass {
  import opened Basics
  import opened World
  import opened ReaperTrace

  /** A listed container; the state stays unknown when it could not be resolved. */
  datatype Local = Local(id: Id, name: string, repo: RepoName, running: Option<bool>)

  type Names = map<RepoName, set<string>>

  const DEFAULT_GRACE: int := 300_000_000_000
  const LEAST_GRACE: int := 30_000_000_000

  /** The registered names per configured repo: the last fetch that succeeded
      for a name wins; a name whose fetches all failed is absent. */
  function Registered(repos: seq<RepoName>, replies: seq<Result<seq<string>>>): Names
    requires |repos| == |replies|
  {
    if repos == [] then map[]
    else
      var n := |repos| - 1;
      var before := Registered(repos[..n], replies[..n]);
      if replies[n].Ok? then before[repos[n] := Elements(replies[n].value)] else before
  }

  lemma {:induction false} RegisteredComesFromAFetch(repos: seq<RepoName>, replies: seq<Result<seq<string>>>,
                                                     repo: RepoName)
      returns (i: nat)
    requires |repos| == |replies| && repo in Registered(repos, replies)
    ensures i < |repos| && repos[i] == repo && replies[i].Ok?
    ensures Registered(repos, replies)[repo] == Elements(replies[i].value)
  {
    var n := |repos| - 1;
    if replies[n].Ok? && repos[n] == repo {
      i := n;
    } else {
      i := RegisteredComesFromAFetch(repos[..n], replies[..n], repo);
    }
  }

  /** And a repo with a fetch that succeeded has an entry. */
  lemma {:induction false} FetchedIsRegistered(repos: seq<RepoName>, replies: seq<Result<seq<string>>>, i: nat)
    requires |repos| == |replies| && i < |repos| && replies[i].Ok?
    ensures repos[i] in Registered(repos, replies)
  {
    var n := |repos| - 1;
    if i == n {
    } else {
      FetchedIsRegistered(repos[..n], replies[..n], i);
    }
  }

  /** A container is only condemned on a snapshot that was really fetched for
      its own repo: the name is missing from it. */
  predicate Unregistered(repo: RepoName, name: string, registered: Names) {
    repo in registered && name !in registered[repo]
  }

  /** What Docker answered about one listed container, as far as it was asked. */
  datatype Verdict = Verdict(age: Option<int>, rmOk: bool)

  datatype Pass = Pass(ls: seq<Local>, registered: Names, grace: int, vs: seq<Verdict>)

  /** The commands one listed container gives rise to. */
  function CallsFor(l: Local, registered: Names, grace: int, v: Verdict): seq<Command> {
    if l.running == Some(false) then [Rm(l.id, v.rmOk)]
    else if !Unregistered(l.repo, l.name, registered) then []
    else if v.age.Some? && v.age.value >= grace then [AgeOf(l.id, v.age), Rm(l.id, v.rmOk)]
    else [AgeOf(l.id, v.age)]
  }

  function Calls(p: Pass, k: nat): seq<Command>
    requires k < |p.ls| && k < |p.vs|
  {
    CallsFor(p.ls[k], p.registered, p.grace, p.vs[k])
  }

  /** The commands of the first n containers. */
  function CallsUpTo(p: Pass, n: nat): seq<Command>
    requires n <= |p.ls| && n <= |p.vs|
  {
    if n == 0 then [] else CallsUpTo(p, n - 1) + Calls(p, n - 1)
  }

  /** Later verdicts do not touch earlier commands. */
  lemma {:induction false} CallsOfPrefix(p: Pass, v: Verdict, n: nat)
    requires n <= |p.ls| && n <= |p.vs|
    ensures CallsUpTo(p.(vs := p.vs + [v]), n) == CallsUpTo(p, n)
  {
    if n == 0 {
    } else {
      CallsOfPrefix(p, v, n - 1);
    }
  }

  /** The lines of `ps -a`, states still unknown. */
  function Listed(d: Daemon, ids: seq<Id>): seq<Local>
    requires forall i | 0 <= i < |ids| :: ids[i] in d.containers
  {
    seq(|ids|, i requires 0 <= i < |ids| => Local(ids[i], d.containers[ids[i]].name, d.containers[ids[i]].repo, None))
  }

  /** States are filled in when there is one for every line. */
  function Resolved(ls: seq<Local>, states: Option<seq<bool>>): (r: seq<Local>)
    ensures |r| == |ls|
  {
    if states.Some? && |states.value| == |ls|
    then seq(|ls|, i requires 0 <= i < |ls| => ls[i].(running := Some(states.value[i])))
    else ls
  }

  /** How many commands the listing takes: `ps`, then one inspect for all ids, if any. */
  function ListingLength(es: seq<Event>): nat
    requires es != [] && es[0].command.Ps?
  {
    if es[0].command.ids.None? || es[0].command.ids.value == [] then 1 else 2
  }

  /** The commands begin with the listing of ls. */
  ghost predicate Begins(es: seq<Event>, ls: seq<Local>) {
    && es != [] && es[0].command.Ps? && ListingLength(es) <= |es|
    && if ListingLength(es) == 1 then ls == []
       else
         var ids := es[0].command.ids.value;
         && es[1].command.Inspect? && es[1].command.listed == ids
         && (forall i | 0 <= i < |ids| :: ids[i] in es[0].at.containers)
         && ls == Resolved(Listed(es[0].at, ids), es[1].command.states)
  }

  /** The whole pass: the listing, then container by container. */
  ghost predicate Passed(p: Pass, es: seq<Event>) {
    && |p.ls| == |p.vs| && Begins(es, p.ls)
    && Commands(es[ListingLength(es)..]) == CallsUpTo(p, |p.ls|)
  }

  // ----- finding one's way in a pass -----

  /** Where the commands of container k begin. */
  function Round(p: Pass, k: nat): nat
    requires k <= |p.ls| == |p.vs|
  {
    2 + |CallsUpTo(p, k)|
  }

  lemma {:induction false} RoundWithin(p: Pass, k: nat, n: nat)
    requires k < n <= |p.ls| == |p.vs|
    ensures Round(p, k) + |Calls(p, k)| <= Round(p, n)
    ensures forall j | 0 <= j < |Calls(p, k)| :: CallsUpTo(p, n)[Round(p, k) - 2 + j] == Calls(p, k)[j]
  {
    if k < n - 1 {
      RoundWithin(p, k, n - 1);
    }
  }

  lemma {:induction false} RoundOf(p: Pass, n: nat, i: nat) returns (k: nat, j: nat)
    requires n <= |p.ls| == |p.vs| && i < |CallsUpTo(p, n)|
    ensures k < n && j < |Calls(p, k)| && i == Round(p, k) - 2 + j && CallsUpTo(p, n)[i] == Calls(p, k)[j]
  {
    if i < |CallsUpTo(p, n - 1)| {
      k, j := RoundOf(p, n - 1, i);
    } else {
      k, j := n - 1, i - |CallsUpTo(p, n - 1)|;
    }
  }

  /** Container k's commands are in the pass. */
  lemma RoundEvent(p: Pass, es: seq<Event>, k: nat, j: nat)
    requires Passed(p, es) && k < |p.ls| && j < |Calls(p, k)|
    ensures Round(p, k) + j < |es| && es[Round(p, k) + j].command == Calls(p, k)[j]
  {
    RoundWithin(p, k, |p.ls|);
    var i := Round(p, k) - 2 + j;
    assert Commands(es[2..])[i] == es[2..][i].command == es[i + 2].command;
  }

  /** Every command after the listing belongs to a container. */
  lemma EventRound(p: Pass, es: seq<Event>, i: nat) returns (k: nat, j: nat)
    requires Passed(p, es) && i < |es| && (es[i].command.Rm? || es[i].command.AgeOf?)
    ensures 2 <= i && k < |p.ls| && j < |Calls(p, k)| && i == Round(p, k) + j && es[i].command == Calls(p, k)[j]
  {
    assert |Commands(es[1..])| == |es| - 1;
    assert Commands(es[2..])[i - 2] == es[2..][i - 2].command == es[i].command;
    k, j := RoundOf(p, |p.ls|, i - 2);
  }

  ghost predicate DistinctIds(ls: seq<Local>) {
    forall i, j | 0 <= i < j < |ls| :: ls[i].id != ls[j].id
  }

  lemma ListingIsDistinct(p: Pass, es: seq<Event>, d0: Daemon)
    requires Passed(p, es) && Trace(d0, es)
    ensures DistinctIds(p.ls)
  {
    TraceAt(d0, es, 0);
    if p.ls != [] {
      var ids := es[0].command.ids.value;
      forall i, j | 0 <= i < j < |p.ls| ensures p.ls[i].id != p.ls[j].id {
        assert p.ls[i].id == ids[i] && p.ls[j].id == ids[j];
      }
    }
  }

  /** No container is asked to be removed twice, and the request comes last. */
  lemma RmOnce(p: Pass, es: seq<Event>, d0: Daemon, i: nat, j: nat)
    requires Passed(p, es) && Trace(d0, es) && i < j < |es|
    requires es[i].command.Rm? && (es[j].command.Rm? || es[j].command.AgeOf?)
    ensures es[i].command.id != es[j].command.id
  {
    ListingIsDistinct(p, es, d0);
    var k, a := EventRound(p, es, i);
    var m, b := EventRound(p, es, j);
  }
}
