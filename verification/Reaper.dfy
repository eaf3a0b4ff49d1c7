/** The ghost reaper as the program runs it: list the managed containers, resolve
    their states, fetch the registered runner names per repo, look ages up, and
    remove what can never work again. */
module Reaper {
  import opened Basics
  import opened World
  import opened ReaperTrace
  import opened ReaperPass
  import opened ReaperSafety
  import opened ReaperCalm

  /** The daemon as the reaper's commands meet it. */
  class Docker {
    var daemon: Daemon
    /** Every command run so far. */
    ghost var log: seq<Event>

    constructor (daemon: Daemon)
      ensures this.daemon == daemon && log == []
    {
      this.daemon, log := daemon, [];
    }

    /** These commands ran, one after another. */
    twostate predicate Did(es: seq<Event>)
      reads this
    {
      log == old(log) + es && Trace(old(daemon), es) && daemon == End(old(daemon), es)
    }

    /** Anything the spawner, the containers or an operator may do meanwhile. */
    method Advance()
      requires Consistent(daemon)
      modifies `daemon
      ensures Evolves(old(daemon), daemon)
    {
      var next: Daemon := *;
      if Evolves(daemon, next) { daemon := next; }
    }

    /** `docker ps -a`. */
    method Ps() returns (ids: Option<seq<Id>>, ghost e: Event)
      requires Consistent(daemon)
      modifies this
      ensures e.command == Command.Ps(ids) && Did([e])
    {
      Advance();
      var fails: bool := *;
      if fails {
        ids := None;
      } else {
        var all := InSomeOrder(daemon.containers.Keys);
        ids := Some(all);
      }
      e := Event(daemon, Command.Ps(ids), daemon);
      log := log + [e];
      OneEvent(old(daemon), e);
    }

    /** `docker inspect` of all ids: one state per id, each read at its own moment;
        no answer when an id has vanished or the command fails. */
    method Inspect(ids: seq<Id>) returns (states: Option<seq<bool>>, ghost e: Event)
      requires Consistent(daemon)
      modifies this
      ensures e.command == Command.Inspect(ids, states) && Did([e])
    {
      StandingStill(daemon);
      var got: seq<bool> := [];
      var ok := true;
      for i := 0 to |ids|
        invariant log == old(log) && Evolves(old(daemon), daemon)
        invariant ok ==> |got| == i && InspectTruthful(old(daemon), daemon, ids[..i], got)
        invariant ok ==> forall k | 0 <= k < i :: ids[k] in daemon.used
      {
        if ok {
          ghost var was := daemon;
          Advance();
          EvolvesTransitive(old(daemon), was, daemon);
          var fails: bool := *;
          if ids[i] !in daemon.containers || fails {
            ok := false;
          } else {
            got := got + [daemon.containers[ids[i]].running];
          }
        }
      }
      assert ids[..|ids|] == ids;
      states := if ok then Some(got) else None;
      e := Event(daemon, Command.Inspect(ids, states), daemon);
      log := log + [e];
      OneEvent(old(daemon), e);
    }

    /** The age of a container by its creation time, or nothing if it cannot be had. */
    method AgeOf(id: Id) returns (age: Option<int>, ghost e: Event)
      requires Consistent(daemon)
      modifies this
      ensures e.command == Command.AgeOf(id, age) && Did([e])
    {
      Advance();
      var fails: bool := *;
      age := if id !in daemon.containers || fails then None else Some(daemon.now - daemon.containers[id].created);
      e := Event(daemon, Command.AgeOf(id, age), daemon);
      log := log + [e];
      OneEvent(old(daemon), e);
    }

    /** `docker rm -f`. An error does not tell whether the container is gone. */
    method Rm(id: Id) returns (ok: bool, ghost e: Event)
      requires Consistent(daemon)
      modifies this
      ensures e.command == Command.Rm(id, ok) && Did([e])
    {
      Advance();
      ghost var at := daemon;
      ok := *;
      var gone: bool := *;
      if ok || gone { daemon := Discard(daemon, id); }
      e := Event(at, Command.Rm(id, ok), daemon);
      log := log + [e];
      OneEvent(old(daemon), e);
    }
  }

  lemma OneEvent(d0: Daemon, e: Event)
    requires Consistent(d0) && Happened(d0, e)
    ensures Trace(d0, [e]) && End(d0, [e]) == e.after && Consistent(e.after)
  {
    assert [e][..0] == [];
    assert Trace(d0, []);
    EventEvolves(d0, e);
  }

  /** Commands done one after the other. */
  lemma DidBoth(d0: Daemon, a: seq<Event>, b: seq<Event>)
    requires Trace(d0, a) && Trace(End(d0, a), b)
    ensures Trace(d0, a + b) && End(d0, a + b) == End(End(d0, a), b) && Consistent(End(d0, a + b))
    ensures Commands(a + b) == Commands(a) + Commands(b)
    ensures CountRemoved(Commands(a + b)) == CountRemoved(Commands(a)) + CountRemoved(Commands(b))
  {
    TraceConcat(d0, a, b);
    EndOfConcat(d0, a, b);
    EndConsistent(d0, a + b);
    CountRemovedConcat(Commands(a), Commands(b));
  }

  /** The rounds on the first |p.vs| containers. */
  ghost predicate Rounds(d0: Daemon, d: Daemon, p: Pass, es: seq<Event>, reaped: nat) {
    && Trace(d0, es) && d == End(d0, es) && Consistent(d)
    && |p.vs| <= |p.ls| && Commands(es) == CallsUpTo(p, |p.vs|) && reaped == CountRemoved(Commands(es))
  }

  lemma NoRounds(d0: Daemon, p: Pass)
    requires Consistent(d0) && p.vs == []
    ensures Rounds(d0, d0, p, [], 0)
  {
  }

  lemma CallsNext(p: Pass, v: Verdict)
    requires |p.vs| < |p.ls|
    ensures CallsUpTo(p.(vs := p.vs + [v]), |p.vs| + 1)
         == CallsUpTo(p, |p.vs|) + CallsFor(p.ls[|p.vs|], p.registered, p.grace, v)
  {
    CallsOfPrefix(p, v, |p.vs|);
  }

  lemma OneRoundMore(d0: Daemon, d: Daemon, p: Pass, es: seq<Event>, reaped: nat,
                     d': Daemon, v: Verdict, round: seq<Event>, hit: bool)
    requires Rounds(d0, d, p, es, reaped) && |p.vs| < |p.ls|
    requires Trace(d, round) && d' == End(d, round)
    requires Commands(round) == CallsFor(p.ls[|p.vs|], p.registered, p.grace, v)
    requires CountRemoved(Commands(round)) == if hit then 1 else 0
    ensures Rounds(d0, d', p.(vs := p.vs + [v]), es + round, if hit then reaped + 1 else reaped)
  {
    DidBoth(d0, es, round);
    CallsNext(p, v);
  }

  method BuildRegistered(repos: seq<RepoName>, replies: seq<Result<seq<string>>>) returns (registered: Names)
    requires |repos| == |replies|
    ensures registered == Registered(repos, replies)
  {
    registered := map[];
    for i := 0 to |repos|
      invariant registered == Registered(repos[..i], replies[..i])
    {
      assert repos[..i + 1][..i] == repos[..i] && replies[..i + 1][..i] == replies[..i];
      if replies[i].Err? { continue; }
      var names: set<string> := {};
      for k := 0 to |replies[i].value|
        invariant names == Elements(replies[i].value[..k])
      {
        assert replies[i].value[..k + 1] == replies[i].value[..k] + [replies[i].value[k]];
        names := names + {replies[i].value[k]};
      }
      assert replies[i].value[..|replies[i].value|] == replies[i].value;
      registered := registered[repos[i] := names];
    }
    assert repos[..|repos|] == repos && replies[..|repos|] == replies;
  }

  /** Fill the resolved states into the listing, in place. */
  method FillStates(cs: array<Local>, states: seq<bool>)
    requires |states| == cs.Length
    modifies cs
    ensures cs[..] == Resolved(old(cs[..]), Some(states))
  {
    for i := 0 to cs.Length
      invariant forall k | 0 <= k < i :: cs[k] == old(cs[k]).(running := Some(states[k]))
      invariant forall k | i <= k < cs.Length :: cs[k] == old(cs[k])
    {
      cs[i] := cs[i].(running := Some(states[i]));
    }
  }

  /** Exactly the commands of a listing. */
  ghost predicate Listing(es: seq<Event>, ls: seq<Local>) {
    Begins(es, ls) && |es| == ListingLength(es)
  }

  lemma PassFollowsListing(es: seq<Event>, fs: seq<Event>, p: Pass)
    requires Listing(es, p.ls) && |p.ls| == |p.vs| && Commands(fs) == CallsUpTo(p, |p.ls|)
    ensures Passed(p, es + fs)
  {
    assert (es + fs)[|es|..] == fs;
  }

  /** `ps -a`, then one inspect for all ids; if that fails the states stay unknown. */
  method ListManagedContainers(docker: Docker) returns (r: Result<array<Local>>, ghost es: seq<Event>)
    requires Consistent(docker.daemon)
    modifies docker
    ensures docker.Did(es) && Consistent(docker.daemon)
    ensures r.Err? <==> es != [] && es[0].command == Ps(None)
    ensures r.Ok? ==> fresh(r.value)
    ensures Listing(es, if r.Ok? then r.value[..] else [])
  {
    var ids, ps := docker.Ps();
    es := [ps];
    EndConsistent(old(docker.daemon), es);
    if ids.None? { return Err, es; }
    TraceAt(old(docker.daemon), es, 0);
    var d := docker.daemon;
    forall i | 0 <= i < |ids.value| ensures ids.value[i] in d.containers { assert ids.value[i] in Elements(ids.value); }
    var ls := Listed(d, ids.value);
    var cs := new Local[|ls|](i requires 0 <= i < |ls| => ls[i]);
    assert cs[..] == ls;
    r := Ok(cs);
    if |ids.value| == 0 { return; }
    var states, inspect := docker.Inspect(ids.value);
    DidBoth(old(docker.daemon), [ps], [inspect]);
    es := [ps] + [inspect];
    if states.None? || |states.value| != cs.Length { return; }
    FillStates(cs, states.value);
  }

  class Cleaner {
    var localGrace: int
    var totalLocalGhostsReaped: nat

    constructor ()
      ensures localGrace == 300_000_000_000 && totalLocalGhostsReaped == 0
    {
      localGrace, totalLocalGhostsReaped := DEFAULT_GRACE, 0;
    }

    /** Too short a grace would race fresh spawns and is ignored. */
    method SetLocalGrace(d: int)
      modifies `localGrace
      ensures old(localGrace) >= 30_000_000_000 ==> localGrace >= 30_000_000_000
      ensures localGrace == if d < 30_000_000_000 then old(localGrace) else d
    {
      if d < LEAST_GRACE { return; }
      localGrace := d;
    }

    function Grace(): int
      reads `localGrace
    {
      if localGrace <= 0 then DEFAULT_GRACE else localGrace
    }

    /** `docker rm -f`, counted when it succeeds. */
    method Remove(docker: Docker, id: Id) returns (ok: bool, ghost e: Event)
      requires Consistent(docker.daemon)
      modifies docker, `totalLocalGhostsReaped
      ensures docker.Did([e]) && e.command == Rm(id, ok)
      ensures totalLocalGhostsReaped == if ok then Bump(old(totalLocalGhostsReaped)) else old(totalLocalGhostsReaped)
    {
      ok, e := docker.Rm(id);
      if !ok { return; }
      totalLocalGhostsReaped := Bump(totalLocalGhostsReaped);
    }

    /** One container of the pass: exactly the commands its listing and Docker's
        answers call for. */
    method ReapOne(docker: Docker, l: Local, registered: Names)
      returns (reaped: bool, ghost v: Verdict, ghost es: seq<Event>)
      requires Consistent(docker.daemon)
      modifies docker, `totalLocalGhostsReaped
      ensures docker.Did(es) && Commands(es) == CallsFor(l, registered, Grace(), v)
      ensures CountRemoved(Commands(es)) == if reaped then 1 else 0
      ensures totalLocalGhostsReaped
           == if reaped then Bump(old(totalLocalGhostsReaped)) else old(totalLocalGhostsReaped)
    {
      ghost var look: Event;
      ghost var rm: Event;
      // A container that does not run is a ghost, whatever its age or registration.
      if l.running == Some(false) {
        reaped, rm := Remove(docker, l.id);
        return reaped, Verdict(None, reaped), [rm];
      }
      v, es := Verdict(None, false), [];
      if l.repo !in registered { return false, v, es; }
      if l.name in registered[l.repo] { return false, v, es; }
      var age;
      age, look := docker.AgeOf(l.id);
      v, es := Verdict(age, false), [look];
      EndConsistent(old(docker.daemon), es);
      if age.None? { return false, v, es; }
      if age.value < Grace() { return false, v, es; }
      reaped, rm := Remove(docker, l.id);
      DidBoth(old(docker.daemon), [look], [rm]);
      v, es := Verdict(age, reaped), [look] + [rm];
    }

    /** The reaping loop over the listed containers. */
    method ReapLoop(docker: Docker, ls: seq<Local>, registered: Names)
      returns (reaped: nat, ghost p: Pass, ghost es: seq<Event>)
      requires Consistent(docker.daemon)
      modifies docker, `totalLocalGhostsReaped
      ensures docker.log == old(docker.log) + es && p == Pass(ls, registered, Grace(), p.vs) && |p.vs| == |ls|
      ensures Rounds(old(docker.daemon), docker.daemon, p, es, reaped)
      ensures totalLocalGhostsReaped == Bumped(old(totalLocalGhostsReaped), reaped)
    {
      ghost var d0 := docker.daemon;
      reaped, p, es := 0, Pass(ls, registered, Grace(), []), [];
      NoRounds(d0, p);
      for i := 0 to |ls|
        invariant docker.log == old(docker.log) + es
        invariant p == Pass(ls, registered, Grace(), p.vs) && |p.vs| == i
        invariant Rounds(d0, docker.daemon, p, es, reaped)
        invariant totalLocalGhostsReaped == Bumped(old(totalLocalGhostsReaped), reaped)
      {
        ghost var d := docker.daemon;
        var hit: bool;
        ghost var v: Verdict;
        ghost var round: seq<Event>;
        hit, v, round := ReapOne(docker, ls[i], registered);
        OneRoundMore(d0, d, p, es, reaped, docker.daemon, v, round, hit);
        p, es := p.(vs := p.vs + [v]), es + round;
        if hit { reaped := reaped + 1; }
      }
    }

    /** One pass: list, fetch the registrations, then reap. `replies` is what
        GitHub answered for each configured repo. */
    method ReapLocalGhosts(docker: Docker, repos: seq<RepoName>, replies: seq<Result<seq<string>>>)
      returns (reaped: nat, ghost p: Pass, ghost es: seq<Event>)
      requires Consistent(docker.daemon) && |repos| == |replies|
      modifies docker, `totalLocalGhostsReaped
      // The commands run are exactly those of a pass on Docker's answers.
      ensures docker.Did(es) && Consistent(docker.daemon) && Passed(p, es)
      ensures p.registered == Registered(repos, replies) && p.grace == Grace()
      ensures reaped == |Removed(es)| && Removed(es) !! docker.daemon.containers.Keys
      ensures totalLocalGhostsReaped == Bumped(old(totalLocalGhostsReaped), reaped)
      // Under any interference every removal was justified when it took effect.
      ensures AllJustified(p, es)
      // The grace in force is the one set, and five minutes if none is.
      ensures p.grace == if localGrace > 0 then localGrace else 300_000_000_000
      ensures RemovesOnlyGhosts(p, es, repos, replies, p.grace)
    {
      ghost var d0 := docker.daemon;
      reaped, p, es := Sweep(docker, repos, replies);
      PassFacts(p, es, d0);
      RemovesOnlyGhostsAlways(p, es, d0, repos, replies);
      EndConsistent(d0, es);
    }

    /** The statements of the pass. */
    method Sweep(docker: Docker, repos: seq<RepoName>, replies: seq<Result<seq<string>>>)
      returns (reaped: nat, ghost p: Pass, ghost es: seq<Event>)
      requires Consistent(docker.daemon) && |repos| == |replies|
      modifies docker, `totalLocalGhostsReaped
      ensures docker.Did(es) && Passed(p, es) && reaped == CountRemoved(Commands(es))
      ensures p.registered == Registered(repos, replies) && p.grace == Grace()
      ensures totalLocalGhostsReaped == Bumped(old(totalLocalGhostsReaped), reaped)
    {
      ghost var d0 := docker.daemon;
      var cs, listing := ListManagedContainers(docker);
      if cs.Err? || cs.value.Length == 0 {
        p, es := Pass([], Registered(repos, replies), Grace(), []), listing;
        NothingListed(d0, docker.daemon, listing, p);
        return 0, p, es;
      }
      var found := cs.value[..];
      reaped, p, es := ReapListed(docker, found, repos, replies, d0, listing);
      es := listing + es;
    }

    /** The part of a pass behind the listing. */
    method ReapListed(docker: Docker, ls: seq<Local>, repos: seq<RepoName>, replies: seq<Result<seq<string>>>,
                      ghost d0: Daemon, ghost listing: seq<Event>)
      returns (reaped: nat, ghost p: Pass, ghost es: seq<Event>)
      requires Trace(d0, listing) && docker.daemon == End(d0, listing) && Consistent(docker.daemon)
      requires Listing(listing, ls)
      requires |repos| == |replies|
      modifies docker, `totalLocalGhostsReaped
      ensures docker.log == old(docker.log) + es && Trace(d0, listing + es) && docker.daemon == End(d0, listing + es)
      ensures Passed(p, listing + es) && reaped == CountRemoved(Commands(listing + es))
      ensures p.registered == Registered(repos, replies) && p.grace == Grace()
      ensures totalLocalGhostsReaped == Bumped(old(totalLocalGhostsReaped), reaped)
    {
      ghost var d1 := docker.daemon;
      var registered := BuildRegistered(repos, replies);
      reaped, p, es := ReapLoop(docker, ls, registered);
      PassAssembled(d0, d1, docker.daemon, listing, es, p, reaped);
    }

    /** The first pass of a new cleaner, with the grace it was given, if it was given
        one of at least thirty seconds, or else of five minutes. */
    static method FirstPass(docker: Docker, given: Option<int>, repos: seq<RepoName>, replies: seq<Result<seq<string>>>)
      returns (c: Cleaner, ghost p: Pass, ghost es: seq<Event>)
      requires Consistent(docker.daemon) && |repos| == |replies|
      modifies docker
      ensures docker.log == old(docker.log) + es
      ensures RemovesOnlyGhosts(p, es, repos, replies,
                                if given.Some? && given.value >= 30_000_000_000 then given.value else 300_000_000_000)
    {
      c := new Cleaner();
      if given.Some? { c.SetLocalGrace(given.value); }
      var reaped;
      reaped, p, es := c.ReapLocalGhosts(docker, repos, replies);
    }

    /** Two passes in a row on the same registrations. If nobody disturbs them and
        the first leaves nothing of what it should remove, in particular if all
        its commands, lookups too, succeed that can, the second removes nothing. */
    method ReapTwice(docker: Docker, repos: seq<RepoName>, replies: seq<Result<seq<string>>>)
      returns (first: nat, second: nat, ghost es: seq<Event>, ghost fs: seq<Event>)
      requires Consistent(docker.daemon) && |repos| == |replies|
      modifies docker, `totalLocalGhostsReaped
      ensures docker.log == old(docker.log) + es + fs
      ensures first == |Removed(es)| && second == |Removed(fs)|
      // If its own lookups work, it asks for exactly what the first has left.
      ensures var d0, d1 := old(docker.daemon), End(old(docker.daemon), es);
              var left := PassSpec(d0, Registered(repos, replies), Grace()) * d1.containers.Keys;
              Calm(d0, es) && Calm(d1, fs) ==>
                && (AllReliable(es) || left == {} ==> second == 0 && Asked(fs) == {} && docker.daemon == d1)
                && (LookupsReliable(fs) ==> Asked(fs) == left)
    {
      ghost var d0 := docker.daemon;
      ghost var p: Pass;
      ghost var q: Pass;
      first, p, es := ReapLocalGhosts(docker, repos, replies);
      second, q, fs := ReapLocalGhosts(docker, repos, replies);
      if Calm(d0, es) && Calm(End(d0, es), fs) {
        SecondPass(p, es, q, fs, d0);
        if AllReliable(es) { PassIsIdempotent(p, es, q, fs, d0); }
        PassCounts(q, fs, End(d0, es));
      }
    }
  }

  /** A listing and the rounds on what it listed make a pass. */
  lemma PassAssembled(d0: Daemon, d1: Daemon, d2: Daemon, listing: seq<Event>, rounds: seq<Event>, p: Pass, reaped: nat)
    requires Trace(d0, listing) && d1 == End(d0, listing) && Listing(listing, p.ls)
    requires Rounds(d1, d2, p, rounds, reaped) && |p.ls| == |p.vs|
    ensures var es := listing + rounds;
            Trace(d0, es) && d2 == End(d0, es) && Passed(p, es) && reaped == CountRemoved(Commands(es))
  {
    DidBoth(d0, listing, rounds);
    PassFollowsListing(listing, rounds, p);
    ListingRemovesNothing(listing, p.ls);
  }

  lemma NothingListed(d0: Daemon, d1: Daemon, listing: seq<Event>, p: Pass)
    requires Trace(d0, listing) && d1 == End(d0, listing) && Listing(listing, []) && p.ls == [] && p.vs == []
    ensures Passed(p, listing) && CountRemoved(Commands(listing)) == 0
  {
    EndConsistent(d0, listing);
    NoRounds(d1, p);
    PassAssembled(d0, d1, d1, listing, [], p, 0);
    assert listing + [] == listing;
  }

  lemma ListingRemovesNothing(es: seq<Event>, ls: seq<Local>)
    requires Listing(es, ls)
    ensures CountRemoved(Commands(es)) == 0
  {
    assert Commands(es)[..|es| - 1] == Commands(es[..|es| - 1]);
    assert CountRemoved(Commands(es[..|es| - 1])) == 0 by {
      if |es| == 2 { assert Commands(es[..1])[..0] == []; }
    }
  }

  ghost predicate AllJustified(p: Pass, es: seq<Event>) {
    forall i | 0 <= i < |es| && es[i].command.Rm? :: Justified(es[i].command.id, es[i].at, p.registered, p.grace)
  }

  lemma PassFacts(p: Pass, es: seq<Event>, d0: Daemon)
    requires Passed(p, es) && Trace(d0, es)
    ensures CountRemoved(Commands(es)) == |Removed(es)| && Removed(es) !! End(d0, es).containers.Keys
    ensures AllJustified(p, es)
  {
    PassCounts(p, es, d0);
    RemovedAreGone(p, es, d0);
    forall i | 0 <= i < |es| && es[i].command.Rm?
      ensures Justified(es[i].command.id, es[i].at, p.registered, p.grace)
    {
      PassIsJustified(p, es, d0, i);
    }
  }
}
