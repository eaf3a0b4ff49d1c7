/** What the ghost reaper says to Docker, and what Docker answers. Every command
    takes effect at its own moment; spawns, exits, removals and time go on in
    between. */
module ReaperTrace {
  import opened Basics
  import opened World

  /** The reaper's commands with their answers: no ids, states or age when the
      command failed. */
  datatype Command =
    | Ps(ids: Option<seq<Id>>)
    | Inspect(listed: seq<Id>, states: Option<seq<bool>>)
    | AgeOf(id: Id, age: Option<int>)
    | Rm(id: Id, ok: bool)

  /** A command, with the daemon at the moment it ran and as it left it. */
  datatype Event = Event(at: Daemon, command: Command, after: Daemon)

  /** A container present at both ends of an inspect was, if reported running,
      running at its start and, if reported otherwise, not running at its end. */
  predicate InspectTruthful(before: Daemon, at: Daemon, ids: seq<Id>, states: seq<bool>) {
    && |states| == |ids|
    && (forall k | 0 <= k < |ids| && ids[k] in before.containers ::
          states[k] ==> before.containers[ids[k]].running)
    && (forall k | 0 <= k < |ids| && ids[k] in at.containers ::
          at.containers[ids[k]].running ==> states[k])
  }

  /** What Docker guarantees of a command issued when the daemon stood at
      `before`. An error of `rm` does not tell whether the container is gone. */
  ghost predicate Happened(before: Daemon, e: Event) {
    && Evolves(before, e.at)
    && match e.command
       case Ps(ids) =>
         && e.after == e.at
         && (ids.Some? ==> NoDuplicates(ids.value) && Elements(ids.value) == e.at.containers.Keys)
       case Inspect(ids, states) =>
         e.after == e.at && (states.Some? ==> InspectTruthful(before, e.at, ids, states.value))
       case AgeOf(id, age) =>
         && e.after == e.at
         && (age.Some? ==> id in e.at.containers && age.value == e.at.now - e.at.containers[id].created)
       case Rm(id, ok) =>
         (e.after == e.at && !ok) || e.after == Discard(e.at, id)
  }

  /** A command that fails only when it has to. */
  ghost predicate Reliable(e: Event) {
    match e.command
    case Ps(ids) => ids.Some?
    case Inspect(ids, states) => states.None? ==> exists k :: 0 <= k < |ids| && ids[k] !in e.at.containers
    case AgeOf(id, age) => age.None? ==> id !in e.at.containers
    case Rm(id, ok) => !ok ==> id !in e.at.containers
  }

  /** The daemon when the i-th command is issued. */
  function Before(d0: Daemon, es: seq<Event>, i: nat): Daemon
    requires i <= |es|
  {
    if i == 0 then d0 else es[i - 1].after
  }

  function End(d0: Daemon, es: seq<Event>): Daemon { Before(d0, es, |es|) }

  /** What happened from d0 on, one command after another. */
  ghost predicate Trace(d0: Daemon, es: seq<Event>) {
    if es == [] then Consistent(d0)
    else
      var n := |es| - 1;
      Trace(d0, es[..n]) && Happened(End(d0, es[..n]), es[n])
  }

  /** Nobody else acts, and no time passes, from the first command to the last. */
  predicate Calm(d0: Daemon, es: seq<Event>) {
    forall i | 0 <= i < |es| :: es[i].at == Before(d0, es, i)
  }

  ghost predicate AllReliable(es: seq<Event>) {
    forall i | 0 <= i < |es| :: Reliable(es[i])
  }

  function Commands(es: seq<Event>): seq<Command> {
    seq(|es|, i requires 0 <= i < |es| => es[i].command)
  }

  lemma {:induction false} TraceConcat(d0: Daemon, a: seq<Event>, b: seq<Event>)
    requires Trace(d0, a) && Trace(End(d0, a), b)
    ensures Trace(d0, a + b)
  {
    if b == [] {
      assert a + b == a;
    } else {
      var n := |b| - 1;
      TraceConcat(d0, a, b[..n]);
      EndOfConcat(d0, a, b[..n]);
      assert (a + b)[..|a + b| - 1] == a + b[..n];
    }
  }

  lemma EndOfConcat(d0: Daemon, a: seq<Event>, b: seq<Event>)
    ensures End(d0, a + b) == End(End(d0, a), b)
    ensures Commands(a + b) == Commands(a) + Commands(b)
  {
  }

  lemma EventEvolves(before: Daemon, e: Event)
    requires Consistent(before) && Happened(before, e)
    ensures Consistent(e.at) && Evolves(before, e.at) && Evolves(e.at, e.after) && Evolves(before, e.after)
  {
    assert Evolves(e.at, e.after);
    EvolvesTransitive(before, e.at, e.after);
  }

  lemma StandingStill(d: Daemon)
    requires Consistent(d)
    ensures Evolves(d, d)
  {
  }

  lemma {:induction false} TracePrefix(d0: Daemon, es: seq<Event>, i: nat)
    requires Trace(d0, es) && i <= |es|
    ensures Trace(d0, es[..i]) && End(d0, es[..i]) == Before(d0, es, i)
  {
    if i == |es| {
      assert es[..i] == es;
    } else {
      var n := |es| - 1;
      TracePrefix(d0, es[..n], i);
      assert es[..n][..i] == es[..i];
    }
  }

  /** One command of the trace. */
  lemma TraceAt(d0: Daemon, es: seq<Event>, i: nat)
    requires Trace(d0, es) && i < |es|
    ensures Happened(Before(d0, es, i), es[i])
  {
    TracePrefix(d0, es, i + 1);
    assert es[..i + 1][..i] == es[..i];
    TracePrefix(d0, es, i);
  }

  lemma {:induction false} EndConsistent(d0: Daemon, es: seq<Event>)
    requires Trace(d0, es)
    ensures Consistent(End(d0, es))
  {
    if es == [] {
    } else {
      var n := |es| - 1;
      EndConsistent(d0, es[..n]);
      EventEvolves(End(d0, es[..n]), es[n]);
    }
  }

  /** The commands of a pass are some of the things the daemon lives through. */
  lemma {:induction false} EndEvolves(d0: Daemon, es: seq<Event>, i: nat)
    requires Trace(d0, es) && i <= |es|
    ensures Evolves(Before(d0, es, i), End(d0, es))
  {
    EndConsistent(d0, es);
    if i == |es| {
      StandingStill(End(d0, es));
    } else {
      var n := |es| - 1;
      EndEvolves(d0, es[..n], i);
      EventEvolves(End(d0, es[..n]), es[n]);
      TracePrefix(d0, es, i);
      EndConsistent(d0, es[..i]);
      EvolvesTransitive(Before(d0, es, i), End(d0, es[..n]), End(d0, es));
    }
  }

  lemma TraceEvolves(d0: Daemon, es: seq<Event>, i: nat, j: nat)
    requires Trace(d0, es) && i <= j <= |es|
    ensures Consistent(Before(d0, es, i)) && Evolves(Before(d0, es, i), Before(d0, es, j))
  {
    TracePrefix(d0, es, i);
    EndConsistent(d0, es[..i]);
    TracePrefix(d0, es, j);
    EndEvolves(d0, es[..j], i);
  }

  /** From the moment one command took effect to any later one. */
  lemma EventsEvolve(d0: Daemon, es: seq<Event>, i: nat, j: nat)
    requires Trace(d0, es) && i < j < |es|
    ensures Consistent(es[i].at) && Evolves(es[i].at, Before(d0, es, j)) && Evolves(es[i].at, es[j].at)
  {
    TraceEvolves(d0, es, i, i);
    TraceAt(d0, es, i);
    TraceEvolves(d0, es, i + 1, j);
    TraceAt(d0, es, j);
    LinkEvents(Before(d0, es, i), es[i], Before(d0, es, j), es[j]);
  }

  lemma LinkEvents(a: Daemon, e: Event, b: Daemon, f: Event)
    requires Consistent(a) && Happened(a, e) && Evolves(e.after, b) && Happened(b, f)
    ensures Consistent(e.at) && Evolves(e.at, b) && Evolves(e.at, f.at)
  {
    EventEvolves(a, e);
    EvolvesTransitive(e.at, e.after, b);
    EvolvesTransitive(e.at, b, f.at);
  }

  /** A container that is gone does not come back. */
  lemma GoneStaysGone(a: Daemon, b: Daemon, id: Id)
    requires Consistent(a) && Evolves(a, b) && id in a.used
    ensures id !in a.containers ==> id !in b.containers
  {
  }
}
