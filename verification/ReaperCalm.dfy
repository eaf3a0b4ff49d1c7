/** Passes that nobody disturbs: the exact set they remove, passes that follow
    one another, and what the grace period does and does not protect. */
module ReaperCalm {
  import opened Basics
  import opened World
  import opened ReaperTrace
  import opened ReaperPass
  import opened ReaperSafety

  /** Everything that does not run, and what is unregistered and old enough. */
  function PassSpec(d: Daemon, registered: Names, grace: int): set<Id> {
    set id | id in d.containers && (!d.containers[id].running || Orphan(d, id, registered, grace))
  }

  /** `ps`, inspects and age lookups fail only when they have to; `rm` may fail. */
  ghost predicate LookupsReliable(es: seq<Event>) {
    forall i | 0 <= i < |es| && !es[i].command.Rm? :: Reliable(es[i])
  }

  /** Some of d0's containers are gone; nothing else has changed. */
  predicate Shrunk(d0: Daemon, d: Daemon) {
    && d.now == d0.now && d.used == d0.used
    && forall id | id in d.containers :: id in d0.containers && d.containers[id] == d0.containers[id]
  }

  lemma CalmPrefix(d0: Daemon, es: seq<Event>, i: nat)
    requires Trace(d0, es) && Calm(d0, es) && i <= |es|
    ensures Trace(d0, es[..i]) && Calm(d0, es[..i]) && End(d0, es[..i]) == Before(d0, es, i)
  {
    TracePrefix(d0, es, i);
    forall k | 0 <= k < i ensures es[..i][k].at == Before(d0, es[..i], k) {
      assert es[k].at == Before(d0, es, k);
    }
  }

  /** Undisturbed commands only take containers away, and only the one they ask for. */
  lemma {:induction false} CalmEndShrinks(d0: Daemon, es: seq<Event>)
    requires Trace(d0, es) && Calm(d0, es)
    ensures Shrunk(d0, End(d0, es))
  {
    if es == [] {
    } else {
      var n := |es| - 1;
      CalmPrefix(d0, es, n);
      CalmEndShrinks(d0, es[..n]);
      assert es[n].at == End(d0, es[..n]);
    }
  }

  lemma {:induction false} GoneByRm(d0: Daemon, es: seq<Event>, id: Id) returns (j: nat)
    requires Trace(d0, es) && Calm(d0, es) && id in d0.containers && id !in End(d0, es).containers
    ensures j < |es| && es[j].command.Rm? && es[j].command.id == id
  {
    var n := |es| - 1;
    CalmPrefix(d0, es, n);
    assert es[n].at == End(d0, es[..n]);
    if id in es[n].at.containers {
      j := n;
    } else {
      j := GoneByRm(d0, es[..n], id);
    }
  }

  lemma CalmShrinks(d0: Daemon, es: seq<Event>, i: nat)
    requires Trace(d0, es) && Calm(d0, es) && i <= |es|
    ensures Shrunk(d0, Before(d0, es, i))
  {
    CalmPrefix(d0, es, i);
    CalmEndShrinks(d0, es[..i]);
  }

  /** A container is still there when its own turn comes. */
  lemma CalmPresent(p: Pass, es: seq<Event>, d0: Daemon, i: nat)
    requires Passed(p, es) && Trace(d0, es) && Calm(d0, es) && i < |es|
    requires (es[i].command.Rm? || es[i].command.AgeOf?) && es[i].command.id in d0.containers
    ensures es[i].command.id in es[i].at.containers
  {
    CalmShrinks(d0, es, i);
    var id := es[i].command.id;
    if id !in es[i].at.containers {
      CalmPrefix(d0, es, i);
      var j := GoneByRm(d0, es[..i], id);
      RmOnce(p, es, d0, j, i);
    }
  }

  lemma ListedAreThere(p: Pass, es: seq<Event>, d0: Daemon, k: nat)
    requires Passed(p, es) && Trace(d0, es) && Calm(d0, es) && k < |p.ls|
    ensures var l := p.ls[k];
            && l.id in d0.containers && l.name == d0.containers[l.id].name && l.repo == d0.containers[l.id].repo
            && (l.running.Some? ==> l.running.value == d0.containers[l.id].running)
  {
    TraceAt(d0, es, 0);
    TraceAt(d0, es, 1);
    assert es[0].at == d0 && es[1].at == d0;
    assert p.ls[k].id == es[0].command.ids.value[k];
  }

  /** Undisturbed, with lookups that work, everything is listed with its state. */
  lemma CalmListing(p: Pass, es: seq<Event>, d0: Daemon, id: Id) returns (k: nat)
    requires Passed(p, es) && Trace(d0, es) && Calm(d0, es) && LookupsReliable(es) && id in d0.containers
    ensures k < |p.ls|
    ensures var c := d0.containers[id]; p.ls[k] == Local(id, c.name, c.repo, Some(c.running))
  {
    TraceAt(d0, es, 0);
    assert Reliable(es[0]) && es[0].at == d0;
    var ids := es[0].command.ids.value;
    assert id in Elements(ids);
    k :| 0 <= k < |ids| && ids[k] == id;
    assert p.ls[k].id == id;
    TraceAt(d0, es, 1);
    assert Reliable(es[1]) && es[1].at == d0;
    ListedAreThere(p, es, d0, k);
  }

  /** Undisturbed, nothing outside the specification is ever asked to be removed. */
  lemma CalmAsksOnlySpec(p: Pass, es: seq<Event>, d0: Daemon, i: nat)
    requires Passed(p, es) && Trace(d0, es) && Calm(d0, es) && i < |es| && es[i].command.Rm?
    ensures es[i].command.id in PassSpec(d0, p.registered, p.grace)
  {
    var k, j := EventRound(p, es, i);
    ListedAreThere(p, es, d0, k);
    CalmPresent(p, es, d0, i);
    PassIsJustified(p, es, d0, i);
    CalmShrinks(d0, es, i);
  }

  lemma AsksWithinSpec(p: Pass, es: seq<Event>, d0: Daemon)
    requires Passed(p, es) && Trace(d0, es) && Calm(d0, es)
    ensures Asked(es) <= PassSpec(d0, p.registered, p.grace)
  {
    forall id | id in Asked(es) ensures id in PassSpec(d0, p.registered, p.grace) {
      var i :| 0 <= i < |es| && es[i].command.Rm? && es[i].command.id == id;
      CalmAsksOnlySpec(p, es, d0, i);
    }
  }

  /** Undisturbed, a lookup that works gives the age the container had at the start. */
  lemma CalmAge(p: Pass, es: seq<Event>, d0: Daemon, i: nat)
    requires Passed(p, es) && Trace(d0, es) && Calm(d0, es) && LookupsReliable(es) && i < |es|
    requires es[i].command.AgeOf? && es[i].command.id in d0.containers
    ensures es[i].command.age == Some(d0.now - d0.containers[es[i].command.id].created)
  {
    CalmPresent(p, es, d0, i);
    TraceAt(d0, es, i);
    CalmShrinks(d0, es, i);
    assert Reliable(es[i]);
  }

  lemma CalmAsksAllOfSpec(p: Pass, es: seq<Event>, d0: Daemon, id: Id)
    requires Passed(p, es) && Trace(d0, es) && Calm(d0, es) && LookupsReliable(es)
    requires id in PassSpec(d0, p.registered, p.grace)
    ensures id in Asked(es)
  {
    var k := CalmListing(p, es, d0, id);
    var i := Round(p, k);
    RoundEvent(p, es, k, 0);
    if p.ls[k].running == Some(false) {
      assert es[i].command.Rm?;
    } else {
      assert es[i].command == AgeOf(id, p.vs[k].age);
      CalmAge(p, es, d0, i);
      RoundEvent(p, es, k, 1);
      assert es[i + 1].command.Rm?;
    }
  }

  lemma RemovedWereAsked(es: seq<Event>)
    ensures Removed(es) <= Asked(es)
  {
    forall id | id in Removed(es) ensures id in Asked(es) {
      var i :| 0 <= i < |es| && RmOk(es[i].command) && es[i].command.id == id;
    }
  }

  /** Undisturbed, only what was asked for goes. */
  lemma GoneWereAsked(es: seq<Event>, d0: Daemon)
    requires Trace(d0, es) && Calm(d0, es)
    ensures Shrunk(d0, End(d0, es)) && d0.containers.Keys - End(d0, es).containers.Keys <= Asked(es)
  {
    CalmShrinks(d0, es, |es|);
    forall id | id in d0.containers && id !in End(d0, es).containers ensures id in Asked(es) {
      var j := GoneByRm(d0, es, id);
    }
  }

  /** Undisturbed, with lookups that work: the pass asks to remove exactly the
      specified containers, removes at least those whose `rm` succeeded, and
      leaves everything else alone. */
  lemma CalmPass(p: Pass, es: seq<Event>, d0: Daemon)
    requires Passed(p, es) && Trace(d0, es) && Calm(d0, es) && LookupsReliable(es)
    ensures Asked(es) == PassSpec(d0, p.registered, p.grace)
    ensures var gone := d0.containers.Keys - End(d0, es).containers.Keys;
            End(d0, es) == d0.(containers := d0.containers - gone) && Removed(es) <= gone <= Asked(es)
  {
    forall id | id in PassSpec(d0, p.registered, p.grace) ensures id in Asked(es) {
      CalmAsksAllOfSpec(p, es, d0, id);
    }
    AsksWithinSpec(p, es, d0);
    GoneWereAsked(es, d0);
    RemovedWereAsked(es);
    RemovedAreGone(p, es, d0);
    var gone := d0.containers.Keys - End(d0, es).containers.Keys;
    assert End(d0, es).containers == d0.containers - gone;
  }

  /** And if every `rm` succeeds that can, it removes exactly the specified set. */
  lemma CalmReliablePass(p: Pass, es: seq<Event>, d0: Daemon)
    requires Passed(p, es) && Trace(d0, es) && Calm(d0, es) && AllReliable(es)
    ensures var spec := PassSpec(d0, p.registered, p.grace);
            Removed(es) == spec && End(d0, es) == d0.(containers := d0.containers - spec)
  {
    CalmPass(p, es, d0);
    forall id | id in Asked(es) ensures id in Removed(es) {
      var i :| 0 <= i < |es| && es[i].command.Rm? && es[i].command.id == id;
      CalmPresent(p, es, d0, i);
      assert Reliable(es[i]);
    }
    RemovedWereAsked(es);
    assert Removed(es) == Asked(es);
  }

  // ----- one pass after another -----

  /** An undisturbed pass that asks for no removal changes nothing. */
  lemma NothingAsked(p: Pass, es: seq<Event>, d0: Daemon)
    requires Passed(p, es) && Trace(d0, es) && Calm(d0, es) && Asked(es) == {}
    ensures CountRemoved(Commands(es)) == 0 && End(d0, es) == d0
  {
    RemovedWereAsked(es);
    PassCounts(p, es, d0);
    GoneWereAsked(es, d0);
    var gone := d0.containers.Keys - End(d0, es).containers.Keys;
    assert gone == {};
    forall id | id in d0.containers ensures id in End(d0, es).containers {
      assert id !in gone;
    }
    assert End(d0, es).containers == d0.containers;
  }

  /** What is to be removed after some containers have gone: what is left of it. */
  lemma SpecOfShrunk(d0: Daemon, d: Daemon, registered: Names, grace: int)
    requires Shrunk(d0, d)
    ensures PassSpec(d, registered, grace) == PassSpec(d0, registered, grace) * d.containers.Keys
  {
  }

  /** What a second pass asks for, in terms of what the first was to remove. */
  lemma SecondPassAsks(q: Pass, fs: seq<Event>, d0: Daemon, d1: Daemon)
    requires Shrunk(d0, d1) && Passed(q, fs) && Trace(d1, fs) && Calm(d1, fs)
    ensures Asked(fs) <= PassSpec(d0, q.registered, q.grace) * d1.containers.Keys
    ensures LookupsReliable(fs) ==> Asked(fs) == PassSpec(d0, q.registered, q.grace) * d1.containers.Keys
  {
    SpecOfShrunk(d0, d1, q.registered, q.grace);
    AsksWithinSpec(q, fs, d1);
    if LookupsReliable(fs) { CalmPass(q, fs, d1); }
  }

  /** A second pass with the same clock and registrations asks only for what the
      first should have removed and did not; nothing, if nothing of that is left.
      If its own lookups work, it asks for exactly that, so for nothing only then. */
  lemma SecondPass(p: Pass, es: seq<Event>, q: Pass, fs: seq<Event>, d0: Daemon)
    requires Passed(p, es) && Trace(d0, es) && Calm(d0, es)
    requires Passed(q, fs) && Trace(End(d0, es), fs) && Calm(End(d0, es), fs)
    requires q.registered == p.registered && q.grace == p.grace
    ensures var left := PassSpec(d0, p.registered, p.grace) * End(d0, es).containers.Keys;
            && Asked(fs) <= left
            && (left == {} ==>
                  Asked(fs) == {} && CountRemoved(Commands(fs)) == 0 && End(End(d0, es), fs) == End(d0, es))
            && (LookupsReliable(fs) ==> Asked(fs) == left && (Asked(fs) == {} <==> left == {}))
  {
    GoneWereAsked(es, d0);
    SecondPassAsks(q, fs, d0, End(d0, es));
    if Asked(fs) == {} { NothingAsked(q, fs, End(d0, es)); }
  }

  /** Idempotence: if every command of the first pass worked that could, the
      lookups as well as the removals, the second removes and changes nothing. */
  lemma PassIsIdempotent(p: Pass, es: seq<Event>, q: Pass, fs: seq<Event>, d0: Daemon)
    requires Passed(p, es) && Trace(d0, es) && Calm(d0, es) && AllReliable(es)
    requires Passed(q, fs) && Trace(End(d0, es), fs) && Calm(End(d0, es), fs)
    requires q.registered == p.registered && q.grace == p.grace
    ensures Asked(fs) == {} && CountRemoved(Commands(fs)) == 0 && End(End(d0, es), fs) == End(d0, es)
  {
    CalmReliablePass(p, es, d0);
    SecondPass(p, es, q, fs, d0);
  }

  lemma TraceExtend(d0: Daemon, es: seq<Event>, e: Event)
    requires Trace(d0, es) && Happened(End(d0, es), e)
    ensures Trace(d0, es + [e]) && End(d0, es + [e]) == e.after
  {
    assert (es + [e])[..|es|] == es;
  }

  lemma ListOne(d0: Daemon, id: Id)
    requires Consistent(d0) && d0.containers.Keys == {id}
    ensures Trace(d0, [Event(d0, Ps(Some([id])), d0)])
  {
    StandingStill(d0);
    assert Elements([id]) == {id};
    TraceExtend(d0, [], Event(d0, Ps(Some([id])), d0));
    assert [] + [Event(d0, Ps(Some([id])), d0)] == [Event(d0, Ps(Some([id])), d0)];
  }

  /** Removals that all succeeded are not enough: in this run the first pass has
      none to make, as its inspect fails, and the second removes a container. */
  lemma RemovalsAloneDoNotSuffice()
    returns (p: Pass, es: seq<Event>, q: Pass, fs: seq<Event>, d0: Daemon)
    ensures Passed(p, es) && Trace(d0, es) && Calm(d0, es)
    ensures Passed(q, fs) && Trace(End(d0, es), fs) && Calm(End(d0, es), fs)
    ensures q.registered == p.registered && q.grace == p.grace
    ensures (forall i | 0 <= i < |es| && es[i].command.Rm? :: es[i].command.ok) && AllReliable(fs)
    ensures Removed(fs) == {7}
  {
    var c := Container("acme/web", "auto-pool-a-0", 0, false);
    d0 := Daemon(map[7 := c], map[7 := "acme/web"], 0);
    var ps, fails := Event(d0, Ps(Some([7])), d0), Event(d0, Inspect([7], None), d0);
    var works, rm := Event(d0, Inspect([7], Some([false])), d0), Event(d0, Rm(7, true), Discard(d0, 7));
    es, fs := [ps, fails], [ps, works, rm];
    p := Pass([Local(7, c.name, c.repo, None)], map[], DEFAULT_GRACE, [Verdict(None, true)]);
    q := Pass([Local(7, c.name, c.repo, Some(false))], map[], DEFAULT_GRACE, [Verdict(None, true)]);
    StandingStill(d0);
    ListOne(d0, 7);
    assert CallsUpTo(p, 1) == CallsUpTo(p, 0) + Calls(p, 0) == [];
    assert CallsUpTo(q, 1) == CallsUpTo(q, 0) + Calls(q, 0) == [Rm(7, true)];
    assert Commands(es[2..]) == [] && Commands(fs[2..]) == [Rm(7, true)];
    TraceExtend(d0, [ps], fails);
    TraceExtend(d0, [ps], works);
    TraceExtend(d0, [ps] + [works], rm);
    assert es == [ps] + [fails] && fs == [ps] + [works] + [rm];
    assert fs[2].command == Rm(7, true);
  }

  // ----- what the grace period protects -----

  predicate Young(d: Daemon, id: Id, grace: int)
    requires id in d.containers
  {
    d.now - d.containers[id].created < grace
  }

  /** A removal below the grace age is of a container listed as not running. */
  lemma YoungRmIsOfCorpse(p: Pass, es: seq<Event>, d0: Daemon, i: nat)
    requires Passed(p, es) && Trace(d0, es) && i < |es| && es[i].command.Rm?
    requires !AgedOrGone(es[i].at, es[i].command.id, p.grace)
    ensures exists k :: 0 <= k < |p.ls| && p.ls[k].running == Some(false) && Round(p, k) == i
                        && p.ls[k].id == es[i].command.id
  {
    var k, j := EventRound(p, es, i);
    if p.ls[k].running != Some(false) { RunningPathIsAged(p, es, d0, k, i); }
    assert Round(p, k) == i;
  }

  /** "Only containers older than the grace are eligible": under any interference
      and any failures, a pass keeps that promise exactly when every container it
      has listed as not running is of grace age, or gone, when its turn comes. */
  lemma GraceProtectsIff(p: Pass, es: seq<Event>, d0: Daemon)
    requires Passed(p, es) && Trace(d0, es)
    ensures (forall i | 0 <= i < |es| && es[i].command.Rm? :: AgedOrGone(es[i].at, es[i].command.id, p.grace))
       <==> (forall k | 0 <= k < |p.ls| && p.ls[k].running == Some(false) ::
               Round(p, k) < |es| && AgedOrGone(es[Round(p, k)].at, p.ls[k].id, p.grace))
  {
    forall k | 0 <= k < |p.ls| && p.ls[k].running == Some(false)
      ensures Round(p, k) < |es| && es[Round(p, k)].command.Rm? && es[Round(p, k)].command.id == p.ls[k].id
    {
      RoundEvent(p, es, k, 0);
    }
    forall i | 0 <= i < |es| && es[i].command.Rm? && !AgedOrGone(es[i].at, es[i].command.id, p.grace)
      ensures exists k :: 0 <= k < |p.ls| && p.ls[k].running == Some(false) && Round(p, k) == i
                          && p.ls[k].id == es[i].command.id
    {
      YoungRmIsOfCorpse(p, es, d0, i);
    }
  }

  /** When nobody disturbs the pass and its lookups work, that is exactly when
      every younger container is running. */
  lemma CalmGraceProtectsIff(p: Pass, es: seq<Event>, d0: Daemon)
    requires Passed(p, es) && Trace(d0, es) && Calm(d0, es) && LookupsReliable(es)
    ensures (forall id | id in Asked(es) :: id in d0.containers && !Young(d0, id, p.grace))
       <==> (forall id | id in d0.containers && Young(d0, id, p.grace) :: d0.containers[id].running)
  {
    CalmPass(p, es, d0);
  }

  /** It fails in this run: a container that exited in the moment of its start. */
  lemma YoungCorpseIsReaped() returns (p: Pass, es: seq<Event>, d0: Daemon)
    ensures Passed(p, es) && Trace(d0, es) && Calm(d0, es) && AllReliable(es) && LookupsReliable(es)
    ensures p.grace == 300_000_000_000
    ensures Asked(es) == {7} && 7 in d0.containers && Young(d0, 7, p.grace) && 7 !in End(d0, es).containers
  {
    var c := Container("acme/web", "auto-pool-a-0", 0, false);
    d0 := Daemon(map[7 := c], map[7 := "acme/web"], 0);
    var ps, inspect := Event(d0, Ps(Some([7])), d0), Event(d0, Inspect([7], Some([false])), d0);
    var rm := Event(d0, Rm(7, true), Discard(d0, 7));
    es := [ps, inspect, rm];
    p := Pass([Local(7, c.name, c.repo, Some(false))], map[], DEFAULT_GRACE, [Verdict(None, true)]);
    StandingStill(d0);
    assert CallsUpTo(p, 1) == CallsUpTo(p, 0) + Calls(p, 0) == [Rm(7, true)];
    assert Commands(es[2..]) == [Rm(7, true)];
    ListOne(d0, 7);
    TraceExtend(d0, [ps], inspect);
    TraceExtend(d0, [ps] + [inspect], rm);
    assert es == [ps] + [inspect] + [rm];
    assert es[2].command == Rm(7, true);
  }

  /** A container is only asked for in its own round, by the round's last command. */
  lemma AskedInItsRound(p: Pass, es: seq<Event>, d0: Daemon, k: nat)
    requires Passed(p, es) && Trace(d0, es) && k < |p.ls| && p.ls[k].id in Asked(es)
    ensures Calls(p, k) != [] && Calls(p, k)[|Calls(p, k)| - 1].Rm?
  {
    var i :| 0 <= i < |es| && es[i].command.Rm? && es[i].command.id == p.ls[k].id;
    var m, j := EventRound(p, es, i);
    ListingIsDistinct(p, es, d0);
    assert m == k;
  }

  /** A container whose state could not be resolved is not skipped: it is handed
      to `rm` exactly when it is unregistered and found old enough. */
  lemma UnresolvedIsReapedIff(p: Pass, es: seq<Event>, d0: Daemon, k: nat)
    requires Passed(p, es) && Trace(d0, es) && k < |p.ls| && p.ls[k].running.None?
    ensures p.ls[k].id in Asked(es)
       <==> Unregistered(p.ls[k].repo, p.ls[k].name, p.registered) && p.vs[k].age.Some? && p.vs[k].age.value >= p.grace
  {
    var l := p.ls[k];
    if l.id in Asked(es) { AskedInItsRound(p, es, d0, k); }
    if Unregistered(l.repo, l.name, p.registered) && p.vs[k].age.Some? && p.vs[k].age.value >= p.grace {
      RoundEvent(p, es, k, 1);
      assert es[Round(p, k) + 1].command.Rm?;
    }
  }

  /** So it happens in this run: the inspect fails, and a running container goes. */
  lemma UnresolvedIsReaped() returns (p: Pass, es: seq<Event>, d0: Daemon)
    ensures Passed(p, es) && Trace(d0, es) && |p.ls| == 1 && p.ls[0].running.None?
    ensures Asked(es) == {7} && 7 in d0.containers && 7 !in End(d0, es).containers
  {
    var c := Container("acme/web", "auto-pool-a-0", 0, true);
    d0 := Daemon(map[7 := c], map[7 := "acme/web"], DEFAULT_GRACE);
    var age := Some(DEFAULT_GRACE);
    var ps, inspect := Event(d0, Ps(Some([7])), d0), Event(d0, Inspect([7], None), d0);
    var look, rm := Event(d0, AgeOf(7, age), d0), Event(d0, Rm(7, true), Discard(d0, 7));
    es := [ps, inspect, look, rm];
    p := Pass([Local(7, c.name, c.repo, None)], map["acme/web" := {}], DEFAULT_GRACE, [Verdict(age, true)]);
    StandingStill(d0);
    assert CallsUpTo(p, 1) == CallsUpTo(p, 0) + Calls(p, 0) == [AgeOf(7, age), Rm(7, true)];
    assert Commands(es[2..]) == [AgeOf(7, age), Rm(7, true)];
    ListOne(d0, 7);
    TraceExtend(d0, [ps], inspect);
    TraceExtend(d0, [ps] + [inspect], look);
    TraceExtend(d0, [ps] + [inspect] + [look], rm);
    assert es == [ps] + [inspect] + [look] + [rm];
    assert es[3].command == Rm(7, true);
  }
}
