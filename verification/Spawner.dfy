/** The spawner as an object whose fields the goroutines share. Spawn is
    written statement by statement as the program has it; between any two
    statements other goroutines and the environment may take any steps. Every
    statement is shown to be one step of the spawn protocol, so whatever the
    protocol's theorems say of its runs holds of the object. */
module SpawnerObject {
  import opened Basics
  import opened World
  import opened SpawnProtocol
  import opened SpawnSafety
  import opened SpawnSchedules
  import opened SpawnProgress
  import opened SpawnQuiet
  import opened Labels

  predicate StepOf(step: Step, cs: set<CallId>) {
    OfCall(step) && step.c in cs
  }

  /** A step leaves the calls alone that do not take it. */
  lemma OthersLeave(s: State, step: Step, cs: set<CallId>)
    requires Enabled(s, step) && !StepOf(step, cs) && cs <= s.calls.Keys
    ensures s.calls.Keys <= Apply(s, step).calls.Keys
    ensures forall c | c in cs :: Apply(s, step).calls[c] == s.calls[c]
  {
  }

  /** Only an arrival brings a new call. */
  lemma IdsBelow(s: State, step: Step, n: CallId, next: CallId)
    requires Enabled(s, step) && forall c | c in s.calls :: c < n
    requires n <= next && (step.Arrive? ==> step.c < next)
    ensures forall c | c in Apply(s, step).calls :: c < next
    ensures Apply(s, step).config == s.config && Apply(s, step).dryRun == s.dryRun
  {
  }

  /** Own calls have returned, except the active one. */
  ghost predicate Orderly(calls: map<CallId, Call>, answers: map<CallId, Answers>, active: Option<CallId>) {
    && (forall c | c in answers :: c in calls && (active == Some(c) || calls[c].pc.Done?))
    && (active.Some? ==> active.value in answers)
  }

  /** A run of the protocol that ends in s, in which the calls with known answers
      did what they were told. */
  ghost predicate Sound(h: Run, s: State, answers: map<CallId, Answers>, active: Option<CallId>, next: CallId) {
    && IsRun(h) && Init(h.states[0]) && Last(h) == s && Faithful(h, answers)
    && (forall c | c in s.calls :: c < next) && Orderly(s.calls, answers, active)
  }

  /** Someone else's step keeps it sound. */
  lemma SoundNext(h: Run, s: State, answers: map<CallId, Answers>, active: Option<CallId>, n: CallId,
                  step: Step, next: CallId)
    requires Sound(h, s, answers, active, n) && Enabled(s, step) && !StepOf(step, answers.Keys)
    requires n <= next && (step.Arrive? ==> step.c < next)
    ensures Sound(Extend(h, step), Apply(s, step), answers, active, next) && Extends(h, Extend(h, step))
  {
    TakenByOthers(s, step, answers.Keys, n, next);
    ExtendIsRun(h, step);
    FaithfulExtend(h, step, answers);
  }

  /** A count over ids, i of them inspected: what was counted ran at `ps`, and what
      was inspected and still runs was counted. */
  ghost predicate Counted(d0: Daemon, d: Daemon, name: RepoName, ids: seq<Id>, i: nat, counted: set<Id>) {
    && Lists(ids, d0, name) && counted <= RunningSet(d0, name) && i <= |ids|
    && (forall k | 0 <= k < i && ids[k] in RunningSet(d, name) :: ids[k] in counted)
    && (forall k | i <= k < |ids| :: ids[k] !in counted)
  }

  lemma CountedStays(d0: Daemon, was: Daemon, d: Daemon, name: RepoName, ids: seq<Id>, i: nat, counted: set<Id>)
    requires Consistent(d0) && Evolves(d0, was) && Evolves(was, d) && Counted(d0, was, name, ids, i, counted)
    ensures Counted(d0, d, name, ids, i, counted)
  {
    forall k | 0 <= k < i && ids[k] in RunningSet(d, name) ensures ids[k] in counted {
      assert ids[k] in Elements(ids);
      assert ids[k] in d0.used && ids[k] in was.used;
    }
  }

  lemma CountedLater(at: Run, was: Run, now: Run, name: RepoName, ids: seq<Id>, i: nat, counted: set<Id>)
    requires IsRun(at) && IsRun(was) && IsRun(now) && Extends(at, was) && Extends(was, now) && Init(now.states[0])
    requires Counted(Last(at).daemon, Last(was).daemon, name, ids, i, counted)
    ensures Consistent(Last(at).daemon) && Evolves(Last(at).daemon, Last(now).daemon)
    ensures Counted(Last(at).daemon, Last(now).daemon, name, ids, i, counted)
  {
    DaemonEvolved(at, was);
    DaemonEvolved(was, now);
    DaemonEvolved(at, now);
    CountedStays(Last(at).daemon, Last(was).daemon, Last(now).daemon, name, ids, i, counted);
  }

  lemma CountedNext(d0: Daemon, d: Daemon, name: RepoName, ids: seq<Id>, i: nat, counted: set<Id>)
    requires Consistent(d0) && Evolves(d0, d) && Counted(d0, d, name, ids, i, counted) && i < |ids|
    requires ids[i] in d.containers
    ensures ids[i] !in counted
    ensures Counted(d0, d, name, ids, i + 1, if d.containers[ids[i]].running then counted + {ids[i]} else counted)
  {
    assert ids[i] in Elements(ids);
  }

  lemma CountedAll(d0: Daemon, d: Daemon, name: RepoName, ids: seq<Id>, counted: set<Id>)
    requires Counted(d0, d, name, ids, |ids|, counted)
    ensures |RunningSet(d0, name) * RunningSet(d, name)| <= |counted| <= RunningOf(d0, name)
  {
    forall id | id in RunningSet(d0, name) * RunningSet(d, name) ensures id in counted {
      assert id in Elements(ids);
      var k :| 0 <= k < |ids| && ids[k] == id;
    }
    SubsetSize(RunningSet(d0, name) * RunningSet(d, name), counted);
    SubsetSize(counted, RunningSet(d0, name));
  }

  lemma TakenByOthers(s: State, step: Step, own: set<CallId>, n: CallId, next: CallId)
    requires Enabled(s, step) && !StepOf(step, own) && own <= s.calls.Keys
    requires (forall c | c in s.calls :: c < n) && n <= next && (step.Arrive? ==> step.c < next)
    ensures var s' := Apply(s, step);
            && s.calls.Keys <= s'.calls.Keys && (forall c | c in own :: s'.calls[c] == s.calls[c])
            && (forall c | c in s'.calls :: c < next) && s'.config == s.config && s'.dryRun == s.dryRun
  {
    OthersLeave(s, step, own);
    IdsBelow(s, step, n, next);
  }

  /** Whoever is in a critical section can step, and only leaving it frees the mutex. */
  lemma HolderStep(s: State, h: CallId)
    requires h in s.calls && Holds(s.calls[h].pc)
    ensures !Finished(s.calls[h].pc)
    ensures var step := NextStep(s, h);
            && Enabled(s, step) && OfCall(step) && step.c == h && !step.Inspect?
            && LocksAfter(s, step) == if step.Unlock? then s.locks - {s.calls[h].repo.name} else s.locks
  {
  }

  /** The holder of a mutex, moving on, comes closer to releasing it. */
  lemma HolderMovesOn(s: State, name: RepoName)
    requires Inv(s) && name in s.locks
    ensures var h := s.locks[name];
            && h in s.calls && Holds(s.calls[h].pc) && !Finished(s.calls[h].pc)
            && var step := NextStep(s, h);
               && Enabled(s, step) && OfCall(step) && step.c == h
               && (name in Apply(s, step).locks ==>
                     && Apply(s, step).locks[name] == h
                     && Phase(Apply(s, step).calls[h].pc) < Phase(s.calls[h].pc))
               && (forall c | c in s.calls && c != h :: Apply(s, step).calls[c] == s.calls[c])
  {
    var h := s.locks[name];
    HolderStep(s, h);
    PhaseDrops(s, NextStep(s, h));
  }

  class Spawner {
    const config: seq<RepoEntry>
    const dryRun: bool

    var daemon: Daemon
    var repoMu: map<RepoName, CallId>
    var paused: bool
    var calls: map<CallId, Call>
    var nextCall: CallId
    var totalSpawned: nat
    var totalCapHit: nat
    var totalErrors: nat
    var totalIdleSkip: nat
    var totalPaused: nat
    var totalReconcile: nat

    /** The calls made through Spawn below, and what they were and will be told. */
    var answers: map<CallId, Answers>
    /** The one of them that is under way. */
    ghost var active: Option<CallId>
    ghost var history: Run

    function Snapshot(): State
      reads this
    {
      State(config, dryRun, daemon, repoMu, paused, calls,
            Counters(totalSpawned, totalCapHit, totalErrors, totalIdleSkip, totalPaused, totalReconcile))
    }

    /** The object's past is a run of the protocol that ends in its present, and
        its own calls did what they were told. */
    ghost predicate Valid()
      reads this
    {
      Sound(history, Snapshot(), answers, active, nextCall)
    }

    /** Between two calls. */
    ghost predicate Ready()
      reads this
    {
      Valid() && active == None
    }

    /** In the middle of call c. */
    ghost predicate Inside(c: CallId)
      reads this
    {
      Valid() && active == Some(c)
    }

    /** What every part of a call keeps: the past, and who is told what. */
    twostate predicate Grew()
      reads this
    {
      && Extends(old(history), history) && old(calls).Keys <= calls.Keys
      && answers == old(answers) && active == old(active)
    }

    constructor (config: seq<RepoEntry>, dryRun: bool, daemon: Daemon)
      requires Consistent(daemon)
      ensures Ready() && this.config == config && this.dryRun == dryRun && this.daemon == daemon
      ensures calls == map[] && !paused
    {
      this.config, this.dryRun, this.daemon := config, dryRun, daemon;
      repoMu, paused, calls, nextCall := map[], false, map[], 0;
      totalSpawned, totalCapHit, totalErrors := 0, 0, 0;
      totalIdleSkip, totalPaused, totalReconcile := 0, 0, 0;
      answers, active := map[], None;
      history := Run([State(config, dryRun, daemon, map[], false, map[], Counters(0, 0, 0, 0, 0, 0))], []);
    }

    /** Any reachable state satisfies the protocol's invariant. */
    lemma Reached()
      requires Valid()
      ensures Inv(Snapshot())
    {
      InitInv(history.states[0]);
      InvAlways(history, |history.states| - 1);
    }

    /** Append the step just taken to the history. */
    ghost method Log(step: Step)
      requires IsRun(history) && Init(history.states[0]) && Faithful(history, answers)
      requires Enabled(Last(history), step) && Snapshot() == Apply(Last(history), step)
      requires OfCall(step) && step.c in answers ==> Answered(Last(history), step, answers[step.c])
      requires (forall c | c in calls :: c < nextCall) && Orderly(calls, answers, active)
      modifies this`history
      ensures Valid() && history == Extend(old(history), step) && Extends(old(history), history)
    {
      ExtendIsRun(history, step);
      FaithfulExtend(history, step, answers);
      history := Extend(history, step);
    }

    method Become(s: State, next: CallId)
      requires s.config == config && s.dryRun == dryRun
      modifies `daemon, `repoMu, `paused, `calls, `nextCall, `totalSpawned, `totalCapHit, `totalErrors,
               `totalIdleSkip, `totalPaused, `totalReconcile
      ensures Snapshot() == s && nextCall == next
    {
      daemon, repoMu, paused, calls, nextCall := s.daemon, s.locks, s.paused, s.calls, next;
      totalSpawned, totalCapHit, totalErrors := s.counters.spawned, s.counters.capHit, s.counters.errors;
      totalIdleSkip, totalPaused, totalReconcile := s.counters.idleSkip, s.counters.paused, s.counters.reconcile;
    }

    /** Someone else's step. */
    method Take(step: Step)
      requires Valid() && Enabled(Snapshot(), step) && !StepOf(step, answers.Keys)
      modifies `daemon, `repoMu, `paused, `calls, `nextCall, `totalSpawned, `totalCapHit, `totalErrors,
               `totalIdleSkip, `totalPaused, `totalReconcile, `history
      ensures Valid() && Grew() && Snapshot() == Apply(old(Snapshot()), step)
      ensures forall c | c in answers :: calls[c] == old(calls)[c]
    {
      var next := if step.Arrive? && step.c >= nextCall then step.c + 1 else nextCall;
      TakenByOthers(Snapshot(), step, answers.Keys, nextCall, next);
      SoundNext(history, Snapshot(), answers, active, nextCall, step, next);
      history := Extend(history, step);
      Become(Apply(Snapshot(), step), next);
    }

    /** Other goroutines and the environment take any number of steps. */
    method Interfere()
      requires Valid()
      modifies this
      ensures Valid() && Grew()
      ensures forall c | c in answers :: calls[c] == old(calls)[c]
    {
      OthersMove({});
    }

    /** The same, while the calls in `still` do not move either. */
    method OthersMove(still: set<CallId>)
      requires Valid() && still <= calls.Keys
      modifies this
      ensures Valid() && Grew()
      ensures forall c | c in answers.Keys + still :: calls[c] == old(calls)[c]
    {
      var rounds: nat := *;
      while rounds > 0
        invariant Valid() && Grew()
        invariant forall c | c in answers.Keys + still :: calls[c] == old(calls)[c]
        decreases rounds
      {
        var step: Step := *;
        if Enabled(Snapshot(), step) && !StepOf(step, answers.Keys + still) {
          OthersLeave(Snapshot(), step, answers.Keys + still);
          Take(step);
        }
        rounds := rounds - 1;
      }
    }

    /** The call's own step, when all it does is move its program counter. */
    method Advance(c: CallId, pc: Pc, ghost step: Step)
      requires Inside(c) && Enabled(Snapshot(), step) && OfCall(step) && step.c == c
      requires pc == PcAfter(Snapshot(), step) && Answered(Snapshot(), step, answers[c])
      requires !step.Lock? && !step.Unlock? && !step.Record? && !step.Credit? && !step.DockerRun?
      modifies `calls, `history
      ensures Inside(c) && Grew()
      ensures calls == old(calls)[c := old(calls)[c].(pc := pc)]
    {
      calls := calls[c := calls[c].(pc := pc)];
      Log(step);
    }

    /** A goroutine enters Spawn. */
    method Enter(repo: RepoEntry, origin: Origin, a: Answers) returns (c: CallId)
      requires Ready() && repo in config
      modifies `calls, `nextCall, `history, `answers, `active
      ensures Inside(c) && Extends(old(history), history)
      ensures c !in old(calls) && calls == old(calls)[c := Call(repo, origin, Entered)]
      ensures answers == old(answers)[c := a]
    {
      c := nextCall;
      FaithfulToNew(history, answers, c, a);
      nextCall, active := nextCall + 1, Some(c);
      answers := answers[c := a];
      calls := calls[c := Call(repo, origin, Entered)];
      Log(Arrive(c, repo, origin));
    }

    /** One round of waiting: the holder of the mutex gets a step further. */
    method WaitForHolder(c: CallId, name: RepoName)
      requires Inside(c) && calls[c].pc.Admitted? && name in repoMu
      modifies this
      ensures Inside(c) && Grew() && calls[c] == old(calls)[c]
      ensures old(repoMu)[name] in old(calls)
      ensures name in repoMu ==>
                && repoMu[name] in calls
                && Phase(calls[repoMu[name]].pc) < Phase(old(calls)[old(repoMu)[name]].pc)
    {
      var holder := repoMu[name];
      Reached();
      OthersMove({holder});
      Reached();
      assert repoMu[name] == holder;
      HolderMovesOn(Snapshot(), name);
      Take(NextStep(Snapshot(), holder));
    }

    method TakeLock(c: CallId)
      requires Inside(c) && calls[c].pc.Admitted? && calls[c].repo.name !in repoMu
      modifies `repoMu, `calls, `history
      ensures Inside(c) && Grew()
      ensures calls == old(calls)[c := old(calls)[c].(pc := Checking)]
    {
      repoMu := repoMu[calls[c].repo.name := c];
      calls := calls[c := calls[c].(pc := Checking)];
      Log(Lock(c));
    }

    /** mu.Lock(): wait until whoever holds the repo's mutex has let go. */
    method LockRepo(c: CallId)
      requires Inside(c) && calls[c].pc.Admitted?
      modifies this
      ensures Inside(c) && Grew() && calls[c] == old(calls)[c].(pc := Checking)
    {
      var name := calls[c].repo.name;
      Interfere();
      Reached();
      while name in repoMu
        invariant Inside(c) && Grew() && calls[c] == old(calls)[c]
        invariant name in repoMu ==> repoMu[name] in calls
        decreases if name in repoMu then 1 + Phase(calls[repoMu[name]].pc) else 0
      {
        WaitForHolder(c, name);
      }
      TakeLock(c);
    }

    method AddToTotal(o: Outcome)
      modifies `totalSpawned, `totalCapHit, `totalErrors, `totalIdleSkip, `totalPaused
      ensures Snapshot() == old(Snapshot()).(counters := Count(old(Snapshot()).counters, o))
    {
      match o {
        case Spawned => totalSpawned := Bump(totalSpawned);
        case CapHit => totalCapHit := Bump(totalCapHit);
        case Failed => totalErrors := Bump(totalErrors);
        case IdleSkip => totalIdleSkip := Bump(totalIdleSkip);
        case Paused => totalPaused := Bump(totalPaused);
      }
    }

    /** The outcome reaches its counter. */
    method Settle(c: CallId, o: Outcome)
      requires Inside(c) && calls[c].pc == Recording(o)
      modifies `calls, `history, `totalSpawned, `totalCapHit, `totalErrors, `totalIdleSkip, `totalPaused
      ensures Inside(c) && Grew()
      ensures calls == old(calls)[c := old(calls)[c].(pc := if o == Paused then Done(o, false) else Releasing(o))]
    {
      AddToTotal(o);
      calls := calls[c := calls[c].(pc := if o == Paused then Done(o, false) else Releasing(o))];
      Log(Record(c));
    }

    method ReleaseLock(c: CallId, o: Outcome)
      requires Inside(c) && calls[c].pc == Releasing(o)
      modifies `calls, `repoMu, `history
      ensures Inside(c) && Grew()
      ensures calls == old(calls)[c := old(calls)[c].(pc := Done(o, false))]
    {
      repoMu := repoMu - {calls[c].repo.name};
      calls := calls[c := calls[c].(pc := Done(o, false))];
      Log(Unlock(c));
    }

    /** The counter, then the deferred mu.Unlock(). */
    method Finish(c: CallId, o: Outcome)
      requires Inside(c) && calls[c].pc == Recording(o) && o != Paused
      modifies this
      ensures Inside(c) && Grew() && calls[c] == old(calls)[c].(pc := Done(o, false))
    {
      Interfere();
      Settle(c, o);
      Interfere();
      ReleaseLock(c, o);
    }

    /** Docker's answer about the next container of the inspect: it may be gone,
        the command may fail, or a status comes back. */
    method InspectNext(c: CallId) returns (status: Result<bool>)
      requires Inside(c) && calls[c].pc.Inspecting? && calls[c].pc.todo != []
      modifies this
      ensures Inside(c) && Grew()
      ensures status.Err? ==> calls[c] == old(calls)[c].(pc := Recording(Failed))
      ensures status.Ok? ==>
                && calls[c].pc.Inspecting?
                && calls[c] == old(calls)[c].(pc := calls[c].pc)
                && calls[c].pc.todo == old(calls)[c].pc.todo[1..]
                && calls[c].pc.running == old(calls)[c].pc.running + (if status.value then 1 else 0)
    {
      Interfere();
      var id := calls[c].pc.todo[0];
      if id !in daemon.containers || !answers[c].inspect {
        Advance(c, Recording(Failed), InspectFails(c));
        return Err;
      }
      status := Ok(daemon.containers[id].running);
      Advance(c, AfterInspect(daemon, calls[c].pc), SpawnProtocol.Inspect(c));
    }

    /** The `ps` of the count. */
    method ListRepo(c: CallId) returns (ids: Result<seq<Id>>)
      requires Inside(c) && calls[c].pc.Listing?
      modifies this
      ensures Inside(c) && Grew()
      ensures ids.Ok? <==> answers[c].ps
      ensures ids.Ok? ==> Lists(ids.value, daemon, calls[c].repo.name)
      ensures calls[c] == old(calls)[c].(pc := if ids.Err? then Recording(Failed)
                else Inspecting(ids.value, 0, Audit(RunningSet(daemon, calls[c].repo.name), {})))
    {
      Interfere();
      if !answers[c].ps {
        Advance(c, Recording(Failed), PsFails(c));
        return Err;
      }
      var name := calls[c].repo.name;
      var listed := InSomeOrder(ListedSet(daemon, name));
      Advance(c, Inspecting(listed, 0, Audit(RunningSet(daemon, name), {})), Ps(c, listed));
      return Ok(listed);
    }

    /** Count the repo's containers that are actually running: `ps`, then one
        inspect per id. */
    method CountRunning(c: CallId) returns (r: Result<nat>)
      requires Inside(c) && calls[c].pc.Listing?
      modifies this
      ensures Inside(c) && Grew() && calls[c] == old(calls)[c].(pc := calls[c].pc)
      ensures if r.Err? then calls[c].pc == Recording(Failed)
              else calls[c].pc.Inspecting? && calls[c].pc.todo == [] && calls[c].pc.running == r.value
      ensures r.Ok? ==> RunningOf(daemon, calls[c].repo.name) <= r.value <= |calls[c].pc.audit.atPs|
      ensures r.Ok? ==> answers[c].ps
    {
      var ids := ListRepo(c);
      if ids.Err? { return Err; }
      var running := 0;
      for i := 0 to |ids.value|
        invariant Inside(c) && Grew() && calls[c] == old(calls)[c].(pc := calls[c].pc)
        invariant calls[c].pc.Inspecting? && calls[c].pc.todo == ids.value[i..] && calls[c].pc.running == running
      {
        var status := InspectNext(c);
        if status.Err? { return Err; }
        if status.value { running := running + 1; }
      }
      Reached();
      CountBetween(daemon, calls[c].repo.name, calls[c].pc);
      return Ok(running);
    }

    /** An id the daemon has never handed out. */
    method FreshId() returns (id: Id)
      ensures id !in daemon.used
    {
      id := *;
      var rest := daemon.used.Keys;
      while rest != {}
        invariant rest <= daemon.used.Keys
        invariant forall x | x in daemon.used :: x in rest || x < id
        decreases rest
      {
        var x :| x in rest;
        if id <= x { id := x + 1; }
        rest := rest - {x};
      }
    }

    /** `docker run` takes effect, if it does, before it returns. */
    method RunContainer(c: CallId, id: Id, container: string) returns (ok: bool)
      requires Inside(c) && calls[c].pc.Launching? && answers[c].envFile && id !in daemon.used
      modifies `calls, `daemon, `history
      ensures Inside(c) && Grew()
      ensures calls == old(calls)[c := old(calls)[c].(pc := Recording(if ok then Spawned else Failed))]
      ensures ok <==> answers[c].run.RunOk?
      ensures daemon == if ok || answers[c].run.started then Start(old(daemon), id, old(calls)[c].repo.name, container)
                        else old(daemon)
    {
      ok := answers[c].run.RunOk?;
      var started := ok || answers[c].run.started;
      if started { daemon := Start(daemon, id, calls[c].repo.name, container); }
      calls := calls[c := calls[c].(pc := Recording(if ok then Spawned else Failed))];
      Log(DockerRun(c, id, container, started, ok));
    }

    /** Write the env file and run `docker run`. On error the container may
        exist all the same. */
    method Launch(c: CallId, container: string) returns (ok: bool)
      requires Inside(c) && calls[c].pc.Launching?
      modifies this
      ensures Inside(c) && Grew() && calls[c] == old(calls)[c].(pc := Recording(if ok then Spawned else Failed))
      ensures ok <==> answers[c].envFile && answers[c].run.RunOk?
    {
      Interfere();
      if !answers[c].envFile {
        Advance(c, Recording(Failed), EnvFileFails(c));
        return false;
      }
      var id := FreshId();
      ok := RunContainer(c, id, container);
    }

    /** Read the pause flag, outside the mutex. */
    method LoadPaused(c: CallId) returns (p: bool)
      requires Inside(c) && calls[c].pc.Entered?
      modifies `calls, `history
      ensures Inside(c) && Grew() && p == paused
      ensures calls == old(calls)[c := old(calls)[c].(pc := if p then Recording(Paused) else Admitted)]
    {
      p := paused;
      Advance(c, if p then Recording(Paused) else Admitted, LoadPause(c));
    }

    method LeavePaused(c: CallId)
      requires Inside(c) && calls[c].pc == Recording(Paused)
      modifies this
      ensures Inside(c) && Grew() && calls[c] == old(calls)[c].(pc := Done(Paused, false))
    {
      Interfere();
      Settle(c, Paused);
    }

    /** From the pause check, outside the mutex, to holding the mutex. */
    method Admit(c: CallId) returns (p: bool)
      requires Inside(c) && calls[c].pc.Entered?
      modifies this
      ensures Inside(c) && Grew() && calls[c] == old(calls)[c].(pc := if p then Done(Paused, false) else Checking)
    {
      Interfere();
      p := LoadPaused(c);
      if p { LeavePaused(c); } else { LockRepo(c); }
    }

    /** Leave the critical section with an outcome the step has settled on. */
    method Conclude(c: CallId, o: Outcome, ghost step: Step)
      requires Inside(c) && Enabled(Snapshot(), step) && OfCall(step) && step.c == c
      requires PcAfter(Snapshot(), step) == Recording(o) && Answered(Snapshot(), step, answers[c])
      requires o != Paused && (step.IdleCheck? || step.Decide?)
      modifies this
      ensures Inside(c) && Grew() && calls[c] == old(calls)[c].(pc := Done(o, false))
    {
      Advance(c, Recording(o), step);
      Finish(c, o);
    }

    method LaunchAndFinish(c: CallId, container: string) returns (err: Outcome)
      requires Inside(c) && calls[c].pc.Launching?
      modifies this
      ensures Inside(c) && Grew() && calls[c] == old(calls)[c].(pc := Done(err, false))
      ensures err == if answers[c].envFile && answers[c].run.RunOk? then Spawned else Failed
    {
      var ok := Launch(c, container);
      err := if ok then Spawned else Failed;
      Finish(c, err);
    }

    /** Compare the count with the cap and act on it. */
    method DecideAndRun(c: CallId, running: nat, container: string) returns (err: Outcome)
      requires Inside(c) && calls[c].pc.Inspecting? && calls[c].pc.todo == [] && running == calls[c].pc.running
      modifies this
      ensures Inside(c) && Grew() && calls[c] == old(calls)[c].(pc := Done(err, false))
      ensures err == if running >= old(calls)[c].repo.maxConcurrency then CapHit
                     else if dryRun || (answers[c].envFile && answers[c].run.RunOk?) then Spawned else Failed
    {
      if running >= calls[c].repo.maxConcurrency {
        Conclude(c, CapHit, Decide(c));
        return CapHit;
      }
      if dryRun {
        Conclude(c, Spawned, Decide(c));
        return Spawned;
      }
      Advance(c, Launching, Decide(c));
      err := LaunchAndFinish(c, container);
    }

    /** The end of the critical section: count, compare with the cap, run. */
    method CountAndRun(c: CallId, container: string) returns (err: Outcome)
      requires Inside(c) && calls[c].pc.Listing?
      modifies this
      ensures Inside(c) && Grew() && calls[c] == old(calls)[c].(pc := Done(err, false))
      ensures err == Spawned || err == CapHit || err == Failed
      ensures err != Failed ==> answers[c].ps
      ensures err == Spawned && !dryRun ==> answers[c].envFile && answers[c].run.RunOk?
    {
      var counted := CountRunning(c);
      if counted.Err? {
        Finish(c, Failed);
        return Failed;
      }
      err := DecideAndRun(c, counted.value, container);
    }

    /** The critical section: the idle check against GitHub, where a failure is
        only logged, then counting and running. */
    method CheckCountRun(c: CallId, matchLabels: seq<string>, runners: Result<seq<Runner>>, container: string)
      returns (err: Outcome)
      requires Inside(c) && calls[c].pc.Checking?
      requires answers[c].idle <==> runners.Ok? && IdleMatch(runners.value, matchLabels)
      modifies this
      ensures Inside(c) && Grew() && calls[c] == old(calls)[c].(pc := Done(err, false))
      ensures (err == IdleSkip <==> runners.Ok? && IdleMatch(runners.value, matchLabels)) && err != Paused
      ensures err == Spawned || err == CapHit ==> answers[c].ps
      ensures err == Spawned && !dryRun ==> answers[c].envFile && answers[c].run.RunOk?
    {
      Interfere();
      var idle := false;
      if runners.Ok? {
        idle := HasIdleMatchingRunner(runners.value, matchLabels);
      }
      if idle {
        Conclude(c, IdleSkip, IdleCheck(c, true));
        return IdleSkip;
      }
      Advance(c, Listing, IdleCheck(c, false));
      err := CountAndRun(c, container);
    }

    /** One Spawn call, start to finish. `runners` is what GitHub answers to the
        idle check, `ps` to `run` what Docker and the file system answer, and the
        name of the container is arbitrary. The call did what it was told at
        every step: this is in Valid. */
    method Spawn(repo: RepoEntry, matchLabels: seq<string>, origin: Origin, runners: Result<seq<Runner>>,
                 ps: bool, inspect: bool, envFile: bool, run: RunReply, container: string)
      returns (c: CallId, err: Outcome)
      requires Ready() && repo in config
      modifies this
      ensures Ready() && Extends(old(history), history)
      ensures c !in old(calls) && old(calls).Keys <= calls.Keys
      ensures c in calls && calls[c] == Call(repo, origin, Done(err, false))
      ensures var idle := runners.Ok? && IdleMatch(runners.value, matchLabels);
              answers == old(answers)[c := Answers(idle, ps, inspect, envFile, run)]
      ensures err != Paused ==> (err == IdleSkip <==> runners.Ok? && IdleMatch(runners.value, matchLabels))
      // A count needs a `ps` that worked; a start, an env file and a `docker run` too.
      ensures err == Spawned || err == CapHit ==> ps
      ensures err == Spawned && !dryRun ==> envFile && run.RunOk?
    {
      var idle := runners.Ok? && IdleMatch(runners.value, matchLabels);
      c := Enter(repo, origin, Answers(idle, ps, inspect, envFile, run));
      var p := Admit(c);
      if p {
        err := Paused;
      } else {
        err := CheckCountRun(c, matchLabels, runners, container);
      }
      active := None;
    }

    /** The operator pauses or resumes; calls see it when they next load the flag. */
    method SetPaused(p: bool)
      requires Ready()
      modifies `paused, `history
      ensures Ready() && Grew() && paused == p
      ensures history == Extend(old(history), Step.SetPaused(p))
    {
      paused := p;
      Log(Step.SetPaused(p));
    }

    /** The count the reconciler takes, outside the mutex and hiding every error as
        0. `at` is the past at its `ps`: unless it failed, it counted something
        between what ran then and still runs, and what ran then. */
    method CountRunningNow(name: RepoName, ps: bool, inspect: bool) returns (n: nat, ghost ok: bool, ghost at: Run)
      requires Ready()
      modifies this
      ensures Ready() && Grew() && IsRun(at) && Extends(old(history), at) && Extends(at, history)
      ensures if ok then |RunningSet(Last(at).daemon, name) * RunningSet(daemon, name)| <= n
                           <= RunningOf(Last(at).daemon, name)
              else n == 0
      ensures ps && inspect && ListedSet(Last(at).daemon, name) <= ListedSet(daemon, name) ==> ok
    {
      n, ok := 0, false;
      Interfere();
      at := history;
      if !ps { return; }
      var ids := InSomeOrder(ListedSet(daemon, name));
      ghost var counted: set<Id> := {};
      for i := 0 to |ids|
        invariant Ready() && Grew() && Extends(at, history)
        invariant Counted(Last(at).daemon, daemon, name, ids, i, counted) && n == |counted|
      {
        ghost var was := history;
        Interfere();
        CountedLater(at, was, history, name, ids, i, counted);
        if ids[i] !in daemon.containers || !inspect {
          assert ids[i] in Elements(ids);
          return 0, false, at;
        }
        var running := daemon.containers[ids[i]].running;
        CountedNext(Last(at).daemon, daemon, name, ids, i, counted);
        if running {
          n := n + 1;
          counted := counted + {ids[i]};
        }
      }
      CountedAll(Last(at).daemon, daemon, name, ids, counted);
      ok := true;
    }

    /** Only the reconciler calls this, after a Spawn of its own returned nil. */
    method IncReconcile(c: CallId)
      requires Ready() && c in calls && calls[c].origin.Reconciler?
      requires calls[c].pc.Done? && !calls[c].pc.credited && NilOutcome(calls[c].pc.outcome)
      modifies `calls, `history, `totalReconcile
      ensures Ready() && Grew()
      ensures calls == old(calls)[c := old(calls)[c].(pc := Done(old(calls)[c].pc.outcome, true))]
      ensures totalReconcile == Bump(old(totalReconcile))
    {
      totalReconcile := Bump(totalReconcile);
      calls := calls[c := calls[c].(pc := Done(calls[c].pc.outcome, true))];
      Log(Credit(c));
    }

    /** No name runs more than ran at start-up or than its largest configured cap. */
    ghost predicate WithinCaps()
      requires Valid()
      reads this
    {
      forall name :: RunningOf(daemon, name)
        <= Max(RunningOf(history.states[0].daemon, name), MaxCap(config, name))
    }

    /** The cap, read off the object, however it got here. */
    lemma CapHolds()
      requires Valid()
      ensures WithinCaps()
    {
      ConfigNeverChanges(history, |history.states| - 1);
      forall name ensures RunningOf(daemon, name)
          <= Max(RunningOf(history.states[0].daemon, name), MaxCap(config, name)) {
        CapSafety(history, |history.states| - 1, name);
      }
    }
  }

  /** A call that the others leave in peace and whose answers are good: below
      the cap it starts exactly one container, at the cap none. */
  lemma UndisturbedSpawn(a: Run, b: Run, answers: map<CallId, Answers>, c: CallId, repo: RepoEntry)
    requires IsRun(a) && IsRun(b) && Extends(a, b) && Init(b.states[0]) && !Last(a).dryRun
    requires Settled(Last(a), repo.name) && Settled(Last(b), repo.name)
    requires NewCalls(Last(a), Last(b), repo.name) == {c} && Last(b).calls[c].repo == repo
    requires Faithful(b, answers) && c in answers && Good(answers[c])
    requires OthersQuiet(a, b, repo.name, repo.maxConcurrency, {c})
    ensures var before, after := RunningOf(Last(a).daemon, repo.name), RunningOf(Last(b).daemon, repo.name);
            var err := Last(b).calls[c].pc.outcome;
            if before < repo.maxConcurrency then err == Spawned && after == before + 1
            else err == CapHit && after == before
  {
    OwnCallsCatchUp(a, b, repo.name, repo.maxConcurrency, answers, {c});
    var started, hit := NewWith(Last(a), Last(b), repo.name, Spawned), NewWith(Last(a), Last(b), repo.name, CapHit);
    assert c in started + hit;
    if c in started { assert started == {c}; } else { assert hit == {c}; }
  }
}
