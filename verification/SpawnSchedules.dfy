/** What the interleaving cannot change: the number of containers a burst of
    calls starts. */
module SpawnSchedules {
  import opened Basics
  import opened World
  import opened SpawnProtocol
  import opened SpawnSafety

  predicate OnName(s: State, c: CallId, name: RepoName) {
    c in s.calls && s.calls[c].repo.name == name
  }

  /** A step that leaves `name` quiet: none of its containers exits or is
      removed, none of its calls fails, finds an idle runner or meets the pause
      flag, and every new call on it carries the cap K. Other repos, and calls
      of this one among themselves, move freely. */
  predicate QuietStep(s: State, step: Step, name: RepoName, K: int)
    requires Enabled(s, step)
  {
    match step
    case Arrive(c, repo, _) => repo.name == name ==> repo.maxConcurrency == K
    case LoadPause(c) => OnName(s, c, name) ==> !s.paused
    case IdleCheck(c, idle) => OnName(s, c, name) ==> !idle
    case PsFails(c) => !OnName(s, c, name)
    case InspectFails(c) => !OnName(s, c, name)
    case EnvFileFails(c) => !OnName(s, c, name)
    case DockerRun(c, _, _, _, ok) => OnName(s, c, name) ==> ok
    case Exit(id) => s.daemon.containers[id].repo != name
    case Remove(id) => s.daemon.containers[id].repo != name
    case _ => true
  }

  ghost predicate QuietRun(r: Run, name: RepoName, K: int)
    requires IsRun(r)
  {
    forall i | 0 <= i < |r.steps| :: QuietStep(r.states[i], r.steps[i], name, K)
  }

  /** Nothing is under way on `name`. */
  ghost predicate Settled(s: State, name: RepoName) {
    forall c | OnName(s, c, name) :: s.calls[c].pc.Done?
  }

  /** The calls on `name` that arrived after `s0`. */
  function NewCalls(s0: State, s: State, name: RepoName): set<CallId> {
    set c | c in s.calls && c !in s0.calls && s.calls[c].repo.name == name
  }

  predicate EndsIn(pc: Pc, o: Outcome) {
    (pc.Recording? || pc.Releasing? || pc.Done?) && pc.outcome == o
  }

  /** New calls on `name` whose outcome is `o`. */
  function NewWith(s0: State, s: State, name: RepoName, o: Outcome): set<CallId> {
    set c | c in NewCalls(s0, s, name) && EndsIn(s.calls[c].pc, o)
  }

  /** Outside a quiet name's calls only counting and launching add something. */
  ghost predicate NewCallOk(call: Call, K: int) {
    && call.repo.maxConcurrency == K
    && ((call.pc.Recording? || call.pc.Releasing? || call.pc.Done?)
          ==> call.pc.outcome == Spawned || call.pc.outcome == CapHit)
  }

  /** The running count follows the calls that started something. */
  ghost predicate Balanced(s0: State, s: State, name: RepoName, K: int) {
    && RunningOf(s.daemon, name) == RunningOf(s0.daemon, name) + |NewWith(s0, s, name, Spawned)|
    && (NewWith(s0, s, name, Spawned) != {} ==> RunningOf(s.daemon, name) <= K)
    && (NewWith(s0, s, name, CapHit) != {} ==> RunningOf(s.daemon, name) >= K)
  }

  /** The state of a quiet burst on `name` that began in the settled state s0. */
  ghost predicate BurstInv(s0: State, s: State, name: RepoName, K: int) {
    && s.dryRun == s0.dryRun
    && (forall c | c in s0.calls :: c in s.calls && s.calls[c].repo == s0.calls[c].repo)
    && (forall c | c in s0.calls && OnName(s, c, name) :: s.calls[c].pc.Done?)
    && (forall c | c in NewCalls(s0, s, name) :: NewCallOk(s.calls[c], K))
    // No container of the name is ever lost, so what has been counted still runs.
    && (forall c | OnName(s, c, name) && s.calls[c].pc.Inspecting? ::
          s.calls[c].pc.audit.counted <= RunningSet(s.daemon, name))
    && Balanced(s0, s, name, K)
  }

  /** A quiet step leaves the name's running containers alone, unless it is a
      `docker run` of the name, which adds one. */
  lemma QuietContainers(s: State, step: Step, name: RepoName, K: int)
    requires Enabled(s, step) && QuietStep(s, step, name, K) && Consistent(s.daemon)
    ensures var s' := Apply(s, step);
            if step.DockerRun? && OnName(s, step.c, name)
            then step.id !in RunningSet(s.daemon, name)
                 && RunningSet(s'.daemon, name) == RunningSet(s.daemon, name) + {step.id}
            else RunningSet(s'.daemon, name) == RunningSet(s.daemon, name)
  {
    if step.DockerRun? && step.started {
      RunningAfterStart(s.daemon, step.id, s.calls[step.c].repo.name, step.name, name);
    }
  }

  /** In a quiet burst the count a call decides on is exact. */
  lemma QuietCountIsExact(s0: State, s: State, name: RepoName, K: int, c: CallId)
    requires Inv(s) && BurstInv(s0, s, name, K) && Enabled(s, Decide(c)) && OnName(s, c, name)
    ensures s.calls[c].pc.running == RunningOf(s.daemon, name)
  {
    var pc := s.calls[c].pc;
    CountBetween(s.daemon, name, pc);
    assert CountSound(s.daemon, name, pc);
    SubsetSize(pc.audit.counted, RunningSet(s.daemon, name));
  }

  /** The outcome a step settles on, if it does. */
  function Decides(s: State, step: Step): Option<Outcome>
    requires Enabled(s, step)
  {
    match step
    case LoadPause(_) => if s.paused then Some(Paused) else None
    case IdleCheck(_, idle) => if idle then Some(IdleSkip) else None
    case PsFails(_) => Some(Failed)
    case InspectFails(_) => Some(Failed)
    case EnvFileFails(_) => Some(Failed)
    case Decide(c) =>
      if s.calls[c].pc.running >= s.calls[c].repo.maxConcurrency then Some(CapHit)
      else if s.dryRun then Some(Spawned) else None
    case DockerRun(_, _, _, _, ok) => Some(if ok then Spawned else Failed)
    case _ => None
  }

  lemma OutcomeOfStep(s: State, step: Step, o: Outcome)
    requires Enabled(s, step) && OfCall(step)
    ensures EndsIn(PcAfter(s, step), o) <==> EndsIn(s.calls[step.c].pc, o) || Decides(s, step) == Some(o)
    ensures Decides(s, step).Some? ==> !EndsIn(s.calls[step.c].pc, o)
  {
  }

  /** Which new calls have an outcome after a step. */
  lemma BurstOutcomes(s0: State, s: State, step: Step, name: RepoName, o: Outcome)
    requires Enabled(s, step)
    ensures NewWith(s0, Apply(s, step), name, o) == NewWith(s0, s, name, o) +
              (if OfCall(step) && OnName(s, step.c, name) && step.c !in s0.calls && Decides(s, step) == Some(o)
               then {step.c} else {})
  {
    if OfCall(step) {
      OutcomeOfStep(s, step, o);
      CallOutcomes(s0, s, step, name, o);
    } else {
      OthersDecideNothing(s0, s, step, name, o);
    }
  }

  lemma CallOutcomes(s0: State, s: State, step: Step, name: RepoName, o: Outcome)
    requires Enabled(s, step) && OfCall(step)
    ensures NewWith(s0, Apply(s, step), name, o) == NewWith(s0, s, name, o) - {step.c} +
              (if OnName(s, step.c, name) && step.c !in s0.calls && EndsIn(PcAfter(s, step), o) then {step.c} else {})
  {
    assert Apply(s, step).calls == s.calls[step.c := s.calls[step.c].(pc := PcAfter(s, step))];
  }

  lemma OthersDecideNothing(s0: State, s: State, step: Step, name: RepoName, o: Outcome)
    requires Enabled(s, step) && !OfCall(step)
    ensures NewWith(s0, Apply(s, step), name, o) == NewWith(s0, s, name, o)
  {
  }

  /** In a quiet burst a call of the name ends in Spawned or CapHit. */
  lemma QuietDecisions(s: State, step: Step, name: RepoName, K: int)
    requires Enabled(s, step) && QuietStep(s, step, name, K) && !s.dryRun
    requires OfCall(step) && OnName(s, step.c, name)
    ensures Decides(s, step) == Some(Spawned) <==> step.DockerRun?
    ensures Decides(s, step) == Some(CapHit)
       <==> step.Decide? && s.calls[step.c].pc.running >= s.calls[step.c].repo.maxConcurrency
    ensures Decides(s, step).Some? ==> Decides(s, step).value == Spawned || Decides(s, step).value == CapHit
  {
  }

  lemma OldCallsStayDone(s0: State, s: State, step: Step, name: RepoName)
    requires Enabled(s, step)
    requires forall c | c in s0.calls :: c in s.calls && s.calls[c].repo == s0.calls[c].repo
    requires forall c | c in s0.calls && OnName(s, c, name) :: s.calls[c].pc.Done?
    ensures var s' := Apply(s, step);
            && (forall c | c in s0.calls :: c in s'.calls && s'.calls[c].repo == s0.calls[c].repo)
            && (forall c | c in s0.calls && OnName(s', c, name) :: s'.calls[c].pc.Done?)
  {
  }

  lemma NewCallsStayOk(s0: State, s: State, step: Step, name: RepoName, K: int)
    requires Enabled(s, step) && QuietStep(s, step, name, K) && !s.dryRun
    requires forall c | c in NewCalls(s0, s, name) :: NewCallOk(s.calls[c], K)
    ensures forall c | c in NewCalls(s0, Apply(s, step), name) :: NewCallOk(Apply(s, step).calls[c], K)
  {
    forall c | c in NewCalls(s0, Apply(s, step), name) ensures NewCallOk(Apply(s, step).calls[c], K) {
      if OfCall(step) && step.c == c {
        assert c in NewCalls(s0, s, name);
        QuietDecisions(s, step, name, K);
        OutcomeOfStep(s, step, Failed);
        OutcomeOfStep(s, step, IdleSkip);
        OutcomeOfStep(s, step, Paused);
      } else if !step.Arrive? || step.c != c {
        assert c in NewCalls(s0, s, name);
      }
    }
  }

  lemma BurstCountsKept(s: State, step: Step, name: RepoName, K: int, c: CallId)
    requires Enabled(s, step) && QuietStep(s, step, name, K) && Inv(s)
    requires OnName(s, c, name) && s.calls[c].pc.Inspecting? ==>
               s.calls[c].pc.audit.counted <= RunningSet(s.daemon, name)
    requires OnName(Apply(s, step), c, name) && Apply(s, step).calls[c].pc.Inspecting?
    ensures Apply(s, step).calls[c].pc.audit.counted <= RunningSet(Apply(s, step).daemon, name)
  {
    QuietContainers(s, step, name, K);
    if step == Inspect(c) {
      assert CountSound(s.daemon, name, s.calls[c].pc);
      assert s.calls[c].pc.todo[0] in s.calls[c].pc.todo;
    } else if !(step.Ps? && step.c == c) {
      assert s.calls[c].pc == Apply(s, step).calls[c].pc;
    }
  }

  /** What a launching call of a quiet name does to the bookkeeping. */
  lemma LaunchEffect(s0: State, s: State, step: Step, name: RepoName, K: int)
    requires Enabled(s, step) && QuietStep(s, step, name, K) && Consistent(s.daemon)
    requires step.DockerRun? && OnName(s, step.c, name) && step.c !in s0.calls
    ensures var s' := Apply(s, step);
            && step.c !in NewWith(s0, s, name, Spawned)
            && NewWith(s0, s', name, Spawned) == NewWith(s0, s, name, Spawned) + {step.c}
            && NewWith(s0, s', name, CapHit) == NewWith(s0, s, name, CapHit)
            && RunningOf(s'.daemon, name) == RunningOf(s.daemon, name) + 1
  {
    assert Decides(s, step) == Some(Spawned);
    BurstOutcomes(s0, s, step, name, Spawned);
    BurstOutcomes(s0, s, step, name, CapHit);
    QuietContainers(s, step, name, K);
  }

  lemma LaunchKeepsBalance(s0: State, s: State, step: Step, name: RepoName, K: int)
    requires Enabled(s, step) && QuietStep(s, step, name, K) && Inv(s) && BurstInv(s0, s, name, K)
    requires step.DockerRun? && OnName(s, step.c, name)
    ensures Balanced(s0, Apply(s, step), name, K)
  {
    assert step.c in NewCalls(s0, s, name) && NewCallOk(s.calls[step.c], K);
    assert RunningOf(s.daemon, name) < K;
    LaunchEffect(s0, s, step, name, K);
  }

  lemma DecideKeepsBalance(s0: State, s: State, step: Step, name: RepoName, K: int)
    requires Enabled(s, step) && QuietStep(s, step, name, K) && Inv(s) && BurstInv(s0, s, name, K) && !s.dryRun
    requires step.Decide? && OnName(s, step.c, name)
    ensures Balanced(s0, Apply(s, step), name, K)
  {
    assert step.c in NewCalls(s0, s, name) && NewCallOk(s.calls[step.c], K);
    QuietCountIsExact(s0, s, name, K, step.c);
    BurstOutcomes(s0, s, step, name, Spawned);
    BurstOutcomes(s0, s, step, name, CapHit);
    QuietContainers(s, step, name, K);
  }

  lemma BurstBalance(s0: State, s: State, step: Step, name: RepoName, K: int)
    requires Enabled(s, step) && QuietStep(s, step, name, K) && Inv(s) && BurstInv(s0, s, name, K) && !s.dryRun
    ensures Balanced(s0, Apply(s, step), name, K)
  {
    if step.DockerRun? && OnName(s, step.c, name) {
      LaunchKeepsBalance(s0, s, step, name, K);
    } else if step.Decide? && OnName(s, step.c, name) {
      DecideKeepsBalance(s0, s, step, name, K);
    } else {
      QuietContainers(s, step, name, K);
      BurstOutcomes(s0, s, step, name, Spawned);
      BurstOutcomes(s0, s, step, name, CapHit);
      if OfCall(step) && OnName(s, step.c, name) { QuietDecisions(s, step, name, K); }
    }
  }

  lemma BurstStep(s0: State, s: State, step: Step, name: RepoName, K: int)
    requires Enabled(s, step) && QuietStep(s, step, name, K) && Inv(s) && BurstInv(s0, s, name, K) && !s.dryRun
    ensures BurstInv(s0, Apply(s, step), name, K)
  {
    OldCallsStayDone(s0, s, step, name);
    NewCallsStayOk(s0, s, step, name, K);
    forall c | OnName(Apply(s, step), c, name) && Apply(s, step).calls[c].pc.Inspecting?
      ensures Apply(s, step).calls[c].pc.audit.counted <= RunningSet(Apply(s, step).daemon, name)
    {
      BurstCountsKept(s, step, name, K, c);
    }
    BurstBalance(s0, s, step, name, K);
  }

  lemma {:induction false} BurstAlways(r: Run, k: nat, name: RepoName, K: int)
    requires IsRun(r) && Inv(r.states[0]) && !r.states[0].dryRun && Settled(r.states[0], name)
    requires QuietRun(r, name, K) && k < |r.states|
    ensures BurstInv(r.states[0], r.states[k], name, K)
  {
    var s0 := r.states[0];
    if k == 0 {
      assert NewCalls(s0, s0, name) == {};
      assert NewWith(s0, s0, name, Spawned) == {} && NewWith(s0, s0, name, CapHit) == {};
    } else {
      BurstAlways(r, k - 1, name, K);
      InvAlways(r, k - 1);
      BurstStep(s0, r.states[k - 1], r.steps[k - 1], name, K);
    }
  }

  /** When every call has returned, the new ones split into starts and cap hits. */
  lemma BurstSplits(s0: State, s: State, name: RepoName, K: int)
    requires forall c | c in NewCalls(s0, s, name) :: NewCallOk(s.calls[c], K) && s.calls[c].pc.Done?
    ensures |NewCalls(s0, s, name)| == |NewWith(s0, s, name, Spawned)| + |NewWith(s0, s, name, CapHit)|
    ensures NewCalls(s0, s, name) == NewWith(s0, s, name, Spawned) + NewWith(s0, s, name, CapHit)
  {
    var a, b := NewWith(s0, s, name, Spawned), NewWith(s0, s, name, CapHit);
    forall c | c in NewCalls(s0, s, name) ensures c in a + b {
      assert NewCallOk(s.calls[c], K);
    }
    assert NewCalls(s0, s, name) == a + b;
    assert a !! b;
  }

  /** Schedule independence. However N calls on a quiet name with cap K
      interleave, with whatever else goes on, once all have returned exactly
      min(N, max(0, K - running)) of them started a container and every other
      one hit the cap. */
  lemma ScheduleIndependence(r: Run, name: RepoName, K: int)
    requires IsRun(r) && Inv(r.states[0]) && !r.states[0].dryRun && Settled(r.states[0], name)
    requires QuietRun(r, name, K) && Settled(Last(r), name)
    ensures var s0, s := r.states[0], Last(r);
            var N := |NewCalls(s0, s, name)|;
            var started := Min(N, Max(0, K - RunningOf(s0.daemon, name)));
            && |NewWith(s0, s, name, Spawned)| == started
            && |NewWith(s0, s, name, CapHit)| == N - started
            && RunningOf(s.daemon, name) == RunningOf(s0.daemon, name) + started
    ensures NewCalls(r.states[0], Last(r), name)
         == NewWith(r.states[0], Last(r), name, Spawned) + NewWith(r.states[0], Last(r), name, CapHit)
  {
    BurstAlways(r, |r.states| - 1, name, K);
    forall c | c in NewCalls(r.states[0], Last(r), name) ensures Last(r).calls[c].pc.Done? {
      assert OnName(Last(r), c, name);
    }
    BurstSplits(r.states[0], Last(r), name, K);
  }
}
