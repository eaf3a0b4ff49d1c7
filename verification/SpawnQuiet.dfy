/** Calls whose answers from GitHub and Docker are known, among others that may
    do anything: the steps such a call takes, and what a stretch of a run comes
    to when only the others have to keep quiet. */
module SpawnQuiet {
  import opened Basics
  import opened World
  import opened SpawnProtocol
  import opened SpawnSafety
  import opened SpawnSchedules

  /** `docker run`: it worked, or it failed and started its container or did not. */
  datatype RunReply = RunOk | RunFailed(started: bool)

  /** What one Spawn call is told: whether GitHub shows an idle match, whether
      `ps`, the inspect and the env file work, and what `docker run` says. */
  datatype Answers = Answers(idle: bool, ps: bool, inspect: bool, envFile: bool, run: RunReply)

  /** The step is the one the answers call for. An inspect also fails when its
      container has vanished. */
  predicate Answered(s: State, step: Step, a: Answers)
    requires Enabled(s, step)
  {
    match step
    case IdleCheck(_, idle) => idle == a.idle
    case Ps(_, _) => a.ps
    case PsFails(_) => !a.ps
    case Inspect(_) => a.inspect
    case InspectFails(c) => a.inspect ==> s.calls[c].pc.todo[0] !in s.daemon.containers
    case EnvFileFails(_) => !a.envFile
    case DockerRun(_, _, _, started, ok) =>
      a.envFile && (if ok then a.run.RunOk? else a.run == RunFailed(started))
    case _ => true
  }

  /** Every step of the calls with known answers is the one called for. */
  ghost predicate Faithful(r: Run, answers: map<CallId, Answers>)
    requires IsRun(r)
  {
    forall i | 0 <= i < |r.steps| && OfCall(r.steps[i]) && r.steps[i].c in answers ::
      Answered(r.states[i], r.steps[i], answers[r.steps[i].c])
  }

  lemma FaithfulExtend(r: Run, step: Step, answers: map<CallId, Answers>)
    requires IsRun(r) && Faithful(r, answers) && Enabled(Last(r), step) && IsRun(Extend(r, step))
    requires OfCall(step) && step.c in answers ==> Answered(Last(r), step, answers[step.c])
    ensures Faithful(Extend(r, step), answers)
  {
    var e := Extend(r, step);
    forall i | 0 <= i < |e.steps| && OfCall(e.steps[i]) && e.steps[i].c in answers
      ensures Answered(e.states[i], e.steps[i], answers[e.steps[i].c])
    {
      if i < |r.steps| { assert e.steps[i] == r.steps[i] && e.states[i] == r.states[i]; }
    }
  }

  lemma {:induction false} CallsOnlyGrow(r: Run, i: nat, j: nat)
    requires IsRun(r) && i <= j < |r.states|
    ensures r.states[i].calls.Keys <= r.states[j].calls.Keys
  {
    if i == j {
    } else {
      CallsOnlyGrow(r, i, j - 1);
    }
  }

  /** A call that is not there yet has taken no step. */
  lemma FaithfulToNew(r: Run, answers: map<CallId, Answers>, c: CallId, a: Answers)
    requires IsRun(r) && Faithful(r, answers) && c !in Last(r).calls
    ensures Faithful(r, answers[c := a])
  {
    forall i | 0 <= i < |r.steps| && OfCall(r.steps[i]) && r.steps[i].c in answers[c := a]
      ensures Answered(r.states[i], r.steps[i], answers[c := a][r.steps[i].c])
    {
      assert Enabled(r.states[i], r.steps[i]);
      CallsOnlyGrow(r, i, |r.states| - 1);
    }
  }

  predicate Extends(a: Run, b: Run) {
    a.states <= b.states && a.steps <= b.steps
  }

  // ----- a stretch of a run -----

  lemma {:induction false} RunEvolves(r: Run, i: nat, j: nat)
    requires IsRun(r) && Init(r.states[0]) && i <= j < |r.states|
    ensures Consistent(r.states[i].daemon) && Evolves(r.states[i].daemon, r.states[j].daemon)
  {
    InitInv(r.states[0]);
    InvAlways(r, i);
    if i == j {
    } else {
      RunEvolves(r, i, j - 1);
      InvAlways(r, j - 1);
      StepEvolves(r.states[j - 1], r.steps[j - 1]);
      EvolvesTransitive(r.states[i].daemon, r.states[j - 1].daemon, r.states[j].daemon);
    }
  }

  /** The daemon at the end of a longer run is what became of it. */
  lemma DaemonEvolved(a: Run, b: Run)
    requires IsRun(a) && IsRun(b) && Extends(a, b) && Init(b.states[0])
    ensures Consistent(Last(a).daemon) && Evolves(Last(a).daemon, Last(b).daemon)
  {
    RunEvolves(b, |a.states| - 1, |b.states| - 1);
    assert b.states[|a.states| - 1] == Last(a);
  }

  lemma QuietListing(s: State, step: Step, name: RepoName, K: int)
    requires Enabled(s, step) && QuietStep(s, step, name, K) && Consistent(s.daemon)
    ensures ListedSet(s.daemon, name) <= ListedSet(Apply(s, step).daemon, name)
  {
  }

  /** On a quiet name nothing stops and nothing vanishes. */
  lemma {:induction false} QuietOnlyAdds(r: Run, i: nat, j: nat, name: RepoName, K: int)
    requires IsRun(r) && Init(r.states[0]) && i <= j < |r.states|
    requires forall k | i <= k < j :: QuietStep(r.states[k], r.steps[k], name, K)
    ensures RunningSet(r.states[i].daemon, name) <= RunningSet(r.states[j].daemon, name)
    ensures ListedSet(r.states[i].daemon, name) <= ListedSet(r.states[j].daemon, name)
  {
    if i == j {
    } else {
      QuietOnlyAdds(r, i, j - 1, name, K);
      var s, step := r.states[j - 1], r.steps[j - 1];
      InitInv(r.states[0]);
      InvAlways(r, j - 1);
      QuietContainers(s, step, name, K);
      QuietListing(s, step, name, K);
    }
  }

  /** The run b after its beginning a. */
  function Since(a: Run, b: Run): Run
    requires IsRun(a) && IsRun(b) && Extends(a, b)
  {
    Run(b.states[|a.steps|..], b.steps[|a.steps|..])
  }

  ghost predicate QuietSince(a: Run, b: Run, name: RepoName, K: int)
    requires IsRun(a) && IsRun(b) && Extends(a, b)
  {
    forall i | |a.steps| <= i < |b.steps| :: QuietStep(b.states[i], b.steps[i], name, K)
  }

  lemma SinceIsRun(a: Run, b: Run)
    requires IsRun(a) && IsRun(b) && Extends(a, b)
    ensures IsRun(Since(a, b)) && Since(a, b).states[0] == Last(a) && Last(Since(a, b)) == Last(b)
  {
    var r := Since(a, b);
    forall i | 0 <= i < |r.steps|
      ensures Enabled(r.states[i], r.steps[i]) && r.states[i + 1] == Apply(r.states[i], r.steps[i])
    {
      assert r.states[i] == b.states[|a.steps| + i] && r.steps[i] == b.steps[|a.steps| + i];
    }
  }

  /** What a stretch comes to, if it was quiet and nothing on the name was under
      way at either end: min(N, max(0, K - running)) of its N calls on the name
      started a container, and the others hit the cap. */
  ghost predicate CaughtUp(s0: State, s: State, name: RepoName, K: int) {
    var N := |NewCalls(s0, s, name)|;
    var started := Min(N, Max(0, K - RunningOf(s0.daemon, name)));
    && |NewWith(s0, s, name, Spawned)| == started
    && |NewWith(s0, s, name, CapHit)| == N - started
    && RunningOf(s.daemon, name) == RunningOf(s0.daemon, name) + started
    && NewCalls(s0, s, name) == NewWith(s0, s, name, Spawned) + NewWith(s0, s, name, CapHit)
  }

  lemma QuietStretch(a: Run, b: Run, name: RepoName, K: int)
    requires IsRun(a) && IsRun(b) && Extends(a, b) && Init(b.states[0])
    requires !Last(a).dryRun && Settled(Last(a), name) && Settled(Last(b), name)
    requires QuietSince(a, b, name, K)
    ensures CaughtUp(Last(a), Last(b), name, K)
  {
    SinceIsRun(a, b);
    var r := Since(a, b);
    InitInv(b.states[0]);
    InvAlways(b, |a.steps|);
    forall i | 0 <= i < |r.steps| ensures QuietStep(r.states[i], r.steps[i], name, K) {
      assert r.states[i] == b.states[|a.steps| + i] && r.steps[i] == b.steps[|a.steps| + i];
    }
    ScheduleIndependence(r, name, K);
  }

  /** At every moment of a quiet stretch, the running count follows the calls
      that have started something. */
  lemma QuietBalance(a: Run, b: Run, name: RepoName, K: int)
    requires IsRun(a) && IsRun(b) && Extends(a, b) && Init(b.states[0])
    requires !Last(a).dryRun && Settled(Last(a), name) && QuietSince(a, b, name, K)
    ensures Balanced(Last(a), Last(b), name, K)
  {
    SinceIsRun(a, b);
    var r := Since(a, b);
    InitInv(b.states[0]);
    InvAlways(b, |a.steps|);
    forall i | 0 <= i < |r.steps| ensures QuietStep(r.states[i], r.steps[i], name, K) {
      assert r.states[i] == b.states[|a.steps| + i] && r.steps[i] == b.steps[|a.steps| + i];
    }
    BurstAlways(r, |r.states| - 1, name, K);
  }

  // ----- quiet others, good answers -----

  /** No idle runner, and everything works. */
  predicate Good(a: Answers) {
    !a.idle && a.ps && a.inspect && a.envFile && a.run.RunOk?
  }

  /** From a to b everyone but `own` keeps quiet on the name, and nobody pauses. */
  ghost predicate OthersQuiet(a: Run, b: Run, name: RepoName, K: int, own: set<CallId>)
    requires IsRun(a) && IsRun(b) && Extends(a, b)
  {
    forall i | |a.steps| <= i < |b.steps| ::
      && !b.states[i].paused
      && ((OfCall(b.steps[i]) && b.steps[i].c in own) || QuietStep(b.states[i], b.steps[i], name, K))
  }

  /** What is still to be inspected on the name has not vanished. */
  ghost predicate NothingVanished(s: State, name: RepoName) {
    forall c | OnName(s, c, name) && s.calls[c].pc.Inspecting? ::
      forall k | 0 <= k < |s.calls[c].pc.todo| :: s.calls[c].pc.todo[k] in ListedSet(s.daemon, name)
  }

  lemma QuietKeepsListed(s: State, step: Step, name: RepoName, K: int)
    requires Enabled(s, step) && QuietStep(s, step, name, K) && Consistent(s.daemon) && NothingVanished(s, name)
    ensures NothingVanished(Apply(s, step), name)
  {
    var s' := Apply(s, step);
    QuietListing(s, step, name, K);
    forall c | OnName(s', c, name) && s'.calls[c].pc.Inspecting?
      ensures forall k | 0 <= k < |s'.calls[c].pc.todo| :: s'.calls[c].pc.todo[k] in ListedSet(s'.daemon, name)
    {
      if step.Ps? && step.c == c {
        forall k | 0 <= k < |step.ids| ensures step.ids[k] in ListedSet(s'.daemon, name) {
          assert step.ids[k] in Elements(step.ids);
        }
      } else if step == Inspect(c) {
        assert s'.calls[c].pc.todo == s.calls[c].pc.todo[1..];
      } else {
        CountStands(s, step, c);
      }
    }
  }

  lemma FirstIsThere(s: State, c: CallId, name: RepoName)
    requires OnName(s, c, name) && s.calls[c].pc.Inspecting? && s.calls[c].pc.todo != [] && NothingVanished(s, name)
    ensures s.calls[c].pc.todo[0] in s.daemon.containers
  {
    assert s.calls[c].pc.todo[0] in ListedSet(s.daemon, name);
  }

  /** A call with good answers only takes quiet steps, as long as nothing it has
      listed vanishes and the pause flag is down. */
  lemma GoodIsQuiet(s: State, step: Step, a: Answers, name: RepoName, K: int)
    requires Enabled(s, step) && OfCall(step) && Answered(s, step, a) && Good(a)
    requires !s.paused && NothingVanished(s, name)
    ensures QuietStep(s, step, name, K)
  {
    if step.InspectFails? && OnName(s, step.c, name) { FirstIsThere(s, step.c, name); }
  }

  lemma QuietNext(s: State, step: Step, name: RepoName, K: int, answers: map<CallId, Answers>, own: set<CallId>)
    requires Inv(s) && Enabled(s, step) && !s.paused && NothingVanished(s, name)
    requires own <= answers.Keys && (forall c | c in own :: Good(answers[c]))
    requires OfCall(step) && step.c in answers ==> Answered(s, step, answers[step.c])
    requires (OfCall(step) && step.c in own) || QuietStep(s, step, name, K)
    ensures QuietStep(s, step, name, K) && NothingVanished(Apply(s, step), name)
  {
    if OfCall(step) && step.c in own { GoodIsQuiet(s, step, answers[step.c], name, K); }
    QuietKeepsListed(s, step, name, K);
  }

  lemma {:induction false} QuietUpTo(a: Run, b: Run, name: RepoName, K: int,
                                     answers: map<CallId, Answers>, own: set<CallId>, k: nat)
    requires IsRun(a) && IsRun(b) && Extends(a, b) && Init(b.states[0]) && |a.steps| <= k <= |b.steps|
    requires Faithful(b, answers) && own <= answers.Keys && (forall c | c in own :: Good(answers[c]))
    requires Settled(Last(a), name) && OthersQuiet(a, b, name, K, own)
    ensures NothingVanished(b.states[k], name)
    ensures forall i | |a.steps| <= i < k :: QuietStep(b.states[i], b.steps[i], name, K)
  {
    if k > |a.steps| {
      QuietUpTo(a, b, name, K, answers, own, k - 1);
      var s, step := b.states[k - 1], b.steps[k - 1];
      InitInv(b.states[0]);
      InvAlways(b, k - 1);
      QuietNext(s, step, name, K, answers, own);
      assert b.states[k] == Apply(s, step);
    } else {
      assert b.states[k] == Last(a);
    }
  }

  /** Quiet others and good answers suffice: however the calls of `own` and the
      others interleave, the stretch comes out as if in a quiet world. */
  lemma OwnCallsCatchUp(a: Run, b: Run, name: RepoName, K: int, answers: map<CallId, Answers>, own: set<CallId>)
    requires IsRun(a) && IsRun(b) && Extends(a, b) && Init(b.states[0])
    requires !Last(a).dryRun && Settled(Last(a), name) && Settled(Last(b), name)
    requires Faithful(b, answers) && own <= answers.Keys && (forall c | c in own :: Good(answers[c]))
    requires OthersQuiet(a, b, name, K, own)
    ensures CaughtUp(Last(a), Last(b), name, K)
  {
    QuietUpTo(a, b, name, K, answers, own, |b.steps|);
    QuietStretch(a, b, name, K);
  }
}
