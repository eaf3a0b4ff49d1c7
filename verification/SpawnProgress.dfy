/** Deadlock freedom and termination of the spawn protocol, assuming that
    Docker and GitHub calls return (with a result or an error). */
module SpawnProgress {
  import opened Basics
  import opened SpawnProtocol
  import opened SpawnSafety

  predicate Finished(pc: Pc) { pc.Done? }

  /** A step the call can take as soon as whatever it waits for answers. */
  function NextStep(s: State, c: CallId): Step
    requires c in s.calls && !Finished(s.calls[c].pc)
  {
    match s.calls[c].pc
    case Entered => LoadPause(c)
    case Admitted => Lock(c)
    case Checking => IdleCheck(c, false)
    case Listing => PsFails(c)
    case Inspecting(todo, _, _) => if todo == [] then Decide(c) else InspectFails(c)
    case Launching => EnvFileFails(c)
    case Recording(_) => Record(c)
    case Releasing(_) => Unlock(c)
  }

  lemma NextStepEnabled(s: State, c: CallId)
    requires c in s.calls && !Finished(s.calls[c].pc)
    requires s.calls[c].pc.Admitted? ==> s.calls[c].repo.name !in s.locks
    ensures Enabled(s, NextStep(s, c)) && OfCall(NextStep(s, c))
  {
  }

  /** Deadlock freedom: an unfinished call can step, or it waits for a mutex
      whose holder can. */
  lemma NoDeadlock(s: State, c: CallId) returns (d: CallId)
    requires Inv(s) && c in s.calls && !Finished(s.calls[c].pc)
    ensures d in s.calls && !Finished(s.calls[d].pc)
    ensures Enabled(s, NextStep(s, d)) && OfCall(NextStep(s, d))
    ensures d != c ==> s.calls[c].pc.Admitted? && s.calls[c].repo.name in s.locks
                       && d == s.locks[s.calls[c].repo.name]
  {
    d := c;
    if s.calls[c].pc.Admitted? && s.calls[c].repo.name in s.locks {
      d := s.locks[s.calls[c].repo.name];
      assert Holds(s.calls[d].pc);
    }
    NextStepEnabled(s, d);
  }

  /** How many phases a call still has before it. */
  function Phase(pc: Pc): nat {
    match pc
    case Entered => 9
    case Admitted => 8
    case Checking => 7
    case Listing => 6
    case Inspecting(_, _, _) => 5
    case Launching => 4
    case Recording(_) => 3
    case Releasing(_) => 2
    case Done(_, credited) => if credited then 0 else 1
  }

  function ToInspect(pc: Pc): nat { if pc.Inspecting? then |pc.todo| else 0 }

  ghost function PhaseOf(calls: map<CallId, Call>): CallId -> nat {
    c => if c in calls then Phase(calls[c].pc) else 0
  }

  ghost function ToInspectOf(calls: map<CallId, Call>): CallId -> nat {
    c => if c in calls then ToInspect(calls[c].pc) else 0
  }

  ghost function Phases(s: State): nat { SumOver(s.calls.Keys, PhaseOf(s.calls)) }

  ghost function Inspects(s: State): nat { SumOver(s.calls.Keys, ToInspectOf(s.calls)) }

  lemma PhaseDrops(s: State, step: Step)
    requires Enabled(s, step) && OfCall(step)
    ensures var pc, pc' := s.calls[step.c].pc, PcAfter(s, step);
            if step.Inspect? then Phase(pc') == Phase(pc) && ToInspect(pc') < ToInspect(pc)
            else Phase(pc') < Phase(pc)
  {
  }

  /** Termination: the pair (phases ahead, inspects ahead), summed over all
      calls, decreases lexicographically with every step of any call. */
  lemma CallStepsDecrease(s: State, step: Step)
    requires Enabled(s, step) && OfCall(step)
    ensures var s' := Apply(s, step);
            Phases(s') < Phases(s) || (Phases(s') == Phases(s) && Inspects(s') < Inspects(s))
  {
    var s' := Apply(s, step);
    assert s'.calls.Keys == s.calls.Keys;
    PhaseDrops(s, step);
    SumOverChange(s.calls.Keys, PhaseOf(s.calls), PhaseOf(s'.calls), step.c);
    SumOverChange(s.calls.Keys, ToInspectOf(s.calls), ToInspectOf(s'.calls), step.c);
  }

  /** The environment never lengthens the work ahead; only new calls do. */
  lemma EnvironmentAddsNoWork(s: State, step: Step)
    requires Enabled(s, step) && !OfCall(step) && !step.Arrive?
    ensures Phases(Apply(s, step)) == Phases(s) && Inspects(Apply(s, step)) == Inspects(s)
  {
  }

  ghost predicate AllFinished(s: State) {
    forall c | c in s.calls :: Finished(s.calls[c].pc)
  }

  /** Every lock is free once all calls have finished. */
  lemma LocksFreeAtTheEnd(s: State)
    requires Inv(s)
    ensures AllFinished(s) ==> s.locks == map[]
  {
    if s.locks != map[] {
      var n :| n in s.locks;
      assert Holds(s.calls[s.locks[n]].pc);
    }
  }

  /** Prepending a step to a run. */
  lemma Prepend(s: State, step: Step, r: Run) returns (r': Run)
    requires Enabled(s, step) && IsRun(r) && r.states[0] == Apply(s, step)
    ensures IsRun(r') && r'.states[0] == s && Last(r') == Last(r)
    ensures r'.steps == [step] + r.steps
  {
    r' := Run([s] + r.states, [step] + r.steps);
  }

  /** Some call can step, and its step brings the end closer. */
  lemma OneStepOn(s: State) returns (step: Step)
    requires Inv(s) && !AllFinished(s)
    ensures Enabled(s, step) && OfCall(step) && Inv(Apply(s, step))
    ensures var s' := Apply(s, step);
            Phases(s') < Phases(s) || (Phases(s') == Phases(s) && Inspects(s') < Inspects(s))
  {
    var c :| c in s.calls && !Finished(s.calls[c].pc);
    var d := NoDeadlock(s, c);
    step := NextStep(s, d);
    InvHolds(s, step);
    CallStepsDecrease(s, step);
  }

  /** From every reachable state the calls alone can run to the end, and then
      every lock is free: no schedule can paint the spawner into a corner. */
  lemma {:induction false} Completion(s: State) returns (r: Run)
    requires Inv(s)
    ensures IsRun(r) && r.states[0] == s && AllFinished(Last(r)) && Last(r).locks == map[]
    ensures forall i | 0 <= i < |r.steps| :: OfCall(r.steps[i])
    decreases Phases(s), Inspects(s)
  {
    if AllFinished(s) {
      r := Run([s], []);
      LocksFreeAtTheEnd(s);
    } else {
      var step := OneStepOn(s);
      var rest := Completion(Apply(s, step));
      r := Prepend(s, step, rest);
    }
  }
}
