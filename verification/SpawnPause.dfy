/** What pausing and resuming do: to the calls that come after, and to those that
    are already past the pause check. */
module SpawnPause {
  import opened Basics
  import opened SpawnProtocol
  import opened SpawnSafety

  /** Setting the flag moves it to the value set, and nothing else moves it. */
  lemma FlagMoves(s: State, step: Step)
    requires Enabled(s, step)
    ensures step == SetPaused(true) ==> Apply(s, step).paused
    ensures step == SetPaused(false) ==> !Apply(s, step).paused
    ensures step != SetPaused(true) && step != SetPaused(false) ==> Apply(s, step).paused == s.paused
  {
  }

  /** From a pause to the next resume the flag is up. */
  lemma {:induction false} PauseLasts(r: Run, i: nat, k: nat)
    requires IsRun(r) && i < k < |r.states| && r.steps[i] == SetPaused(true)
    requires forall t | i < t < k :: r.steps[t] != SetPaused(false)
    ensures r.states[k].paused
  {
    FlagMoves(r.states[k - 1], r.steps[k - 1]);
    if k == i + 1 {
    } else {
      PauseLasts(r, i, k - 1);
    }
  }

  /** From a resume to the next pause it is down. */
  lemma {:induction false} ResumeLasts(r: Run, i: nat, k: nat)
    requires IsRun(r) && i < k < |r.states| && r.steps[i] == SetPaused(false)
    requires forall t | i < t < k :: r.steps[t] != SetPaused(true)
    ensures !r.states[k].paused
  {
    FlagMoves(r.states[k - 1], r.steps[k - 1]);
    if k == i + 1 {
    } else {
      ResumeLasts(r, i, k - 1);
    }
  }

  /** The calls that are past the pause check and have not reached `docker run`. */
  function InFlight(s: State): set<CallId> {
    set c | c in s.calls && (s.calls[c].pc.Admitted? || s.calls[c].pc.Checking? || s.calls[c].pc.Listing?
                             || s.calls[c].pc.Inspecting? || s.calls[c].pc.Launching?)
  }

  /** The `docker run`s among steps i+1 to j-1. */
  function RunsBetween(r: Run, i: nat, j: nat): set<int>
    requires j <= |r.steps|
  {
    set k | i < k < j && r.steps[k].DockerRun?
  }

  lemma PausedStepAdmitsNone(s: State, step: Step)
    requires Enabled(s, step) && s.paused
    ensures InFlight(Apply(s, step)) <= InFlight(s)
    ensures step.DockerRun? ==> step.c in InFlight(s) && step.c !in InFlight(Apply(s, step))
  {
  }

  lemma PausedStepCounts(s: State, step: Step)
    requires Enabled(s, step) && s.paused
    ensures (if step.DockerRun? then 1 else 0) + |InFlight(Apply(s, step))| <= |InFlight(s)|
  {
    PausedStepAdmitsNone(s, step);
    if step.DockerRun? {
      SubsetSize(InFlight(Apply(s, step)), InFlight(s) - {step.c});
    } else {
      SubsetSize(InFlight(Apply(s, step)), InFlight(s));
    }
  }

  lemma SettingKeepsInFlight(s: State, flag: bool)
    ensures InFlight(Apply(s, SetPaused(flag))) == InFlight(s)
  {
  }

  lemma OneStepLonger(r: Run, i: nat, j: nat)
    requires i < j - 1 && j <= |r.steps|
    ensures |RunsBetween(r, i, j)| == |RunsBetween(r, i, j - 1)| + if r.steps[j - 1].DockerRun? then 1 else 0
  {
    assert RunsBetween(r, i, j) == RunsBetween(r, i, j - 1) + if r.steps[j - 1].DockerRun? then {j - 1} else {};
  }

  lemma {:induction false} InFlightRunsDown(r: Run, i: nat, j: nat)
    requires IsRun(r) && i < j < |r.states| && r.steps[i] == SetPaused(true)
    requires forall k | i < k < j :: r.steps[k] != SetPaused(false)
    ensures |RunsBetween(r, i, j)| + |InFlight(r.states[j])| <= |InFlight(r.states[i])|
  {
    if j == i + 1 {
      assert RunsBetween(r, i, j) == {};
      SettingKeepsInFlight(r.states[i], true);
    } else {
      InFlightRunsDown(r, i, j - 1);
      PauseLasts(r, i, j - 1);
      PausedStepCounts(r.states[j - 1], r.steps[j - 1]);
      OneStepLonger(r, i, j);
    }
  }

  /** Pause over whole runs: between a pause and the next resume there are at most
      as many `docker run`s as calls that were past the pause check and had not
      reached theirs; each uses one of them up. */
  lemma PauseBoundsRuns(r: Run, i: nat, j: nat)
    requires IsRun(r) && i < j < |r.states| && r.steps[i] == SetPaused(true)
    requires forall k | i < k < j :: r.steps[k] != SetPaused(false)
    ensures |set k | i < k < j && r.steps[k].DockerRun?|
         <= |set c | c in r.states[i].calls && var pc := r.states[i].calls[c].pc;
                     pc.Admitted? || pc.Checking? || pc.Listing? || pc.Inspecting? || pc.Launching?|
  {
    InFlightRunsDown(r, i, j);
    var runs := set k | i < k < j && r.steps[k].DockerRun?;
    var before := set c | c in r.states[i].calls && var pc := r.states[i].calls[c].pc;
                          pc.Admitted? || pc.Checking? || pc.Listing? || pc.Inspecting? || pc.Launching?;
    assert runs == RunsBetween(r, i, j) && before == InFlight(r.states[i]);
  }

  lemma {:induction false} PausedCallRecordsOnly(r: Run, k: nat, m: nat, c: CallId)
    requires IsRun(r) && k < m < |r.states| && r.steps[k] == LoadPause(c) && r.states[k].paused
    ensures c in r.states[m].calls
    ensures r.states[m].calls[c].pc == Recording(Paused) || r.states[m].calls[c].pc == Done(Paused, false)
    ensures forall t | k < t < m && OfCall(r.steps[t]) && r.steps[t].c == c :: r.steps[t] == Record(c)
  {
    if m == k + 1 {
    } else {
      PausedCallRecordsOnly(r, k, m - 1, c);
      assert Enabled(r.states[m - 1], r.steps[m - 1]);
    }
  }

  /** A call that checks between a pause and the next resume ends in ErrPaused:
      whatever happens later, all it does is to count that, without a mutex and
      without GitHub or Docker. */
  lemma PausedCallStaysOut(r: Run, i: nat, k: nat, m: nat, c: CallId)
    requires IsRun(r) && i < k < m < |r.states|
    requires r.steps[i] == SetPaused(true) && forall t | i < t < k :: r.steps[t] != SetPaused(false)
    requires r.steps[k] == LoadPause(c)
    ensures c in r.states[m].calls
    ensures r.states[m].calls[c].pc == Recording(Paused) || r.states[m].calls[c].pc == Done(Paused, false)
    ensures forall t | k < t < m && OfCall(r.steps[t]) && r.steps[t].c == c :: r.steps[t] == Record(c)
  {
    PauseLasts(r, i, k);
    PausedCallRecordsOnly(r, k, m, c);
  }

  /** A call that checks between a resume and the next pause is admitted. */
  lemma ResumedCallGoesOn(r: Run, i: nat, k: nat, c: CallId)
    requires IsRun(r) && i < k < |r.steps|
    requires r.steps[i] == SetPaused(false) && forall t | i < t < k :: r.steps[t] != SetPaused(true)
    requires r.steps[k] == LoadPause(c)
    ensures r.states[k + 1].calls[c].pc == Admitted
  {
    ResumeLasts(r, i, k);
  }
}
