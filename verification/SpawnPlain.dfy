/** The main results about Spawn once more, said of containers, calls and steps
    alone, and a run in which they say something. */
module SpawnPlain {
  import opened Basics
  import opened World
  import opened SpawnProtocol
  import opened SpawnSafety
  import opened SpawnCounters
  import opened SpawnSchedules

  /** What each step does to Docker's containers. */
  lemma WhatStepsDo(s: State, step: Step)
    requires Enabled(s, step)
    ensures var before, after := s.daemon.containers, Apply(s, step).daemon.containers;
            match step
            case DockerRun(c, id, name, started, _) =>
              var launched := Container(s.calls[c].repo.name, name, s.daemon.now, true);
              after == if started then before[id := launched] else before
            case Exit(id) => id in before && after == before[id := before[id].(running := false)]
            case Remove(id) => after == before - {id}
            case _ => after == before
    ensures step.TimePasses? ==> Apply(s, step).daemon.now == s.daemon.now + step.d
  {
  }

  function Running(m: map<Id, Container>, name: RepoName): set<Id> {
    set id | id in m && m[id].repo == name && m[id].running
  }

  lemma RunningAgrees(d: Daemon, name: RepoName)
    ensures RunningSet(d, name) == Running(d.containers, name)
  {
  }

  /** Cap safety: if m is at least what ran of a name at start-up and every cap
      configured for it, no more than m ever run. */
  lemma CapInPlainTerms(r: Run, k: nat, name: RepoName, m: nat)
    requires IsRun(r) && Init(r.states[0]) && k < |r.states|
    requires |Running(r.states[0].daemon.containers, name)| <= m
    requires forall i | 0 <= i < |r.states[0].config| ::
               r.states[0].config[i].name == name ==> r.states[0].config[i].maxConcurrency <= m
    ensures |Running(r.states[k].daemon.containers, name)| <= m
  {
    CapSafety(r, k, name);
    var config := r.states[0].config;
    var cap := MaxCap(config, name);
    if cap != 0 {
      var e :| e in config && e.name == name && e.maxConcurrency == cap;
      var i :| 0 <= i < |config| && config[i] == e;
      assert cap <= m;
    }
    RunningAgrees(r.states[0].daemon, name);
    RunningAgrees(r.states[k].daemon, name);
  }

  /** Calls that have gone past counting their outcome, by outcome. */
  function Past(calls: map<CallId, Call>, o: Outcome): set<CallId> {
    set c | c in calls && (calls[c].pc == Releasing(o) || calls[c].pc == Done(o, false) || calls[c].pc == Done(o, true))
  }

  /** Calls that the reconciler has counted. */
  function PastCredit(calls: map<CallId, Call>): set<CallId> {
    set c | c in calls && exists o: Outcome :: calls[c].pc == Done(o, true)
  }

  lemma PastIsRecorded(calls: map<CallId, Call>, o: Outcome)
    ensures Past(calls, o) == Recorded(calls, o)
  {
    forall c | c in Recorded(calls, o) ensures c in Past(calls, o) {
      if calls[c].pc.Done? { assert calls[c].pc == Done(o, calls[c].pc.credited); }
    }
  }

  /** Every counter counts the calls that ended its way, modulo 2^64. */
  lemma CountersInPlainTerms(r: Run, k: nat)
    requires IsRun(r) && Init(r.states[0]) && k < |r.states|
    ensures var s, M := r.states[k], 0x1_0000_0000_0000_0000;
            && s.counters.spawned == |Past(s.calls, Spawned)| % M
            && s.counters.capHit == |Past(s.calls, CapHit)| % M
            && s.counters.errors == |Past(s.calls, Failed)| % M
            && s.counters.idleSkip == |Past(s.calls, IdleSkip)| % M
            && s.counters.paused == |Past(s.calls, Paused)| % M
            && s.counters.reconcile == |PastCredit(s.calls)| % M
  {
    CountersAlways(r, k);
    var calls := r.states[k].calls;
    forall o: Outcome ensures |Past(calls, o)| % TWO_64 == Wrap64(|Recorded(calls, o)|) {
      PastIsRecorded(calls, o);
      BumpedIsModulo(0, |Recorded(calls, o)|);
    }
    forall c | c in Credited(calls) ensures c in PastCredit(calls) {
      assert calls[c].pc == Done(calls[c].pc.outcome, true);
    }
    assert Credited(calls) == PastCredit(calls);
    BumpedIsModulo(0, |Credited(calls)|);
  }

  lemma {:induction false} DryRunNeverLaunches(r: Run, k: nat)
    requires IsRun(r) && Init(r.states[0]) && r.states[0].dryRun && k < |r.states|
    ensures forall c | c in r.states[k].calls :: !r.states[k].calls[c].pc.Launching?
  {
    if k == 0 {
    } else {
      DryRunNeverLaunches(r, k - 1);
      ConfigNeverChanges(r, k - 1);
      var s, step := r.states[k - 1], r.steps[k - 1];
      assert Enabled(s, step);
      forall c | c in Apply(s, step).calls ensures !Apply(s, step).calls[c].pc.Launching? {
        if step != Decide(c) && Apply(s, step).calls[c].pc.Launching? { LaunchStands(s, step, c); }
      }
    }
  }

  /** A dry run never runs `docker run`. */
  lemma DryRunStartsNothing(r: Run, k: nat)
    requires IsRun(r) && Init(r.states[0]) && r.states[0].dryRun && k < |r.steps|
    ensures !r.steps[k].DockerRun?
  {
    DryRunNeverLaunches(r, k);
    assert Enabled(r.states[k], r.steps[k]);
  }

  function Calling(calls: map<CallId, Call>, name: RepoName): set<CallId> {
    set c | c in calls && calls[c].repo.name == name
  }

  function Ended(calls: map<CallId, Call>, name: RepoName, o: Outcome): set<CallId> {
    set c | c in calls && calls[c].repo.name == name && calls[c].pc.Done? && calls[c].pc.outcome == o
  }

  lemma CallsAgree(s0: State, s: State, name: RepoName, o: Outcome)
    requires s0.calls == map[] && forall c | c in s.calls && s.calls[c].repo.name == name :: s.calls[c].pc.Done?
    ensures NewCalls(s0, s, name) == Calling(s.calls, name) && NewWith(s0, s, name, o) == Ended(s.calls, name, o)
  {
  }

  /** Schedule independence: N new calls on a quiet name with cap K, all returned,
      have started min(N, K - running) containers, or none without room. */
  lemma BurstInPlainTerms(r: Run, name: RepoName, K: int)
    requires IsRun(r) && Init(r.states[0]) && !r.states[0].dryRun && QuietRun(r, name, K)
    requires forall c | c in Last(r).calls && Last(r).calls[c].repo.name == name :: Last(r).calls[c].pc.Done?
    ensures var r0, N := |Running(r.states[0].daemon.containers, name)|, |Calling(Last(r).calls, name)|;
            var started := if K <= r0 then 0 else if N <= K - r0 then N else K - r0;
            && |Running(Last(r).daemon.containers, name)| == r0 + started
            && |Ended(Last(r).calls, name, Spawned)| == started
            && |Ended(Last(r).calls, name, CapHit)| == N - started
  {
    InitInv(r.states[0]);
    ScheduleIndependence(r, name, K);
    RunningAgrees(r.states[0].daemon, name);
    RunningAgrees(Last(r).daemon, name);
    CallsAgree(r.states[0], Last(r), name, Spawned);
    CallsAgree(r.states[0], Last(r), name, CapHit);
  }

  // ----- a quiet run -----

  const WEB: RepoEntry := RepoEntry("acme/web", 1)

  ghost predicate Unpaused(r: Run) {
    forall i | 0 <= i < |r.states| :: !r.states[i].paused
  }

  /** One more quiet step. */
  lemma QuietOn(r: Run, step: Step, name: RepoName, K: int) returns (r': Run)
    requires IsRun(r) && QuietRun(r, name, K) && Unpaused(r)
    requires Enabled(Last(r), step) && QuietStep(Last(r), step, name, K) && !Apply(Last(r), step).paused
    ensures IsRun(r') && QuietRun(r', name, K) && Unpaused(r')
    ensures r'.states[0] == r.states[0] && Last(r') == Apply(Last(r), step)
  {
    r' := Extend(r, step);
    ExtendIsRun(r, step);
    forall i | 0 <= i < |r'.steps| ensures QuietStep(r'.states[i], r'.steps[i], name, K) {
      if i < |r.steps| { assert r'.states[i] == r.states[i] && r'.steps[i] == r.steps[i]; }
    }
  }

  /** The moments of a lone call on that repo. */
  function Moment(pc: Pc, locked: bool, d: Daemon, spawned: nat): State {
    State([WEB], false, d, if locked then map["acme/web" := 0] else map[], false, map[0 := Call(WEB, Other, pc)],
          Counters(spawned, 0, 0, 0, 0, 0))
  }

  const BARE: Daemon := Daemon(map[], map[], 0)
  const LAUNCHED: Daemon := Daemon(map[7 := Container("acme/web", "auto-pool-a-0", 0, true)], map[7 := "acme/web"], 0)

  lemma QuietArrival() returns (r: Run)
    ensures IsRun(r) && QuietRun(r, "acme/web", 1) && Unpaused(r) && Init(r.states[0]) && !r.states[0].dryRun
    ensures Last(r) == Moment(Checking, true, BARE, 0) && r.states[0].calls == map[]
  {
    var start := State([WEB], false, BARE, map[], false, map[], Counters(0, 0, 0, 0, 0, 0));
    r := Run([start], []);
    r := QuietOn(r, Arrive(0, WEB, Other), "acme/web", 1);
    assert Last(r) == Moment(Entered, false, BARE, 0);
    r := QuietOn(r, LoadPause(0), "acme/web", 1);
    assert Last(r) == Moment(Admitted, false, BARE, 0);
    r := QuietOn(r, Lock(0), "acme/web", 1);
  }

  lemma QuietDecision(q: Run) returns (r: Run)
    requires IsRun(q) && QuietRun(q, "acme/web", 1) && Unpaused(q) && Last(q) == Moment(Checking, true, BARE, 0)
    ensures IsRun(r) && QuietRun(r, "acme/web", 1) && Unpaused(r) && r.states[0] == q.states[0]
    ensures Last(r) == Moment(Launching, true, BARE, 0)
  {
    r := QuietOn(q, IdleCheck(0, false), "acme/web", 1);
    assert Last(r) == Moment(Listing, true, BARE, 0);
    assert ListedSet(BARE, "acme/web") == {} == Elements([]) && RunningSet(BARE, "acme/web") == {};
    r := QuietOn(r, Ps(0, []), "acme/web", 1);
    assert Last(r) == Moment(Inspecting([], 0, Audit({}, {})), true, BARE, 0);
    r := QuietOn(r, Decide(0), "acme/web", 1);
  }

  lemma QuietLaunch(q: Run) returns (r: Run)
    requires IsRun(q) && QuietRun(q, "acme/web", 1) && Unpaused(q) && Last(q) == Moment(Launching, true, BARE, 0)
    ensures IsRun(r) && QuietRun(r, "acme/web", 1) && Unpaused(r) && r.states[0] == q.states[0]
    ensures Last(r) == Moment(Done(Spawned, false), false, LAUNCHED, 1)
  {
    r := QuietOn(q, DockerRun(0, 7, "auto-pool-a-0", true, true), "acme/web", 1);
    assert Last(r) == Moment(Recording(Spawned), true, LAUNCHED, 0);
    r := QuietOn(r, Record(0), "acme/web", 1);
    assert Last(r) == Moment(Releasing(Spawned), true, LAUNCHED, 1);
    r := QuietOn(r, Unlock(0), "acme/web", 1);
  }

  /** Quiet runs exist: a call comes, finds room, starts its container and returns. */
  lemma QuietBurstExists() returns (r: Run)
    ensures IsRun(r) && Init(r.states[0]) && !r.states[0].dryRun && QuietRun(r, "acme/web", 1) && Unpaused(r)
    ensures r.states[0].calls == map[]
    ensures Last(r).calls == map[0 := Call(RepoEntry("acme/web", 1), Other, Done(Spawned, false))]
    ensures Last(r).daemon.containers == map[7 := Container("acme/web", "auto-pool-a-0", 0, true)]
  {
    r := QuietArrival();
    r := QuietDecision(r);
    r := QuietLaunch(r);
  }
}
