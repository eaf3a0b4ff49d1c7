/** Repos do not influence each other: every run, projected onto one repo name,
    is a run of that repo alone. */
module SpawnProjection {
  import opened World
  import opened SpawnProtocol
  import opened SpawnSafety
  import opened SpawnCounters

  function OnlyContainers(m: map<Id, Container>, name: RepoName): map<Id, Container> {
    map id | id in m && m[id].repo == name :: m[id]
  }

  function OnlyUsed(m: map<Id, RepoName>, name: RepoName): map<Id, RepoName> {
    map id | id in m && m[id] == name :: m[id]
  }

  function OnlyCalls(m: map<CallId, Call>, name: RepoName): map<CallId, Call> {
    map c | c in m && m[c].repo.name == name :: m[c]
  }

  function OnlyLock(m: map<RepoName, CallId>, name: RepoName): map<RepoName, CallId> {
    map n | n in m && n == name :: m[n]
  }

  function ProjectDaemon(d: Daemon, name: RepoName): Daemon {
    Daemon(OnlyContainers(d.containers, name), OnlyUsed(d.used, name), d.now)
  }

  /** The system as it would be with the calls and containers of `name` only.
      The counters are shared; the projection keeps what its own calls counted. */
  function Project(s: State, name: RepoName): State {
    var calls := OnlyCalls(s.calls, name);
    State(s.config, s.dryRun, ProjectDaemon(s.daemon, name), OnlyLock(s.locks, name),
          s.paused, calls, Tallies(calls))
  }

  /** Whether a step concerns `name`; pause and time concern everyone. */
  predicate Concerns(s: State, step: Step, name: RepoName)
    requires Enabled(s, step)
  {
    match step
    case Arrive(_, repo, _) => repo.name == name
    case Exit(id) => s.daemon.containers[id].repo == name
    case Remove(id) => s.daemon.containers[id].repo == name
    case SetPaused(_) => true
    case TimePasses(_) => true
    case Stutter => true
    case _ => s.calls[step.c].repo.name == name
  }

  function ProjectStep(s: State, step: Step, name: RepoName): Step
    requires Enabled(s, step)
  {
    if Concerns(s, step, name) then step else Stutter
  }

  lemma RunningUnderProjection(d: Daemon, name: RepoName)
    ensures RunningSet(ProjectDaemon(d, name), name) == RunningSet(d, name)
    ensures ListedSet(ProjectDaemon(d, name), name) == ListedSet(d, name)
  {
  }

  /** A step of the name is possible in the projection too, and the call ends
      up in the same place. */
  lemma SameStepEnabled(s: State, step: Step, name: RepoName)
    requires Inv(s) && Enabled(s, step) && Concerns(s, step, name)
    ensures Enabled(Project(s, name), step)
    ensures OfCall(step) ==> PcAfter(Project(s, name), step) == PcAfter(s, step)
  {
    RunningUnderProjection(s.daemon, name);
    if step.Inspect? {
      assert CountSound(s.daemon, name, s.calls[step.c].pc);
      assert s.calls[step.c].pc.todo[0] in s.calls[step.c].pc.todo;
    }
  }

  lemma StartProjects(d: Daemon, id: Id, repo: RepoName, container: string, name: RepoName)
    requires Consistent(d) && id !in d.used
    ensures ProjectDaemon(Start(d, id, repo, container), name)
         == if repo == name then Start(ProjectDaemon(d, name), id, repo, container) else ProjectDaemon(d, name)
  {
    var p, q := ProjectDaemon(Start(d, id, repo, container), name), ProjectDaemon(d, name);
    var c := Container(repo, container, d.now, true);
    assert p.containers == if repo == name then q.containers[id := c] else q.containers;
    assert p.used == if repo == name then q.used[id := repo] else q.used;
  }

  lemma StopProjects(d: Daemon, id: Id, name: RepoName)
    requires id in d.containers
    ensures ProjectDaemon(Stop(d, id), name)
         == if d.containers[id].repo == name then Stop(ProjectDaemon(d, name), id) else ProjectDaemon(d, name)
  {
    var p, q := ProjectDaemon(Stop(d, id), name), ProjectDaemon(d, name);
    if d.containers[id].repo == name {
      assert p.containers == q.containers[id := q.containers[id].(running := false)];
    } else {
      assert p.containers == q.containers;
    }
  }

  lemma DiscardProjects(d: Daemon, id: Id, name: RepoName)
    requires id in d.containers
    ensures ProjectDaemon(Discard(d, id), name)
         == if d.containers[id].repo == name then Discard(ProjectDaemon(d, name), id) else ProjectDaemon(d, name)
  {
    var p, q := ProjectDaemon(Discard(d, id), name), ProjectDaemon(d, name);
    assert p.containers == if d.containers[id].repo == name then q.containers - {id} else q.containers;
  }

  lemma DaemonProjects(s: State, p: State, step: Step, name: RepoName)
    requires Consistent(s.daemon) && Enabled(s, step)
    requires p.daemon == ProjectDaemon(s.daemon, name) && p.calls == OnlyCalls(s.calls, name)
    requires Enabled(p, ProjectStep(s, step, name))
    ensures DaemonAfter(p, ProjectStep(s, step, name)) == ProjectDaemon(DaemonAfter(s, step), name)
  {
    match step
    case DockerRun(c, id, container, started, _) =>
      if started { StartProjects(s.daemon, id, s.calls[c].repo.name, container, name); }
    case Exit(id) => StopProjects(s.daemon, id, name);
    case Remove(id) => DiscardProjects(s.daemon, id, name);
    case _ =>
  }

  lemma UpdateProjects(m: map<CallId, Call>, c: CallId, call: Call, name: RepoName)
    requires c in m ==> m[c].repo == call.repo
    ensures OnlyCalls(m[c := call], name)
         == if call.repo.name == name then OnlyCalls(m, name)[c := call] else OnlyCalls(m, name)
  {
    assert OnlyCalls(m[c := call], name)
        == if call.repo.name == name then OnlyCalls(m, name)[c := call] else OnlyCalls(m, name);
  }

  lemma CallStepProjects(s: State, p: State, step: Step, name: RepoName)
    requires Enabled(s, step) && OfCall(step) && p.calls == OnlyCalls(s.calls, name)
    requires s.calls[step.c].repo.name == name ==>
               Enabled(p, step) && PcAfter(p, step) == PcAfter(s, step)
    ensures OnlyCalls(CallsAfter(s, step), name)
         == if s.calls[step.c].repo.name == name then CallsAfter(p, step) else p.calls
  {
    UpdateProjects(s.calls, step.c, s.calls[step.c].(pc := PcAfter(s, step)), name);
  }

  /** A step of a call concerns the name of that call. */
  lemma CallConcerns(s: State, step: Step, name: RepoName)
    requires Enabled(s, step) && OfCall(step)
    ensures Concerns(s, step, name) <==> s.calls[step.c].repo.name == name
  {
  }

  lemma CallsProject(s: State, p: State, step: Step, name: RepoName)
    requires Enabled(s, step) && p.calls == OnlyCalls(s.calls, name)
    requires Enabled(p, ProjectStep(s, step, name))
    requires Concerns(s, step, name) && OfCall(step) ==> PcAfter(p, step) == PcAfter(s, step)
    ensures CallsAfter(p, ProjectStep(s, step, name)) == OnlyCalls(CallsAfter(s, step), name)
  {
    if OfCall(step) {
      CallConcerns(s, step, name);
      CallStepProjects(s, p, step, name);
    } else if step.Arrive? {
      UpdateProjects(s.calls, step.c, Call(step.repo, step.origin, Entered), name);
    }
  }

  lemma LocksProject(s: State, step: Step, name: RepoName)
    requires Inv(s) && Enabled(s, step)
    requires Enabled(Project(s, name), ProjectStep(s, step, name))
    ensures LocksAfter(Project(s, name), ProjectStep(s, step, name)) == OnlyLock(LocksAfter(s, step), name)
  {
  }

  lemma PartsMakeTheWhole(s: State, step: Step, name: RepoName)
    requires Enabled(s, step) && Enabled(Project(s, name), ProjectStep(s, step, name))
    requires var p, step' := Project(s, name), ProjectStep(s, step, name);
             && DaemonAfter(p, step') == ProjectDaemon(DaemonAfter(s, step), name)
             && CallsAfter(p, step') == OnlyCalls(CallsAfter(s, step), name)
             && LocksAfter(p, step') == OnlyLock(LocksAfter(s, step), name)
             && CountersAfter(p, step') == Tallies(CallsAfter(p, step'))
    ensures Apply(Project(s, name), ProjectStep(s, step, name)) == Project(Apply(s, step), name)
  {
    assert step.SetPaused? ==> Concerns(s, step, name);
  }

  lemma CountersProject(p: State, step: Step)
    requires Enabled(p, step) && p.counters == Tallies(p.calls)
    ensures CountersAfter(p, step) == Tallies(CallsAfter(p, step))
  {
    TalliesKept(p, step);
    assert Apply(p, step).counters == CountersAfter(p, step) && Apply(p, step).calls == CallsAfter(p, step);
  }

  lemma ProjectedEnabled(s: State, step: Step, name: RepoName)
    requires Inv(s) && Enabled(s, step)
    ensures Enabled(Project(s, name), ProjectStep(s, step, name))
    ensures Concerns(s, step, name) && OfCall(step) ==> PcAfter(Project(s, name), step) == PcAfter(s, step)
  {
    if Concerns(s, step, name) { SameStepEnabled(s, step, name); }
  }

  /** Repo independence, one step: the projection takes the same step when it
      concerns the name, and stands still otherwise. */
  lemma StepProjects(s: State, step: Step, name: RepoName)
    requires Inv(s) && Enabled(s, step)
    ensures Enabled(Project(s, name), ProjectStep(s, step, name))
    ensures Apply(Project(s, name), ProjectStep(s, step, name)) == Project(Apply(s, step), name)
  {
    ProjectedEnabled(s, step, name);
    DaemonProjects(s, Project(s, name), step, name);
    CallsProject(s, Project(s, name), step, name);
    LocksProject(s, step, name);
    CountersProject(Project(s, name), ProjectStep(s, step, name));
    PartsMakeTheWhole(s, step, name);
  }

  ghost function ProjectRun(r: Run, name: RepoName): Run
    requires IsRun(r)
  {
    Run(seq(|r.states|, i requires 0 <= i < |r.states| => Project(r.states[i], name)),
        seq(|r.steps|, i requires 0 <= i < |r.steps| => ProjectStep(r.states[i], r.steps[i], name)))
  }

  /** The projected state of a moment shows the name as it was. */
  lemma ProjectionShows(s: State, name: RepoName)
    ensures RunningSet(Project(s, name).daemon, name) == RunningSet(s.daemon, name)
    ensures forall c | c in s.calls && s.calls[c].repo.name == name ::
              c in Project(s, name).calls && Project(s, name).calls[c] == s.calls[c]
  {
    RunningUnderProjection(s.daemon, name);
  }

  lemma InitProjects(s: State, name: RepoName)
    requires Init(s)
    ensures Init(Project(s, name))
  {
  }

  /** Repo independence over whole runs: the projection of any run is a run, so
      a repo's containers and outcomes are those it could have had alone. */
  lemma RepoIndependence(r: Run, name: RepoName)
    requires IsRun(r) && Init(r.states[0])
    ensures IsRun(ProjectRun(r, name)) && Init(ProjectRun(r, name).states[0])
    ensures forall k | 0 <= k < |r.states| ::
              && RunningSet(ProjectRun(r, name).states[k].daemon, name) == RunningSet(r.states[k].daemon, name)
              && (forall c | c in r.states[k].calls && r.states[k].calls[c].repo.name == name ::
                    && c in ProjectRun(r, name).states[k].calls
                    && ProjectRun(r, name).states[k].calls[c] == r.states[k].calls[c])
  {
    var p := ProjectRun(r, name);
    InitInv(r.states[0]);
    forall i | 0 <= i < |r.steps|
      ensures Enabled(p.states[i], p.steps[i]) && p.states[i + 1] == Apply(p.states[i], p.steps[i])
    {
      InvAlways(r, i);
      StepProjects(r.states[i], r.steps[i], name);
    }
    InitProjects(r.states[0], name);
    forall k | 0 <= k < |r.states|
      ensures RunningSet(p.states[k].daemon, name) == RunningSet(r.states[k].daemon, name)
      ensures forall c | c in r.states[k].calls && r.states[k].calls[c].repo.name == name ::
                c in p.states[k].calls && p.states[k].calls[c] == r.states[k].calls[c]
    {
      ProjectionShows(r.states[k], name);
    }
  }
}
