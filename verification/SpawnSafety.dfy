/** The inductive invariant of the spawn protocol, and what follows from it
    for every run: mutual exclusion per repo name, soundness of the
    non-atomic count, and the concurrency cap. */
module SpawnSafety {
  import opened Basics
  import opened World
  import opened SpawnProtocol

  /** The lock table and the program counters agree: a mutex is held exactly by
      the one call that is inside that repo's critical section. */
  ghost predicate LocksAgree(s: State) {
    && (forall n | n in s.locks ::
          && s.locks[n] in s.calls && s.calls[s.locks[n]].repo.name == n && Holds(s.calls[s.locks[n]].pc))
    && (forall c | c in s.calls && Holds(s.calls[c].pc) ::
          s.calls[c].repo.name in s.locks && s.locks[s.calls[c].repo.name] == c)
  }

  /** A count in progress: whatever still runs has been counted or is still to
      be inspected, and everything counted ran when `ps` answered. */
  ghost predicate CountSound(d: Daemon, repo: RepoName, pc: Pc)
    requires pc.Inspecting?
  {
    && pc.running == |pc.audit.counted|
    && NoDuplicates(pc.todo)
    && Elements(pc.todo) !! pc.audit.counted
    && pc.audit.counted <= pc.audit.atPs
    && RunningSet(d, repo) <= pc.audit.atPs
    && RunningSet(d, repo) <= pc.audit.counted + Elements(pc.todo)
    && (forall id | id in pc.todo :: id in d.used && d.used[id] == repo)
  }

  ghost predicate CountsSound(s: State) {
    forall c | c in s.calls && s.calls[c].pc.Inspecting? ::
      CountSound(s.daemon, s.calls[c].repo.name, s.calls[c].pc)
  }

  /** A call cleared for `docker run` still has room for its one container. */
  ghost predicate LaunchesHaveRoom(s: State) {
    forall c | c in s.calls && s.calls[c].pc.Launching? ::
      RunningOf(s.daemon, s.calls[c].repo.name) < s.calls[c].repo.maxConcurrency
  }

  ghost predicate Inv(s: State) {
    && Consistent(s.daemon)
    && (forall c | c in s.calls :: s.calls[c].repo in s.config)
    && LocksAgree(s)
    && CountsSound(s)
    && LaunchesHaveRoom(s)
  }

  /** Apart from Lock and Unlock, a step neither touches the lock table nor moves
      a call into or out of a critical section. */
  lemma CriticalSectionsKept(s: State, step: Step)
    requires Enabled(s, step) && !step.Lock? && !step.Unlock?
    ensures var s' := Apply(s, step);
            && s'.locks == s.locks
            && (forall c | c in s.calls ::
                  && c in s'.calls && s'.calls[c].repo == s.calls[c].repo
                  && Holds(s'.calls[c].pc) == Holds(s.calls[c].pc))
            && (forall c | c in s'.calls && c !in s.calls :: !Holds(s'.calls[c].pc))
  {
  }

  lemma LocksStayAgreed(s: State, step: Step)
    requires LocksAgree(s) && Enabled(s, step)
    ensures LocksAgree(Apply(s, step))
  {
    if step.Lock? || step.Unlock? {
      assert forall c | c in s.calls && c != step.c :: Apply(s, step).calls[c] == s.calls[c];
    } else {
      CriticalSectionsKept(s, step);
    }
  }

  /** What the rest of the world may do to a count: no start for this repo. */
  lemma CountSurvives(d: Daemon, d': Daemon, repo: RepoName, pc: Pc)
    requires pc.Inspecting? && CountSound(d, repo, pc)
    requires RunningSet(d', repo) <= RunningSet(d, repo)
    requires forall id | id in d.used :: id in d'.used && d'.used[id] == d.used[id]
    ensures CountSound(d', repo, pc)
  {
  }

  /** While a call is inside a repo's critical section, nothing but that call
      can add to the repo's running containers. */
  lemma OthersOnlyStop(s: State, step: Step, c: CallId)
    requires Inv(s) && Enabled(s, step)
    requires c in s.calls && Holds(s.calls[c].pc)
    requires !(step.DockerRun? && step.c == c)
    ensures RunningSet(Apply(s, step).daemon, s.calls[c].repo.name) <= RunningSet(s.daemon, s.calls[c].repo.name)
  {
    if step.DockerRun? && step.started {
      RunningAfterStart(s.daemon, step.id, s.calls[step.c].repo.name, step.name, s.calls[c].repo.name);
    }
  }

  /** Taking the first id off a duplicate-free list takes it out of its elements. */
  lemma TakeFirst(ids: seq<Id>)
    requires ids != [] && NoDuplicates(ids)
    ensures NoDuplicates(ids[1..]) && Elements(ids[1..]) == Elements(ids) - {ids[0]}
  {
    forall id | id in Elements(ids) - {ids[0]} ensures id in ids[1..] {
      var i :| 0 <= i < |ids| && ids[i] == id;
      assert ids[1..][i - 1] == id;
    }
  }

  lemma InspectStaysSound(d: Daemon, repo: RepoName, pc: Pc)
    requires pc.Inspecting? && CountSound(d, repo, pc) && Consistent(d)
    requires pc.todo != [] && pc.todo[0] in d.containers
    ensures CountSound(d, repo, AfterInspect(d, pc))
  {
    var id, pc' := pc.todo[0], AfterInspect(d, pc);
    TakeFirst(pc.todo);
    assert id in Elements(pc.todo);
    assert d.containers[id].running <==> id in RunningSet(d, repo);
    assert pc'.audit.counted == pc.audit.counted + if d.containers[id].running then {id} else {};
    assert pc'.running == |pc'.audit.counted|;
  }

  lemma PsStaysSound(d: Daemon, repo: RepoName, ids: seq<Id>)
    requires Consistent(d) && Lists(ids, d, repo)
    ensures CountSound(d, repo, Inspecting(ids, 0, Audit(RunningSet(d, repo), {})))
  {
    forall id | id in ids ensures id in d.used && d.used[id] == repo {
      assert id in Elements(ids);
    }
  }

  /** Only its own `ps` and inspects move a count in progress. */
  lemma CountStands(s: State, step: Step, c: CallId)
    requires Enabled(s, step) && step != Inspect(c) && !(step.Ps? && step.c == c)
    requires c in Apply(s, step).calls && Apply(s, step).calls[c].pc.Inspecting?
    ensures c in s.calls && Apply(s, step).calls[c] == s.calls[c] && !(step.DockerRun? && step.c == c)
  {
  }

  lemma CountsStaySound(s: State, step: Step)
    requires Inv(s) && Enabled(s, step)
    ensures CountsSound(Apply(s, step))
  {
    var s' := Apply(s, step);
    forall c | c in s'.calls && s'.calls[c].pc.Inspecting?
      ensures CountSound(s'.daemon, s'.calls[c].repo.name, s'.calls[c].pc)
    {
      if step == Inspect(c) {
        InspectStaysSound(s.daemon, s.calls[c].repo.name, s.calls[c].pc);
      } else if step.Ps? && step.c == c {
        PsStaysSound(s.daemon, s.calls[c].repo.name, step.ids);
      } else {
        CountStands(s, step, c);
        StepEvolves(s, step);
        OthersOnlyStop(s, step, c);
        CountSurvives(s.daemon, s'.daemon, s.calls[c].repo.name, s.calls[c].pc);
      }
    }
  }

  /** When the last inspect has answered, the count lies between what runs now
      and what ran when `ps` answered. */
  lemma CountBetween(d: Daemon, repo: RepoName, pc: Pc)
    requires pc.Inspecting? && pc.todo == [] && CountSound(d, repo, pc)
    ensures RunningOf(d, repo) <= pc.running <= |pc.audit.atPs|
  {
    SubsetSize(RunningSet(d, repo), pc.audit.counted);
    SubsetSize(pc.audit.counted, pc.audit.atPs);
  }

  /** Only its own decision clears a call for `docker run`. */
  lemma LaunchStands(s: State, step: Step, c: CallId)
    requires Enabled(s, step) && step != Decide(c)
    requires c in Apply(s, step).calls && Apply(s, step).calls[c].pc.Launching?
    ensures c in s.calls && Apply(s, step).calls[c] == s.calls[c] && !(step.DockerRun? && step.c == c)
  {
  }

  /** And that decision was taken on a count below the cap. */
  lemma LaunchDecided(s: State, c: CallId)
    requires Enabled(s, Decide(c)) && Apply(s, Decide(c)).calls[c].pc.Launching?
    ensures Apply(s, Decide(c)).daemon == s.daemon && Apply(s, Decide(c)).calls[c].repo == s.calls[c].repo
    ensures s.calls[c].pc.running < s.calls[c].repo.maxConcurrency
  {
  }

  lemma LaunchesKeepRoom(s: State, step: Step)
    requires Inv(s) && Enabled(s, step)
    ensures LaunchesHaveRoom(Apply(s, step))
  {
    var s' := Apply(s, step);
    forall c | c in s'.calls && s'.calls[c].pc.Launching?
      ensures RunningOf(s'.daemon, s'.calls[c].repo.name) < s'.calls[c].repo.maxConcurrency
    {
      if step == Decide(c) {
        LaunchDecided(s, c);
        CountBetween(s.daemon, s.calls[c].repo.name, s.calls[c].pc);
      } else {
        LaunchStands(s, step, c);
        var n := s.calls[c].repo.name;
        OthersOnlyStop(s, step, c);
        SubsetSize(RunningSet(s'.daemon, n), RunningSet(s.daemon, n));
      }
    }
  }

  lemma InvHolds(s: State, step: Step)
    requires Inv(s) && Enabled(s, step)
    ensures Inv(Apply(s, step))
  {
    StepEvolves(s, step);
    LocksStayAgreed(s, step);
    CountsStaySound(s, step);
    LaunchesKeepRoom(s, step);
  }

  lemma {:induction false} InvAlways(r: Run, k: nat)
    requires IsRun(r) && Inv(r.states[0]) && k < |r.states|
    ensures Inv(r.states[k])
  {
    if k == 0 {
    } else {
      InvAlways(r, k - 1);
      InvHolds(r.states[k - 1], r.steps[k - 1]);
    }
  }

  lemma InitInv(s: State)
    requires Init(s)
    ensures Inv(s)
  {
  }

  /** No two calls are ever inside the critical section of one repo name. */
  lemma MutualExclusion(r: Run, k: nat, c: CallId, d: CallId)
    requires IsRun(r) && Init(r.states[0]) && k < |r.states|
    requires c in r.states[k].calls && Holds(r.states[k].calls[c].pc)
    requires d in r.states[k].calls && Holds(r.states[k].calls[d].pc)
    requires r.states[k].calls[c].repo.name == r.states[k].calls[d].repo.name
    ensures c == d
  {
    InitInv(r.states[0]);
    InvAlways(r, k);
  }

  /** The largest cap configured for a name; zero when the name is not configured. */
  function MaxCap(config: seq<RepoEntry>, name: RepoName): (m: int)
    ensures 0 <= m
    ensures forall e | e in config && e.name == name :: e.maxConcurrency <= m
    ensures m == 0 || exists e :: e in config && e.name == name && e.maxConcurrency == m
  {
    if config == [] then 0
    else
      var rest := MaxCap(config[1..], name);
      if config[0].name == name then Max(config[0].maxConcurrency, rest) else rest
  }

  lemma {:induction false} ConfigNeverChanges(r: Run, k: nat)
    requires IsRun(r) && k < |r.states|
    ensures r.states[k].config == r.states[0].config && r.states[k].dryRun == r.states[0].dryRun
  {
    if k == 0 {
    } else {
      ConfigNeverChanges(r, k - 1);
    }
  }

  /** One step raises the running count of a name only up to some configured cap. */
  lemma StepRespectsCap(s: State, step: Step, name: RepoName)
    requires Inv(s) && Enabled(s, step)
    ensures RunningOf(Apply(s, step).daemon, name) <= Max(RunningOf(s.daemon, name), MaxCap(s.config, name))
  {
    var s' := Apply(s, step);
    if step.DockerRun? && step.started {
      RunningAfterStart(s.daemon, step.id, s.calls[step.c].repo.name, step.name, name);
    } else {
      assert RunningSet(s'.daemon, name) <= RunningSet(s.daemon, name);
      SubsetSize(RunningSet(s'.daemon, name), RunningSet(s.daemon, name));
    }
  }

  /** Cap safety over every run: the running containers of a name never exceed
      the larger of what ran at start-up and the largest cap configured for it. */
  lemma {:induction false} CapSafety(r: Run, k: nat, name: RepoName)
    requires IsRun(r) && Init(r.states[0]) && k < |r.states|
    ensures RunningOf(r.states[k].daemon, name)
         <= Max(RunningOf(r.states[0].daemon, name), MaxCap(r.states[0].config, name))
  {
    if k == 0 {
    } else {
      var s, step := r.states[k - 1], r.steps[k - 1];
      CapSafety(r, k - 1, name);
      assert Inv(s) by {
        InitInv(r.states[0]);
        InvAlways(r, k - 1);
      }
      ConfigNeverChanges(r, k - 1);
      assert r.states[k] == Apply(s, step);
      StepRespectsCap(s, step, name);
    }
  }

  /** The audit is honest: the set a count remembers is what ran at the moment
      of that call's own `ps`. */
  lemma {:induction false} AuditIsHonest(r: Run, k: nat, c: CallId) returns (j: nat)
    requires IsRun(r) && Init(r.states[0]) && k < |r.states|
    requires c in r.states[k].calls && r.states[k].calls[c].pc.Inspecting?
    ensures j < k && r.steps[j].Ps? && r.steps[j].c == c
    ensures c in r.states[j].calls && r.states[j].calls[c].repo == r.states[k].calls[c].repo
    ensures RunningSet(r.states[j].daemon, r.states[k].calls[c].repo.name) == r.states[k].calls[c].pc.audit.atPs
  {
    var step := r.steps[k - 1];
    if step.Ps? && step.c == c {
      j := k - 1;
    } else {
      j := AuditIsHonest(r, k - 1, c);
    }
  }

  /** The non-atomic count is sound. At the moment a call decides, its count is
      at least what runs now and at most what ran at its own `ps`; so a call
      that goes on to launch has room, and ErrCapHit means the cap really was
      reached when `ps` answered. */
  lemma DecisionIsSound(r: Run, k: nat, c: CallId) returns (j: nat)
    requires IsRun(r) && Init(r.states[0]) && k < |r.steps| && r.steps[k] == Decide(c)
    ensures j < k && r.steps[j].Ps? && r.steps[j].c == c
    ensures var call := r.states[k].calls[c];
            RunningOf(r.states[k].daemon, call.repo.name) <= call.pc.running
              <= RunningOf(r.states[j].daemon, call.repo.name)
    ensures r.states[k + 1].calls[c].pc == Recording(CapHit) ==>
              RunningOf(r.states[j].daemon, r.states[k].calls[c].repo.name) >= r.states[k].calls[c].repo.maxConcurrency
    ensures r.states[k + 1].calls[c].pc.Launching? ==>
              RunningOf(r.states[k].daemon, r.states[k].calls[c].repo.name) < r.states[k].calls[c].repo.maxConcurrency
  {
    InitInv(r.states[0]);
    InvAlways(r, k);
    j := AuditIsHonest(r, k, c);
    CountBetween(r.states[k].daemon, r.states[k].calls[c].repo.name, r.states[k].calls[c].pc);
  }
}
