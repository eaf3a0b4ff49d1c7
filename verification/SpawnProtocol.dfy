/** The spawn admission protocol as a transition system. Any number of Spawn
    calls run interleaved; they share the pause flag, one mutex per repo name,
    the lifetime counters and the Docker daemon. Containers exit, others
    remove them, and pause is toggled at any moment. */
module SpawnProtocol {
  import opened Basics
  import opened World

  type CallId = nat

  /** The part of a configured repo that admission looks at. Names may repeat
      in the configuration; entries of one name share its mutex and its count. */
  datatype RepoEntry = RepoEntry(name: RepoName, maxConcurrency: int)

  datatype Outcome = Spawned | CapHit | Failed | IdleSkip | Paused

  /** Who called Spawn; only the reconciler counts the call once it returned nil. */
  datatype Origin = Reconciler | Other

  /** History variables of one count: what was running when `ps` answered, and
      the containers the count has included so far. No step depends on them. */
  datatype Audit = Audit(atPs: set<Id>, counted: set<Id>)

  /** Where a call stands. From Checking to Releasing it holds its repo's
      mutex, except that a paused call records its outcome without it. */
  datatype Pc =
    | Entered
    | Admitted
    | Checking
    | Listing
    | Inspecting(todo: seq<Id>, running: nat, audit: Audit)
    | Launching
    | Recording(outcome: Outcome)
    | Releasing(outcome: Outcome)
    | Done(outcome: Outcome, credited: bool)

  datatype Call = Call(repo: RepoEntry, origin: Origin, pc: Pc)

  datatype Counters = Counters(spawned: nat, capHit: nat, errors: nat, idleSkip: nat,
                               paused: nat, reconcile: nat)

  datatype State = State(config: seq<RepoEntry>, dryRun: bool, daemon: Daemon,
                         locks: map<RepoName, CallId>, paused: bool,
                         calls: map<CallId, Call>, counters: Counters)

  datatype Step =
    | Arrive(c: CallId, repo: RepoEntry, origin: Origin)
    | LoadPause(c: CallId)
    | Lock(c: CallId)
    | IdleCheck(c: CallId, idle: bool)
    | Ps(c: CallId, ids: seq<Id>)
    | PsFails(c: CallId)
    | Inspect(c: CallId)
    | InspectFails(c: CallId)
    | Decide(c: CallId)
    | EnvFileFails(c: CallId)
    | DockerRun(c: CallId, id: Id, name: string, started: bool, ok: bool)
    | Record(c: CallId)
    | Unlock(c: CallId)
    | Credit(c: CallId)
    | Exit(id: Id)
    | Remove(id: Id)
    | SetPaused(flag: bool)
    | TimePasses(d: nat)
    | Stutter

  predicate Init(s: State) {
    && s.calls == map[] && s.locks == map[]
    && s.counters == Counters(0, 0, 0, 0, 0, 0)
    && Consistent(s.daemon)
  }

  /** Paused calls leave before the mutex; everyone else between Lock and Unlock holds it. */
  predicate Holds(pc: Pc) {
    pc.Checking? || pc.Listing? || pc.Inspecting? || pc.Launching? || pc.Releasing?
    || (pc.Recording? && pc.outcome != Paused)
  }

  predicate NilOutcome(o: Outcome) { o == Spawned || o == IdleSkip }

  /** `ids` lists each container of the repo exactly once, in any order. */
  predicate Lists(ids: seq<Id>, d: Daemon, repo: RepoName) {
    && (forall i, j | 0 <= i < j < |ids| :: ids[i] != ids[j])
    && Elements(ids) == ListedSet(d, repo)
  }

  predicate Enabled(s: State, step: Step) {
    match step
    case Arrive(c, repo, origin) => c !in s.calls && repo in s.config
    case LoadPause(c) => c in s.calls && s.calls[c].pc.Entered?
    case Lock(c) => c in s.calls && s.calls[c].pc.Admitted? && s.calls[c].repo.name !in s.locks
    case IdleCheck(c, idle) => c in s.calls && s.calls[c].pc.Checking?
    case Ps(c, ids) => c in s.calls && s.calls[c].pc.Listing? && Lists(ids, s.daemon, s.calls[c].repo.name)
    case PsFails(c) => c in s.calls && s.calls[c].pc.Listing?
    // An id that vanished since `ps` makes `docker inspect` fail.
    case Inspect(c) => c in s.calls && s.calls[c].pc.Inspecting? && s.calls[c].pc.todo != []
                       && s.calls[c].pc.todo[0] in s.daemon.containers
    case InspectFails(c) => c in s.calls && s.calls[c].pc.Inspecting? && s.calls[c].pc.todo != []
    case Decide(c) => c in s.calls && s.calls[c].pc.Inspecting? && s.calls[c].pc.todo == []
    case EnvFileFails(c) => c in s.calls && s.calls[c].pc.Launching?
    // On error `docker run` may or may not have started its one container.
    case DockerRun(c, id, name, started, ok) =>
      && c in s.calls && s.calls[c].pc.Launching?
      && (ok ==> started) && (started ==> id !in s.daemon.used)
    case Record(c) => c in s.calls && s.calls[c].pc.Recording?
    case Unlock(c) => c in s.calls && s.calls[c].pc.Releasing?
    case Credit(c) => c in s.calls && s.calls[c].origin.Reconciler? && s.calls[c].pc.Done?
                      && !s.calls[c].pc.credited && NilOutcome(s.calls[c].pc.outcome)
    case Exit(id) => id in s.daemon.containers && s.daemon.containers[id].running
    case Remove(id) => id in s.daemon.containers
    case SetPaused(_) => true
    case TimePasses(_) => true
    case Stutter => true
  }

  function Count(k: Counters, o: Outcome): Counters {
    match o
    case Spawned => k.(spawned := Bump(k.spawned))
    case CapHit => k.(capHit := Bump(k.capHit))
    case Failed => k.(errors := Bump(k.errors))
    case IdleSkip => k.(idleSkip := Bump(k.idleSkip))
    case Paused => k.(paused := Bump(k.paused))
  }

  function AfterInspect(d: Daemon, pc: Pc): Pc
    requires pc.Inspecting? && pc.todo != [] && pc.todo[0] in d.containers
  {
    if d.containers[pc.todo[0]].running
    then Inspecting(pc.todo[1..], pc.running + 1, pc.audit.(counted := pc.audit.counted + {pc.todo[0]}))
    else pc.(todo := pc.todo[1..])
  }

  function AfterDecide(s: State, call: Call): Pc
    requires call.pc.Inspecting?
  {
    if call.pc.running >= call.repo.maxConcurrency then Recording(CapHit)
    else if s.dryRun then Recording(Spawned)
    else Launching
  }

  /** Steps a call takes, as opposed to arrivals and the environment's moves. */
  predicate OfCall(step: Step) {
    !(step.Arrive? || step.Exit? || step.Remove? || step.SetPaused? || step.TimePasses? || step.Stutter?)
  }

  /** Where the acting call stands after its step. */
  function PcAfter(s: State, step: Step): Pc
    requires Enabled(s, step) && OfCall(step)
  {
    var call := s.calls[step.c];
    match step
    case LoadPause(_) => if s.paused then Recording(Paused) else Admitted
    case Lock(_) => Checking
    // An idle check that fails is logged, and the call spawns anyway.
    case IdleCheck(_, idle) => if idle then Recording(IdleSkip) else Listing
    case Ps(_, ids) => Inspecting(ids, 0, Audit(RunningSet(s.daemon, call.repo.name), {}))
    case PsFails(_) => Recording(Failed)
    case Inspect(_) => AfterInspect(s.daemon, call.pc)
    case InspectFails(_) => Recording(Failed)
    case Decide(_) => AfterDecide(s, call)
    case EnvFileFails(_) => Recording(Failed)
    case DockerRun(_, _, _, _, ok) => Recording(if ok then Spawned else Failed)
    case Record(_) => if call.pc.outcome == Paused then Done(Paused, false) else Releasing(call.pc.outcome)
    case Unlock(_) => Done(call.pc.outcome, false)
    case Credit(_) => Done(call.pc.outcome, true)
  }

  function CallsAfter(s: State, step: Step): map<CallId, Call>
    requires Enabled(s, step)
  {
    if step.Arrive? then s.calls[step.c := Call(step.repo, step.origin, Entered)]
    else if OfCall(step) then s.calls[step.c := s.calls[step.c].(pc := PcAfter(s, step))]
    else s.calls
  }

  function DaemonAfter(s: State, step: Step): Daemon
    requires Enabled(s, step)
  {
    match step
    case DockerRun(c, id, name, started, _) =>
      if started then Start(s.daemon, id, s.calls[c].repo.name, name) else s.daemon
    case Exit(id) => Stop(s.daemon, id)
    case Remove(id) => Discard(s.daemon, id)
    case TimePasses(d) => s.daemon.(now := s.daemon.now + d)
    case _ => s.daemon
  }

  function LocksAfter(s: State, step: Step): map<RepoName, CallId>
    requires Enabled(s, step)
  {
    match step
    case Lock(c) => s.locks[s.calls[c].repo.name := c]
    case Unlock(c) => s.locks - {s.calls[c].repo.name}
    case _ => s.locks
  }

  function CountersAfter(s: State, step: Step): Counters
    requires Enabled(s, step)
  {
    match step
    case Record(c) => Count(s.counters, s.calls[c].pc.outcome)
    case Credit(c) => s.counters.(reconcile := Bump(s.counters.reconcile))
    case _ => s.counters
  }

  function Apply(s: State, step: Step): State
    requires Enabled(s, step)
  {
    State(s.config, s.dryRun, DaemonAfter(s, step), LocksAfter(s, step),
          if step.SetPaused? then step.flag else s.paused,
          CallsAfter(s, step), CountersAfter(s, step))
  }

  /** A finite run: every state and the step taken from it. */
  datatype Run = Run(states: seq<State>, steps: seq<Step>)

  ghost predicate IsRun(r: Run) {
    && |r.states| == |r.steps| + 1
    && forall i | 0 <= i < |r.steps| ::
         Enabled(r.states[i], r.steps[i]) && r.states[i + 1] == Apply(r.states[i], r.steps[i])
  }

  function Last(r: Run): State
    requires r.states != []
  {
    r.states[|r.states| - 1]
  }

  function Extend(r: Run, step: Step): Run
    requires r.states != [] && Enabled(Last(r), step)
  {
    Run(r.states + [Apply(Last(r), step)], r.steps + [step])
  }

  lemma ExtendIsRun(r: Run, step: Step)
    requires IsRun(r) && Enabled(Last(r), step)
    ensures IsRun(Extend(r, step))
    ensures Last(Extend(r, step)) == Apply(Last(r), step)
  {
  }

  /** Every step is one of the things the daemon's other users may witness. */
  lemma StepEvolves(s: State, step: Step)
    requires Enabled(s, step) && Consistent(s.daemon)
    ensures Evolves(s.daemon, Apply(s, step).daemon)
    ensures Consistent(Apply(s, step).daemon)
  {
  }
}
