/** The books of the cleanup ticks. Every tick starts one goroutine per repo;
    the goroutines of one tick, and of overlapping ticks, interleave freely.
    Each counts what it did locally and adds it to the lifetime totals as it
    happens, and merges its local figures into the tick's summary at the end. */
module GhostAccounting {
  import opened Basics

  datatype RepoResult = RepoResult(found: nat, cancelled: nat, deleted: nat, stillStuck: nat)

  const NO_RESULT: RepoResult := RepoResult(0, 0, 0, 0)

  /** Where a goroutine stands: listing the ghosts, fetching the runs they
      hold, cancelling `left` runs, deleting `left` runners, about to merge, or
      finished. */
  datatype Stage = Listing | Fetching | Cancelling(left: nat) | Deleting(left: nat) | Returned | Failed | Merged

  datatype Worker = Worker(tick: nat, stage: Stage, r: RepoResult)

  datatype Summary = Summary(found: nat, cancelled: nat, deleted: nat, stillStuck: nat, reaped: nat)

  datatype TickStage = Working | Reaping | Finished

  datatype Tick = Tick(summary: Summary, stage: TickStage)

  /** All goroutines ever started, all ticks ever started, the 64-bit lifetime
      totals, and the summary stored last. */
  datatype Books = Books(workers: seq<Worker>, ticks: seq<Tick>,
                         totalDeleted: nat, totalCancelled: nat, totalReaped: nat, last: Option<Summary>)

  datatype Step =
    | StartTick
    | StartWorker(t: nat)
    | List(i: nat, ghosts: Option<nat>)
    | FetchRuns(i: nat, runs: Option<nat>)
    | Cancel(i: nat, ok: bool)
    | StartDeleting(i: nat)
    | Delete(i: nat, ok: bool)
    | Return(i: nat)
    | Merge(i: nat)
    | StartReaping(t: nat)
    | ReapOne(t: nat)
    | Finish(t: nat)

  /** The steps of a worker, by its stage. A failure is possible only while listing. */
  predicate WorkerMay(w: Worker, step: Step) {
    match step
    case List(_, _) => w.stage.Listing?
    case FetchRuns(_, _) => w.stage.Fetching?
    case Cancel(_, _) => w.stage.Cancelling? && w.stage.left > 0
    case StartDeleting(_) => w.stage == Cancelling(0)
    case Delete(_, _) => w.stage.Deleting? && w.stage.left > 0
    case Return(_) => w.stage == Deleting(0)
    case Merge(_) => w.stage.Returned?
    case _ => false
  }

  predicate OfWorker(step: Step) {
    step.List? || step.FetchRuns? || step.Cancel? || step.StartDeleting? || step.Delete? || step.Return? || step.Merge?
  }

  predicate Enabled(b: Books, step: Step) {
    if OfWorker(step) then
      && step.i < |b.workers| && WorkerMay(b.workers[step.i], step)
      && (step.Merge? ==> b.workers[step.i].tick < |b.ticks|)
    else
      match step
      case StartTick => true
      case StartWorker(t) => t < |b.ticks| && b.ticks[t].stage.Working?
      case StartReaping(t) =>
        && t < |b.ticks| && b.ticks[t].stage.Working?
        && forall i | 0 <= i < |b.workers| && b.workers[i].tick == t ::
             b.workers[i].stage.Merged? || b.workers[i].stage.Failed?
      case ReapOne(t) => t < |b.ticks| && b.ticks[t].stage.Reaping?
      case Finish(t) => t < |b.ticks| && b.ticks[t].stage.Reaping?
  }

  function WorkerAfter(w: Worker, step: Step): Worker
    requires OfWorker(step) && WorkerMay(w, step)
  {
    match step
    case List(_, ghosts) =>
      if ghosts.None? then w.(stage := Failed)
      else if ghosts.value == 0 then w.(stage := Returned)
      else w.(stage := Fetching, r := w.r.(found := ghosts.value))
    case FetchRuns(_, runs) => w.(stage := Cancelling(if runs.Some? then runs.value else 0))
    case Cancel(_, ok) =>
      w.(stage := Cancelling(w.stage.left - 1),
         r := if ok then w.r.(cancelled := w.r.cancelled + 1) else w.r)
    case StartDeleting(_) => w.(stage := Deleting(w.r.found))
    case Delete(_, ok) =>
      w.(stage := Deleting(w.stage.left - 1),
         r := if ok then w.r.(deleted := w.r.deleted + 1) else w.r.(stillStuck := w.r.stillStuck + 1))
    case Return(_) => w.(stage := Returned)
    case Merge(_) => w.(stage := Merged)
  }

  function Plus(s: Summary, r: RepoResult): Summary {
    s.(found := s.found + r.found, cancelled := s.cancelled + r.cancelled,
       deleted := s.deleted + r.deleted, stillStuck := s.stillStuck + r.stillStuck)
  }

  function Apply(b: Books, step: Step): Books
    requires Enabled(b, step)
  {
    if OfWorker(step) then
      var w := b.workers[step.i];
      var b' := b.(workers := b.workers[step.i := WorkerAfter(w, step)]);
      if step.Cancel? && step.ok then b'.(totalCancelled := Bump(b.totalCancelled))
      else if step.Delete? && step.ok then b'.(totalDeleted := Bump(b.totalDeleted))
      else if step.Merge? then
        var t := b.ticks[w.tick];
        b'.(ticks := b.ticks[w.tick := t.(summary := Plus(t.summary, w.r))])
      else b'
    else
      match step
      case StartTick => b.(ticks := b.ticks + [Tick(Summary(0, 0, 0, 0, 0), Working)])
      case StartWorker(t) => b.(workers := b.workers + [Worker(t, Listing, NO_RESULT)])
      case StartReaping(t) => b.(ticks := b.ticks[t := b.ticks[t].(stage := Reaping)])
      case ReapOne(t) =>
        var s := b.ticks[t].summary;
        b.(ticks := b.ticks[t := b.ticks[t].(summary := s.(reaped := s.reaped + 1))],
           totalReaped := Bump(b.totalReaped))
      case Finish(t) =>
        b.(ticks := b.ticks[t := b.ticks[t].(stage := Finished)], last := Some(b.ticks[t].summary))
  }

  // ----- what every interleaving keeps -----

  /** A goroutine's own figures add up at every stage; a failed one did nothing. */
  ghost predicate WorkerOk(w: Worker) {
    match w.stage
    case Listing => w.r == NO_RESULT
    case Failed => w.r == NO_RESULT
    case Fetching => w.r == NO_RESULT.(found := w.r.found)
    case Cancelling(_) => w.r.deleted == 0 && w.r.stillStuck == 0
    case Deleting(left) => w.r.found == w.r.deleted + w.r.stillStuck + left
    case _ => w.r.found == w.r.deleted + w.r.stillStuck
  }

  function Unmerged(w: Worker): RepoResult { if w.stage.Merged? then NO_RESULT else w.r }

  function TickDeleted(t: Tick): nat { t.summary.deleted }
  function TickCancelled(t: Tick): nat { t.summary.cancelled }
  function TickReaped(t: Tick): nat { t.summary.reaped }
  function OwnDeleted(w: Worker): nat { Unmerged(w).deleted }
  function OwnCancelled(w: Worker): nat { Unmerged(w).cancelled }

  function AllDeleted(b: Books): nat { SumBy(b.ticks, TickDeleted) + SumBy(b.workers, OwnDeleted) }
  function AllCancelled(b: Books): nat { SumBy(b.ticks, TickCancelled) + SumBy(b.workers, OwnCancelled) }
  function AllReaped(b: Books): nat { SumBy(b.ticks, TickReaped) }

  ghost predicate TotalsOk(b: Books) {
    && b.totalDeleted == Wrap64(AllDeleted(b))
    && b.totalCancelled == Wrap64(AllCancelled(b))
    && b.totalReaped == Wrap64(AllReaped(b))
  }

  /** Once a tick has gone past its goroutines, they stay finished. */
  ghost predicate StagesOk(b: Books) {
    forall i | 0 <= i < |b.workers| ::
      var w := b.workers[i];
      && WorkerOk(w) && w.tick < |b.ticks|
      && (!b.ticks[w.tick].stage.Working? ==> w.stage.Merged? || w.stage.Failed?)
  }

  ghost predicate SummariesOk(b: Books) {
    && (forall t | 0 <= t < |b.ticks| ::
          b.ticks[t].summary.found == b.ticks[t].summary.deleted + b.ticks[t].summary.stillStuck)
    && (b.last.Some? ==> b.last.value.found == b.last.value.deleted + b.last.value.stillStuck)
  }

  ghost predicate Inv(b: Books) { TotalsOk(b) && StagesOk(b) && SummariesOk(b) }

  lemma WorkerStaysOk(w: Worker, step: Step)
    requires WorkerOk(w) && OfWorker(step) && WorkerMay(w, step)
    ensures WorkerOk(WorkerAfter(w, step))
    ensures step.Merge? ==> w.r.found == w.r.deleted + w.r.stillStuck
    ensures !step.Merge? ==>
              && OwnDeleted(WorkerAfter(w, step)) == OwnDeleted(w) + (if step.Delete? && step.ok then 1 else 0)
              && OwnCancelled(WorkerAfter(w, step)) == OwnCancelled(w) + (if step.Cancel? && step.ok then 1 else 0)
    ensures step.Merge? ==>
              && OwnDeleted(w) == w.r.deleted && OwnCancelled(w) == w.r.cancelled
              && OwnDeleted(WorkerAfter(w, step)) == 0 && OwnCancelled(WorkerAfter(w, step)) == 0
  {
  }

  lemma StagesKept(b: Books, step: Step)
    requires StagesOk(b) && Enabled(b, step)
    ensures StagesOk(Apply(b, step))
  {
    if OfWorker(step) { WorkerStaysOk(b.workers[step.i], step); }
  }

  lemma SummariesKept(b: Books, step: Step)
    requires StagesOk(b) && SummariesOk(b) && Enabled(b, step)
    ensures SummariesOk(Apply(b, step))
  {
    if OfWorker(step) { WorkerStaysOk(b.workers[step.i], step); }
  }

  /** How the grand totals move with a worker's step. */
  lemma WorkerStepSums(b: Books, step: Step)
    requires StagesOk(b) && Enabled(b, step) && OfWorker(step)
    ensures var b' := Apply(b, step);
            && AllDeleted(b') == AllDeleted(b) + (if step.Delete? && step.ok then 1 else 0)
            && AllCancelled(b') == AllCancelled(b) + (if step.Cancel? && step.ok then 1 else 0)
            && AllReaped(b') == AllReaped(b)
  {
    var w := b.workers[step.i];
    var w' := WorkerAfter(w, step);
    WorkerStaysOk(w, step);
    SumByUpdate(b.workers, step.i, w', OwnDeleted);
    SumByUpdate(b.workers, step.i, w', OwnCancelled);
    if step.Merge? {
      var t := b.ticks[w.tick].(summary := Plus(b.ticks[w.tick].summary, w.r));
      SumByUpdate(b.ticks, w.tick, t, TickDeleted);
      SumByUpdate(b.ticks, w.tick, t, TickCancelled);
      SumByUpdate(b.ticks, w.tick, t, TickReaped);
    }
  }

  lemma TickStepSums(b: Books, step: Step)
    requires Enabled(b, step) && !OfWorker(step)
    ensures var b' := Apply(b, step);
            && AllDeleted(b') == AllDeleted(b) && AllCancelled(b') == AllCancelled(b)
            && AllReaped(b') == AllReaped(b) + (if step.ReapOne? then 1 else 0)
  {
    var b' := Apply(b, step);
    if step.StartTick? {
      var t := b'.ticks[|b.ticks|];
      SumByAppend(b.ticks, t, TickDeleted);
      SumByAppend(b.ticks, t, TickCancelled);
      SumByAppend(b.ticks, t, TickReaped);
    } else if step.StartWorker? {
      var w := b'.workers[|b.workers|];
      SumByAppend(b.workers, w, OwnDeleted);
      SumByAppend(b.workers, w, OwnCancelled);
    } else {
      SumByUpdate(b.ticks, step.t, b'.ticks[step.t], TickDeleted);
      SumByUpdate(b.ticks, step.t, b'.ticks[step.t], TickCancelled);
      SumByUpdate(b.ticks, step.t, b'.ticks[step.t], TickReaped);
    }
  }

  lemma TotalsKept(b: Books, step: Step)
    requires Inv(b) && Enabled(b, step)
    ensures TotalsOk(Apply(b, step))
  {
    if OfWorker(step) { WorkerStepSums(b, step); } else { TickStepSums(b, step); }
    WrapSuccessor(AllDeleted(b));
    WrapSuccessor(AllCancelled(b));
    WrapSuccessor(AllReaped(b));
  }

  datatype Run = Run(states: seq<Books>, steps: seq<Step>)

  const NO_BOOKS: Books := Books([], [], 0, 0, 0, None)

  ghost predicate IsRun(r: Run) {
    && |r.states| == |r.steps| + 1 && r.states[0] == NO_BOOKS
    && forall i | 0 <= i < |r.steps| ::
         Enabled(r.states[i], r.steps[i]) && r.states[i + 1] == Apply(r.states[i], r.steps[i])
  }

  lemma {:induction false} InvAlways(r: Run, k: nat)
    requires IsRun(r) && k < |r.states|
    ensures Inv(r.states[k])
  {
    if k == 0 {
    } else {
      InvAlways(r, k - 1);
      var b, step := r.states[k - 1], r.steps[k - 1];
      TotalsKept(b, step);
      StagesKept(b, step);
      SummariesKept(b, step);
    }
  }

  /** In every summary, stored or in progress, found is deleted plus still stuck. */
  lemma SummariesAddUp(r: Run, k: nat)
    requires IsRun(r) && k < |r.states|
    ensures SummariesOk(r.states[k])
  {
    InvAlways(r, k);
  }

  /** Whenever every tick started so far has finished, in whatever order they
      overlapped, the lifetime totals are the sums of the per-tick figures. */
  lemma LifetimeTotals(r: Run, k: nat)
    requires IsRun(r) && k < |r.states|
    requires forall t | 0 <= t < |r.states[k].ticks| :: r.states[k].ticks[t].stage.Finished?
    ensures var b := r.states[k];
            && b.totalDeleted == Wrap64(SumBy(b.ticks, TickDeleted))
            && b.totalCancelled == Wrap64(SumBy(b.ticks, TickCancelled))
            && b.totalReaped == Wrap64(SumBy(b.ticks, TickReaped))
  {
    InvAlways(r, k);
    var b := r.states[k];
    forall i | 0 <= i < |b.workers| ensures OwnDeleted(b.workers[i]) == 0 && OwnCancelled(b.workers[i]) == 0 {
      assert WorkerOk(b.workers[i]);
    }
    SumByZero(b.workers, OwnDeleted);
    SumByZero(b.workers, OwnCancelled);
  }

  // ----- whose figures a summary holds -----

  datatype Figure = Found | Cancelled | Deleted | StillStuck

  function Of(r: RepoResult, f: Figure): nat {
    match f
    case Found => r.found
    case Cancelled => r.cancelled
    case Deleted => r.deleted
    case StillStuck => r.stillStuck
  }

  function In(s: Summary, f: Figure): nat {
    match f
    case Found => s.found
    case Cancelled => s.cancelled
    case Deleted => s.deleted
    case StillStuck => s.stillStuck
  }

  /** What a goroutine has merged into tick t. */
  function MergedInto(t: nat, f: Figure): Worker -> nat {
    (w: Worker) => if w.tick == t && w.stage.Merged? then Of(w.r, f) else 0
  }

  ghost predicate SumsUp(b: Books, t: nat, f: Figure) {
    t < |b.ticks| ==> In(b.ticks[t].summary, f) == SumBy(b.workers, MergedInto(t, f))
  }

  lemma WorkerStepSumsUp(b: Books, step: Step, t: nat, f: Figure)
    requires StagesOk(b) && Enabled(b, step) && OfWorker(step) && SumsUp(b, t, f)
    ensures SumsUp(Apply(b, step), t, f)
  {
    var w := b.workers[step.i];
    SumByUpdate(b.workers, step.i, WorkerAfter(w, step), MergedInto(t, f));
  }

  lemma TickStepSumsUp(b: Books, step: Step, t: nat, f: Figure)
    requires StagesOk(b) && Enabled(b, step) && !OfWorker(step) && SumsUp(b, t, f)
    ensures SumsUp(Apply(b, step), t, f)
  {
    if step.StartWorker? {
      SumByAppend(b.workers, Worker(step.t, Listing, NO_RESULT), MergedInto(t, f));
    } else if step.StartTick? && t == |b.ticks| {
      SumByZero(b.workers, MergedInto(t, f));
    }
  }

  lemma {:induction false} SumsUpAlways(r: Run, k: nat, t: nat, f: Figure)
    requires IsRun(r) && k < |r.states|
    ensures SumsUp(r.states[k], t, f)
  {
    if k == 0 {
    } else {
      SumsUpAlways(r, k - 1, t, f);
      InvAlways(r, k - 1);
      var b, step := r.states[k - 1], r.steps[k - 1];
      if OfWorker(step) { WorkerStepSumsUp(b, step, t, f); } else { TickStepSumsUp(b, step, t, f); }
    }
  }

  /** Every summary holds the figures of the goroutines of its own tick, each
      merged once; and once the tick is past them, of all that did not fail. */
  lemma SummaryIsOfItsTick(r: Run, k: nat, t: nat)
    requires IsRun(r) && k < |r.states| && t < |r.states[k].ticks|
    ensures var b := r.states[k];
            var s, ws := b.ticks[t].summary, b.workers;
            && s.found == SumBy(ws, (w: Worker) => if w.tick == t && w.stage.Merged? then w.r.found else 0)
            && s.cancelled == SumBy(ws, (w: Worker) => if w.tick == t && w.stage.Merged? then w.r.cancelled else 0)
            && s.deleted == SumBy(ws, (w: Worker) => if w.tick == t && w.stage.Merged? then w.r.deleted else 0)
            && s.stillStuck == SumBy(ws, (w: Worker) => if w.tick == t && w.stage.Merged? then w.r.stillStuck else 0)
    ensures r.states[k].ticks[t].stage.Finished? ==>
              forall i | 0 <= i < |r.states[k].workers| && r.states[k].workers[i].tick == t ::
                r.states[k].workers[i].stage.Merged? || r.states[k].workers[i].stage.Failed?
  {
    SumsUpAlways(r, k, t, Found);
    SumsUpAlways(r, k, t, Cancelled);
    SumsUpAlways(r, k, t, Deleted);
    SumsUpAlways(r, k, t, StillStuck);
    InvAlways(r, k);
    var ws := r.states[k].workers;
    SumBySame(ws, MergedInto(t, Found),
              (w: Worker) => if w.tick == t && w.stage.Merged? then w.r.found else 0);
    SumBySame(ws, MergedInto(t, Cancelled),
              (w: Worker) => if w.tick == t && w.stage.Merged? then w.r.cancelled else 0);
    SumBySame(ws, MergedInto(t, Deleted),
              (w: Worker) => if w.tick == t && w.stage.Merged? then w.r.deleted else 0);
    SumBySame(ws, MergedInto(t, StillStuck),
              (w: Worker) => if w.tick == t && w.stage.Merged? then w.r.stillStuck else 0);
  }

  /** The removals of tick t among the first k steps. */
  function ReapsOf(r: Run, k: nat, t: nat): set<nat>
    requires k <= |r.steps|
  {
    set i: nat | i < k && r.steps[i] == ReapOne(t)
  }

  lemma ReapsNext(r: Run, k: nat, t: nat)
    requires 0 < k <= |r.steps|
    ensures |ReapsOf(r, k, t)| == |ReapsOf(r, k - 1, t)| + if r.steps[k - 1] == ReapOne(t) then 1 else 0
  {
    assert ReapsOf(r, k, t) == ReapsOf(r, k - 1, t) + if r.steps[k - 1] == ReapOne(t) then {k - 1} else {};
  }

  /** A tick has reaped one container for each of its removals. */
  lemma {:induction false} ReapedIsOfItsTick(r: Run, k: nat, t: nat)
    requires IsRun(r) && k < |r.states| && t < |r.states[k].ticks|
    ensures r.states[k].ticks[t].summary.reaped == |ReapsOf(r, k, t)|
  {
    ReapsNext(r, k, t);
    if t < |r.states[k - 1].ticks| {
      ReapedIsOfItsTick(r, k - 1, t);
      ReapStep(r.states[k - 1], r.steps[k - 1], t);
    } else {
      NoReapBeforeStart(r, k - 1, t);
      assert ReapsOf(r, k - 1, t) == {};
    }
  }

  lemma ReapStep(b: Books, step: Step, t: nat)
    requires Enabled(b, step) && t < |b.ticks|
    ensures t < |Apply(b, step).ticks|
    ensures Apply(b, step).ticks[t].summary.reaped
         == b.ticks[t].summary.reaped + if step == ReapOne(t) then 1 else 0
  {
  }

  lemma {:induction false} NoReapBeforeStart(r: Run, k: nat, t: nat)
    requires IsRun(r) && k < |r.states| && t >= |r.states[k].ticks|
    ensures forall i | 0 <= i < k :: r.steps[i] != ReapOne(t)
  {
    if k == 0 {
    } else {
      assert Enabled(r.states[k - 1], r.steps[k - 1]);
      NoReapBeforeStart(r, k - 1, t);
    }
  }

  /** The summary kept is that of the tick that finished last, as it then stood. */
  lemma {:induction false} LastIsTheLatest(r: Run, i: nat, k: nat, t: nat)
    requires IsRun(r) && i < k < |r.states| && r.steps[i] == Finish(t)
    requires forall j | i < j < k :: !r.steps[j].Finish?
    ensures t < |r.states[i].ticks| && r.states[k].last == Some(r.states[i].ticks[t].summary)
  {
    assert Enabled(r.states[i], r.steps[i]);
    if k == i + 1 {
    } else {
      LastIsTheLatest(r, i, k - 1, t);
    }
  }
}
