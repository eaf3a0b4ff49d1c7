/** The cleanup of one repo: which of its registered runners are ghosts, which
    workflow runs they hold, and what is cancelled and deleted on their account. */
module GhostCleanup {
  import opened Basics
  import opened GhostAccounting

  datatype Runner = Runner(id: int, name: string, status: string, busy: bool)

  datatype Ghost = Ghost(id: int, name: string, busy: bool)

  datatype Job = Job(runnerName: string, status: string)

  const AUTO_PREFIX: string := "auto-"

  /** A ghost is a runner this program registered that is not online, however busy. */
  predicate IsGhost(r: Runner) {
    AUTO_PREFIX <= r.name && r.status != "online"
  }

  function GhostsOf(runners: seq<Runner>): seq<Ghost> {
    if runners == [] then []
    else
      var n := |runners| - 1;
      var r := runners[n];
      GhostsOf(runners[..n]) + if IsGhost(r) then [Ghost(r.id, r.name, r.busy)] else []
  }

  method ListGhostRunners(runners: seq<Runner>) returns (out: seq<Ghost>)
    ensures out == GhostsOf(runners)
  {
    out := [];
    for i := 0 to |runners|
      invariant out == GhostsOf(runners[..i])
    {
      var r := runners[i];
      assert runners[..i + 1][..i] == runners[..i];
      if !(AUTO_PREFIX <= r.name) { continue; }
      if r.status == "online" { continue; }
      out := out + [Ghost(r.id, r.name, r.busy)];
    }
    assert runners[..|runners|] == runners;
  }

  /** The names of the runners that are ghosts. */
  ghost predicate GhostName(runners: seq<Runner>, name: string) {
    exists i :: 0 <= i < |runners| && IsGhost(runners[i]) && runners[i].name == name
  }

  function Names(ghosts: seq<Ghost>): set<string> { set i | 0 <= i < |ghosts| :: ghosts[i].name }

  lemma NamesOfAppend(gs: seq<Ghost>, g: Ghost)
    ensures Names(gs + [g]) == Names(gs) + {g.name}
  {
    var all := gs + [g];
    forall name | name in Names(all) ensures name in Names(gs) + {g.name} {
      var i :| 0 <= i < |all| && all[i].name == name;
      if i < |gs| { assert gs[i].name == name; }
    }
    forall name | name in Names(gs) ensures name in Names(all) {
      var i :| 0 <= i < |gs| && gs[i].name == name;
      assert all[i].name == name;
    }
    assert all[|gs|].name == g.name;
  }

  lemma GhostNameNext(runners: seq<Runner>, name: string)
    requires runners != []
    ensures var n := |runners| - 1;
            GhostName(runners, name) <==>
              (GhostName(runners[..n], name) || (IsGhost(runners[n]) && runners[n].name == name))
  {
    var n := |runners| - 1;
    var before := runners[..n];
    if GhostName(before, name) {
      var i :| 0 <= i < n && IsGhost(before[i]) && before[i].name == name;
      assert runners[i] == before[i];
    }
    if GhostName(runners, name) {
      var i :| 0 <= i < |runners| && IsGhost(runners[i]) && runners[i].name == name;
      if i < n { assert before[i] == runners[i]; }
    }
  }

  lemma {:induction false} NamesAreGhostNames(runners: seq<Runner>, name: string)
    ensures name in Names(GhostsOf(runners)) <==> GhostName(runners, name)
  {
    if runners == [] {
    } else {
      var n := |runners| - 1;
      var before, r := runners[..n], runners[n];
      NamesAreGhostNames(before, name);
      GhostNameNext(runners, name);
      if IsGhost(r) {
        NamesOfAppend(GhostsOf(before), Ghost(r.id, r.name, r.busy));
      } else {
        assert GhostsOf(runners) == GhostsOf(before);
      }
    }
  }

  /** The jobs fetched for a run include one in progress on one of these runners. */
  predicate Held(jobs: Option<seq<Job>>, names: set<string>) {
    && jobs.Some?
    && exists k ::
         0 <= k < |jobs.value| && jobs.value[k].status == "in_progress" && jobs.value[k].runnerName in names
  }

  /** The ids of the held runs; `jobs[i]` is what the fetch for `runs[i]` gave,
      nothing when it failed. */
  ghost function StuckRuns(runs: seq<int>, jobs: seq<Option<seq<Job>>>, names: set<string>): set<int>
    requires |runs| == |jobs|
  {
    set i | 0 <= i < |runs| && Held(jobs[i], names) :: runs[i]
  }

  lemma StuckRunsNext(runs: seq<int>, jobs: seq<Option<seq<Job>>>, names: set<string>, i: nat)
    requires i < |runs| == |jobs|
    ensures StuckRuns(runs[..i + 1], jobs[..i + 1], names)
         == StuckRuns(runs[..i], jobs[..i], names) + if Held(jobs[i], names) then {runs[i]} else {}
  {
    var a, b := StuckRuns(runs[..i + 1], jobs[..i + 1], names), StuckRuns(runs[..i], jobs[..i], names);
    forall x | x in b ensures x in a {
      var k :| 0 <= k < i && Held(jobs[..i][k], names) && runs[..i][k] == x;
      assert Held(jobs[..i + 1][k], names) && runs[..i + 1][k] == x;
    }
    forall x | x in a ensures x in b + if Held(jobs[i], names) then {runs[i]} else {} {
      var k :| 0 <= k <= i && Held(jobs[..i + 1][k], names) && runs[..i + 1][k] == x;
      if k < i { assert Held(jobs[..i][k], names) && runs[..i][k] == x; }
    }
    if Held(jobs[i], names) { assert Held(jobs[..i + 1][i], names) && runs[..i + 1][i] == runs[i]; }
  }

  method GhostNames(ghosts: seq<Ghost>) returns (names: set<string>)
    ensures names == Names(ghosts)
  {
    names := {};
    for i := 0 to |ghosts|
      invariant names == Names(ghosts[..i])
    {
      assert ghosts[..i + 1] == ghosts[..i] + [ghosts[i]];
      NamesOfAppend(ghosts[..i], ghosts[i]);
      names := names + {ghosts[i].name};
    }
    assert ghosts[..|ghosts|] == ghosts;
  }

  /** The scan over one run's jobs, up to the first that a ghost holds. */
  method HeldByGhost(jobs: seq<Job>, names: set<string>) returns (held: bool)
    ensures held == Held(Some(jobs), names)
  {
    held := false;
    for k := 0 to |jobs|
      invariant !held
      invariant forall m | 0 <= m < k :: jobs[m].status == "in_progress" ==> jobs[m].runnerName !in names
    {
      if jobs[k].status != "in_progress" { continue; }
      if jobs[k].runnerName in names { return true; }
    }
  }

  /** The runs to cancel, without duplicates and in no particular order. */
  method RunIdsForGhosts(runs: seq<int>, jobs: seq<Option<seq<Job>>>, ghosts: seq<Ghost>) returns (out: seq<int>)
    requires |runs| == |jobs|
    ensures NoDuplicates(out) && Elements(out) == StuckRuns(runs, jobs, Names(ghosts))
  {
    var names := GhostNames(ghosts);
    var stuck: set<int> := {};
    for i := 0 to |runs|
      invariant stuck == StuckRuns(runs[..i], jobs[..i], names)
    {
      StuckRunsNext(runs, jobs, names, i);
      if jobs[i].None? { continue; }
      var held := HeldByGhost(jobs[i].value, names);
      if held { stuck := stuck + {runs[i]}; }
    }
    assert runs[..|runs|] == runs && jobs[..|jobs|] == jobs;
    out := InSomeOrder(stuck);
  }

  /** What the same goroutine does in the books: every step is allowed where it is taken. */
  ghost function Work(w: Worker, steps: seq<Step>): Option<Worker> {
    if steps == [] then Some(w)
    else
      var n := |steps| - 1;
      var before := Work(w, steps[..n]);
      if before.Some? && OfWorker(steps[n]) && WorkerMay(before.value, steps[n])
      then Some(WorkerAfter(before.value, steps[n])) else None
  }

  lemma WorkOn(w: Worker, steps: seq<Step>, v: Worker, step: Step)
    requires Work(w, steps) == Some(v) && OfWorker(step) && WorkerMay(v, step)
    ensures Work(w, steps + [step]) == Some(WorkerAfter(v, step))
  {
    assert (steps + [step])[..|steps|] == steps;
  }

  /** A request to GitHub about one run or runner, and whether it was accepted. */
  datatype Reply = Reply(id: int, ok: bool)

  function Accepted(rs: seq<Reply>): (n: nat)
    ensures n <= |rs|
  {
    if rs == [] then 0 else Accepted(rs[..|rs| - 1]) + if rs[|rs| - 1].ok then 1 else 0
  }

  function Refused(rs: seq<Reply>): nat { |rs| - Accepted(rs) }

  /** Whom the requests went to, in order. */
  function Targets(rs: seq<Reply>): seq<int> { seq(|rs|, i requires 0 <= i < |rs| => rs[i].id) }

  lemma RepliesNext(rs: seq<Reply>, ids: seq<int>, k: nat, ok: bool)
    requires k < |ids| && Targets(rs) == ids[..k]
    ensures Targets(rs + [Reply(ids[k], ok)]) == ids[..k + 1]
    ensures Accepted(rs + [Reply(ids[k], ok)]) == Accepted(rs) + if ok then 1 else 0
  {
    var r := Reply(ids[k], ok);
    assert (rs + [r])[..|rs|] == rs;
    var ts := Targets(rs + [r]);
    assert |rs| == k;
    forall i | 0 <= i < k ensures ts[i] == ids[..k + 1][i] {
      assert ts[i] == Targets(rs)[i];
    }
  }

  function Ids(ghosts: seq<Ghost>): seq<int> { seq(|ghosts|, i requires 0 <= i < |ghosts| => ghosts[i].id) }

  /** The goroutine with `left` deletions to go. */
  ghost function Deletes(w: Worker, left: nat, deleted: nat, stillStuck: nat): Worker {
    Worker(w.tick, Deleting(left), RepoResult(w.r.found, w.r.cancelled, deleted, stillStuck))
  }

  /** The goroutine with `left` cancellations to go. */
  ghost function Cancels(w: Worker, left: nat, cancelled: nat): Worker {
    Worker(w.tick, Cancelling(left), RepoResult(w.r.found, cancelled, w.r.deleted, w.r.stillStuck))
  }

  /** The books after one more cancellation, or deletion, per request. */
  ghost function AfterCancels(done: seq<Step>, i: nat, rs: seq<Reply>): seq<Step> {
    if rs == [] then done else AfterCancels(done, i, rs[..|rs| - 1]) + [Cancel(i, rs[|rs| - 1].ok)]
  }

  ghost function AfterDeletes(done: seq<Step>, i: nat, rs: seq<Reply>): seq<Step> {
    if rs == [] then done else AfterDeletes(done, i, rs[..|rs| - 1]) + [Delete(i, rs[|rs| - 1].ok)]
  }

  lemma CancelsNext(i: nat, w0: Worker, steps: seq<Step>, w: Worker, left: nat, cancelled: nat, ok: bool)
    requires left > 0 && Work(w0, steps) == Some(Cancels(w, left, cancelled))
    ensures Work(w0, steps + [Cancel(i, ok)]) == Some(Cancels(w, left - 1, if ok then cancelled + 1 else cancelled))
  {
    WorkOn(w0, steps, Cancels(w, left, cancelled), Cancel(i, ok));
  }

  lemma DeletesNext(i: nat, w0: Worker, steps: seq<Step>, w: Worker, left: nat,
                    deleted: nat, stillStuck: nat, ok: bool)
    requires left > 0 && Work(w0, steps) == Some(Deletes(w, left, deleted, stillStuck))
    ensures Work(w0, steps + [Delete(i, ok)])
         == Some(if ok then Deletes(w, left - 1, deleted + 1, stillStuck)
                 else Deletes(w, left - 1, deleted, stillStuck + 1))
  {
    WorkOn(w0, steps, Deletes(w, left, deleted, stillStuck), Delete(i, ok));
  }

  lemma {:induction false} WorkCancels(i: nat, w0: Worker, done: seq<Step>, w: Worker, left: nat, rs: seq<Reply>)
    requires Work(w0, done) == Some(Cancels(w, left, 0)) && |rs| <= left
    ensures Work(w0, AfterCancels(done, i, rs)) == Some(Cancels(w, left - |rs|, Accepted(rs)))
  {
    if rs == [] {
    } else {
      var n := |rs| - 1;
      WorkCancels(i, w0, done, w, left, rs[..n]);
      CancelsNext(i, w0, AfterCancels(done, i, rs[..n]), w, left - n, Accepted(rs[..n]), rs[n].ok);
    }
  }

  lemma {:induction false} WorkDeletes(i: nat, w0: Worker, done: seq<Step>, w: Worker, left: nat, rs: seq<Reply>)
    requires Work(w0, done) == Some(Deletes(w, left, 0, 0)) && |rs| <= left
    ensures Work(w0, AfterDeletes(done, i, rs)) == Some(Deletes(w, left - |rs|, Accepted(rs), Refused(rs)))
  {
    if rs == [] {
    } else {
      var n := |rs| - 1;
      WorkDeletes(i, w0, done, w, left, rs[..n]);
      DeletesNext(i, w0, AfterDeletes(done, i, rs[..n]), w, left - n, Accepted(rs[..n]), Refused(rs[..n]), rs[n].ok);
    }
  }

  /** Nothing to do, or nothing that could be listed. */
  lemma WorkEndsEarly(i: nat, w0: Worker, ghosts: Option<nat>)
    requires w0.stage.Listing? && (ghosts.Some? ==> ghosts.value == 0)
    ensures Work(w0, [Step.List(i, ghosts)]) == Some(w0.(stage := if ghosts.None? then Failed else Returned))
  {
    WorkOn(w0, [], w0, Step.List(i, ghosts));
    assert [] + [Step.List(i, ghosts)] == [Step.List(i, ghosts)];
  }

  /** The fetches that come before the first request. */
  lemma WorkBegins(i: nat, w0: Worker, found: nat, runs: Option<nat>)
    requires w0 == Worker(w0.tick, Listing, NO_RESULT) && found > 0
    ensures Work(w0, [Step.List(i, Some(found)), FetchRuns(i, runs)])
         == Some(Worker(w0.tick, Cancelling(if runs.Some? then runs.value else 0), RepoResult(found, 0, 0, 0)))
  {
    var first, next := Step.List(i, Some(found)), FetchRuns(i, runs);
    WorkOn(w0, [], w0, first);
    assert [] + [first] == [first] && [first] + [next] == [first, next];
    WorkOn(w0, [first], WorkerAfter(w0, first), next);
  }

  // ----- the same without those names -----

  /** A runner of this program that is not online. */
  predicate OwnOffline(r: Runner) {
    |r.name| >= 5 && r.name[..5] == "auto-" && r.status != "online"
  }

  lemma GhostIsOwnOffline(r: Runner)
    ensures IsGhost(r) <==> OwnOffline(r)
  {
    if AUTO_PREFIX <= r.name { assert r.name[..5] == AUTO_PREFIX; }
    if OwnOffline(r) { assert AUTO_PREFIX == r.name[..|AUTO_PREFIX|]; }
  }

  /** The positions of those runners on the page, in order. */
  ghost predicate Picks(runners: seq<Runner>, idx: seq<nat>) {
    && (forall k | 0 <= k < |idx| :: idx[k] < |runners| && OwnOffline(runners[idx[k]]))
    && (forall k, m | 0 <= k < m < |idx| :: idx[k] < idx[m])
    && (forall i | 0 <= i < |runners| && OwnOffline(runners[i]) :: exists k :: 0 <= k < |idx| && idx[k] == i)
  }

  lemma PicksNext(runners: seq<Runner>, before: seq<nat>)
    requires runners != [] && Picks(runners[..|runners| - 1], before)
    ensures var n := |runners| - 1; Picks(runners, before + if OwnOffline(runners[n]) then [n] else [])
  {
    var n := |runners| - 1;
    var idx := before + if OwnOffline(runners[n]) then [n] else [];
    forall k | 0 <= k < |before| ensures before[k] < n && OwnOffline(runners[before[k]]) {
      assert runners[..n][before[k]] == runners[before[k]];
    }
    forall i | 0 <= i < |runners| && OwnOffline(runners[i]) ensures exists k :: 0 <= k < |idx| && idx[k] == i {
      if i < n {
        assert runners[..n][i] == runners[i];
        var k :| 0 <= k < |before| && before[k] == i;
        assert idx[k] == i;
      } else {
        assert idx[|before|] == i;
      }
    }
  }

  lemma {:induction false} GhostsInPlainTerms(runners: seq<Runner>) returns (idx: seq<nat>)
    ensures Picks(runners, idx) && |GhostsOf(runners)| == |idx|
    ensures forall k | 0 <= k < |idx| ::
              var r := runners[idx[k]]; GhostsOf(runners)[k] == Ghost(r.id, r.name, r.busy)
  {
    if runners == [] {
      idx := [];
    } else {
      var n := |runners| - 1;
      var before := GhostsInPlainTerms(runners[..n]);
      GhostIsOwnOffline(runners[n]);
      PicksNext(runners, before);
      idx := before + if OwnOffline(runners[n]) then [n] else [];
    }
  }

  /** The requests that were accepted. */
  function AcceptedAt(rs: seq<Reply>): set<nat> { set k: nat | k < |rs| && rs[k].ok }

  lemma {:induction false} AcceptedCounts(rs: seq<Reply>)
    ensures Accepted(rs) == |AcceptedAt(rs)|
  {
    if rs == [] {
      assert AcceptedAt(rs) == {};
    } else {
      var n := |rs| - 1;
      AcceptedCounts(rs[..n]);
      assert AcceptedAt(rs) == AcceptedAt(rs[..n]) + if rs[n].ok then {n} else {};
    }
  }

  /** A fetched job of this run is in progress on a runner of this program that is not online. */
  ghost predicate HeldByOffline(runners: seq<Runner>, jobs: Option<seq<Job>>) {
    jobs.Some? && exists k, m ::
      && 0 <= k < |jobs.value| && jobs.value[k].status == "in_progress"
      && 0 <= m < |runners| && OwnOffline(runners[m]) && runners[m].name == jobs.value[k].runnerName
  }

  lemma GhostNameIsOwnOffline(runners: seq<Runner>, name: string)
    ensures GhostName(runners, name)
       <==> exists m :: 0 <= m < |runners| && OwnOffline(runners[m]) && runners[m].name == name
  {
    forall m | 0 <= m < |runners| ensures IsGhost(runners[m]) <==> OwnOffline(runners[m]) {
      GhostIsOwnOffline(runners[m]);
    }
  }

  lemma HeldInPlainTerms(runners: seq<Runner>, jobs: Option<seq<Job>>)
    ensures Held(jobs, Names(GhostsOf(runners))) <==> HeldByOffline(runners, jobs)
  {
    if jobs.Some? {
      forall k | 0 <= k < |jobs.value|
        ensures jobs.value[k].runnerName in Names(GhostsOf(runners)) <==>
                exists m :: 0 <= m < |runners| && OwnOffline(runners[m]) && runners[m].name == jobs.value[k].runnerName
      {
        NamesAreGhostNames(runners, jobs.value[k].runnerName);
        GhostNameIsOwnOffline(runners, jobs.value[k].runnerName);
      }
    }
  }

  /** What cleaning up a repo comes to: one delete request per runner of this
      program that is not online, in the order of the page and with its id; one
      cancel request per run with a fetched job in progress on such a runner; and
      the figures count the requests that were accepted. */
  ghost predicate CleanedUp(runners: seq<Runner>, running: Result<seq<int>>, jobs: seq<Option<seq<Job>>>,
                            r: RepoResult, cancels: seq<Reply>, deletes: seq<Reply>)
    requires running.Ok? ==> |jobs| == |running.value|
  {
    && (exists idx ::
          && Picks(runners, idx) && r.found == |idx| == |deletes|
          && forall k | 0 <= k < |deletes| :: deletes[k].id == runners[idx[k]].id)
    && r.deleted == |AcceptedAt(deletes)| && r.deleted + r.stillStuck == |deletes|
    && r.cancelled == |AcceptedAt(cancels)|
    && (forall k, m | 0 <= k < m < |cancels| :: cancels[k].id != cancels[m].id)
    && (forall k | 0 <= k < |cancels| ::
          running.Ok? && exists i ::
            0 <= i < |jobs| && running.value[i] == cancels[k].id && HeldByOffline(runners, jobs[i]))
    && (running.Ok? ==> forall i | 0 <= i < |jobs| && HeldByOffline(runners, jobs[i]) ::
                          exists k :: 0 <= k < |cancels| && cancels[k].id == running.value[i])
  }

  lemma DeletesInPlainTerms(runners: seq<Runner>, deletes: seq<Reply>)
    requires Targets(deletes) == Ids(GhostsOf(runners))
    ensures exists idx ::
              && Picks(runners, idx) && |GhostsOf(runners)| == |idx| == |deletes|
              && forall k | 0 <= k < |deletes| :: deletes[k].id == runners[idx[k]].id
  {
    var idx := GhostsInPlainTerms(runners);
    assert |deletes| == |Targets(deletes)| == |Ids(GhostsOf(runners))| == |idx|;
    forall k | 0 <= k < |deletes| ensures deletes[k].id == runners[idx[k]].id {
      assert Targets(deletes)[k] == Ids(GhostsOf(runners))[k];
    }
  }

  lemma CancelsInPlainTerms(runners: seq<Runner>, running: Result<seq<int>>, jobs: seq<Option<seq<Job>>>,
                            cancels: seq<Reply>, id: int)
    requires running.Ok? ==> |jobs| == |running.value|
    requires Elements(Targets(cancels))
          == if running.Ok? then StuckRuns(running.value, jobs, Names(GhostsOf(runners))) else {}
    ensures (exists k :: 0 <= k < |cancels| && cancels[k].id == id) <==>
            (running.Ok? && exists i :: 0 <= i < |jobs| && running.value[i] == id && HeldByOffline(runners, jobs[i]))
  {
    if k :| 0 <= k < |cancels| && cancels[k].id == id { assert Targets(cancels)[k] == id; }
    assert id in Elements(Targets(cancels)) <==> exists k :: 0 <= k < |cancels| && cancels[k].id == id by {
      if id in Elements(Targets(cancels)) {
        var k :| 0 <= k < |Targets(cancels)| && Targets(cancels)[k] == id;
        assert cancels[k].id == id;
      }
    }
    forall i | 0 <= i < |jobs| ensures Held(jobs[i], Names(GhostsOf(runners))) <==> HeldByOffline(runners, jobs[i]) {
      HeldInPlainTerms(runners, jobs[i]);
    }
  }

  lemma NoGhosts(running: Result<seq<int>>, jobs: seq<Option<seq<Job>>>)
    requires running.Ok? ==> |jobs| == |running.value|
    ensures Names([]) == {} && (running.Ok? ==> StuckRuns(running.value, jobs, {}) == {})
    ensures Targets([]) == [] && Ids([]) == [] && Accepted([]) == Refused([]) == 0
  {
  }

  lemma CleanupInPlainTerms(runners: seq<Runner>, running: Result<seq<int>>, jobs: seq<Option<seq<Job>>>,
                            r: RepoResult, cancels: seq<Reply>, deletes: seq<Reply>)
    requires running.Ok? ==> |jobs| == |running.value|
    requires r == RepoResult(|GhostsOf(runners)|, Accepted(cancels), Accepted(deletes), Refused(deletes))
    requires Targets(deletes) == Ids(GhostsOf(runners)) && NoDuplicates(Targets(cancels))
    requires Elements(Targets(cancels))
          == if running.Ok? then StuckRuns(running.value, jobs, Names(GhostsOf(runners))) else {}
    ensures CleanedUp(runners, running, jobs, r, cancels, deletes)
  {
    DeletesInPlainTerms(runners, deletes);
    AcceptedCounts(deletes);
    AcceptedCounts(cancels);
    forall k, m | 0 <= k < m < |cancels| ensures cancels[k].id != cancels[m].id {
      assert Targets(cancels)[k] == cancels[k].id && Targets(cancels)[m] == cancels[m].id;
    }
    forall k | 0 <= k < |cancels|
      ensures running.Ok? && exists i ::
                0 <= i < |jobs| && running.value[i] == cancels[k].id && HeldByOffline(runners, jobs[i])
    {
      CancelsInPlainTerms(runners, running, jobs, cancels, cancels[k].id);
    }
    forall i | running.Ok? && 0 <= i < |jobs| && HeldByOffline(runners, jobs[i])
      ensures exists k :: 0 <= k < |cancels| && cancels[k].id == running.value[i]
    {
      CancelsInPlainTerms(runners, running, jobs, cancels, running.value[i]);
    }
  }

  /** The lifetime totals, atomic 64-bit counters. */
  class Totals {
    var ghostsDeleted: nat
    var runsCancelled: nat

    constructor ()
      ensures ghostsDeleted == 0 && runsCancelled == 0
    {
      ghostsDeleted, runsCancelled := 0, 0;
    }

    /** One force-cancel request per run; each accepted one is counted at once. */
    method CancelRuns(ids: seq<int>) returns (replies: seq<Reply>, cancelled: nat)
      modifies `runsCancelled
      ensures Targets(replies) == ids && cancelled == Accepted(replies)
      ensures runsCancelled == Bumped(old(runsCancelled), cancelled)
    {
      replies, cancelled := [], 0;
      for k := 0 to |ids|
        invariant Targets(replies) == ids[..k] && cancelled == Accepted(replies)
        invariant runsCancelled == Bumped(old(runsCancelled), cancelled)
      {
        var ok: bool := *;
        RepliesNext(replies, ids, k, ok);
        replies := replies + [Reply(ids[k], ok)];
        if ok {
          cancelled := cancelled + 1;
          runsCancelled := Bump(runsCancelled);
        }
      }
    }

    /** One delete request per ghost; a refused one leaves the ghost stuck. */
    method DeleteGhosts(ghosts: seq<Ghost>) returns (replies: seq<Reply>, deleted: nat, stillStuck: nat)
      modifies `ghostsDeleted
      ensures Targets(replies) == Ids(ghosts) && deleted == Accepted(replies) && deleted + stillStuck == |ghosts|
      ensures ghostsDeleted == Bumped(old(ghostsDeleted), deleted)
    {
      ghost var ids := Ids(ghosts);
      replies, deleted, stillStuck := [], 0, 0;
      for k := 0 to |ghosts|
        invariant Targets(replies) == ids[..k] && deleted == Accepted(replies) && deleted + stillStuck == k
        invariant ghostsDeleted == Bumped(old(ghostsDeleted), deleted)
      {
        var ok: bool := *;
        RepliesNext(replies, ids, k, ok);
        replies := replies + [Reply(ghosts[k].id, ok)];
        if ok {
          deleted := deleted + 1;
          ghostsDeleted := Bump(ghostsDeleted);
        } else {
          stillStuck := stillStuck + 1;
        }
      }
    }

    /** Cancel the runs the ghosts hold; if the runs cannot be listed, nothing is cancelled. */
    method CancelStuckRuns(i: nat, running: Result<seq<int>>, jobs: seq<Option<seq<Job>>>, ghosts: seq<Ghost>,
                           ghost w0: Worker)
      returns (replies: seq<Reply>, cancelled: nat, ghost steps: seq<Step>)
      requires running.Ok? ==> |jobs| == |running.value|
      requires w0 == Worker(w0.tick, Listing, NO_RESULT) && ghosts != []
      modifies `runsCancelled
      ensures cancelled == Accepted(replies) && NoDuplicates(Targets(replies))
      ensures Elements(Targets(replies)) == if running.Ok? then StuckRuns(running.value, jobs, Names(ghosts)) else {}
      ensures runsCancelled == Bumped(old(runsCancelled), cancelled)
      ensures Work(w0, steps) == Some(Worker(w0.tick, Cancelling(0), RepoResult(|ghosts|, cancelled, 0, 0)))
    {
      ghost var first := Step.List(i, Some(|ghosts|));
      if running.Err? {
        WorkBegins(i, w0, |ghosts|, None);
        return [], 0, [first, FetchRuns(i, None)];
      }
      var stuck := RunIdsForGhosts(running.value, jobs, ghosts);
      WorkBegins(i, w0, |ghosts|, Some(|stuck|));
      ghost var done := [first, FetchRuns(i, Some(|stuck|))];
      replies, cancelled := CancelRuns(stuck);
      WorkCancels(i, w0, done, Work(w0, done).value, |stuck|, replies);
      assert |replies| == |Targets(replies)|;
      steps := AfterCancels(done, i, replies);
    }

    /** The statements of the pass. */
    method RunCleanup(i: nat, listed: Result<seq<Runner>>, running: Result<seq<int>>, jobs: seq<Option<seq<Job>>>,
                      ghost w0: Worker)
      returns (r: Result<RepoResult>, cancels: seq<Reply>, deletes: seq<Reply>, ghost steps: seq<Step>)
      requires running.Ok? ==> |jobs| == |running.value|
      requires w0 == Worker(w0.tick, Listing, NO_RESULT)
      modifies this
      ensures r.Err? <==> listed.Err?
      ensures r.Err? ==>
                && ghostsDeleted == old(ghostsDeleted) && runsCancelled == old(runsCancelled)
                && cancels == deletes == []
      ensures r.Ok? ==>
                && r.value == RepoResult(|GhostsOf(listed.value)|, Accepted(cancels),
                                         Accepted(deletes), Refused(deletes))
                && Targets(deletes) == Ids(GhostsOf(listed.value)) && NoDuplicates(Targets(cancels))
                && Elements(Targets(cancels))
                   == (if running.Ok? then StuckRuns(running.value, jobs, Names(GhostsOf(listed.value))) else {})
                && ghostsDeleted == Bumped(old(ghostsDeleted), r.value.deleted)
                && runsCancelled == Bumped(old(runsCancelled), r.value.cancelled)
      ensures Work(w0, steps) == Some(if r.Err? then w0.(stage := Failed) else Worker(w0.tick, Returned, r.value))
    {
      cancels, deletes, steps := [], [], [];
      if listed.Err? {
        WorkEndsEarly(i, w0, None);
        return Err, cancels, deletes, [Step.List(i, None)];
      }
      var ghosts := ListGhostRunners(listed.value);
      if |ghosts| == 0 {
        WorkEndsEarly(i, w0, Some(0));
        NoGhosts(running, jobs);
        return Ok(NO_RESULT), cancels, deletes, [Step.List(i, Some(0))];
      }
      var cancelled, deleted, stillStuck;
      cancels, cancelled, steps := CancelStuckRuns(i, running, jobs, ghosts, w0);
      ghost var w := Work(w0, steps).value;
      WorkOn(w0, steps, w, StartDeleting(i));
      steps := steps + [StartDeleting(i)];
      deletes, deleted, stillStuck := DeleteGhosts(ghosts);
      assert |deletes| == |Targets(deletes)|;
      WorkDeletes(i, w0, steps, w, |ghosts|, deletes);
      steps := AfterDeletes(steps, i, deletes);
      WorkOn(w0, steps, Deletes(w, 0, deleted, stillStuck), Return(i));
      steps := steps + [Return(i)];
      r := Ok(RepoResult(|ghosts|, cancelled, deleted, stillStuck));
    }

    /** The whole pass over one repo. Its only failure is the very first fetch,
        before anything was done; a failed run listing merely cancels nothing.
        What it does to the figures is a run of the goroutine in the books. */
    method CleanupRepo(i: nat, listed: Result<seq<Runner>>, running: Result<seq<int>>, jobs: seq<Option<seq<Job>>>,
                       ghost w0: Worker)
      returns (r: Result<RepoResult>, cancels: seq<Reply>, deletes: seq<Reply>, ghost steps: seq<Step>)
      requires running.Ok? ==> |jobs| == |running.value|
      requires w0 == Worker(w0.tick, Listing, NO_RESULT)
      modifies this
      ensures r.Err? <==> listed.Err?
      ensures r.Err? ==>
                && ghostsDeleted == old(ghostsDeleted) && runsCancelled == old(runsCancelled)
                && cancels == deletes == []
      ensures r.Ok? ==>
                && CleanedUp(listed.value, running, jobs, r.value, cancels, deletes)
                && ghostsDeleted == Bumped(old(ghostsDeleted), r.value.deleted)
                && runsCancelled == Bumped(old(runsCancelled), r.value.cancelled)
      ensures Work(w0, steps) == Some(if r.Err? then w0.(stage := Failed) else Worker(w0.tick, Returned, r.value))
    {
      r, cancels, deletes, steps := RunCleanup(i, listed, running, jobs, w0);
      if r.Ok? { CleanupInPlainTerms(listed.value, running, jobs, r.value, cancels, deletes); }
    }
  }
}
