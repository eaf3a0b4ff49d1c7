/** The reconcile pass: count queued jobs that match, with early exit, then
    make that many Spawn calls. The counts may be stale, wrong or doubled. */
module Reconciler {
  import opened Basics
  import opened World
  import opened Labels
  import opened SpawnProtocol
  import opened SpawnSchedules
  import opened SpawnQuiet
  import opened SpawnPlain
  import opened SpawnerObject

  type RunId = int

  datatype Job = Job(status: string, labels: seq<string>)

  /** A job the reconciler wants a runner for. */
  predicate Wanted(j: Job, want: seq<string>) {
    j.status == "queued" && AnyMatch(j.labels, want)
  }

  function CountJobs(jobs: seq<Job>, want: seq<string>): nat {
    if jobs == [] then 0
    else CountJobs(jobs[..|jobs| - 1], want) + if Wanted(jobs[|jobs| - 1], want) then 1 else 0
  }

  /** Matching jobs of one run; a run that cannot be read counts for nothing. */
  function CountReply(reply: Result<seq<Job>>, want: seq<string>): nat {
    if reply.Ok? then CountJobs(reply.value, want) else 0
  }

  function CountReplies(replies: seq<Result<seq<Job>>>, want: seq<string>): nat {
    if replies == [] then 0
    else CountReplies(replies[..|replies| - 1], want) + CountReply(replies[|replies| - 1], want)
  }

  lemma {:induction false} CountJobsPrefix(jobs: seq<Job>, k: nat, want: seq<string>)
    requires k <= |jobs|
    ensures CountJobs(jobs[..k], want) <= CountJobs(jobs, want)
  {
    if k < |jobs| {
      CountJobsPrefix(jobs[..|jobs| - 1], k, want);
      assert jobs[..|jobs| - 1][..k] == jobs[..k];
    } else {
      assert jobs[..k] == jobs;
    }
  }

  lemma {:induction false} CountRepliesPrefix(replies: seq<Result<seq<Job>>>, k: nat, want: seq<string>)
    requires k <= |replies|
    ensures CountReplies(replies[..k], want) <= CountReplies(replies, want)
  {
    if k < |replies| {
      CountRepliesPrefix(replies[..|replies| - 1], k, want);
      assert replies[..|replies| - 1][..k] == replies[..k];
    } else {
      assert replies[..k] == replies;
    }
  }

  lemma CountJobsNext(jobs: seq<Job>, k: nat, want: seq<string>)
    requires k < |jobs|
    ensures CountJobs(jobs[..k + 1], want) == CountJobs(jobs[..k], want) + if Wanted(jobs[k], want) then 1 else 0
  {
    assert jobs[..k + 1][..k] == jobs[..k];
  }

  lemma CountRepliesNext(replies: seq<Result<seq<Job>>>, k: nat, want: seq<string>)
    requires k < |replies|
    ensures CountReplies(replies[..k + 1], want) == CountReplies(replies[..k], want) + CountReply(replies[k], want)
  {
    assert replies[..k + 1][..k] == replies[..k];
  }

  // ----- what the counts count -----

  /** The positions of the queued jobs that carry a wanted label. */
  function MatchingJobs(jobs: seq<Job>, want: seq<string>): set<nat> {
    set k: nat | k < |jobs| && jobs[k].status == "queued" &&
                 exists l, w :: 0 <= l < |jobs[k].labels| && 0 <= w < |want| && EqualFold(jobs[k].labels[l], want[w])
  }

  /** The same over all runs that could be read: run i, job k. */
  function Matching(replies: seq<Result<seq<Job>>>, want: seq<string>): set<(nat, nat)> {
    set i: nat, k: nat | i < |replies| && replies[i].Ok? && k in MatchingJobs(replies[i].value, want) :: (i, k)
  }

  lemma {:induction false} CountJobsCounts(jobs: seq<Job>, want: seq<string>)
    ensures CountJobs(jobs, want) == |MatchingJobs(jobs, want)|
  {
    if jobs == [] {
      assert MatchingJobs(jobs, want) == {};
    } else {
      var n := |jobs| - 1;
      CountJobsCounts(jobs[..n], want);
      assert MatchingJobs(jobs, want) == MatchingJobs(jobs[..n], want) + if Wanted(jobs[n], want) then {n} else {};
    }
  }

  lemma {:induction false} PairedSize(n: nat, ks: set<nat>)
    ensures |set k: nat | k in ks :: (n, k)| == |ks|
  {
    var pairs := set k: nat | k in ks :: (n, k);
    if ks == {} {
      assert pairs == {};
    } else {
      var k :| k in ks;
      PairedSize(n, ks - {k});
      assert pairs == (set j: nat | j in ks - {k} :: (n, j)) + {(n, k)};
    }
  }

  /** The matching jobs of one run; none if it cannot be read. */
  function MatchingIn(reply: Result<seq<Job>>, want: seq<string>): set<nat> {
    if reply.Ok? then MatchingJobs(reply.value, want) else {}
  }

  lemma CountReplyCounts(reply: Result<seq<Job>>, want: seq<string>)
    ensures CountReply(reply, want) == |MatchingIn(reply, want)|
  {
    if reply.Ok? { CountJobsCounts(reply.value, want); }
  }

  lemma MatchingNext(replies: seq<Result<seq<Job>>>, want: seq<string>)
    requires replies != []
    ensures var n := |replies| - 1;
            |Matching(replies, want)| == |Matching(replies[..n], want)| + |MatchingIn(replies[n], want)|
  {
    var n := |replies| - 1;
    var last := set k: nat | k in MatchingIn(replies[n], want) :: (n, k);
    forall p | p in Matching(replies, want) ensures p in Matching(replies[..n], want) + last {
      if p.0 < n { assert replies[..n][p.0] == replies[p.0]; }
    }
    forall p | p in Matching(replies[..n], want) ensures p in Matching(replies, want) && p !in last {
      assert replies[..n][p.0] == replies[p.0];
    }
    assert Matching(replies, want) == Matching(replies[..n], want) + last;
    PairedSize(n, MatchingIn(replies[n], want));
  }

  /** The count over the runs is the number of matching queued jobs, each counted
      as often as its run is listed. */
  lemma {:induction false} CountRepliesCounts(replies: seq<Result<seq<Job>>>, want: seq<string>)
    ensures CountReplies(replies, want) == |Matching(replies, want)|
  {
    if replies == [] {
      assert Matching(replies, want) == {};
    } else {
      var n := |replies| - 1;
      CountRepliesCounts(replies[..n], want);
      MatchingNext(replies, want);
      CountReplyCounts(replies[n], want);
    }
  }

  /** A queued job with a wanted label counts; one in progress, one with other
      labels, and a run that cannot be read do not. */
  lemma MatchingExample(run: seq<Job>)
    requires run == [Job("in_progress", ["pool-a"]), Job("queued", ["pool-b"]), Job("queued", ["x", "Pool-A"])]
    ensures Matching([Err, Ok(run)], ["pool-a"]) == {(1, 2)}
  {
    var want := ["pool-a"];
    assert EqualFold(run[2].labels[1], want[0]);
    var b := run[1].labels[0];
    assert b[5] == 'b' && want[0][5] == 'a' && !EqualFold(b, want[0]);
    assert 2 in MatchingJobs(run, want) && 1 !in MatchingJobs(run, want) && 0 !in MatchingJobs(run, want);
    assert MatchingJobs(run, want) == {2};
    var replies := [Err, Ok(run)];
    assert replies[1].Ok? && replies[0].Err?;
    assert Matching(replies, want) == {(1, 2)};
  }

  /** The runs listed as queued, then those in progress; nothing is de-duplicated. */
  function ListedRuns(queued: Result<seq<RunId>>, inProgress: Result<seq<RunId>>): Result<seq<RunId>> {
    if queued.Ok? && inProgress.Ok? then Ok(queued.value + inProgress.value) else Err
  }

  /** The scan over one job's labels, up to the first that is wanted. */
  method HitsWanted(labels: seq<string>, want: set<string>, ghost matchLabels: seq<string>) returns (hit: bool)
    requires want == LowerSet(matchLabels)
    ensures hit <==> AnyMatch(labels, matchLabels)
  {
    for l := 0 to |labels|
      invariant forall m | 0 <= m < l :: Lower(labels[m]) !in want
    {
      InLowerSet(labels[l], matchLabels);
      if Lower(labels[l]) in want { return true; }
    }
    forall m | 0 <= m < |labels| ensures forall w | 0 <= w < |matchLabels| :: !EqualFold(labels[m], matchLabels[w]) {
      InLowerSet(labels[m], matchLabels);
    }
    return false;
  }

  /** Count matching queued jobs over the runs, in order, until `limit` are
      found. `replies` holds what listing each run's jobs answered. */
  method CountQueuedMatchingJobs(runs: Result<seq<RunId>>, replies: seq<Result<seq<Job>>>,
                                 matchLabels: seq<string>, limit: int)
    returns (r: Result<nat>)
    requires runs.Ok? ==> |replies| == |runs.value|
    ensures r.Ok? <==> runs.Ok?
    ensures r.Ok? && limit > 0 ==> r.value == Min(limit, |Matching(replies, matchLabels)|)
    ensures r.Ok? && limit <= 0 ==> r.value <= 1
  {
    CountRepliesCounts(replies, matchLabels);
    var want := BuildWantSet(matchLabels);
    if runs.Err? { return Err; }
    if |runs.value| == 0 { return Ok(0); }
    var matched: nat := 0;
    for i := 0 to |runs.value|
      invariant limit > 0 ==> matched == CountReplies(replies[..i], matchLabels) < limit
      invariant limit <= 0 ==> matched == 0
    {
      CountRepliesNext(replies, i, matchLabels);
      CountRepliesPrefix(replies, i + 1, matchLabels);
      if replies[i].Err? { continue; }
      var jobs := replies[i].value;
      for k := 0 to |jobs|
        invariant limit > 0 ==>
                    matched == CountReplies(replies[..i], matchLabels) + CountJobs(jobs[..k], matchLabels) < limit
        invariant limit <= 0 ==> matched == 0
      {
        CountJobsNext(jobs, k, matchLabels);
        CountJobsPrefix(jobs, k + 1, matchLabels);
        var j := jobs[k];
        if j.status != "queued" { continue; }
        var hit := HitsWanted(j.labels, want, matchLabels);
        if hit { matched := matched + 1; }
        if matched >= limit { return Ok(matched); }
      }
      assert jobs[..|jobs|] == jobs;
    }
    assert replies[..|runs.value|] == replies;
    return Ok(matched);
  }

  // ----- what listing a run twice does to the count -----

  function SumSeq(ids: seq<RunId>, f: RunId -> nat): nat {
    if ids == [] then 0 else f(ids[0]) + SumSeq(ids[1..], f)
  }

  lemma {:induction false} SumSeqConcat(a: seq<RunId>, b: seq<RunId>, f: RunId -> nat)
    ensures SumSeq(a + b, f) == SumSeq(a, f) + SumSeq(b, f)
  {
    if a == [] {
      assert a + b == b;
    } else {
      SumSeqConcat(a[1..], b, f);
      assert (a + b)[1..] == a[1..] + b;
    }
  }

  lemma {:induction false} SumSeqIsSumOver(ids: seq<RunId>, f: RunId -> nat)
    requires NoDuplicates(ids)
    ensures SumSeq(ids, f) == SumOver(Elements(ids), f)
  {
    if ids == [] {
    } else {
      assert ids == [ids[0]] + ids[1..];
      assert Elements(ids) - {ids[0]} == Elements(ids[1..]);
      SumOverRemove(Elements(ids), f, ids[0]);
      SumSeqIsSumOver(ids[1..], f);
    }
  }

  lemma {:induction false} RepliesAreASum(runs: seq<RunId>, replies: seq<Result<seq<Job>>>, f: RunId -> nat,
                                          want: seq<string>)
    requires |replies| == |runs|
    requires forall i | 0 <= i < |runs| :: CountReply(replies[i], want) == f(runs[i])
    ensures CountReplies(replies, want) == SumSeq(runs, f)
  {
    if runs == [] {
    } else {
      var n := |runs| - 1;
      RepliesAreASum(runs[..n], replies[..n], f, want);
      assert runs == runs[..n] + [runs[n]];
      SumSeqConcat(runs[..n], [runs[n]], f);
    }
  }

  /** When both listings are duplicate-free and each run's jobs read the same
      wherever the run is listed, a run in both lists counts twice and every
      other run once; so the count lies between the distinct matches and twice
      as many, both up to the limit. */
  lemma OverlapCount(queued: seq<RunId>, inProgress: seq<RunId>, replies: seq<Result<seq<Job>>>,
                     matches: RunId -> nat, want: seq<string>, limit: nat)
    requires NoDuplicates(queued) && NoDuplicates(inProgress)
    requires |replies| == |queued + inProgress|
    requires forall i | 0 <= i < |replies| :: |MatchingIn(replies[i], want)| == matches((queued + inProgress)[i])
    ensures var both := Elements(queued) * Elements(inProgress);
            var distinct := SumOver(Elements(queued) + Elements(inProgress), matches);
            && |Matching(replies, want)| == distinct + SumOver(both, matches)
            && Min(limit, distinct) <= Min(limit, |Matching(replies, want)|) <= Min(limit, 2 * distinct)
  {
    CountRepliesCounts(replies, want);
    forall i | 0 <= i < |replies| ensures CountReply(replies[i], want) == matches((queued + inProgress)[i]) {
      CountReplyCounts(replies[i], want);
    }
    RepliesAreASum(queued + inProgress, replies, matches, want);
    SumSeqConcat(queued, inProgress, matches);
    SumSeqIsSumOver(queued, matches);
    SumSeqIsSumOver(inProgress, matches);
    SumOverUnion(Elements(queued), Elements(inProgress), matches);
    SumOverSubset(Elements(queued) * Elements(inProgress), Elements(queued) + Elements(inProgress), matches);
  }

  /** It does count twice: one run in both listings, with one matching job. */
  lemma OverlapExample(want: seq<string>, run: RunId)
    requires want != []
    ensures var job := Job("queued", [want[0]]);
            var replies := [Ok([job]), Ok([job])];
            var matches := (r: RunId) => if r == run then 1 else 0;
            && NoDuplicates([run])
            && (forall i | 0 <= i < |replies| :: |MatchingIn(replies[i], want)| == matches(([run] + [run])[i]))
            && CountReplies(replies, want) == |Matching(replies, want)| == 2
            && SumOver(Elements([run]) + Elements([run]), matches) == 1
  {
    var job := Job("queued", [want[0]]);
    var replies := [Ok([job]), Ok([job])];
    var matches := (r: RunId) => if r == run then 1 else 0;
    assert EqualFold(job.labels[0], want[0]);
    assert Wanted(job, want);
    assert [job][..0] == [] && CountJobs([job], want) == 1;
    CountReplyCounts(Ok([job]), want);
    assert replies[..1] == [Ok([job])] && replies[..1][..0] == [];
    assert CountReplies(replies[..1], want) == 1;
    CountRepliesCounts(replies, want);
    assert Elements([run]) + Elements([run]) == {run};
    SumOverRemove({run}, matches, run);
    assert {run} - {run} == {};
  }

  // ----- the pass -----

  /** How many Spawn calls a pass sets out to make. */
  function Target(cap: int, running: nat, runs: Result<seq<RunId>>, replies: seq<Result<seq<Job>>>,
                  want: seq<string>): nat {
    if cap - running <= 0 || runs.Err? then 0 else Min(cap - running, |Matching(replies, want)|)
  }

  /** A call that has returned keeps its outcome for ever, and its credit. */
  lemma {:induction false} OutcomeStays(r: Run, i: nat, j: nat, c: CallId)
    requires IsRun(r) && i <= j < |r.states|
    requires c in r.states[i].calls && r.states[i].calls[c].pc.Done?
    ensures c in r.states[j].calls && r.states[j].calls[c].repo == r.states[i].calls[c].repo
    ensures r.states[j].calls[c].pc.Done? && r.states[j].calls[c].pc.outcome == r.states[i].calls[c].pc.outcome
    ensures r.states[i].calls[c].pc.credited ==> r.states[j].calls[c].pc.credited
    ensures !NilOutcome(r.states[i].calls[c].pc.outcome) ==>
              r.states[j].calls[c].pc.credited == r.states[i].calls[c].pc.credited
  {
    if i == j {
    } else {
      OutcomeStays(r, i, j - 1, c);
      assert Enabled(r.states[j - 1], r.steps[j - 1]);
    }
  }

  /** The calls of a pass so far: fresh, distinct, returned with these outcomes,
      and credited exactly when they returned nil. */
  ghost predicate Made(before: map<CallId, Call>, calls: map<CallId, Call>, repo: RepoEntry,
                       ids: seq<CallId>, outcomes: seq<Outcome>) {
    && |ids| == |outcomes| && NoDuplicates(ids)
    && forall i | 0 <= i < |ids| ::
         && ids[i] !in before && ids[i] in calls && calls[ids[i]].repo == repo
         && calls[ids[i]].pc.Done? && calls[ids[i]].pc.outcome == outcomes[i]
         && (calls[ids[i]].pc.credited <==> outcomes[i] == Spawned || outcomes[i] == IdleSkip)
  }

  /** What GitHub, Docker and the file system answer to one Spawn call, and the
      container name it draws. */
  datatype Replies = Replies(runners: Result<seq<Runner>>, ps: bool, inspect: bool, envFile: bool, run: RunReply,
                             container: string)

  function AnswersOf(r: Replies, matchLabels: seq<string>): Answers {
    Answers(r.runners.Ok? && IdleMatch(r.runners.value, matchLabels), r.ps, r.inspect, r.envFile, r.run)
  }

  /** What was made stays made while others go on. */
  lemma MadeStays(a: Run, b: Run, before: map<CallId, Call>, repo: RepoEntry, ids: seq<CallId>, outcomes: seq<Outcome>)
    requires IsRun(a) && IsRun(b) && Extends(a, b) && Made(before, Last(a).calls, repo, ids, outcomes)
    ensures Made(before, Last(b).calls, repo, ids, outcomes)
  {
    var n := |a.states| - 1;
    assert b.states[n] == Last(a);
    forall i | 0 <= i < |ids|
      ensures ids[i] in Last(b).calls && Last(b).calls[ids[i]].repo == repo
      ensures Last(b).calls[ids[i]].pc.Done? && Last(b).calls[ids[i]].pc.outcome == outcomes[i]
      ensures Last(b).calls[ids[i]].pc.credited <==> NilOutcome(outcomes[i])
    {
      OutcomeStays(b, n, |b.states| - 1, ids[i]);
    }
  }

  /** One Spawn of the pass, and IncReconcile when it returned nil. */
  method SpawnOnce(sp: Spawner, repo: RepoEntry, matchLabels: seq<string>, told: Replies,
                   ghost before: map<CallId, Call>, ghost ids: seq<CallId>, ghost outcomes: seq<Outcome>)
    returns (c: CallId, err: Outcome)
    requires sp.Ready() && repo in sp.config && before.Keys <= sp.calls.Keys
    requires Made(before, sp.calls, repo, ids, outcomes)
    modifies sp
    ensures sp.Ready() && Extends(old(sp.history), sp.history)
    ensures before.Keys <= sp.calls.Keys && Made(before, sp.calls, repo, ids + [c], outcomes + [err])
    ensures sp.answers == old(sp.answers)[c := AnswersOf(told, matchLabels)]
    ensures c !in old(sp.calls) && old(sp.calls).Keys <= sp.calls.Keys
  {
    ghost var start := sp.history;
    c, err := sp.Spawn(repo, matchLabels, Origin.Reconciler, told.runners, told.ps, told.inspect, told.envFile,
                       told.run, told.container);
    if NilOutcome(err) {
      sp.IncReconcile(c);
    }
    MadeStays(start, sp.history, before, repo, ids, outcomes);
  }

  /** The i-th call was told what `told(i)` says. */
  ghost predicate Told(answers: map<CallId, Answers>, ids: seq<CallId>, told: nat -> Replies, want: seq<string>) {
    forall i | 0 <= i < |ids| :: ids[i] in answers && answers[ids[i]] == AnswersOf(told(i), want)
  }

  lemma ToldNext(answers: map<CallId, Answers>, ids: seq<CallId>, c: CallId, told: nat -> Replies, want: seq<string>)
    requires Told(answers, ids, told, want) && NoDuplicates(ids + [c])
    ensures Told(answers[c := AnswersOf(told(|ids|), want)], ids + [c], told, want)
  {
    forall i | 0 <= i < |ids| ensures ids[i] != c {
      assert (ids + [c])[i] == ids[i] && (ids + [c])[|ids|] == c;
    }
  }

  /** The spawn loop of a pass: stop at the first error. */
  method SpawnUpTo(sp: Spawner, repo: RepoEntry, matchLabels: seq<string>, toSpawn: nat, told: nat -> Replies)
    returns (outcomes: seq<Outcome>, ghost ids: seq<CallId>)
    requires sp.Ready() && repo in sp.config
    modifies sp
    ensures sp.Ready() && Extends(old(sp.history), sp.history)
    ensures Made(old(sp.calls), sp.calls, repo, ids, outcomes)
    ensures Told(sp.answers, ids, told, matchLabels)
    ensures |outcomes| <= toSpawn
    ensures forall i | 0 <= i < |outcomes| - 1 :: NilOutcome(outcomes[i])
    ensures |outcomes| < toSpawn ==> outcomes != [] && !NilOutcome(outcomes[|outcomes| - 1])
  {
    outcomes, ids := [], [];
    var i := 0;
    while i < toSpawn
      invariant sp.Ready() && Extends(old(sp.history), sp.history)
      invariant 0 <= i <= toSpawn && |outcomes| == i && old(sp.calls).Keys <= sp.calls.Keys
      invariant Made(old(sp.calls), sp.calls, repo, ids, outcomes)
      invariant Told(sp.answers, ids, told, matchLabels)
      invariant forall k | 0 <= k < |outcomes| :: NilOutcome(outcomes[k])
    {
      ghost var was := sp.answers;
      var c, err := SpawnOnce(sp, repo, matchLabels, told(i), old(sp.calls), ids, outcomes);
      ToldNext(was, ids, c, told, matchLabels);
      ids, outcomes := ids + [c], outcomes + [err];
      if !NilOutcome(err) { return; }
      i := i + 1;
    }
  }

  /** The pass was left in peace: GitHub, Docker and the file system answered it
      well, nothing on the name was under way at either end, and in between the
      others took only quiet steps there. They may have called Spawn too. */
  ghost predicate LeftInPeace(a: Run, b: Run, repo: RepoEntry, own: set<CallId>)
    requires IsRun(a) && IsRun(b) && Extends(a, b)
  {
    && !Last(a).dryRun && Settled(Last(a), repo.name) && Settled(Last(b), repo.name)
    && OthersQuiet(a, b, repo.name, repo.maxConcurrency, own)
  }

  /** Where `counted` ran at the pass's `ps` and `wanted` jobs match: at least
      min(max(cap, counted), counted + wanted) run, never more than the cap or what
      ran before; and if the only calls on the name were the pass's own, then what
      ran before is what was counted, and the first of these is exact. */
  ghost predicate ReachedGoal(s0: State, s: State, repo: RepoEntry, ids: seq<CallId>, counted: nat, wanted: nat) {
    var r0, r := RunningOf(s0.daemon, repo.name), RunningOf(s.daemon, repo.name);
    var goal := Min(Max(repo.maxConcurrency, counted), counted + wanted);
    && goal <= r <= Max(repo.maxConcurrency, r0)
    && (NewCalls(s0, s, repo.name) == Elements(ids) ==> counted == r0 && r == goal)
  }

  /** The calls that had started something when `ps` answered, and those of the
      pass, are different calls of the stretch. */
  lemma CallsAddUp(s0: State, m: State, s: State, repo: RepoEntry, ids: seq<CallId>, outcomes: seq<Outcome>)
    requires Made(m.calls, s.calls, repo, ids, outcomes)
    requires (forall c | c in s0.calls :: c in m.calls)
    requires forall c | c in m.calls :: c in s.calls && s.calls[c].repo == m.calls[c].repo
    ensures var earlier := NewWith(s0, m, repo.name, Spawned);
            && Elements(ids) <= NewCalls(s0, s, repo.name)
            && |earlier| + |ids| <= |NewCalls(s0, s, repo.name)|
            && (NewCalls(s0, s, repo.name) == Elements(ids) ==> earlier == {} && |NewCalls(s0, s, repo.name)| == |ids|)
  {
    var earlier, calls := NewWith(s0, m, repo.name, Spawned), NewCalls(s0, s, repo.name);
    forall c | c in Elements(ids) ensures c in calls && c !in earlier {}
    ElementsSize(ids);
    SubsetSize(earlier + Elements(ids), calls);
    assert |earlier + Elements(ids)| == |earlier| + |Elements(ids)|;
    if calls == Elements(ids) { assert forall c :: c !in earlier; }
  }

  lemma {:induction false} ElementsSize(ids: seq<CallId>)
    requires NoDuplicates(ids)
    ensures |Elements(ids)| == |ids|
  {
    if ids == [] {
    } else {
      var n := |ids| - 1;
      ElementsSize(ids[..n]);
      assert ids == ids[..n] + [ids[n]];
      assert Elements(ids) == Elements(ids[..n]) + {ids[n]};
    }
  }

  /** An error of one of the pass's calls is a cap hit. */
  lemma CutShortByCap(s0: State, s: State, repo: RepoEntry, ids: seq<CallId>, outcomes: seq<Outcome>)
    requires CaughtUp(s0, s, repo.name, repo.maxConcurrency) && Made(s0.calls, s.calls, repo, ids, outcomes)
    requires outcomes != [] && !NilOutcome(outcomes[|outcomes| - 1])
    ensures RunningOf(s.daemon, repo.name) == Max(repo.maxConcurrency, RunningOf(s0.daemon, repo.name))
  {
    var c, hits := ids[|ids| - 1], NewWith(s0, s, repo.name, CapHit);
    assert c in NewCalls(s0, s, repo.name);
    assert c in hits;
    SubsetSize({c}, hits);
  }

  /** Catch-up from the calls made and the stretch they were made in; m is the
      moment of the `ps`. */
  lemma PassCatchesUp(s0: State, m: State, s: State, repo: RepoEntry, ids: seq<CallId>,
                      outcomes: seq<Outcome>, wanted: nat)
    requires CaughtUp(s0, s, repo.name, repo.maxConcurrency) && Balanced(s0, m, repo.name, repo.maxConcurrency)
    requires Made(m.calls, s.calls, repo, ids, outcomes)
    requires (forall c | c in s0.calls :: c in m.calls)
    requires forall c | c in m.calls :: c in s.calls && s.calls[c].repo == m.calls[c].repo
    requires var room := Max(0, repo.maxConcurrency - RunningOf(m.daemon, repo.name));
             && |outcomes| <= Min(room, wanted)
             && (|outcomes| < Min(room, wanted) ==> outcomes != [] && !NilOutcome(outcomes[|outcomes| - 1]))
    ensures ReachedGoal(s0, s, repo, ids, RunningOf(m.daemon, repo.name), wanted)
  {
    CallsAddUp(s0, m, s, repo, ids, outcomes);
    if outcomes != [] && !NilOutcome(outcomes[|outcomes| - 1]) { CutShortByCap(s0, s, repo, ids, outcomes); }
  }

  lemma {:induction false} CallsKeepTheirRepo(r: Run, i: nat, j: nat)
    requires IsRun(r) && i <= j < |r.states|
    ensures forall c | c in r.states[i].calls ::
              c in r.states[j].calls && r.states[j].calls[c].repo == r.states[i].calls[c].repo
  {
    if i == j {
    } else {
      CallsKeepTheirRepo(r, i, j - 1);
      assert Enabled(r.states[j - 1], r.steps[j - 1]);
    }
  }

  lemma LaterCalls(a: Run, b: Run)
    requires IsRun(a) && IsRun(b) && Extends(a, b)
    ensures forall c | c in Last(a).calls :: c in Last(b).calls && Last(b).calls[c].repo == Last(a).calls[c].repo
  {
    assert b.states[|a.states| - 1] == Last(a);
    CallsKeepTheirRepo(b, |a.states| - 1, |b.states| - 1);
  }

  lemma PassInPeace(a: Run, at: Run, b: Run, answers: map<CallId, Answers>, repo: RepoEntry, ids: seq<CallId>,
                    outcomes: seq<Outcome>, wanted: nat)
    requires IsRun(a) && IsRun(at) && IsRun(b) && Extends(a, at) && Extends(at, b) && Init(b.states[0])
    requires Faithful(b, answers) && LeftInPeace(a, b, repo, Elements(ids))
    requires forall i | 0 <= i < |ids| :: ids[i] in answers && Good(answers[ids[i]])
    requires Made(Last(at).calls, Last(b).calls, repo, ids, outcomes)
    requires var room := Max(0, repo.maxConcurrency - RunningOf(Last(at).daemon, repo.name));
             && |outcomes| <= Min(room, wanted)
             && (|outcomes| < Min(room, wanted) ==> outcomes != [] && !NilOutcome(outcomes[|outcomes| - 1]))
    ensures ReachedGoal(Last(a), Last(b), repo, ids, RunningOf(Last(at).daemon, repo.name), wanted)
  {
    OwnCallsCatchUp(a, b, repo.name, repo.maxConcurrency, answers, Elements(ids));
    BalancedInPeace(a, at, b, answers, repo, Elements(ids));
    LaterCalls(a, at);
    LaterCalls(at, b);
    PassCatchesUp(Last(a), Last(at), Last(b), repo, ids, outcomes, wanted);
  }

  /** At every moment of a peaceful stretch, what runs is what ran at its start
      and one container for each call that has started one. */
  lemma BalancedInPeace(a: Run, at: Run, b: Run, answers: map<CallId, Answers>, repo: RepoEntry, own: set<CallId>)
    requires IsRun(a) && IsRun(at) && IsRun(b) && Extends(a, at) && Extends(at, b) && Init(b.states[0])
    requires Faithful(b, answers) && LeftInPeace(a, b, repo, own)
    requires own <= answers.Keys && (forall c | c in own :: Good(answers[c]))
    ensures Balanced(Last(a), Last(at), repo.name, repo.maxConcurrency)
    ensures QuietSince(at, b, repo.name, repo.maxConcurrency)
  {
    QuietUpTo(a, b, repo.name, repo.maxConcurrency, answers, own, |b.steps|);
    QuietBalance(a, at, repo.name, repo.maxConcurrency);
  }

  /** A count taken while the name is quiet is what ran at its `ps`. */
  lemma QuietCount(at: Run, now: Run, b: Run, repo: RepoEntry)
    requires IsRun(at) && IsRun(now) && IsRun(b) && Extends(at, now) && Extends(now, b) && Init(b.states[0])
    requires QuietSince(at, b, repo.name, repo.maxConcurrency)
    ensures ListedSet(Last(at).daemon, repo.name) <= ListedSet(Last(now).daemon, repo.name)
    ensures RunningSet(Last(at).daemon, repo.name) * RunningSet(Last(now).daemon, repo.name)
         == RunningSet(Last(at).daemon, repo.name)
  {
    assert b.states[|at.steps|] == Last(at) && b.states[|now.steps|] == Last(now);
    QuietOnlyAdds(b, |at.steps|, |now.steps|, repo.name, repo.maxConcurrency);
  }

  predicate NothingVanishedBetween(at: Run, now: Run, name: RepoName)
    requires at.states != [] && now.states != []
  {
    ListedSet(Last(at).daemon, name) <= ListedSet(Last(now).daemon, name)
  }

  /** In a peaceful stretch a count whose commands work is what ran at its `ps`. */
  lemma CountInPeace(a: Run, at: Run, now: Run, b: Run, answers: map<CallId, Answers>, repo: RepoEntry,
                     own: set<CallId>, n: nat, ok: bool)
    requires IsRun(a) && IsRun(at) && IsRun(now) && IsRun(b)
    requires Extends(a, at) && Extends(at, now) && Extends(now, b) && Init(b.states[0])
    requires Faithful(b, answers) && LeftInPeace(a, b, repo, own)
    requires own <= answers.Keys && (forall c | c in own :: Good(answers[c]))
    requires NothingVanishedBetween(at, now, repo.name) ==> ok
    requires ok ==> |RunningSet(Last(at).daemon, repo.name) * RunningSet(Last(now).daemon, repo.name)| <= n
                      <= RunningOf(Last(at).daemon, repo.name)
    ensures n == RunningOf(Last(at).daemon, repo.name)
  {
    BalancedInPeace(a, at, b, answers, repo, own);
    QuietCount(at, now, b, repo);
  }

  /** The middle of a pass: how many calls to make. */
  method CallsToMake(cap: int, running: nat, runs: Result<seq<RunId>>, replies: seq<Result<seq<Job>>>,
                     matchLabels: seq<string>)
    returns (toSpawn: nat, failed: bool)
    requires runs.Ok? ==> |replies| == |runs.value|
    ensures toSpawn == Target(cap, running, runs, replies, matchLabels)
    ensures failed <==> running < cap && runs.Err?
  {
    var available := cap - running;
    if available <= 0 { return 0, false; }
    var matched := CountQueuedMatchingJobs(runs, replies, matchLabels, available);
    if matched.Err? { return 0, true; }
    var wanted: int := matched.value;
    if wanted > available { wanted := available; }
    toSpawn, failed := wanted, false;
  }

  /** A pass from a to b that counted n with its `ps` at `at` and its count done at
      `now`, and then set out to make `target` calls. */
  ghost predicate PassMade(a: Run, at: Run, now: Run, b: Run, answers: map<CallId, Answers>, repo: RepoEntry,
                           ids: seq<CallId>, outcomes: seq<Outcome>, told: nat -> Replies, want: seq<string>,
                           n: nat, ok: bool, target: nat) {
    && IsRun(a) && IsRun(at) && IsRun(now) && IsRun(b) && Init(b.states[0])
    && Extends(a, at) && Extends(at, now) && Extends(now, b)
    && Faithful(b, answers) && Told(answers, ids, told, want)
    && Made(Last(at).calls, Last(b).calls, repo, ids, outcomes)
    && (if ok then |RunningSet(Last(at).daemon, repo.name) * RunningSet(Last(now).daemon, repo.name)| <= n
                     <= RunningOf(Last(at).daemon, repo.name)
        else n == 0)
    && |outcomes| <= target
    && (|outcomes| < target ==> outcomes != [] && !NilOutcome(outcomes[|outcomes| - 1]))
  }

  lemma PassConcluded(a: Run, at: Run, now: Run, b: Run, answers: map<CallId, Answers>, repo: RepoEntry,
                      ids: seq<CallId>, outcomes: seq<Outcome>, told: nat -> Replies, want: seq<string>,
                      n: nat, ok: bool, target: nat, wanted: nat)
    requires PassMade(a, at, now, b, answers, repo, ids, outcomes, told, want, n, ok, target)
    requires LeftInPeace(a, b, repo, Elements(ids)) && (forall i: nat :: Good(AnswersOf(told(i), want)))
    requires NothingVanishedBetween(at, now, repo.name) ==> ok
    requires target == Min(Max(0, repo.maxConcurrency - n), wanted)
    ensures n == RunningOf(Last(at).daemon, repo.name) && ReachedGoal(Last(a), Last(b), repo, ids, n, wanted)
  {
    CountInPeace(a, at, now, b, answers, repo, Elements(ids), n, ok);
    PassInPeace(a, at, b, answers, repo, ids, outcomes, wanted);
  }

  /** Peaceful stretches and good answers exist: a call of the pass's own comes,
      finds room, starts its container and returns. */
  lemma PeaceExists() returns (a: Run, b: Run)
    ensures IsRun(a) && IsRun(b) && Extends(a, b) && Init(b.states[0])
    ensures LeftInPeace(a, b, RepoEntry("acme/web", 1), {}) && LeftInPeace(a, b, RepoEntry("acme/web", 1), {0})
    ensures Last(b).calls.Keys == {0} && Last(b).calls[0].pc == Done(Spawned, false)
    ensures Good(Answers(false, true, true, true, RunOk))
  {
    b := QuietBurstExists();
    a := Run([b.states[0]], []);
  }

  /** The statements of a pass: the count, the walk over runs and jobs, and the
      spawn loop, while everyone else goes on. */
  method RunPass(sp: Spawner, repo: RepoEntry, matchLabels: seq<string>, countPs: bool, countInspect: bool,
                 runs: Result<seq<RunId>>, replies: seq<Result<seq<Job>>>, told: nat -> Replies)
    returns (running: nat, failed: bool, outcomes: seq<Outcome>, ghost ids: seq<CallId>,
             ghost at: Run, ghost now: Run, ghost ok: bool)
    requires sp.Ready() && repo in sp.config && (runs.Ok? ==> |replies| == |runs.value|)
    modifies sp
    ensures sp.Ready()
    ensures PassMade(old(sp.history), at, now, sp.history, sp.answers, repo, ids, outcomes, told, matchLabels,
                     running, ok, Target(repo.maxConcurrency, running, runs, replies, matchLabels))
    ensures forall i | 0 <= i < |outcomes| - 1 :: NilOutcome(outcomes[i])
    ensures failed <==> running < repo.maxConcurrency && runs.Err?
    ensures countPs && countInspect && NothingVanishedBetween(at, now, repo.name) ==> ok
  {
    running, ok, at := sp.CountRunningNow(repo.name, countPs, countInspect);
    now := sp.history;
    sp.Interfere();
    ghost var mid := sp.history;
    var toSpawn;
    toSpawn, failed := CallsToMake(repo.maxConcurrency, running, runs, replies, matchLabels);
    outcomes, ids := SpawnUpTo(sp, repo, matchLabels, toSpawn, told);
    LaterCalls(at, mid);
  }

  /** One reconcile pass of one repo. */
  method ReconcileRepo(sp: Spawner, repo: RepoEntry, matchLabels: seq<string>, countPs: bool, countInspect: bool,
                       queued: Result<seq<RunId>>, inProgress: Result<seq<RunId>>,
                       replies: seq<Result<seq<Job>>>, told: nat -> Replies)
    returns (running: nat, failed: bool, outcomes: seq<Outcome>, ghost ids: seq<CallId>,
             ghost at: Run, ghost now: Run, ghost ok: bool)
    requires sp.Ready() && repo in sp.config
    requires queued.Ok? && inProgress.Ok? ==> |replies| == |queued.value| + |inProgress.value|
    modifies sp
    // The count may be stale or an error shown as 0. At most as many calls as
    // wanted are made, and only an error cuts the pass short, at the first one.
    ensures sp.Ready()
    ensures PassMade(old(sp.history), at, now, sp.history, sp.answers, repo, ids, outcomes, told, matchLabels, running,
                     ok, Target(repo.maxConcurrency, running, ListedRuns(queued, inProgress), replies, matchLabels))
    ensures forall i | 0 <= i < |outcomes| - 1 :: outcomes[i] == Spawned || outcomes[i] == IdleSkip
    ensures |outcomes| <= |Matching(replies, matchLabels)| && |outcomes| <= Max(0, repo.maxConcurrency - running)
    ensures failed <==> running < repo.maxConcurrency && (queued.Err? || inProgress.Err?)
    ensures failed ==> outcomes == []
    // The cap holds whatever was counted.
    ensures sp.WithinCaps()
    // Left in peace, with commands that work, the count is exact and the pass catches up.
    ensures LeftInPeace(old(sp.history), sp.history, repo, Elements(ids))
            && (forall i: nat :: Good(AnswersOf(told(i), matchLabels)))
            && countPs && countInspect && queued.Ok? && inProgress.Ok? ==>
              && running == RunningOf(Last(at).daemon, repo.name)
              && ReachedGoal(Last(old(sp.history)), Last(sp.history), repo, ids, running,
                             |Matching(replies, matchLabels)|)
  {
    ghost var start := sp.history;
    var runs := ListedRuns(queued, inProgress);
    running, failed, outcomes, ids, at, now, ok :=
      RunPass(sp, repo, matchLabels, countPs, countInspect, runs, replies, told);
    sp.CapHolds();
    if LeftInPeace(start, sp.history, repo, Elements(ids)) && (forall i: nat :: Good(AnswersOf(told(i), matchLabels)))
       && countPs && countInspect && runs.Ok? {
      PassConcluded(start, at, now, sp.history, sp.answers, repo, ids, outcomes, told, matchLabels, running, ok,
                    Target(repo.maxConcurrency, running, runs, replies, matchLabels),
                    |Matching(replies, matchLabels)|);
    }
  }
}
