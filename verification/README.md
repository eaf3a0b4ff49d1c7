# A verified model of the GitHub runner autoscaler

The autoscaler starts ephemeral, self-hosted GitHub Actions runners in Docker
containers when jobs are queued. These Dafny files model its four hardest parts
and prove what they are for. `dafny verify dfyconfig.toml` checks everything.

* **The spawn admission protocol** (`SpawnProtocol.dfy`). Any number of `Spawn`
  calls, from the webhook, the reconciler and manual triggers, run interleaved.
  Each is split into its real steps: load the pause flag, lock, idle check, `ps`,
  one inspect per id, decide, `docker run`, record, unlock. Containers exit,
  others remove them, pause is toggled and time passes in between. Over every
  run of that system: the cap (`SpawnSafety`), the counters (`SpawnCounters`),
  schedule independence (`SpawnSchedules`), pausing and resuming (`SpawnPause`),
  deadlock freedom and termination (`SpawnProgress`), independence of repos
  (`SpawnProjection`). `SpawnPlain` says the main ones again of containers, calls
  and steps alone.
  `Spawner.dfy` is the object itself: `Spawn` statement by statement over shared
  fields, with arbitrary interference between statements; each statement is
  shown to be one step of the protocol, so the theorems hold of the object.
  `SpawnQuiet` says what its calls come to when the others keep quiet.
* **The event stream parser and the reconnect backoff** (`SseLines`, `SseParser`,
  `SseRoundTrip`, `SseStandard`, `SsePlain`, `Backoff`).
* **The reconcile pass** (`Reconciler.dfy`), which composes with `Spawn`'s contract.
* **The ghost cleanup**: local containers (`Reaper.dfy` runs a pass; `ReaperTrace`,
  `ReaperPass`, `ReaperSafety` and `ReaperCalm` say what its commands are and what
  follows, whatever goes on and fails meanwhile), registered runners and
  the runs they hold (`GhostCleanup.dfy`), and the figures kept by overlapping
  ticks of concurrent goroutines (`GhostAccounting.dfy`).

`Labels.dfy` holds the label rule that the webhook, the idle check and the
reconciler share; `World.dfy` the Docker daemon; `Basics.dfy` small vocabulary.

## Assumptions about the environment

* A container that is not running never runs again: they are started with
  `--restart no` (internal/spawner/spawner.go:196).
* Only this process starts containers that carry the managed label.
* `docker run` takes effect before it returns. When it fails, it may or may not
  have started its one container; nothing starts later. A container is running
  as soon as it can be seen.
* Docker never hands out an id twice, the clock does not go back, and one `ps`
  answers with the containers of one moment. `docker inspect` reads each id at
  its own moment and fails when an id has vanished.
* A page of 100 runners, runs or jobs is complete.
* GitHub's answers, failures of any command, container names, the order in which
  goroutines move and the moments at which containers exit are arbitrary.

## What the proofs show about the code

* *Where a broken connection ends matters.* When a stream breaks off right after
  a CR that began a line, the scanner delivers that CR as an empty last line, and
  a payload still waiting for its blank line is handed over half-built.
  `SseParser.TruncationIff` shows this is the only way in which stopping early is
  not harmless; `SseParser.TruncationExample` is the smallest case.
* *Leading line feeds are lost.* A payload whose first line is empty comes back
  without it (`SseRoundTrip.RoundTrip`), unchanged exactly under
  `SseRoundTrip.ExpectedUnchangedIff`.
* *The standard is followed in part.* An empty first data line, a data field
  without a colon, an empty event value and a padded one are read differently from
  section 9.2.6 of the WHATWG HTML Living Standard, as are a leading BOM and a CR
  that no LF follows. `SseLines.LinesAgreeIff` and `SseStandard.BlockAgreesIff`
  give the exact conditions, `SseStandard.EmptyFirstLineDiffers` and
  `SseStandard.EmptyEventDiffers` concrete cases.
* *The reconciler can count a run twice.* It lists the queued runs and then those
  in progress and removes no duplicates; its package comment
  (internal/reconciler/reconciler.go:6-9) speaks of queued runs only.
  `Reconciler.OverlapCount` gives the exact effect and
  `Reconciler.OverlapExample` a case; the cap is never at risk.
* *`totalReconcile` also counts idle-skips*, since `Spawn` returns nil for them:
  it is bounded by spawned plus idle-skipped (`SpawnCounters.ReconcileCounterBound`).
* *The grace period does not protect every container.* The comment at
  internal/cleanup/cleanup.go:358-360 says only containers older than the grace
  are eligible; the corpse path at 401-411 has no age check. A pass keeps that
  promise exactly when every container it has listed as not running is of grace
  age, or gone, when its turn comes (`ReaperCalm.GraceProtectsIff`); undisturbed
  and with lookups that work, that is when every younger container is running.
  `ReaperCalm.YoungCorpseIsReaped` is a run that breaks it.
* *Successful removals do not make a pass idempotent.* When the inspect of the
  first pass fails, a container that does not run is left for the second, even if
  no removal failed (`ReaperCalm.RemovalsAloneDoNotSuffice`). What the second
  removes is exactly what the first has left (`ReaperCalm.SecondPass`).
* *An unresolved state is not skipped.* The comment at
  internal/cleanup/cleanup.go:481 says it is; the loop goes on with it on the
  running path. Such a container is removed exactly when it is unregistered and
  found old enough (`ReaperCalm.UnresolvedIsReapedIff`); it happens in
  `ReaperCalm.UnresolvedIsReaped`.
* *Configured names may repeat.* Entries of one name share a mutex and a count,
  so the bound is the largest cap of that name, or what ran at start-up.

## Model

| member | source | states |
|---|---|---|
| `Basics.BumpedIsModulo` | internal/spawner/spawner.go:87-92 | incrementing an atomic 64-bit counter is addition modulo 2^64 |
| `SpawnProtocol.StepEvolves` | internal/spawner/spawner.go:191-211 | every step of a call or of the environment is something the rest of the program may witness of Docker: identity kept, no restart, no id reused, clock forward |
| `SpawnSafety.LocksStayAgreed` | internal/spawner/spawner.go:128-147 | the mutex table and the positions of the calls keep agreeing: a repo's mutex is held exactly by the one call inside its critical section |
| `SpawnSafety.CountsStaySound` | internal/spawner/spawner.go:232-260 | through every step, what still runs has been counted or is still to be inspected, and everything counted ran at the call's `ps` |
| `SpawnSafety.LaunchesKeepRoom` | internal/spawner/spawner.go:161-211 | a call cleared for `docker run` keeps room for its container until it runs, whatever else happens |
| `SpawnSafety.InvHolds` | internal/spawner/spawner.go:128-260 | the protocol invariant is inductive |
| `SpawnSafety.MutualExclusion` | internal/spawner/spawner.go:145-147 | in no reachable state are two calls in the critical section of one repo name |
| `SpawnSafety.MaxCap` | internal/spawner/spawner.go:166 | the largest cap configured for a name: an upper bound of them all, attained or zero |
| `SpawnSafety.StepRespectsCap` | internal/spawner/spawner.go:166-211 | one step raises the running count of a name at most to its largest cap |
| `SpawnSafety.CapSafety` | internal/spawner/spawner.go:128-225 | cap safety: over every run, the running containers of a name never exceed the larger of what ran at start-up and the largest cap of the name |
| `SpawnSafety.AuditIsHonest` | internal/spawner/spawner.go:235-244 | the set a count compares itself with is what ran in an earlier state of the run, at that call's own `ps` step |
| `SpawnSafety.DecisionIsSound` | internal/spawner/spawner.go:161-170 | the non-atomic count lies between what runs at the decision and what ran at `ps`; ErrCapHit means the cap was reached at `ps`, going on means there is room now |
| `SpawnCounters.CountersAlways` | internal/spawner/spawner.go:139-225 | in every reachable state each counter is, modulo 2^64, the number of calls with that outcome |
| `SpawnCounters.CounterConservation` | internal/spawner/spawner.go:87-92 | the five outcome counters add up to the number of calls that reached their outcome, modulo 2^64 |
| `SpawnCounters.ReconcileCounterBound` | internal/reconciler/reconciler.go:135-142 | totalReconcile never exceeds spawned plus idle-skipped |
| `SpawnSchedules.QuietCountIsExact` | internal/spawner/spawner.go:232-260 | when no container of the name is lost, the count a call decides on is exactly what runs |
| `SpawnSchedules.ScheduleIndependence` | internal/spawner/spawner_concurrency_test.go:92-128 | N calls on a quiet name with r running and cap K start exactly min(N, max(0, K-r)) containers under every interleaving, and all others hit the cap |
| `SpawnPause.FlagMoves` | internal/spawner/spawner.go:279 | setting the pause flag moves it to the value set, and no other step moves it |
| `SpawnPause.PauseBoundsRuns` | internal/spawner/spawner.go:140-147 | between a `SetPaused(true)` and the next `SetPaused(false)` there are at most as many `docker run`s as calls that were past the pause check then and had not reached theirs |
| `SpawnPause.PausedCallStaysOut` | internal/spawner/spawner.go:140-143 | a call that checks between them ends in ErrPaused, and all it ever does after the check is to count that |
| `SpawnPause.ResumedCallGoesOn` | internal/spawner/spawner.go:140-147 | a call that checks between a `SetPaused(false)` and the next `SetPaused(true)` is admitted |
| `SpawnPlain.WhatStepsDo` | internal/spawner/spawner.go:191-211 | `docker run` adds one running container of the repo under its name, created now; an exit stops one, a removal takes one away, and nothing else touches the containers |
| `SpawnPlain.CapInPlainTerms` | internal/spawner/spawner.go:136-138 | the cap over every run, as the size of the set of running containers of a name against any number that bounds what ran at start-up and every configured cap of the name |
| `SpawnPlain.CountersInPlainTerms` | internal/spawner/spawner.go:87-92 | each of the six counters is the number of calls that ended its way, modulo 2^64 |
| `SpawnPlain.DryRunStartsNothing` | internal/spawner/spawner.go:178-182 | a dry run never runs `docker run` |
| `SpawnPlain.BurstInPlainTerms` | internal/spawner/spawner_concurrency_test.go:92-128 | schedule independence from a fresh start, as sizes of sets of containers and calls |
| `SpawnPlain.QuietBurstExists` | internal/spawner/spawner.go:139-225 | a quiet run in which a call starts its container |
| `SpawnProgress.NoDeadlock` | internal/spawner/spawner.go:145-147 | every unfinished call can step, or waits for a mutex whose holder can |
| `SpawnProgress.CallStepsDecrease` | internal/spawner/spawner.go:139-260 | every step of any call lowers the phases ahead, or keeps them and lowers the inspects ahead |
| `SpawnProgress.EnvironmentAddsNoWork` | internal/spawner/spawner.go:139-260 | exits, removals, pause and time never lengthen that work |
| `SpawnProgress.LocksFreeAtTheEnd` | internal/spawner/spawner.go:145-147 | every mutex is free once all calls have finished |
| `SpawnProgress.Completion` | internal/spawner/spawner.go:139-225 | from every reachable state the calls alone can finish, with all mutexes free |
| `SpawnProjection.StepProjects` | internal/spawner/spawner.go:83-147 | a step of a name is possible, with the same effect, in the system reduced to that name; any other step leaves the reduced system alone |
| `SpawnProjection.RepoIndependence` | internal/spawner/spawner.go:83-147 | every run, projected onto one repo name, is a run of that repo alone with the same containers and the same calls |
| `Labels.LabelMatches` | internal/webhook/handler.go:99-110 | true exactly when some job label equals some wanted label up to case |
| `Labels.LowerIsFold` | internal/webhook/handler.go:99-110 | lower-cased forms are equal exactly when the strings are, character by character, up to the case of ASCII letters |
| `Labels.MatchExamples` | internal/webhook/handler.go:99-110 | "Mac-Pool" matches "mAC-pOOL"; "pool-a" matches neither "pool-b" nor "pool" |
| `Labels.HasIdleMatchingRunner` | internal/spawner/spawner.go:360-374 | true exactly when an online runner that is not busy carries a label equal to a wanted one up to case |
| `SpawnerObject.Spawner.constructor` | internal/spawner/spawner.go:113-126 | a fresh spawner: nothing paused, no call under way, and a valid start of a run |
| `SpawnerObject.Spawner.LockRepo` | internal/spawner/spawner.go:128-147 | the call gets its repo's mutex once its holders have let go, while everyone else goes on |
| `SpawnerObject.Spawner.ListRepo` | internal/spawner/spawner.go:233-247 | `ps` answers with each container of the repo once, exactly when Docker answers |
| `SpawnerObject.Spawner.CountRunning` | internal/spawner/spawner.go:232-260 | the loop over the inspected states returns the count the call decides on, at least what runs now and at most what ran at `ps`, or fails |
| `SpawnerObject.Spawner.RunContainer` | internal/spawner/spawner.go:209-215 | `docker run` starts the one container or nothing; success means it was started, an error leaves both open |
| `SpawnerObject.Spawner.DecideAndRun` | internal/spawner/spawner.go:166-224 | cap hit exactly when the count has reached the cap; otherwise spawned, or an error when the env file or `docker run` failed |
| `SpawnerObject.Spawner.Spawn` | internal/spawner/spawner.go:139-225 | under any interference every statement is a step of the protocol and the one the answers of GitHub and Docker call for; idle-skip exactly when GitHub shows an idle match; a start needs a `ps`, an env file and a `docker run` that worked, a cap hit a `ps` |
| `SpawnerObject.Spawner.SetPaused` | internal/spawner/spawner.go:279 | sets the flag, in one step of the protocol |
| `SpawnerObject.Spawner.IncReconcile` | internal/spawner/spawner.go:274 | counts one returned call of the reconciler, once |
| `SpawnerObject.Spawner.CountRunningNow` | internal/spawner/spawner.go:398-403 | the count outside the mutex, under any interference: 0 on an error, otherwise between what ran at its `ps` and still runs, and what ran at its `ps`; it fails only when a command does or a listed container has vanished |
| `SpawnerObject.CountedAll` | internal/spawner/spawner.go:232-260 | what such a count has included, once all listed containers are inspected |
| `SpawnerObject.Spawner.CapHolds` | internal/spawner/spawner.go:136-138 | the cap holds of the object, however it got where it is |
| `SpawnQuiet.GoodIsQuiet` | internal/spawner/spawner.go:139-225 | a call whose answers are all good fails nowhere, as long as nothing it has listed vanishes and nobody pauses |
| `SpawnQuiet.QuietOnlyAdds` | internal/spawner/spawner.go:139-225 | on a quiet name no container stops or vanishes |
| `SpawnQuiet.QuietBalance` | internal/spawner/spawner.go:139-225 | at every moment of a quiet stretch, what runs is what ran at its start and one container for each call that has started one |
| `SpawnQuiet.OwnCallsCatchUp` | internal/spawner/spawner.go:139-225 | if the others keep quiet on a name and some calls get good answers, then however all interleave, N calls from r running under cap K start min(N, max(0, K-r)) containers |
| `SpawnerObject.UndisturbedSpawn` | internal/spawner/spawner.go:139-225 | a single call left in peace starts exactly one container below the cap and none at it |
| `SseLines.GoLinesConcat` | internal/smee/client.go:119-120 | scanning distributes over a cut after a line feed |
| `SseLines.ScanIsPrefix` | internal/smee/client.go:103-104 | the scanner with its buffer limit delivers a prefix of the lines, all of them when no line is over-long |
| `SseLines.ScanUnlines` | internal/smee/client.go:103-120 | clean lines that fit come back as printed |
| `SseLines.LinesAgreeIff` | internal/smee/client.go:103-120 | the scanner's lines are the standard's lines exactly on streams with no leading BOM and no bare CR |
| `SseParser.Scanner.Scan` | internal/smee/client.go:119-120 | delivers the next line of the stream, or stops at the end or at an over-long line |
| `SseParser.ParseStream` | internal/smee/client.go:102-142 | hands over what the line-by-line specification hands over on the scanned lines, and reports an over-long line |
| `SsePlain.TrimSpaceMeans` | internal/smee/client.go:127 | trimming takes all white space off both ends and nothing else |
| `SsePlain.EventDecides` | internal/smee/client.go:111-137 | an event line with any padding decides: the data is handed over for "message", nothing for `ping`, `ready` or any other value |
| `SsePlain.EventStreamDecides` | internal/smee/client.go:102-142 | the same of a whole stream |
| `SsePlain.SmeeStream` | internal/smee/client_test.go:41-55 | a ping and an event with an id and a payload on one line hand over that payload |
| `SsePlain.DataLinesJoin` | internal/smee/client.go:128-133 | data lines are joined by line feeds; one space after the colon is no part of them |
| `SsePlain.OtherLinesDoNothing` | internal/smee/client.go:111-136 | comments, ids, retry fields and the event line of an earlier event change nothing |
| `SsePlain.TooLongIff` | internal/smee/client.go:103-104 | the scan stops early exactly when some stretch of the limit's length has no line feed |
| `SseStandard.BlockType` | internal/smee/client.go:119-137 | after the lines of a block the loop holds the trimmed value of its last `event:` line, or "message" |
| `SseStandard.BlockData` | internal/smee/client.go:119-137 | and the values of its `data:` lines, joined by line feeds once there is something to join |
| `SseParser.FeedAllFrame` | internal/smee/client.go:109-117 | what has been handed over stays and does not influence what follows |
| `SseParser.ParseComposes` | internal/smee/client.go:102-142 | a stream cut just after a blank line parses as its parts |
| `SseParser.IgnoredLine` | internal/smee/client.go:125-136 | inserting a comment, an `id:` line or any other ignored line between lines changes nothing |
| `SseParser.StopAtLongLine` | internal/smee/client.go:138-141 | stopping at an over-long line hands over a prefix of what the full stream would |
| `SseParser.TailEffect` | internal/smee/client.go:119-141 | an unterminated rest of a stream hands over nothing, unless it is a lone CR and a payload waits |
| `SseParser.TruncationIff` | internal/smee/client.go:119-141 | what a cut stream hands over is a prefix of what every continuation does, exactly when the cut does not fall after a CR that began a line while a payload waited |
| `SseParser.TruncationExample` | internal/smee/client.go:119-141 | the smallest streams for which it is not |
| `SseRoundTrip.FeedPieces` | internal/smee/client.go:128-133 | the data lines of a payload rebuild it behind what has been collected |
| `SseRoundTrip.RoundTrip` | internal/smee/client_test.go:41-55 | printing payloads without CR, with ids and comments, and parsing hands over those payloads in order without leading line feeds, and nothing for empty ones |
| `SseRoundTrip.PrintableIff` | internal/smee/client_test.go:41-55 | that holds for every payload without CR and every id and comment on one line that does not end in CR |
| `SseRoundTrip.ExpectedUnchangedIff` | internal/smee/client.go:109-133 | they come back unchanged exactly when none is empty or starts with a line feed |
| `SseStandard.ParseIsBlockwise` | internal/smee/client.go:102-142 | the loop hands over exactly the decisions on the blocks completed by a blank line, in order and whole |
| `SseStandard.BlockAgreesIff` | internal/smee/client.go:109-137 | on a block the program and section 9.2.6 of the WHATWG HTML Living Standard agree exactly when its text conforms: no data, or plain data and a plain type, or neither and another type than "message" |
| `SseStandard.TypesAgreeIff` | internal/smee/client.go:111-127 | the two read the same type exactly when the last event field is absent, or has a value that is not empty and not a padded "message", or lacks its colon with no other type before it |
| `SseStandard.EmptyFirstLineDiffers` | internal/smee/client.go:112-133 | an empty first data line is dropped, and alone makes no message |
| `SseStandard.EmptyEventDiffers` | internal/smee/client.go:112-127 | an empty event value makes the program drop a message of the default type |
| `SseStandard.OrdinaryBlockConforms` | internal/smee/client.go:125-136 | blocks without colonless fields, with a non-empty first data line and plain event values conform |
| `SseStandard.DecisionsAgreeIff` | internal/smee/client.go:102-142 | over whole streams of the same lines the decisions agree exactly when every block conforms |
| `SseStandard.StreamRefinesStandard` | internal/smee/client.go:102-142 | a stream without BOM or bare CR whose blocks conform hands over the messages the standard dispatches |
| `Backoff.LatestResetExists` | internal/smee/client.go:59-65 | every attempt has exactly one latest fresh start at or before it |
| `Backoff.Run` | internal/smee/client.go:45-73 | the wait after attempt i is min(2^k, 30) seconds, k attempts after the latest fresh start, and lies in [1 s, 30 s]; step by step, one second at first and after 30 s of connection, else twice the last wait up to 30 s |
| `Reconciler.CountQueuedMatchingJobs` | internal/reconciler/reconciler.go:150-190 | with early exit it returns min(limit, N), N being the number of queued jobs with a wanted label over the readable runs, each as often as its run is listed |
| `Reconciler.CountRepliesCounts` | internal/reconciler/reconciler.go:164-189 | the running count is the size of the set of such jobs |
| `Reconciler.MatchingExample` | internal/reconciler/reconciler.go:174-183 | of a job in progress, one with another label and a queued one with the label in another case, only the last counts |
| `Reconciler.OverlapCount` | internal/reconciler/reconciler.go:202-212 | runs listed twice count twice: distinct matches plus those in both lists, so between min(limit, distinct) and min(limit, 2 distinct) |
| `Reconciler.OverlapExample` | internal/reconciler/reconciler.go:202-212 | one run in both listings with one matching job is counted as 2, of 1 distinct match |
| `Reconciler.OutcomeStays` | internal/spawner/spawner.go:139-225 | a call that has returned keeps its outcome and its credit over the rest of the run |
| `Reconciler.SpawnOnce` | internal/reconciler/reconciler.go:136-141 | one Spawn, credited exactly when it returned nil; earlier calls keep their outcomes and credits |
| `Reconciler.SpawnUpTo` | internal/reconciler/reconciler.go:135-142 | at most the wanted number of calls, stopping at the first error |
| `Reconciler.PassInPeace` | internal/reconciler/reconciler.go:115-143 | the catch-up, from the stretch of the run in which the pass was made and the moment of its `ps` |
| `Reconciler.CountInPeace` | internal/reconciler/reconciler.go:109 | in a peaceful stretch a count whose commands work is exactly what ran at its `ps` |
| `Reconciler.CallsToMake` | internal/reconciler/reconciler.go:110-126 | min(matched, available) calls; an error of the listing only when there was room |
| `Reconciler.PeaceExists` | internal/reconciler/reconciler.go:108-144 | peaceful stretches exist in which a call starts its container |
| `Reconciler.ReconcileRepo` | internal/reconciler/reconciler.go:108-144 | counts outside the mutex while everyone goes on; makes at most min(matched, available) calls, up to the first error; the cap holds whatever was counted; left in peace, with commands that work and other callers allowed, the count is what ran at its `ps` and at least min(max(cap, counted), counted + matching) run at the end, exactly that many when all calls were its own |
| `ReaperTrace.TraceEvolves` | internal/cleanup/cleanup.go:361-443 | between any two of the reaper's commands the daemon only did what it may: identity kept, no restart, no id reused, clock forward |
| `ReaperPass.RegisteredComesFromAFetch` | internal/cleanup/cleanup.go:416-422 | a repo with registrations has a fetch of its own that succeeded, and exactly those names |
| `ReaperPass.FetchedIsRegistered` | internal/cleanup/cleanup.go:374-388 | and a repo with a fetch that succeeded has registrations, if only none |
| `ReaperPass.RmOnce` | internal/cleanup/cleanup.go:395-443 | no container is asked to be removed twice in a pass, nor looked up after its removal |
| `ReaperSafety.KnownAt` | internal/cleanup/cleanup.go:446-491 | name, repo and "not running" as listed are true of the container at every later moment of the pass |
| `ReaperSafety.PassIsJustified` | internal/cleanup/cleanup.go:395-442 | reaper safety: under any interference, when a `docker rm -f` takes effect the container does not run, or was absent from its own repo's fetched snapshot and has the grace age |
| `ReaperSafety.RemovesOnlyGhostsAlways` | internal/cleanup/cleanup.go:395-442 | the same in terms of GitHub's answers: what is running when it is removed has a name that a successful fetch for its repo did not list; and what was not listed as not running has the grace age |
| `ReaperSafety.RemovedExactly` | internal/cleanup/cleanup.go:395-443 | under any interference and any failures, the pass removes exactly the listed containers that meet the specification on Docker's answers and whose `rm` succeeded |
| `ReaperSafety.RemovedAreGone` | internal/cleanup/cleanup.go:404-441 | what was removed is not there at the end of the pass |
| `ReaperSafety.PassCounts` | internal/cleanup/cleanup.go:395-443 | the number counted is the number of containers removed |
| `ReaperSafety.ReliablePassCleansUp` | internal/cleanup/cleanup.go:361-443 | under any interference, if commands fail only when they have to, no container that was unregistered and old when the pass began outlives it, and none listed as not running |
| `ReaperSafety.UnknownAndOldGo` | internal/cleanup/cleanup.go:361-443 | the same in terms of answers: a container old enough, of a repo that was fetched and never with its name, is gone at the end |
| `ReaperCalm.CalmPass` | internal/cleanup/cleanup.go:361-443 | undisturbed and with lookups that work, the pass asks to remove exactly the specified set, removes at least those whose `rm` succeeded, and leaves everything else alone |
| `ReaperCalm.CalmReliablePass` | internal/cleanup/cleanup.go:361-443 | and removes exactly that set when every `rm` that can succeed does |
| `ReaperCalm.SecondPass` | internal/cleanup/cleanup.go:361-443 | a second undisturbed pass on the same registrations asks only for what the first should have removed and did not; if its own lookups work it asks for exactly that, so for nothing if and only if nothing of that is left |
| `ReaperCalm.PassIsIdempotent` | internal/cleanup/cleanup.go:361-443 | if all commands of the first pass worked that could, lookups as well as removals, the second removes and changes nothing |
| `ReaperCalm.RemovalsAloneDoNotSuffice` | internal/cleanup/cleanup.go:479-482 | two undisturbed passes where every removal of the first succeeded, there being none since its inspect failed, and the second removes a container |
| `ReaperCalm.GraceProtectsIff` | internal/cleanup/cleanup.go:358-360 | under any interference and any failures, only containers of grace age are removed exactly when every container listed as not running is of grace age, or gone, when its turn comes |
| `ReaperCalm.CalmGraceProtectsIff` | internal/cleanup/cleanup.go:358-360 | undisturbed and with lookups that work, that is exactly when every younger container is running |
| `ReaperCalm.YoungCorpseIsReaped` | internal/cleanup/cleanup.go:397-411 | a run in which a container of age 0 is removed |
| `ReaperCalm.UnresolvedIsReapedIff` | internal/cleanup/cleanup.go:479-482 | a container whose state could not be resolved is removed exactly when it is unregistered and found old enough |
| `ReaperCalm.UnresolvedIsReaped` | internal/cleanup/cleanup.go:479-482 | a run in which that happens to a running container |
| `Reaper.BuildRegistered` | internal/cleanup/cleanup.go:374-388 | the map of registered names per repo, from the fetches that succeeded |
| `Reaper.FillStates` | internal/cleanup/cleanup.go:487-489 | the resolved states are written into the listing in place, and nothing else changes |
| `Reaper.ListManagedContainers` | internal/cleanup/cleanup.go:450-491 | the listing is what `ps` showed, with the states the inspect gave, or none when it failed or gave too few |
| `Reaper.Cleaner.SetLocalGrace` | internal/cleanup/cleanup.go:67-72 | a grace below 30 s is ignored, so the grace never falls below it |
| `Reaper.Cleaner.Remove` | internal/cleanup/cleanup.go:404-409 | one `docker rm -f`, counted exactly when it succeeds |
| `Reaper.Cleaner.ReapOne` | internal/cleanup/cleanup.go:396-442 | exactly the commands that the listing and Docker's answers call for: `rm` at once, an age lookup and perhaps `rm`, or nothing |
| `Reaper.Cleaner.ReapLoop` | internal/cleanup/cleanup.go:395-443 | those commands for every listed container in order, the removals counted |
| `Reaper.Cleaner.ReapLocalGhosts` | internal/cleanup/cleanup.go:361-444 | the commands run are exactly those of a pass on Docker's answers, whatever goes on, with the grace that was set or five minutes; returns and adds to the total the number of containers removed, each justified and gone |
| `Reaper.Cleaner.FirstPass` | internal/cleanup/cleanup.go:60-72 | the grace of a new cleaner's pass is the one given, if of at least 30 s, and otherwise five minutes |
| `Reaper.Cleaner.ReapTwice` | internal/cleanup/cleanup.go:77-93 | of two passes in a row that nobody disturbs, the second removes nothing if the first left nothing of what it should remove, and asks for exactly what is left if its lookups work |
| `GhostAccounting.WorkerStaysOk` | internal/cleanup/cleanup.go:182-219 | a goroutine's figures add up at every stage, and it can fail only before it did anything |
| `GhostAccounting.TotalsKept` | internal/cleanup/cleanup.go:202-215 | every step of every goroutine keeps the lifetime totals equal to what all goroutines and summaries hold, modulo 2^64 |
| `GhostAccounting.SummariesAddUp` | internal/cleanup/cleanup.go:134-163 | under every interleaving, in every summary found equals deleted plus still stuck |
| `GhostAccounting.SummaryIsOfItsTick` | internal/cleanup/cleanup.go:134-140 | every summary holds the figures of the goroutines of its own tick, each merged once, and in the end of all that did not fail |
| `GhostAccounting.ReapedIsOfItsTick` | internal/cleanup/cleanup.go:146 | and the number of its own tick's removals |
| `GhostAccounting.LastIsTheLatest` | internal/cleanup/cleanup.go:160-176 | the summary kept is that of the tick that finished last |
| `GhostAccounting.LifetimeTotals` | internal/cleanup/cleanup.go:117-176 | after any set of completed, possibly overlapping ticks the lifetime totals are the sums of the per-tick figures |
| `GhostCleanup.ListGhostRunners` | internal/cleanup/cleanup.go:247-257 | the runners named `auto-` that are not online, in order |
| `GhostCleanup.NamesAreGhostNames` | internal/cleanup/cleanup.go:247-283 | the names collected are those of the ghosts among the listed runners |
| `GhostCleanup.GhostsInPlainTerms` | internal/cleanup/cleanup.go:247-257 | the ghosts are the runners whose name begins with "auto-" and whose status is not "online", in the order of the page, with their ids and names |
| `GhostCleanup.RunIdsForGhosts` | internal/cleanup/cleanup.go:279-314 | the run ids are duplicate-free and exactly the runs with a fetched in-progress job on a ghost |
| `GhostCleanup.Totals.CancelStuckRuns` | internal/cleanup/cleanup.go:198-206 | one cancel request per stuck run, counted when accepted; none when the runs cannot be listed |
| `GhostCleanup.Totals.DeleteGhosts` | internal/cleanup/cleanup.go:210-217 | one delete request per ghost in order; every one is counted as deleted or as still stuck |
| `GhostCleanup.CleanupInPlainTerms` | internal/cleanup/cleanup.go:182-219 | what the requests and figures of a pass come to, without the names above |
| `GhostCleanup.Totals.CleanupRepo` | internal/cleanup/cleanup.go:182-219 | fails only when the first fetch failed, and then changed nothing; otherwise one delete per offline "auto-" runner in page order and with its id, one cancel per run with a fetched in-progress job on such a runner, figures that count the accepted requests, totals moved by them; and what it did is a run of a goroutine of the accounting system |

## Left out

- HTTP requests, JSON decoding, GitHub status codes and the execution of docker commands: their results are arbitrary inputs.
- Text parsing of `ps` and `inspect` output, including the `id|name|repo` lines (internal/cleanup/cleanup.go:459-468): listings start from records.
- The portal, the HTML page, signature checks, the token's environment file, `cmd/autoscaler/main.go`, log output and configuration loading: wiring and I/O.
- `Dispatch`, `Validate`, `RepoByName`, `RepoRunnerCounts`, `sanitize`, `isAuthOrPermissionError`: easy members. No theorem needs a positive cap.
- The goroutines and tickers of the reconciler (`tickFiltered`) and the cleaner (`Run`): passes run under arbitrary interference instead.
- `handleMessage` and what follows a handed-over payload.
- Unicode case folding: `Labels.Lower` lowers ASCII letters only, one function for all three loops.
- Text is a sequence of characters: the scanner's limit counts characters, and bytes that are not UTF-8 are not modelled.
- Reader chunking and buffer growth in `bufio.Scanner`: only the trailing CR, the unterminated last line and the limit are kept.
- Deadlines of contexts: a command that times out is a command that fails.
- The lifetime totals that `Summary` and `LastSummary` carry along (internal/cleanup/cleanup.go:148-150, 168-176) are not stored per summary; the totals themselves are.
- GhostAccounting.LifetimeTotals: the reaped total moves one removal at a time, as in the code, and which container it was is left to the reaper module.
- GhostCleanup.Totals.CleanupRepo: its totals are stated for one goroutine at a time; the interleaving of several is the accounting module's, whose steps it is shown to take.
- Reconciler.CountQueuedMatchingJobs: for a limit that is not positive, which no caller passes, only an upper bound of one is stated.
