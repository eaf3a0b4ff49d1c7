/** Conservation of the lifetime counters over every run. */
module SpawnCounters {
  import opened Basics
  import opened SpawnProtocol

  /** The calls whose outcome `o` has reached its counter. */
  function Recorded(calls: map<CallId, Call>, o: Outcome): set<CallId> {
    set c | c in calls && (calls[c].pc.Releasing? || calls[c].pc.Done?) && calls[c].pc.outcome == o
  }

  function RecordedAny(calls: map<CallId, Call>): set<CallId> {
    set c | c in calls && (calls[c].pc.Releasing? || calls[c].pc.Done?)
  }

  function Credited(calls: map<CallId, Call>): set<CallId> {
    set c | c in calls && calls[c].pc.Done? && calls[c].pc.credited
  }

  function Tally(calls: map<CallId, Call>, o: Outcome): nat { Wrap64(|Recorded(calls, o)|) }

  /** The counters that the calls so far account for, in 64-bit arithmetic. */
  function Tallies(calls: map<CallId, Call>): Counters {
    Counters(Tally(calls, Spawned), Tally(calls, CapHit), Tally(calls, Failed),
             Tally(calls, IdleSkip), Tally(calls, Paused), Wrap64(|Credited(calls)|))
  }

  ghost predicate CountersOk(s: State) {
    && s.counters == Tallies(s.calls)
    // Only calls that returned nil are credited to the reconciler.
    && (forall c | c in Credited(s.calls) :: NilOutcome(s.calls[c].pc.outcome))
  }

  /** Apart from Record and Credit, a step settles and credits nothing. */
  lemma OthersSettleNothing(s: State, step: Step)
    requires Enabled(s, step) && !step.Record? && !step.Credit?
    ensures var s' := Apply(s, step);
            && s'.counters == s.counters
            && (forall o :: Recorded(s'.calls, o) == Recorded(s.calls, o))
            && Credited(s'.calls) == Credited(s.calls)
  {
  }

  /** Recording an outcome moves one call, and only into that outcome's tally. */
  lemma RecordSettlesOne(s: State, c: CallId, p: Outcome)
    requires Enabled(s, Record(c))
    ensures var s', o := Apply(s, Record(c)), s.calls[c].pc.outcome;
            && c !in Recorded(s.calls, p)
            && Recorded(s'.calls, p) == Recorded(s.calls, p) + (if p == o then {c} else {})
            && Credited(s'.calls) == Credited(s.calls)
  {
  }

  lemma RecordTally(s: State, c: CallId, p: Outcome)
    requires Enabled(s, Record(c))
    ensures Tally(Apply(s, Record(c)).calls, p)
         == if p == s.calls[c].pc.outcome then Bump(Tally(s.calls, p)) else Tally(s.calls, p)
  {
    RecordSettlesOne(s, c, p);
    WrapSuccessor(|Recorded(s.calls, p)|);
  }

  lemma CreditMovesOne(s: State, c: CallId)
    requires Enabled(s, Credit(c))
    ensures var s' := Apply(s, Credit(c));
            && c !in Credited(s.calls) && Credited(s'.calls) == Credited(s.calls) + {c}
            && (forall o :: Recorded(s'.calls, o) == Recorded(s.calls, o))
  {
  }

  lemma RecordKeepsTallies(s: State, c: CallId)
    requires s.counters == Tallies(s.calls) && Enabled(s, Record(c))
    ensures Apply(s, Record(c)).counters == Tallies(Apply(s, Record(c)).calls)
  {
    RecordTally(s, c, Spawned);
    RecordTally(s, c, CapHit);
    RecordTally(s, c, Failed);
    RecordTally(s, c, IdleSkip);
    RecordTally(s, c, Paused);
    assert Credited(Apply(s, Record(c)).calls) == Credited(s.calls) by { RecordSettlesOne(s, c, Spawned); }
  }

  lemma CreditKeepsTallies(s: State, c: CallId)
    requires s.counters == Tallies(s.calls) && Enabled(s, Credit(c))
    ensures Apply(s, Credit(c)).counters == Tallies(Apply(s, Credit(c)).calls)
  {
    CreditMovesOne(s, c);
    WrapSuccessor(|Credited(s.calls)|);
  }

  lemma OthersKeepTallies(s: State, step: Step)
    requires s.counters == Tallies(s.calls) && Enabled(s, step) && !step.Record? && !step.Credit?
    ensures Apply(s, step).counters == Tallies(Apply(s, step).calls)
  {
    OthersSettleNothing(s, step);
    assert Tallies(Apply(s, step).calls) == Tallies(s.calls);
  }

  lemma TalliesKept(s: State, step: Step)
    requires s.counters == Tallies(s.calls) && Enabled(s, step)
    ensures Apply(s, step).counters == Tallies(Apply(s, step).calls)
  {
    if step.Record? {
      RecordKeepsTallies(s, step.c);
    } else if step.Credit? {
      CreditKeepsTallies(s, step.c);
    } else {
      OthersKeepTallies(s, step);
    }
  }

  lemma CountersStayOk(s: State, step: Step)
    requires CountersOk(s) && Enabled(s, step)
    ensures CountersOk(Apply(s, step))
  {
    TalliesKept(s, step);
    if step.Credit? {
      CreditMovesOne(s, step.c);
    } else if step.Record? {
      RecordSettlesOne(s, step.c, Spawned);
    } else {
      OthersSettleNothing(s, step);
    }
    assert forall c | c in Apply(s, step).calls && c in Credited(s.calls) ::
        Apply(s, step).calls[c].pc == s.calls[c].pc;
  }

  /** In every reachable state each counter equals, modulo 2^64, the number of
      calls that ended in its outcome. */
  lemma {:induction false} CountersAlways(r: Run, k: nat)
    requires IsRun(r) && Init(r.states[0]) && k < |r.states|
    ensures CountersOk(r.states[k])
  {
    if k == 0 {
    } else {
      CountersAlways(r, k - 1);
      CountersStayOk(r.states[k - 1], r.steps[k - 1]);
    }
  }

  lemma DisjointUnionSize(a: set<CallId>, b: set<CallId>)
    requires a !! b
    ensures |a + b| == |a| + |b|
  {
  }

  lemma OutcomesPartition(calls: map<CallId, Call>)
    ensures |RecordedAny(calls)|
         == |Recorded(calls, Spawned)| + |Recorded(calls, CapHit)| + |Recorded(calls, Failed)|
            + |Recorded(calls, IdleSkip)| + |Recorded(calls, Paused)|
  {
    var a, b, c := Recorded(calls, Spawned), Recorded(calls, CapHit), Recorded(calls, Failed);
    var d, e := Recorded(calls, IdleSkip), Recorded(calls, Paused);
    assert RecordedAny(calls) == a + b + c + d + e by {
      forall x | x in RecordedAny(calls) ensures x in a + b + c + d + e {
        match calls[x].pc.outcome
        case Spawned => case CapHit => case Failed => case IdleSkip => case Paused =>
      }
    }
    DisjointUnionSize(a, b);
    DisjointUnionSize(a + b, c);
    DisjointUnionSize(a + b + c, d);
    DisjointUnionSize(a + b + c + d, e);
  }

  /** Conservation: the five outcome counters add up to the number of calls
      that reached their outcome, modulo 2^64. */
  lemma CounterConservation(r: Run, k: nat)
    requires IsRun(r) && Init(r.states[0]) && k < |r.states|
    ensures var s := r.states[k];
            Wrap64(s.counters.spawned + s.counters.capHit + s.counters.errors
                   + s.counters.idleSkip + s.counters.paused)
            == Wrap64(|RecordedAny(s.calls)|)
  {
    CountersAlways(r, k);
    var calls := r.states[k].calls;
    OutcomesPartition(calls);
    WrapFive(|Recorded(calls, Spawned)|, |Recorded(calls, CapHit)|, |Recorded(calls, Failed)|,
             |Recorded(calls, IdleSkip)|, |Recorded(calls, Paused)|);
  }

  lemma WrapFive(a: nat, b: nat, c: nat, d: nat, e: nat)
    ensures Wrap64(Wrap64(a) + Wrap64(b) + Wrap64(c) + Wrap64(d) + Wrap64(e)) == Wrap64(a + b + c + d + e)
  {
    WrapPlus(a, Wrap64(b) + Wrap64(c) + Wrap64(d) + Wrap64(e));
    WrapPlus(b, a + Wrap64(c) + Wrap64(d) + Wrap64(e));
    WrapPlus(c, a + b + Wrap64(d) + Wrap64(e));
    WrapPlus(d, a + b + c + Wrap64(e));
    WrapPlus(e, a + b + c + d);
  }

  /** totalReconcile never exceeds spawned plus idle-skipped (until a counter wraps). */
  lemma ReconcileCounterBound(r: Run, k: nat)
    requires IsRun(r) && Init(r.states[0]) && k < |r.states|
    ensures |Credited(r.states[k].calls)|
         <= |Recorded(r.states[k].calls, Spawned)| + |Recorded(r.states[k].calls, IdleSkip)|
    ensures |r.states[k].calls| < TWO_64 ==>
              r.states[k].counters.reconcile <= r.states[k].counters.spawned + r.states[k].counters.idleSkip
  {
    CountersAlways(r, k);
    var calls := r.states[k].calls;
    var a, b := Recorded(calls, Spawned), Recorded(calls, IdleSkip);
    SubsetSize(Credited(calls), a + b);
    SubsetSize(a, calls.Keys);
    SubsetSize(b, calls.Keys);
    SubsetSize(Credited(calls), calls.Keys);
    if |calls| < TWO_64 {
      WrapSmall(|a|);
      WrapSmall(|b|);
      WrapSmall(|Credited(calls)|);
    }
  }
}
