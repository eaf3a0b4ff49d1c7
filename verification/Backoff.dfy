/** The reconnect loop: wait after every connection attempt, doubling up to a
    maximum, and start over after a connection that lasted long enough. */
module Backoff {
  import opened Basics

  // Durations in nanoseconds.
  const SECOND: nat := 1_000_000_000
  const MAX_BACKOFF: nat := 30 * SECOND

  function Pow2(k: nat): nat { if k == 0 then 1 else 2 * Pow2(k - 1) }

  function CapDuration(a: nat, max: nat): nat { if a < max then a else max }

  /** Attempt j is the latest one at or before i that counts as a fresh start:
      a connection that lasted at least the maximum wait, or the very first. */
  ghost predicate LatestReset(lasted: seq<nat>, i: nat, j: nat) {
    && j <= i < |lasted|
    && (j == 0 || lasted[j] >= MAX_BACKOFF)
    && forall m | j < m <= i :: lasted[m] < MAX_BACKOFF
  }

  /** Every attempt has exactly one latest reset. */
  lemma {:induction false} LatestResetExists(lasted: seq<nat>, i: nat) returns (j: nat)
    requires i < |lasted|
    ensures LatestReset(lasted, i, j)
    ensures forall k | LatestReset(lasted, i, k) :: k == j
  {
    if i == 0 || lasted[i] >= MAX_BACKOFF {
      j := i;
    } else {
      j := LatestResetExists(lasted, i - 1);
    }
  }

  lemma DoubledAndCapped(k: nat)
    ensures CapDuration(2 * Min(Pow2(k) * SECOND, MAX_BACKOFF), MAX_BACKOFF)
         == Min(Pow2(k + 1) * SECOND, MAX_BACKOFF)
  {
  }

  lemma {:induction false} Pow2Positive(k: nat)
    ensures Pow2(k) >= 1
  {
    if k == 0 {
    } else {
      Pow2Positive(k - 1);
    }
  }

  /** The loop over the connections until the context is cancelled; `lasted`
      holds how long each one stayed up. The wait after attempt i is 2^k seconds,
      capped at 30, where k counts the attempts since the latest reset. */
  method Run(lasted: seq<nat>) returns (waits: seq<nat>)
    ensures |waits| == |lasted|
    ensures forall i: nat, j: nat | j <= i && LatestReset(lasted, i, j) ::
              waits[i] == Min(Pow2(i - j) * SECOND, MAX_BACKOFF)
    ensures forall i | 0 <= i < |waits| :: SECOND <= waits[i] <= MAX_BACKOFF
    // The same step by step, in nanoseconds: one second at first and after a
    // connection of at least thirty, and twice the last wait, up to thirty, otherwise.
    ensures forall i | 0 <= i < |waits| && (i == 0 || lasted[i] >= 30_000_000_000) :: waits[i] == 1_000_000_000
    ensures forall i | 0 < i < |waits| && lasted[i] < 30_000_000_000 ::
              waits[i] == if waits[i - 1] < 15_000_000_000 then 2 * waits[i - 1] else 30_000_000_000
  {
    waits := [];
    var backoff := SECOND;
    ghost var start: nat := 0;
    for i := 0 to |lasted|
      invariant |waits| == i && start <= i
      invariant i > 0 ==> LatestReset(lasted, i - 1, start)
      invariant backoff == Min(Pow2(i - start) * SECOND, MAX_BACKOFF)
      invariant forall k: nat, j: nat | j <= k < i && LatestReset(lasted, k, j) ::
                  waits[k] == Min(Pow2(k - j) * SECOND, MAX_BACKOFF)
      invariant forall k | 0 <= k < i :: SECOND <= waits[k] <= MAX_BACKOFF
      invariant forall k | 0 <= k < i && (k == 0 || lasted[k] >= 30_000_000_000) :: waits[k] == 1_000_000_000
      invariant forall k | 0 < k < i && lasted[k] < 30_000_000_000 ::
                  waits[k] == if waits[k - 1] < 15_000_000_000 then 2 * waits[k - 1] else 30_000_000_000
      invariant if i == 0 then backoff == 1_000_000_000
                else backoff == if waits[i - 1] < 15_000_000_000 then 2 * waits[i - 1] else 30_000_000_000
    {
      if lasted[i] >= MAX_BACKOFF {
        backoff := SECOND;
        start := i;
      }
      var j := LatestResetExists(lasted, i);
      assert LatestReset(lasted, i, start);
      Pow2Positive(i - start);
      waits := waits + [backoff];
      DoubledAndCapped(i - start);
      backoff := CapDuration(backoff * 2, MAX_BACKOFF);
    }
  }
}
