/** The label-matching rule. The webhook, the idle check and the reconciler
    each fill a lower-cased set in a loop and then scan with early exit. */
module Labels {
  function LowerChar(c: char): char {
    if 'A' <= c <= 'Z' then c - 'A' + 'a' else c
  }

  /** One fixed lower-casing, shared by the three loops. */
  function Lower(s: string): string {
    seq(|s|, i requires 0 <= i < |s| => LowerChar(s[i]))
  }

  /** Equal up to the case of ASCII letters, character by character. */
  predicate EqualFold(a: string, b: string) {
    |a| == |b| && forall i | 0 <= i < |a| ::
                    || a[i] == b[i]
                    || ('A' <= a[i] <= 'Z' && b[i] as int == a[i] as int + 32)
                    || ('A' <= b[i] <= 'Z' && a[i] as int == b[i] as int + 32)
  }

  lemma LowerIsFold(a: string, b: string)
    ensures Lower(a) == Lower(b) <==> EqualFold(a, b)
  {
    if Lower(a) == Lower(b) {
      forall i | 0 <= i < |a| ensures LowerChar(a[i]) == LowerChar(b[i]) {
        assert Lower(a)[i] == Lower(b)[i];
      }
    }
  }

  /** Some label equals some wanted label up to case. */
  predicate AnyMatch(labels: seq<string>, want: seq<string>) {
    exists i, j :: 0 <= i < |labels| && 0 <= j < |want| && EqualFold(labels[i], want[j])
  }

  /** Case does not matter, and nothing else is forgiven. */
  lemma MatchExamples()
    ensures AnyMatch(["gpu", "Mac-Pool"], ["mAC-pOOL"])
    ensures !AnyMatch(["pool-a"], ["pool-b"]) && !AnyMatch(["pool"], ["pool-a"]) && !AnyMatch([], ["pool-a"])
  {
    var a, b := ["gpu", "Mac-Pool"], ["mAC-pOOL"];
    assert EqualFold(a[1], b[0]);
    var p, q := "pool-a", "pool-b";
    assert p[5] == 'a' && q[5] == 'b' && !EqualFold(p, q);
  }

  function LowerSet(want: seq<string>): set<string> { set w | w in want :: Lower(w) }

  lemma InLowerSet(tag: string, want: seq<string>)
    ensures Lower(tag) in LowerSet(want) <==> exists j :: 0 <= j < |want| && EqualFold(tag, want[j])
  {
    if j :| 0 <= j < |want| && EqualFold(tag, want[j]) {
      LowerIsFold(tag, want[j]);
      assert want[j] in want;
    }
    if Lower(tag) in LowerSet(want) {
      var w :| w in want && Lower(w) == Lower(tag);
      var j :| 0 <= j < |want| && want[j] == w;
      LowerIsFold(tag, want[j]);
    }
  }

  method BuildWantSet(want: seq<string>) returns (wantSet: set<string>)
    ensures wantSet == LowerSet(want)
  {
    wantSet := {};
    for i := 0 to |want|
      invariant wantSet == LowerSet(want[..i])
    {
      assert want[..i + 1] == want[..i] + [want[i]];
      wantSet := wantSet + {Lower(want[i])};
    }
    assert want[..] == want;
  }

  /** The webhook's test of a job's labels. */
  method LabelMatches(jobLabels: seq<string>, want: seq<string>) returns (ok: bool)
    ensures ok <==> AnyMatch(jobLabels, want)
  {
    var wantSet := BuildWantSet(want);
    for i := 0 to |jobLabels|
      invariant forall k | 0 <= k < i :: Lower(jobLabels[k]) !in wantSet
    {
      InLowerSet(jobLabels[i], want);
      if Lower(jobLabels[i]) in wantSet {
        return true;
      }
    }
    forall k | 0 <= k < |jobLabels|
      ensures forall j | 0 <= j < |want| :: !EqualFold(jobLabels[k], want[j])
    {
      InLowerSet(jobLabels[k], want);
    }
    return false;
  }

  datatype Runner = Runner(id: int, name: string, online: bool, busy: bool, labels: seq<string>)

  /** An online, idle runner that one of the wanted labels selects. */
  predicate IdleMatch(runners: seq<Runner>, want: seq<string>) {
    exists r :: r in runners && r.online && !r.busy && AnyMatch(r.labels, want)
  }

  lemma IdleMatchInFull(runners: seq<Runner>, want: seq<string>)
    ensures IdleMatch(runners, want) <==>
              exists r, i, j ::
                && 0 <= r < |runners| && runners[r].online && !runners[r].busy
                && 0 <= i < |runners[r].labels| && 0 <= j < |want| && EqualFold(runners[r].labels[i], want[j])
  {
    if r, i, j :| 0 <= r < |runners| && runners[r].online && !runners[r].busy
                  && 0 <= i < |runners[r].labels| && 0 <= j < |want| && EqualFold(runners[r].labels[i], want[j]) {
      assert runners[r] in runners && AnyMatch(runners[r].labels, want);
    }
    if IdleMatch(runners, want) {
      var x :| x in runners && x.online && !x.busy && AnyMatch(x.labels, want);
      var r :| 0 <= r < |runners| && runners[r] == x;
      var i, j :| 0 <= i < |x.labels| && 0 <= j < |want| && EqualFold(x.labels[i], want[j]);
    }
  }

  /** The spawner's idle check on the runners GitHub returned. */
  method HasIdleMatchingRunner(runners: seq<Runner>, want: seq<string>) returns (idle: bool)
    ensures idle <==> IdleMatch(runners, want)
    ensures idle <==>
              exists r, i, j ::
                && 0 <= r < |runners| && runners[r].online && !runners[r].busy
                && 0 <= i < |runners[r].labels| && 0 <= j < |want| && EqualFold(runners[r].labels[i], want[j])
  {
    IdleMatchInFull(runners, want);
    for i := 0 to |runners|
      invariant !IdleMatch(runners[..i], want)
    {
      var r := runners[i];
      assert runners[..i + 1] == runners[..i] + [r];
      if r.busy || !r.online { continue; }
      var hit := LabelMatches(r.labels, want);
      if hit {
        assert r in runners;
        return true;
      }
    }
    assert runners[..] == runners;
    return false;
  }
}
