/** How a byte stream becomes lines: the scanner the program uses, and the
    splitting rule of the event stream standard. */
module SseLines {
  import opened Basics

  /** Index of the first line feed, or the length of the string. */
  function LineEnd(s: string): (n: nat)
    ensures n <= |s|
    ensures n < |s| ==> s[n] == '\n'
    ensures forall i | 0 <= i < n :: s[i] != '\n'
  {
    if s == "" || s[0] == '\n' then 0 else 1 + LineEnd(s[1..])
  }

  function DropCr(s: string): string {
    if s != "" && s[|s| - 1] == '\r' then s[..|s| - 1] else s
  }

  /** The first line of a text, and the text after its line feed. */
  function Line(s: string): string { s[..LineEnd(s)] }

  function After(s: string): (r: string)
    ensures s != "" ==> |r| < |s|
  {
    if LineEnd(s) == |s| then "" else s[LineEnd(s) + 1..]
  }

  /** bufio.ScanLines over a whole stream: cut at line feeds, drop one trailing
      CR of each line, deliver a last line that is not terminated. */
  function GoLines(s: string): seq<string>
    decreases |s|
  {
    if s == "" then [] else [DropCr(Line(s))] + GoLines(After(s))
  }

  datatype Scan = Scan(lines: seq<string>, tooLong: bool)

  /** The same with the scanner's buffer limit: a line that does not fit stops the scan. */
  function ScanLines(s: string, limit: nat): Scan
    decreases |s|
  {
    if s == "" then Scan([], false)
    else if LineEnd(s) >= limit then Scan([], true)
    else
      var rest := ScanLines(After(s), limit);
      Scan([DropCr(Line(s))] + rest.lines, rest.tooLong)
  }

  lemma PrefixCons<T>(h: T, a: seq<T>, b: seq<T>)
    requires a <= b
    ensures [h] + a <= [h] + b
  {
  }

  lemma {:induction false} ScanIsPrefix(s: string, limit: nat)
    ensures ScanLines(s, limit).lines <= GoLines(s)
    ensures !ScanLines(s, limit).tooLong ==> ScanLines(s, limit).lines == GoLines(s)
    decreases |s|
  {
    if s == "" {
    } else {
      ScanIsPrefix(After(s), limit);
      PrefixCons(DropCr(Line(s)), ScanLines(After(s), limit).lines, GoLines(After(s)));
    }
  }

  /** A string of whole lines. */
  predicate WholeLines(s: string) {
    s == "" || s[|s| - 1] == '\n'
  }

  lemma {:induction false} LineEndConcat(u: string, v: string)
    ensures LineEnd(u) < |u| ==> LineEnd(u + v) == LineEnd(u)
    ensures LineEnd(u) == |u| ==> LineEnd(u + v) == |u| + LineEnd(v)
  {
    if u == "" {
      assert u + v == v;
    } else if u[0] != '\n' {
      LineEndConcat(u[1..], v);
      assert (u + v)[1..] == u[1..] + v;
    }
  }

  lemma LineOf(l: string, rest: string)
    requires '\n' !in l
    ensures Line(l + "\n" + rest) == l && After(l + "\n" + rest) == rest
    ensures LineEnd(l + "\n" + rest) == |l|
  {
    var s := l + "\n" + rest;
    assert LineEnd(l) == |l|;
    LineEndConcat(l, "\n" + rest);
    assert LineEnd("\n" + rest) == 0;
    assert s == l + ("\n" + rest);
  }

  lemma FirstTerminated(l: string, rest: string)
    requires '\n' !in l
    ensures GoLines(l + "\n" + rest) == [DropCr(l)] + GoLines(rest)
  {
    LineOf(l, rest);
  }

  /** A nonempty string of whole lines is one line and the rest of them. */
  lemma SplitFirst(u: string) returns (l: string, rest: string)
    requires WholeLines(u) && u != ""
    ensures '\n' !in l && u == l + "\n" + rest && WholeLines(rest) && |rest| < |u|
  {
    var n := LineEnd(u);
    assert n < |u|;
    l, rest := u[..n], u[n + 1..];
    assert u == l + [u[n]] + rest;
  }

  /** Whole lines in front are scanned on their own. */
  lemma {:induction false} GoLinesConcat(u: string, v: string)
    requires WholeLines(u)
    ensures GoLines(u + v) == GoLines(u) + GoLines(v)
    decreases |u|
  {
    if u == "" {
      assert u + v == v && [] + GoLines(v) == GoLines(v);
    } else {
      var l, rest := SplitFirst(u);
      GoLinesConcat(rest, v);
      ConcatStep(l, rest, v);
    }
  }

  lemma ConcatStep(l: string, rest: string, v: string)
    requires '\n' !in l && GoLines(rest + v) == GoLines(rest) + GoLines(v)
    ensures GoLines((l + "\n" + rest) + v) == GoLines(l + "\n" + rest) + GoLines(v)
  {
    FirstTerminated(l, rest);
    FirstTerminated(l, rest + v);
    Regroup(l + "\n", rest, v);
    Regroup([DropCr(l)], GoLines(rest), GoLines(v));
  }

  /** A line without line feeds, on its own and terminated. */
  lemma OneLine(l: string)
    requires '\n' !in l
    ensures l != "" ==> GoLines(l) == [DropCr(l)]
    ensures GoLines(l + "\n") == [DropCr(l)]
  {
    assert LineEnd(l) == |l| && Line(l) == l && After(l) == "";
    FirstTerminated(l, "");
    assert l + "\n" + "" == l + "\n";
  }

  /** Split a stream after its last line feed. */
  function LastBreak(s: string): (k: nat)
    ensures k <= |s| && WholeLines(s[..k]) && '\n' !in s[k..]
  {
    if s == "" then 0
    else if s[|s| - 1] == '\n' then |s|
    else
      var k := LastBreak(s[..|s| - 1]);
      assert s[..|s| - 1][..k] == s[..k];
      assert s[k..] == s[..|s| - 1][k..] + [s[|s| - 1]];
      k
  }

  /** The whole lines of a stream, and the unterminated rest. */
  function Head(s: string): string { s[..LastBreak(s)] }

  function Tail(s: string): string { s[LastBreak(s)..] }

  lemma HeadTail(s: string)
    ensures WholeLines(Head(s)) && '\n' !in Tail(s) && Head(s) + Tail(s) == s
  {
  }

  // ----- printing -----

  function Unlines(lines: seq<string>): string {
    if lines == [] then "" else lines[0] + "\n" + Unlines(lines[1..])
  }

  /** Text that survives as one line: no line feed, no trailing CR. */
  predicate CleanLine(l: string) {
    '\n' !in l && DropCr(l) == l
  }

  lemma ScanFirst(l: string, rest: string, limit: nat)
    requires CleanLine(l) && |l| < limit
    ensures ScanLines(l + "\n" + rest, limit)
         == Scan([l] + ScanLines(rest, limit).lines, ScanLines(rest, limit).tooLong)
  {
    LineOf(l, rest);
  }

  /** Printing lines and scanning them gives the lines back, as long as they fit. */
  lemma {:induction false} ScanUnlines(lines: seq<string>, limit: nat)
    requires forall i | 0 <= i < |lines| :: CleanLine(lines[i]) && |lines[i]| < limit
    ensures ScanLines(Unlines(lines), limit) == Scan(lines, false)
  {
    if lines == [] {
    } else {
      ScanFirst(lines[0], Unlines(lines[1..]), limit);
      ScanUnlines(lines[1..], limit);
      assert [lines[0]] + lines[1..] == lines;
    }
  }

  // ----- the standard's line splitting -----

  const BOM: char := '\U{FEFF}'

  /** Index of the first CR or LF, or the length of the string. */
  function TermEnd(s: string): (n: nat)
    ensures n <= |s|
    ensures n < |s| ==> s[n] == '\n' || s[n] == '\r'
    ensures forall i | 0 <= i < n :: s[i] != '\n' && s[i] != '\r'
  {
    if s == "" || s[0] == '\n' || s[0] == '\r' then 0 else 1 + TermEnd(s[1..])
  }

  /** The text after the first line terminator. */
  function AfterTerm(s: string): (r: string)
    ensures s != "" ==> |r| < |s|
  {
    var n := TermEnd(s);
    if n == |s| then ""
    else if s[n] == '\r' && n + 1 < |s| && s[n + 1] == '\n' then s[n + 2..]
    else s[n + 1..]
  }

  /** Lines end at CRLF, LF or a lone CR. */
  function SplitAny(s: string): seq<string>
    decreases |s|
  {
    if s == "" then [] else [s[..TermEnd(s)]] + SplitAny(AfterTerm(s))
  }

  /** Section 9.2.6 of the WHATWG HTML Living Standard: drop one leading BOM, then split. */
  function StandardLines(s: string): seq<string> {
    if s != "" && s[0] == BOM then SplitAny(s[1..]) else SplitAny(s)
  }

  predicate NoBareCr(s: string) {
    forall i | 0 <= i < |s| - 1 && s[i] == '\r' :: s[i + 1] == '\n'
  }

  /** The two first lines: equal, with the same text after them, unless a lone
      CR comes first, and then the standard's is shorter. */
  lemma FirstLine(s: string)
    requires s != ""
    ensures var n, m := LineEnd(s), TermEnd(s);
            m <= n
            && (m == n || m + 1 == n ==> DropCr(Line(s)) == s[..m])
            && (m == n || (m + 1 == n && n < |s|) ==> AfterTerm(s) == After(s))
            && (m + 1 < n ==> |DropCr(Line(s))| > m && s[m] == '\r')
  {
    var n, m := LineEnd(s), TermEnd(s);
    if m == n {
      assert s[..n] == "" || s[..n][n - 1] == s[n - 1];
    } else {
      assert m < n && s[m] == '\r' && Line(s) == s[..n];
      assert s[..n][n - 1] == s[n - 1] && s[..n][..n - 1] == s[..n - 1];
    }
  }

  lemma ConsEqual<T>(h: T, a: seq<T>, b: seq<T>)
    ensures [h] + a == [h] + b <==> a == b
  {
    if [h] + a == [h] + b { assert a == ([h] + a)[1..] == ([h] + b)[1..] == b; }
  }

  /** Without a BOM, the scanner and the standard see the same lines exactly
      when every CR is followed by LF or ends the stream. */
  lemma {:induction false} SameSplitIff(s: string)
    ensures GoLines(s) == SplitAny(s) <==> NoBareCr(s)
    decreases |s|
  {
    if s == "" {
    } else {
      FirstLine(s);
      var n, m := LineEnd(s), TermEnd(s);
      if m + 1 < n {
        assert GoLines(s)[0] == DropCr(Line(s)) && SplitAny(s)[0] == s[..m];
        assert s[m + 1] != '\n';
      } else if n < |s| {
        SameSplitIff(After(s));
        ConsEqual(s[..m], GoLines(After(s)), SplitAny(After(s)));
        NoBareCrSplits(s, n);
      } else {
        assert After(s) == AfterTerm(s) == "";
      }
    }
  }

  /** A CR before the first line feed can only be the one right before it. */
  lemma NoBareCrSplits(s: string, n: nat)
    requires n < |s| && s[n] == '\n' && (forall i | 0 <= i < n - 1 :: s[i] != '\r')
    ensures NoBareCr(s) <==> NoBareCr(s[n + 1..])
  {
    var t := s[n + 1..];
    if NoBareCr(t) {
      forall i | 0 <= i < |s| - 1 && s[i] == '\r' ensures s[i + 1] == '\n' {
        if i > n { assert t[i - (n + 1)] == '\r'; }
      }
    }
    if NoBareCr(s) {
      forall i | 0 <= i < |t| - 1 && t[i] == '\r' ensures t[i + 1] == '\n' {
        assert s[i + (n + 1)] == '\r';
      }
    }
  }

  /** The program splits lines as the standard does, exactly on the streams
      without a leading BOM and without a bare CR. */
  lemma LinesAgreeIff(s: string)
    ensures GoLines(s) == StandardLines(s) <==> NoBareCr(s) && (s != "" ==> s[0] != '\U{FEFF}')
  {
    SameSplitIff(s);
    if s != "" && s[0] == BOM {
      FirstLine(s);
      var t := s[1..];
      if t != "" {
        FirstLine(t);
        assert LineEnd(s) == 1 + LineEnd(t) && TermEnd(s) == 1 + TermEnd(t);
        assert |GoLines(s)[0]| > |SplitAny(t)[0]|;
      }
    }
  }
}
