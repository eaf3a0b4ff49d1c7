/** What the parser makes of the lines a server writes, said with the lines
    themselves. */
module SsePlain {
  import opened Basics
  import opened SseLines
  import opened SseParser
  import opened SseRoundTrip

  predicate AllSpace(s: string) { forall i | 0 <= i < |s| :: IsSpace(s[i]) }

  lemma {:induction false} TrimLeftMeans(s: string) returns (a: string)
    ensures s == a + TrimLeft(s) && AllSpace(a)
    ensures TrimLeft(s) == "" || !IsSpace(TrimLeft(s)[0])
  {
    if s == "" || !IsSpace(s[0]) {
      a := "";
    } else {
      var b := TrimLeftMeans(s[1..]);
      a := [s[0]] + b;
      assert s == [s[0]] + s[1..];
    }
  }

  lemma {:induction false} TrimRightMeans(s: string) returns (b: string)
    ensures s == TrimRight(s) + b && AllSpace(b)
    ensures TrimRight(s) == "" || (!IsSpace(TrimRight(s)[|TrimRight(s)| - 1]) && TrimRight(s)[0] == s[0])
  {
    if s == "" || !IsSpace(s[|s| - 1]) {
      b := "";
    } else {
      var n := |s| - 1;
      var a := TrimRightMeans(s[..n]);
      b := a + [s[n]];
      assert s == s[..n] + [s[n]];
    }
  }

  /** Trimming takes white space off both ends, all of it, and nothing else. */
  lemma TrimSpaceMeans(s: string) returns (a: string, b: string)
    ensures s == a + TrimSpace(s) + b && AllSpace(a) && AllSpace(b)
    ensures var t := TrimSpace(s); t == "" || (!IsSpace(t[0]) && !IsSpace(t[|t| - 1]))
  {
    a := TrimLeftMeans(s);
    b := TrimRightMeans(TrimLeft(s));
  }

  /** Printable characters of ASCII other than the space. */
  predicate Visible(v: string) { forall i | 0 <= i < |v| :: '!' <= v[i] <= '~' }

  /** Spaces and tabs. */
  predicate Padding(p: string) { forall i | 0 <= i < |p| :: p[i] == ' ' || p[i] == '\t' }

  lemma {:induction false} TrimLeftPadded(p: string, v: string)
    requires Padding(p) && v != "" && '!' <= v[0] <= '~'
    ensures TrimLeft(p + v) == v
  {
    if p == "" {
      assert p + v == v;
    } else {
      assert (p + v)[1..] == p[1..] + v;
      TrimLeftPadded(p[1..], v);
    }
  }

  lemma {:induction false} TrimRightPadded(v: string, p: string)
    requires Padding(p) && v != "" && '!' <= v[|v| - 1] <= '~'
    ensures TrimRight(v + p) == v
  {
    if p == "" {
      assert v + p == v;
    } else {
      var n := |p| - 1;
      assert (v + p)[..|v + p| - 1] == v + p[..n];
      TrimRightPadded(v, p[..n]);
    }
  }

  lemma EventLine(line: string, p: string, v: string, q: string)
    requires line == "event:" + p + v + q && Padding(p) && Padding(q) && v != "" && Visible(v)
    ensures line != "" && IsEventLine(line) && EventOf(line) == v
  {
    assert line[..|EVENT|] == EVENT && line[|EVENT|..] == p + (v + q);
    TrimLeftPadded(p, v + q);
    TrimRightPadded(v, q);
  }

  lemma DataLine(line: string, d: string)
    requires line == "data: " + d || (line == "data:" + d && (d == "" || d[0] != ' '))
    ensures line != "" && !IsEventLine(line) && IsDataLine(line) && ValueOf(line) == d
  {
    assert line[0] == 'd' && EVENT[0] == 'e';
    if line == "data: " + d {
      assert line[..|DATA|] == DATA && line[|DATA|..] == " " + d;
      assert (" " + d)[1..] == d;
    } else {
      assert line[..|DATA|] == DATA && line[|DATA|..] == d;
    }
  }

  lemma FeedThree(p: Parser, a: string, b: string, c: string)
    ensures FeedAll(p, [a, b, c]) == Feed(Feed(Feed(p, a), b), c)
  {
    assert [a, b, c] == [a] + [b, c] && [b, c] == [b] + [c] && [c] == [c] + [];
    FeedNext(p, a, [b, c]);
    FeedNext(Feed(p, a), b, [c]);
    FeedNext(Feed(Feed(p, a), b), c, []);
  }

  /** An event line, with any padding, decides: the data is handed over if its
      value is "message", and nothing is for `ping`, `ready` or any other. */
  lemma EventDecides(p: string, v: string, q: string, d: string)
    requires Padding(p) && Padding(q) && v != "" && Visible(v)
    ensures FeedAll(START, ["event:" + p + v + q, "data: " + d, ""]).out
         == if v == "message" && d != "" then [d] else []
  {
    var event, data := "event:" + p + v + q, "data: " + d;
    EventLine(event, p, v, q);
    DataLine(data, d);
    FeedThree(START, event, data, "");
  }

  lemma WholeAndWhole(x: string, y: string)
    requires WholeLines(x) && WholeLines(y)
    ensures WholeLines(x + y) && GoLines(x + y) == GoLines(x) + GoLines(y)
  {
    GoLinesConcat(x, y);
    if y == "" {
      assert x + y == x;
    } else {
      assert (x + y)[|x + y| - 1] == y[|y| - 1];
    }
  }

  lemma OneWholeLine(a: string, nl: string) returns (x: string)
    requires CleanLine(a) && nl == "\n"
    ensures x == a + nl && WholeLines(x) && GoLines(x) == [a]
  {
    x := a + nl;
    OneLine(a);
  }

  lemma TwoLinesAndABlank(a: string, b: string, nl: string)
    requires CleanLine(a) && CleanLine(b) && nl == "\n"
    ensures GoLines(a + nl + b + nl + nl) == [a, b, ""]
  {
    var x := OneWholeLine(a, nl);
    var y := OneWholeLine(b, nl);
    var z := OneWholeLine("", nl);
    assert z == nl;
    Regroup(x, b, nl);
    WholeAndWhole(x, y);
    WholeAndWhole(x + y, z);
  }

  lemma EventLineIsClean(line: string, p: string, v: string, q: string)
    requires line == "event:" + p + v + q && Padding(p) && Padding(q) && v != "" && Visible(v)
    ensures CleanLine(line)
  {
    assert line[|line| - 1] == if q != "" then q[|q| - 1] else v[|v| - 1];
    forall i | 0 <= i < |line| ensures line[i] != '\n' {
      var head := |"event:"|;
      if i < head {
      } else if i < head + |p| {
        assert line[i] == p[i - head];
      } else if i < head + |p| + |v| {
        assert line[i] == v[i - head - |p|];
      } else {
        assert line[i] == q[i - head - |p| - |v|];
      }
    }
  }

  /** The same of a whole stream. */
  lemma EventStreamDecides(p: string, v: string, q: string, d: string)
    requires Padding(p) && Padding(q) && v != "" && Visible(v) && CleanLine(d)
    ensures var event, data := "event:" + p + v + q, "data: " + d;
            Parse(event + "\n" + data + "\n" + "\n") == if v == "message" && d != "" then [d] else []
  {
    var event, data := "event:" + p + v + q, "data: " + d;
    EventLineIsClean(event, p, v, q);
    PrefixedClean("data: ", d);
    TwoLinesAndABlank(event, data, "\n");
    EventDecides(p, v, q, d);
  }

  lemma LineAndABlank(a: string, nl: string)
    requires CleanLine(a) && nl == "\n"
    ensures WholeLines(a + nl + nl) && GoLines(a + nl + nl) == [a, ""]
  {
    var x := OneWholeLine(a, nl);
    var z := OneWholeLine("", nl);
    assert z == nl;
    WholeAndWhole(x, z);
  }

  lemma Joined(u: string, v: string, a: string, b: string, c: string, d: string, e: string)
    requires WholeLines(u) && GoLines(u) == [a, b] && GoLines(v) == [c, d, e]
    ensures GoLines(u + v) == [a, b, c, d, e]
  {
    GoLinesConcat(u, v);
  }

  lemma SmeeLines(ping: string, id: string, data: string, nl: string)
    requires CleanLine(ping) && CleanLine(id) && CleanLine(data) && nl == "\n"
    ensures GoLines(ping + nl + nl + (id + nl + data + nl + nl)) == [ping, "", id, data, ""]
  {
    TwoLinesAndABlank(id, data, nl);
    LineAndABlank(ping, nl);
    Joined(ping + nl + nl, id + nl + data + nl + nl, ping, "", id, data, "");
  }

  lemma SmeeFeeds(ping: string, id: string, data: string, d: string)
    requires ping == ": ping" && id == "id: 1" && data == "data: " + d && d != ""
    ensures FeedAll(START, [ping, "", id, data, ""]).out == [d]
  {
    assert ping[0] == ':' && EVENT[0] == 'e' && DATA[0] == 'd' && id[0] == 'i';
    assert [ping, "", id, data, ""] == [ping] + (["", id, data, ""]);
    assert ["", id, data, ""] == [""] + [id, data, ""];
    FeedNext(START, ping, ["", id, data, ""]);
    FeedNext(START, "", [id, data, ""]);
    DataLine(data, d);
    FeedThree(START, id, data, "");
  }

  /** What smee.io sends: a ping, and an event with an id and a payload on one line. */
  lemma SmeeStream(d: string, nl: string)
    requires CleanLine(d) && d != "" && nl == "\n"
    ensures Parse(": ping" + nl + nl + ("id: 1" + nl + ("data: " + d) + nl + nl)) == [d]
  {
    var ping, id, data := ": ping", "id: 1", "data: " + d;
    PrefixedClean("data: ", d);
    SmeeLines(ping, id, data, nl);
    SmeeFeeds(ping, id, data, d);
  }

  /** Data lines are joined by line feeds; one space after the colon is no part of them. */
  lemma DataLinesJoin(a: string, b: string)
    requires a != ""
    ensures FeedAll(START, ["data: " + a, "data: " + b, ""]).out == [a + "\n" + b]
    ensures a[0] != ' ' ==> FeedAll(START, ["data:" + a, "data: " + b, ""]).out == [a + "\n" + b]
  {
    DataLine("data: " + a, a);
    DataLine("data: " + b, b);
    FeedThree(START, "data: " + a, "data: " + b, "");
    if a[0] != ' ' {
      DataLine("data:" + a, a);
      FeedThree(START, "data:" + a, "data: " + b, "");
    }
  }

  /** Comments, ids and retry fields change nothing, and neither does an event line
      of an earlier event. */
  lemma OtherLinesDoNothing(x: string, d: string)
    requires d != ""
    ensures FeedAll(START, [":" + x, "data: " + d, ""]).out == [d]
    ensures FeedAll(START, ["id:" + x, "data: " + d, ""]).out == [d]
    ensures FeedAll(START, ["retry:" + x, "data: " + d, ""]).out == [d]
    ensures FeedAll(START, ["event: ping", "", "data: " + d, ""]).out == [d]
  {
    DataLine("data: " + d, d);
    var c, i, r, e := ":" + x, "id:" + x, "retry:" + x, "event: ping";
    assert c[0] == ':' && i[0] == 'i' && r[0] == 'r' && EVENT[0] == 'e' && DATA[0] == 'd';
    FeedThree(START, c, "data: " + d, "");
    FeedThree(START, i, "data: " + d, "");
    FeedThree(START, r, "data: " + d, "");
    var ping := "ping";
    assert e == "event:" + " " + ping + "";
    EventLine(e, " ", ping, "");
    assert [e, "", "data: " + d, ""] == [e] + ["", "data: " + d, ""];
    FeedNext(START, e, ["", "data: " + d, ""]);
    FeedThree(Feed(START, e), "", "data: " + d, "");
  }

  /** `limit` characters from position i on without a line feed. */
  predicate Unbroken(s: string, i: nat, limit: nat) {
    i + limit <= |s| && forall k | i <= k < i + limit :: s[k] != '\n'
  }

  predicate HasStretch(s: string, limit: nat) {
    exists i: nat | i <= |s| :: Unbroken(s, i, limit)
  }

  lemma ShortHasNone(s: string, limit: nat)
    requires |s| < limit
    ensures !HasStretch(s, limit)
  {
  }

  lemma BreakComesFirst(s: string, i: nat, limit: nat, n: nat)
    requires Unbroken(s, i, limit) && n < |s| && s[n] == '\n' && n < limit
    ensures n < i
  {
  }

  /** Such a stretch cannot reach over the first line feed. */
  lemma StretchAfter(s: string, n: nat, limit: nat)
    requires n < |s| && s[n] == '\n' && n < limit
    ensures HasStretch(s, limit) <==> HasStretch(s[n + 1..], limit)
  {
    var t := s[n + 1..];
    if HasStretch(s, limit) {
      var i: nat :| i <= |s| && Unbroken(s, i, limit);
      BreakComesFirst(s, i, limit, n);
      assert Unbroken(t, i - n - 1, limit);
    }
    if HasStretch(t, limit) {
      var i: nat :| i <= |t| && Unbroken(t, i, limit);
      forall k | i + n + 1 <= k < i + n + 1 + limit ensures s[k] != '\n' {
        assert s[k] == t[k - n - 1];
      }
      assert Unbroken(s, i + n + 1, limit);
    }
  }

  lemma ScanGoesOn(s: string, limit: nat)
    requires s != ""
    ensures ScanLines(s, limit).tooLong <==> (LineEnd(s) >= limit || ScanLines(After(s), limit).tooLong)
  {
  }

  lemma StretchGoesOn(s: string, limit: nat)
    requires s != ""
    ensures HasStretch(s, limit) <==> (LineEnd(s) >= limit || HasStretch(After(s), limit))
  {
    var n := LineEnd(s);
    if n >= limit {
      assert Unbroken(s, 0, limit);
    } else if n == |s| {
      ShortHasNone(s, limit);
      ShortHasNone("", limit);
    } else {
      StretchAfter(s, n, limit);
    }
  }

  /** The scan stops early exactly when some stretch of `limit` characters has no
      line feed in it. */
  lemma {:induction false} TooLongIff(s: string, limit: nat)
    requires s != ""
    ensures ScanLines(s, limit).tooLong <==> HasStretch(s, limit)
    decreases |s|
  {
    ScanGoesOn(s, limit);
    StretchGoesOn(s, limit);
    if LineEnd(s) < limit {
      if After(s) == "" { ShortHasNone("", limit); } else { TooLongIff(After(s), limit); }
    }
  }
}
