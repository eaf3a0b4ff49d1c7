/** The event stream parser: a loop over scanned lines that carries the
    current event type and the data collected so far. */
module SseParser {
  import opened Basics
  import opened SseLines

  /** The code points strings.TrimSpace removes. */
  predicate IsSpace(c: char) {
    '\t' <= c <= '\r' || c == ' ' || c == '\U{85}' || c == '\U{A0}' || c == '\U{1680}'
    || '\U{2000}' <= c <= '\U{200A}' || c == '\U{2028}' || c == '\U{2029}' || c == '\U{202F}'
    || c == '\U{205F}' || c == '\U{3000}'
  }

  function TrimLeft(s: string): string {
    if s != "" && IsSpace(s[0]) then TrimLeft(s[1..]) else s
  }

  function TrimRight(s: string): string {
    if s != "" && IsSpace(s[|s| - 1]) then TrimRight(s[..|s| - 1]) else s
  }

  function TrimSpace(s: string): string { TrimRight(TrimLeft(s)) }

  /** strings.TrimPrefix(s, " "). */
  function StripOneSpace(s: string): string {
    if s != "" && s[0] == ' ' then s[1..] else s
  }

  const EVENT: string := "event:"
  const DATA: string := "data:"

  predicate IsEventLine(line: string) { EVENT <= line }

  predicate IsDataLine(line: string) { DATA <= line }

  function EventOf(line: string): string
    requires IsEventLine(line)
  {
    TrimSpace(line[|EVENT|..])
  }

  function ValueOf(line: string): string
    requires IsDataLine(line)
  {
    StripOneSpace(line[|DATA|..])
  }

  /** The loop's variables, and the payloads handed over so far. */
  datatype Parser = Parser(event: string, data: string, out: seq<string>)

  const START: Parser := Parser("message", "", [])

  predicate Pending(p: Parser) { p.event == "message" && p.data != "" }

  function Flush(p: Parser): Parser {
    Parser("message", "", if Pending(p) then p.out + [p.data] else p.out)
  }

  function AppendData(data: string, d: string): string {
    if data != "" then data + "\n" + d else d
  }

  function Feed(p: Parser, line: string): Parser {
    if line == "" then Flush(p)
    else if IsEventLine(line) then p.(event := EventOf(line))
    else if IsDataLine(line) then p.(data := AppendData(p.data, ValueOf(line)))
    else p
  }

  function FeedAll(p: Parser, lines: seq<string>): Parser
    decreases |lines|
  {
    if lines == [] then p else FeedAll(Feed(p, lines[0]), lines[1..])
  }

  lemma FeedNext(p: Parser, line: string, ahead: seq<string>)
    ensures FeedAll(p, [line] + ahead) == FeedAll(Feed(p, line), ahead)
  {
    assert ([line] + ahead)[1..] == ahead;
  }

  /** What parsing a whole stream hands over. */
  function Parse(s: string): seq<string> { FeedAll(START, GoLines(s)).out }

  /** bufio.Scanner, reduced to the text not yet scanned. */
  class Scanner {
    var rest: string
    const limit: nat
    var text: string
    var tooLong: bool

    constructor (stream: string, limit: nat)
      ensures rest == stream && this.limit == limit && !tooLong
    {
      rest, this.limit, text, tooLong := stream, limit, "", false;
    }

    /** Advance to the next line; false at the end or at a line that does not fit. */
    method Scan() returns (ok: bool)
      requires !tooLong
      modifies this
      ensures ok <==> ScanLines(old(rest), limit).lines != []
      ensures ok ==> !tooLong && |rest| < |old(rest)|
                     && ScanLines(old(rest), limit).lines == [text] + ScanLines(rest, limit).lines
                     && ScanLines(old(rest), limit).tooLong == ScanLines(rest, limit).tooLong
      ensures !ok ==> tooLong == ScanLines(old(rest), limit).tooLong
    {
      if rest == "" { return false; }
      if LineEnd(rest) >= limit {
        tooLong := true;
        return false;
      }
      text, rest := DropCr(Line(rest)), After(rest);
      return true;
    }
  }

  /** The body of the parse loop: flush at a blank line, else look at the field. */
  method HandleLine(line: string, event0: string, data0: string, dispatched0: seq<string>)
    returns (event: string, data: string, dispatched: seq<string>)
    ensures Parser(event, data, dispatched) == Feed(Parser(event0, data0, dispatched0), line)
  {
    event, data, dispatched := event0, data0, dispatched0;
    if line == "" {
      if event == "message" && data != "" {
        dispatched := dispatched + [data];
      }
      event, data := "message", "";
    } else if EVENT <= line {
      event := TrimSpace(line[|EVENT|..]);
    } else if DATA <= line {
      var d := StripOneSpace(line[|DATA|..]);
      if data != "" {
        data := data + "\n";
      }
      data := data + d;
    }
  }

  /** parseStream: hand over each message event's data at its blank line. */
  method ParseStream(stream: string, limit: nat) returns (dispatched: seq<string>, tooLong: bool)
    ensures dispatched == FeedAll(START, ScanLines(stream, limit).lines).out
    ensures tooLong == ScanLines(stream, limit).tooLong
  {
    var scanner := new Scanner(stream, limit);
    var event, data := "message", "";
    dispatched := [];
    ghost var all := ScanLines(stream, limit);
    ghost var goal := FeedAll(START, all.lines);
    ghost var ahead := all.lines;
    var more := scanner.Scan();
    while more
      invariant scanner.limit == limit && (more ==> !scanner.tooLong)
      invariant FeedAll(Parser(event, data, dispatched), ahead) == goal
      invariant if more then ahead == [scanner.text] + ScanLines(scanner.rest, limit).lines else ahead == []
      invariant (if more then ScanLines(scanner.rest, limit).tooLong else scanner.tooLong) == all.tooLong
      decreases if more then 1 + |scanner.rest| else 0
    {
      ahead := ScanLines(scanner.rest, limit).lines;
      FeedNext(Parser(event, data, dispatched), scanner.text, ahead);
      event, data, dispatched := HandleLine(scanner.text, event, data, dispatched);
      more := scanner.Scan();
    }
    tooLong := scanner.tooLong;
  }

  // ----- composition -----

  lemma {:induction false} FeedAllConcat(p: Parser, a: seq<string>, b: seq<string>)
    ensures FeedAll(p, a + b) == FeedAll(FeedAll(p, a), b)
    decreases |a|
  {
    if a == [] {
      assert a + b == b;
    } else {
      assert (a + b)[1..] == a[1..] + b;
      FeedAllConcat(Feed(p, a[0]), a[1..], b);
    }
  }

  /** The same parser with `out` in front of what it has handed over. */
  function Behind(out: seq<string>, p: Parser): Parser { Parser(p.event, p.data, out + p.out) }

  lemma FeedFrame(out: seq<string>, p: Parser, line: string)
    ensures Feed(Behind(out, p), line) == Behind(out, Feed(p, line))
  {
    if line == "" && Pending(p) { Regroup(out, p.out, [p.data]); }
  }

  /** What has been handed over stays, and does not influence what follows. */
  lemma {:induction false} FeedAllFrame(out: seq<string>, p: Parser, lines: seq<string>)
    ensures FeedAll(Behind(out, p), lines) == Behind(out, FeedAll(p, lines))
    decreases |lines|
  {
    if lines == [] {
    } else {
      FeedFrame(out, p, lines[0]);
      FeedAllFrame(out, Feed(p, lines[0]), lines[1..]);
    }
  }

  lemma ParsePrefix(p: Parser, a: seq<string>, b: seq<string>)
    ensures FeedAll(p, a).out <= FeedAll(p, a + b).out
  {
    FeedAllConcat(p, a, b);
    var q := FeedAll(p, a);
    FeedAllFrame(q.out, q.(out := []), b);
    assert Behind(q.out, q.(out := [])) == q;
  }

  lemma AfterBlank(p: Parser, lines: seq<string>)
    requires lines != [] && lines[|lines| - 1] == ""
    ensures FeedAll(p, lines) == Parser("message", "", FeedAll(p, lines).out)
  {
    var n := |lines| - 1;
    assert lines == lines[..n] + [""];
    FeedAllConcat(p, lines[..n], [""]);
    assert FeedAll(FeedAll(p, lines[..n]), [""]) == Feed(FeedAll(p, lines[..n]), "");
  }

  /** Composition: a stream cut just after a blank line parses as its parts. */
  lemma ParseComposes(u: string, v: string)
    requires WholeLines(u)
    requires GoLines(u) != [] ==> GoLines(u)[|GoLines(u)| - 1] == ""
    ensures Parse(u + v) == Parse(u) + Parse(v)
  {
    GoLinesConcat(u, v);
    FeedAllConcat(START, GoLines(u), GoLines(v));
    if GoLines(u) != [] { AfterBlank(START, GoLines(u)); }
    FeedAllFrame(Parse(u), START, GoLines(v));
    assert Behind(Parse(u), START) == Parser("message", "", Parse(u));
  }

  /** A line that neither ends an event nor is an `event:` or `data:` line:
      comments, `id:`, `retry:`, and fields without a colon. */
  predicate Ignorable(l: string) {
    '\n' !in l && DropCr(l) != "" && !IsEventLine(DropCr(l)) && !IsDataLine(DropCr(l))
  }

  lemma IgnoredLineFeeds(p: Parser, a: seq<string>, l: string, b: seq<string>)
    requires l != "" && !IsEventLine(l) && !IsDataLine(l)
    ensures FeedAll(p, a + [l] + b) == FeedAll(p, a + b)
  {
    FeedAllConcat(p, a + [l], b);
    FeedAllConcat(p, a, [l]);
    FeedAllConcat(p, a, b);
    assert FeedAll(FeedAll(p, a), [l]) == Feed(FeedAll(p, a), l);
  }

  /** Inserting such a line between lines changes nothing. */
  lemma IgnoredLine(u: string, l: string, v: string)
    requires WholeLines(u) && Ignorable(l)
    ensures Parse(u + (l + "\n") + v) == Parse(u + v)
  {
    OneLine(l);
    GoLinesConcat(u, l + "\n");
    GoLinesConcat(u + (l + "\n"), v);
    GoLinesConcat(u, v);
    IgnoredLineFeeds(START, GoLines(u), DropCr(l), GoLines(v));
  }

  // ----- stopping early -----

  /** Stopping at an over-long line hands over a prefix of what the whole stream would. */
  lemma StopAtLongLine(s: string, limit: nat)
    ensures FeedAll(START, ScanLines(s, limit).lines).out <= Parse(s)
    ensures !ScanLines(s, limit).tooLong ==> FeedAll(START, ScanLines(s, limit).lines).out == Parse(s)
  {
    ScanIsPrefix(s, limit);
    var a, b := ScanLines(s, limit).lines, GoLines(s);
    ParsePrefix(START, a, b[|a|..]);
    assert b == a + b[|a|..];
  }

  /** The stream breaks off right after a CR that began a line. */
  predicate DanglingCr(x: string) { Tail(x) == "\r" }

  /** A payload is waiting for its blank line at the end of the whole lines of x. */
  predicate WaitingIn(x: string) {
    Pending(FeedAll(START, GoLines(Head(x))))
  }

  lemma NonblankKeepsOut(p: Parser, line: string)
    requires line != ""
    ensures FeedAll(p, [line]).out == p.out
  {
    assert FeedAll(p, [line]) == FeedAll(Feed(p, line), []);
  }

  lemma BlankFlushes(p: Parser)
    ensures FeedAll(p, [""]) == Flush(p)
  {
    assert FeedAll(p, [""]) == FeedAll(Feed(p, ""), []);
  }

  /** The unterminated rest of a stream only matters when it is a lone CR. */
  lemma TailEffect(u: string, t: string)
    requires WholeLines(u) && '\n' !in t
    ensures var p := FeedAll(START, GoLines(u));
            Parse(u + t) == if t == "\r" && Pending(p) then p.out + [p.data] else p.out
  {
    GoLinesConcat(u, t);
    FeedAllConcat(START, GoLines(u), GoLines(t));
    var p := FeedAll(START, GoLines(u));
    if t != "" {
      OneLine(t);
      if t == "\r" { BlankFlushes(p); } else { NonblankKeepsOut(p, DropCr(t)); }
    }
  }

  lemma WholeLinesStay(u: string, v: string)
    requires WholeLines(u)
    ensures FeedAll(START, GoLines(u)).out <= Parse(u + v)
  {
    GoLinesConcat(u, v);
    ParsePrefix(START, GoLines(u), GoLines(v));
  }

  lemma HarmlessTail(u: string, t: string, y: string)
    requires WholeLines(u) && '\n' !in t
    requires !(t == "\r" && Pending(FeedAll(START, GoLines(u))))
    ensures Parse(u + t) <= Parse((u + t) + y)
  {
    TailEffect(u, t);
    WholeLinesStay(u, t + y);
    Regroup(u, t, y);
  }

  lemma HarmlessEnd(x: string, y: string)
    requires !(DanglingCr(x) && WaitingIn(x))
    ensures Parse(x) <= Parse(x + y)
  {
    HeadTail(x);
    HarmlessTail(Head(x), Tail(x), y);
  }

  lemma HarmfulTail(u: string)
    requires WholeLines(u) && Pending(FeedAll(START, GoLines(u)))
    ensures |Parse((u + "\r") + "x")| < |Parse(u + "\r")|
  {
    TailEffect(u, "\r");
    TailEffect(u, "\r" + "x");
    Regroup(u, "\r", "x");
  }

  lemma HarmfulEnd(x: string)
    requires DanglingCr(x) && WaitingIn(x)
    ensures |Parse(x + "x")| < |Parse(x)|
  {
    HeadTail(x);
    HarmfulTail(Head(x));
  }

  /** End of input is harmless exactly when it does not fall right after a CR
      that began a line while a payload was waiting: then, and only then, what
      has been handed over is a prefix of what every continuation hands over. */
  lemma TruncationIff(x: string)
    ensures (forall y: string :: Parse(x) <= Parse(x + y)) <==> !(DanglingCr(x) && WaitingIn(x))
  {
    if DanglingCr(x) && WaitingIn(x) {
      HarmfulEnd(x);
    } else {
      forall y: string ensures Parse(x) <= Parse(x + y) { HarmlessEnd(x, y); }
    }
  }

  /** Streams that break off badly: one `data:` line and then a CR. Cut after
      the CR, the half-built event is handed over; with one more byte it is not. */
  lemma TruncationExample(l: string)
    requires CleanLine(l) && IsDataLine(l) && ValueOf(l) != ""
    ensures Parse(l + "\n" + "\r") == [ValueOf(l)]
    ensures Parse(l + "\n" + ['\r', 'x']) == []
  {
    OneLine(l);
    var p := Parser("message", ValueOf(l), []);
    assert !(EVENT <= l) by { assert l[0] == DATA[0] && EVENT[0] != DATA[0]; }
    assert FeedAll(START, [l]) == Feed(START, l) == p;
    TailEffect(l + "\n", "\r");
    TailEffect(l + "\n", ['\r', 'x']);
  }
}
