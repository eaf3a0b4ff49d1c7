/** The parser against the event stream interpretation of section 9.2.6 of the
    WHATWG HTML Living Standard, stated block by block. */
module SseStandard {
  import opened Basics
  import opened SseLines
  import opened SseParser

  // ----- the standard -----

  /** Index of the first colon, or the length of the line. */
  function ColonAt(l: string): (n: nat)
    ensures n <= |l| && (n < |l| ==> l[n] == ':')
    ensures forall i | 0 <= i < n :: l[i] != ':'
  {
    if l == "" || l[0] == ':' then 0 else 1 + ColonAt(l[1..])
  }

  /** A field line: the name is what precedes the first colon, the value what
      follows it, less one leading space. Comments have an empty name. */
  function NameOf(l: string): string { l[..ColonAt(l)] }

  function FieldValue(l: string): string {
    if ColonAt(l) == |l| then "" else StripOneSpace(l[ColonAt(l) + 1..])
  }

  function DropLast<T>(s: seq<T>): seq<T>
    requires s != []
  {
    s[..|s| - 1]
  }

  /** The data buffer: every data value followed by a line feed. */
  function DataBuffer(block: seq<string>): string {
    if block == [] then ""
    else (if NameOf(block[0]) == "data" then FieldValue(block[0]) + "\n" else "") + DataBuffer(block[1..])
  }

  /** The event type buffer: the value of the last event field. */
  function EventType(block: seq<string>): string {
    if block == [] then ""
    else
      var l := block[|block| - 1];
      if NameOf(l) == "event" then FieldValue(l) else EventType(DropLast(block))
  }

  /** Dispatch at the blank line: nothing when the data buffer is empty, else the
      buffer without its final line feed. We only follow message events. */
  function StandardMessage(block: seq<string>): Option<string> {
    var buffer := DataBuffer(block);
    var kind := EventType(block);
    if buffer != "" && (kind == "" || kind == "message") then Some(DropLast(buffer)) else None
  }

  /** The blocks that a blank line completes; `cur` is the one being read. */
  function Blocks(cur: seq<string>, lines: seq<string>): seq<seq<string>>
    decreases |lines|
  {
    if lines == [] then []
    else if lines[0] == "" then [cur] + Blocks([], lines[1..])
    else Blocks(cur + [lines[0]], lines[1..])
  }

  // ----- the program, block by block -----

  function CodeMessage(block: seq<string>): Option<string> {
    var p := FeedAll(START, block);
    if Pending(p) then Some(p.data) else None
  }

  function Somes(xs: seq<Option<string>>): seq<string> {
    if xs == [] then [] else (if xs[0].Some? then [xs[0].value] else []) + Somes(xs[1..])
  }

  function CodeMessages(bs: seq<seq<string>>): seq<Option<string>> {
    seq(|bs|, i requires 0 <= i < |bs| => CodeMessage(bs[i]))
  }

  function StandardMessages(bs: seq<seq<string>>): seq<Option<string>> {
    seq(|bs|, i requires 0 <= i < |bs| => StandardMessage(bs[i]))
  }

  ghost predicate NoBlanks(block: seq<string>) { forall i | 0 <= i < |block| :: block[i] != "" }

  lemma {:induction false} NoBlanksNoOutput(p: Parser, block: seq<string>)
    requires NoBlanks(block)
    ensures FeedAll(p, block).out == p.out
    decreases |block|
  {
    if block == [] {
    } else {
      NoBlanksNoOutput(Feed(p, block[0]), block[1..]);
    }
  }

  /** Feeding lines hands over exactly the decisions on completed blocks, in
      order; a block that no blank line completes yields nothing. */
  lemma {:induction false} LoopIsBlockwise(out: seq<string>, cur: seq<string>, lines: seq<string>)
    requires NoBlanks(cur)
    ensures FeedAll(FeedAll(Parser("message", "", out), cur), lines).out
         == out + Somes(CodeMessages(Blocks(cur, lines)))
    decreases |lines|
  {
    var start := Parser("message", "", out);
    var p := FeedAll(start, cur);
    FeedAllFrame(out, START, cur);
    assert Behind(out, START) == start;
    NoBlanksNoOutput(START, cur);
    assert p == Behind(out, FeedAll(START, cur)) && p.out == out;
    if lines == [] {
      assert p.out == out;
      assert out + Somes(CodeMessages(Blocks(cur, lines))) == out;
    } else if lines[0] == "" {
      var rest := Blocks([], lines[1..]);
      var bs := Blocks(cur, lines);
      assert bs == [cur] + rest;
      assert CodeMessages(bs)[1..] == CodeMessages(rest);
      var now := if CodeMessage(cur).Some? then [CodeMessage(cur).value] else [];
      LoopIsBlockwise(out + now, [], lines[1..]);
      assert Feed(p, "") == Parser("message", "", out + now);
      Regroup(out, now, Somes(CodeMessages(rest)));
    } else {
      LoopIsBlockwise(out, cur + [lines[0]], lines[1..]);
      FeedAllConcat(start, cur, [lines[0]]);
      assert FeedAll(p, [lines[0]]) == Feed(p, lines[0]);
    }
  }

  /** Only complete blocks are handed over, each one whole. */
  lemma ParseIsBlockwise(s: string)
    ensures Parse(s) == Somes(CodeMessages(Blocks([], GoLines(s))))
  {
    LoopIsBlockwise([], [], GoLines(s));
    var messages := Somes(CodeMessages(Blocks([], GoLines(s))));
    assert [] + messages == messages;
  }

  // ----- where the two agree -----

  /** The colonless line `data`, which the standard reads as a data field. */
  predicate BareData(l: string) { l == "data" }

  lemma DataFields(l: string)
    ensures NameOf(l) == "data" <==> IsDataLine(l) || BareData(l)
    ensures IsDataLine(l) ==> FieldValue(l) == ValueOf(l) && !BareData(l) && !IsEventLine(l)
    ensures BareData(l) ==> FieldValue(l) == ""
  {
    if IsDataLine(l) {
      assert l[..4] == DATA[..4] == "data" && l[4] == DATA[4] == ':';
      assert forall i | 0 <= i < 4 :: DATA[i] != ':' && l[i] == DATA[i];
      assert ColonAt(l) == 4;
      assert l[0] == 'd' && EVENT[0] == 'e';
    }
    if NameOf(l) == "data" {
      assert ColonAt(l) == 4;
      if |l| > 4 { assert l[..5] == l[..4] + [l[4]] == DATA; } else { assert l == l[..4]; }
    }
  }

  lemma EventFields(l: string)
    ensures NameOf(l) == "event" <==> IsEventLine(l) || l == "event"
    ensures IsEventLine(l) ==> FieldValue(l) == StripOneSpace(l[|EVENT|..])
  {
    if IsEventLine(l) {
      assert l[..5] == EVENT[..5] == "event" && l[5] == EVENT[5] == ':';
      assert forall i | 0 <= i < 5 :: EVENT[i] != ':' && l[i] == EVENT[i];
      assert ColonAt(l) == 5;
    }
    if NameOf(l) == "event" {
      assert ColonAt(l) == 5;
      if |l| > 5 { assert l[..6] == l[..5] + [l[5]] == EVENT; } else { assert l == l[..5]; }
    }
  }

  /** The program's view of the block's type: the last `event:` line, trimmed. */
  function CodeType(block: seq<string>): string {
    if block == [] then "message"
    else
      var l := block[|block| - 1];
      if IsEventLine(l) then EventOf(l) else CodeType(DropLast(block))
  }

  predicate StandardSaysMessage(block: seq<string>) {
    EventType(block) == "" || EventType(block) == "message"
  }

  predicate CodeSaysMessage(block: seq<string>) { CodeType(block) == "message" }

  /** The program's collected data. */
  function CodeData(data: string, block: seq<string>): string
    decreases |block|
  {
    if block == [] then data
    else CodeData(if IsDataLine(block[0]) then AppendData(data, ValueOf(block[0])) else data, block[1..])
  }

  lemma {:induction false} BlockData(p: Parser, block: seq<string>)
    requires NoBlanks(block)
    ensures FeedAll(p, block).data == CodeData(p.data, block)
    decreases |block|
  {
    if block == [] {
    } else {
      DataFields(block[0]);
      BlockData(Feed(p, block[0]), block[1..]);
    }
  }

  lemma {:induction false} BlockType(block: seq<string>)
    requires NoBlanks(block)
    ensures FeedAll(START, block).event == CodeType(block)
  {
    if block == [] {
    } else {
      var n := |block| - 1;
      BlockType(block[..n]);
      assert block == block[..n] + [block[n]];
      FeedAllConcat(START, block[..n], [block[n]]);
      var p := FeedAll(START, block[..n]);
      assert FeedAll(p, [block[n]]) == Feed(p, block[n]);
    }
  }

  predicate HasData(block: seq<string>) {
    block != [] && (IsDataLine(block[0]) || BareData(block[0]) || HasData(block[1..]))
  }

  predicate HasBareData(block: seq<string>) {
    block != [] && (BareData(block[0]) || HasBareData(block[1..]))
  }

  predicate HasNonemptyData(block: seq<string>) {
    block != [] && ((IsDataLine(block[0]) && ValueOf(block[0]) != "") || HasNonemptyData(block[1..]))
  }

  /** The block's first data field is an `data:` line with a value, and no data
      field lacks its colon. */
  predicate PlainData(block: seq<string>) {
    && !HasBareData(block)
    && FirstDataNonempty(block)
  }

  predicate FirstDataNonempty(block: seq<string>) {
    block != [] && if IsDataLine(block[0]) then ValueOf(block[0]) != "" else FirstDataNonempty(block[1..])
  }

  lemma JoinedData(data: string, v: string, rest: string, nl: string)
    ensures (data + nl + v) + nl + rest == data + nl + (v + nl + rest)
  {
  }

  /** With data already collected, every further data line is kept as the
      standard keeps it; a colonless one is lost. */
  lemma {:induction false} FurtherData(data: string, block: seq<string>)
    requires data != ""
    ensures |data| <= |CodeData(data, block)|
    ensures |CodeData(data, block)| + 1 <= |data| + 1 + |DataBuffer(block)|
    ensures if HasBareData(block) then |CodeData(data, block)| + 1 < |data| + 1 + |DataBuffer(block)|
            else CodeData(data, block) + "\n" == data + "\n" + DataBuffer(block)
    decreases |block|
  {
    if block == [] {
    } else {
      var l, rest := block[0], block[1..];
      DataFields(l);
      var data' := if IsDataLine(l) then AppendData(data, ValueOf(l)) else data;
      FurtherData(data', rest);
      if IsDataLine(l) { JoinedData(data, ValueOf(l), DataBuffer(rest), "\n"); }
    }
  }

  /** From the start of a block: plain data is collected exactly; otherwise, if
      anything is collected, it is shorter than the standard's buffer. */
  lemma {:induction false} FirstData(block: seq<string>)
    ensures CodeData("", block) != "" <==> HasNonemptyData(block)
    ensures DataBuffer(block) != "" <==> HasData(block)
    ensures if PlainData(block) then CodeData("", block) + "\n" == DataBuffer(block)
            else CodeData("", block) != "" ==> |CodeData("", block)| + 1 < |DataBuffer(block)|
    decreases |block|
  {
    if block == [] {
    } else {
      var l, rest := block[0], block[1..];
      DataFields(l);
      FirstData(rest);
      if IsDataLine(l) && ValueOf(l) != "" { FurtherData(ValueOf(l), rest); }
    }
  }

  /** The last event field of a block: an `event:` line, or the line `event`. */
  function LastEventField(block: seq<string>): Option<string> {
    if block == [] then None
    else
      var l := block[|block| - 1];
      if IsEventLine(l) || l == "event" then Some(l) else LastEventField(DropLast(block))
  }

  function LastEventLine(block: seq<string>): (r: Option<string>)
    ensures r.Some? ==> IsEventLine(r.value)
  {
    if block == [] then None
    else
      var l := block[|block| - 1];
      if IsEventLine(l) then Some(l) else LastEventLine(DropLast(block))
  }

  /** The value of an `event:` line as the standard reads it. */
  function EventValue(l: string): string
    requires IsEventLine(l)
  {
    StripOneSpace(l[|EVENT|..])
  }

  /** The text that makes the two read the same type: no event field; or a last
      one that is an `event:` line whose value is not empty and not a padded
      "message"; or a last one without colon, when no `event:` line before it
      names another type. */
  predicate PlainType(block: seq<string>) {
    match LastEventField(block)
    case None => true
    case Some(l) =>
      if IsEventLine(l) then EventValue(l) != "" && (EventOf(l) == "message" ==> EventValue(l) == "message")
      else LastEventLine(block).Some? ==> EventOf(LastEventLine(block).value) == "message"
  }

  /** The text that names another type than "message": a last event field that is
      an `event:` line with such a value; a padded "message" is one only where
      the program has no data to hand over. */
  predicate OtherType(block: seq<string>) {
    && LastEventField(block).Some?
    && var l := LastEventField(block).value;
       && IsEventLine(l) && EventValue(l) != "" && EventValue(l) != "message"
       && (EventOf(l) == "message" ==> !HasNonemptyData(block))
  }

  /** What a block must look like for the program to treat it as the standard
      does. Without data fields nothing is required. With plain data its type
      must be plain. With a first data field that is empty or any data field
      without a colon, it must name another type. */
  predicate Conforms(block: seq<string>) {
    !HasData(block) || (if PlainData(block) then PlainType(block) else OtherType(block))
  }

  /** Both types, read off the last event fields. */
  lemma {:induction false} TypesInText(block: seq<string>)
    ensures EventType(block) == (match LastEventField(block)
                                 case None => ""
                                 case Some(l) => if IsEventLine(l) then EventValue(l) else "")
    ensures CodeType(block) == (match LastEventLine(block) case None => "message" case Some(l) => EventOf(l))
    ensures LastEventField(block).Some? ==>
              var l := LastEventField(block).value;
              if IsEventLine(l) then LastEventLine(block) == Some(l) else l == "event"
    ensures LastEventField(block).None? ==> LastEventLine(block).None?
  {
    if block == [] {
    } else {
      EventFields(block[|block| - 1]);
      TypesInText(DropLast(block));
    }
  }

  /** The two agree about the type exactly when the text is plain. */
  lemma TypesAgreeIff(block: seq<string>)
    ensures StandardSaysMessage(block) == CodeSaysMessage(block) <==> PlainType(block)
  {
    TypesInText(block);
    var last := LastEventField(block);
    if last.Some? && IsEventLine(last.value) { TrimMessage(last.value[|EVENT|..]); }
  }

  lemma OtherTypeIff(block: seq<string>)
    ensures !StandardSaysMessage(block) && !(CodeSaysMessage(block) && HasNonemptyData(block)) <==> OtherType(block)
  {
    TypesInText(block);
  }

  /** Refinement, block by block: the program hands over what the standard
      dispatches exactly on the conforming blocks. */
  lemma BlockAgreesIff(block: seq<string>)
    requires NoBlanks(block)
    ensures CodeMessage(block) == StandardMessage(block) <==> Conforms(block)
  {
    BlockData(START, block);
    BlockType(block);
    FirstData(block);
    var buffer, data := DataBuffer(block), CodeData("", block);
    if PlainData(block) {
      assert DropLast(data + "\n") == data;
    } else if buffer != "" && data != "" {
      assert |DropLast(buffer)| != |data|;
    }
    PlainDataIsData(block);
    TypesAgreeIff(block);
    OtherTypeIff(block);
  }

  lemma {:induction false} PlainDataIsData(block: seq<string>)
    ensures FirstDataNonempty(block) ==> HasNonemptyData(block) && HasData(block)
  {
    if block == [] {
    } else {
      if IsDataLine(block[0]) {
      } else {
        PlainDataIsData(block[1..]);
      }
    }
  }

  lemma {:induction false} LastEventFieldIsThere(block: seq<string>) returns (i: nat)
    requires LastEventField(block).Some?
    ensures i < |block| && block[i] == LastEventField(block).value
  {
    i := |block| - 1;
    if !IsEventLine(block[i]) && block[i] != "event" { i := LastEventFieldIsThere(DropLast(block)); }
  }

  /** Sufficient in everyday terms: no field without its colon, a first data line
      that is not empty, and event values that are neither empty nor padded. */
  lemma OrdinaryBlockConforms(block: seq<string>)
    requires !HasBareData(block) && (HasData(block) ==> FirstDataNonempty(block))
    requires forall i | 0 <= i < |block| :: block[i] != "event"
    requires forall i | 0 <= i < |block| && IsEventLine(block[i]) ::
               EventValue(block[i]) != "" && (EventOf(block[i]) == "message" ==> EventValue(block[i]) == "message")
    ensures Conforms(block)
  {
    if LastEventField(block).Some? {
      TypesInText(block);
      var i := LastEventFieldIsThere(block);
    }
  }

  /** Where the program departs from the standard: an empty first data line is
      not kept as a line of the payload, and on its own makes no message. */
  lemma EmptyFirstLineDiffers(a: string, x: string)
    requires a == DATA && IsDataLine(x) && ValueOf(x) != ""
    ensures CodeMessage([a]) == None && StandardMessage([a]) == Some("")
    ensures CodeMessage([a, x]) == Some(ValueOf(x)) && StandardMessage([a, x]) == Some("\n" + ValueOf(x))
  {
    DataFields(a);
    DataFields(x);
    assert ValueOf(a) == "";
    OneLineBlock(a);
    TwoLineBlock(a, x);
    var v := ValueOf(x);
    assert DropLast("\n") == "" && DropLast("\n" + (v + "\n")) == "\n" + v;
  }

  /** And an empty event value is not taken for the default type. */
  lemma EmptyEventDiffers(b: string, x: string)
    requires b == EVENT && IsDataLine(x) && ValueOf(x) != ""
    ensures CodeMessage([b, x]) == None && StandardMessage([b, x]) == Some(ValueOf(x))
  {
    DataFields(b);
    DataFields(x);
    EventFields(b);
    EventFields(x);
    assert b[0] == 'e' && DATA[0] == 'd';
    assert EventOf(b) == "" && StripOneSpace(b[|EVENT|..]) == "";
    TwoLineBlock(b, x);
    var v := ValueOf(x);
    assert NameOf(b) == "event" && NameOf(x) == "data" && FieldValue(b) == "";
    assert DataBuffer([b, x]) == v + "\n" && DropLast(v + "\n") == v;
  }

  lemma OneLineBlock(a: string)
    ensures FeedAll(START, [a]) == Feed(START, a)
    ensures DataBuffer([a]) == if NameOf(a) == "data" then FieldValue(a) + "\n" else ""
    ensures EventType([a]) == if NameOf(a) == "event" then FieldValue(a) else ""
  {
    assert [a][1..] == [] && DropLast([a]) == [];
    assert FeedAll(START, [a]) == FeedAll(Feed(START, a), []);
  }

  lemma TwoLineBlock(a: string, b: string)
    ensures FeedAll(START, [a, b]) == Feed(Feed(START, a), b)
    ensures DataBuffer([a, b]) == (if NameOf(a) == "data" then FieldValue(a) + "\n" else "") + DataBuffer([b])
    ensures DataBuffer([b]) == if NameOf(b) == "data" then FieldValue(b) + "\n" else ""
    ensures EventType([a, b]) == if NameOf(b) == "event" then FieldValue(b) else EventType([a])
    ensures EventType([a]) == if NameOf(a) == "event" then FieldValue(a) else ""
  {
    OneLineBlock(a);
    OneLineBlock(b);
    assert [a, b][1..] == [b] && DropLast([a, b]) == [a];
    assert FeedAll(Feed(START, a), [b]) == FeedAll(Feed(Feed(START, a), b), []);
  }

  lemma TrimMessage(v: string)
    ensures StripOneSpace(v) == "message" ==> TrimSpace(v) == "message"
    ensures StripOneSpace(v) == "" ==> TrimSpace(v) == ""
  {
    if StripOneSpace(v) == "" {
      assert TrimLeft("") == "";
      assert v == "" || (v[0] == ' ' && v[1..] == "");
      assert TrimLeft(v) == "";
    }
    if StripOneSpace(v) == "message" {
      var m := "message";
      assert TrimLeft(m) == m && TrimRight(m) == m;
      assert TrimLeft(v) == m;
    }
  }

  lemma {:induction false} BlocksHaveNoBlanks(cur: seq<string>, lines: seq<string>)
    requires NoBlanks(cur)
    ensures forall b | b in Blocks(cur, lines) :: NoBlanks(b)
    decreases |lines|
  {
    if lines == [] {
    } else {
      if lines[0] == "" {
        BlocksHaveNoBlanks([], lines[1..]);
      } else {
        BlocksHaveNoBlanks(cur + [lines[0]], lines[1..]);
      }
    }
  }

  /** Refinement over whole streams: on the same lines, the program's decisions
      at the blank lines are the standard's exactly when every block conforms. */
  lemma DecisionsAgreeIff(lines: seq<string>)
    ensures var bs := Blocks([], lines);
            CodeMessages(bs) == StandardMessages(bs) <==> forall b | b in bs :: Conforms(b)
  {
    var bs := Blocks([], lines);
    BlocksHaveNoBlanks([], lines);
    forall b | b in bs ensures CodeMessage(b) == StandardMessage(b) <==> Conforms(b) {
      BlockAgreesIff(b);
    }
    if CodeMessages(bs) == StandardMessages(bs) {
      forall i | 0 <= i < |bs| ensures Conforms(bs[i]) {
        assert CodeMessages(bs)[i] == StandardMessages(bs)[i];
      }
    }
  }

  /** A stream without a leading BOM or a bare CR, all of whose blocks conform,
      hands over the messages the standard dispatches. */
  lemma StreamRefinesStandard(s: string)
    requires NoBareCr(s) && (s != "" ==> s[0] != BOM)
    requires forall b | b in Blocks([], StandardLines(s)) :: Conforms(b)
    ensures Parse(s) == Somes(StandardMessages(Blocks([], StandardLines(s))))
  {
    LinesAgreeIff(s);
    DecisionsAgreeIff(GoLines(s));
    ParseIsBlockwise(s);
  }
}
