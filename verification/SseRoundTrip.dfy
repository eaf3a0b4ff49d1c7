/** Printing payloads the way smee.io does and parsing them back. */
module SseRoundTrip {
  import opened Basics
  import opened SseLines
  import opened SseParser

  datatype Item = Comment(text: string) | Message(id: string, payload: string)

  /** The lines of a payload; there is always at least one. */
  function Pieces(p: string): (ls: seq<string>)
    ensures ls != [] && forall i | 0 <= i < |ls| :: '\n' !in ls[i]
    decreases |p|
  {
    var n := LineEnd(p);
    if n == |p| then [p] else [p[..n]] + Pieces(p[n + 1..])
  }

  function DataLines(ls: seq<string>): seq<string> {
    if ls == [] then [] else [DATA + " " + ls[0]] + DataLines(ls[1..])
  }

  function Print(item: Item): seq<string> {
    match item
    case Comment(text) => [":" + text]
    case Message(id, payload) => ["id: " + id] + DataLines(Pieces(payload)) + [""]
  }

  function PrintAll(items: seq<Item>): seq<string> {
    if items == [] then [] else Print(items[0]) + PrintAll(items[1..])
  }

  /** A payload without its leading line feeds. */
  function StripNewlines(p: string): string {
    if p != "" && p[0] == '\n' then StripNewlines(p[1..]) else p
  }

  /** What is handed over for the items: each payload, without its leading line
      feeds, unless nothing is left of it. */
  function Expected(items: seq<Item>): seq<string> {
    if items == [] then []
    else
      (if items[0].Message? && StripNewlines(items[0].payload) != "" then [StripNewlines(items[0].payload)] else [])
      + Expected(items[1..])
  }

  lemma JoinPieces(p: string, line: string)
    requires line == DATA + " " + p
    ensures IsDataLine(line) && ValueOf(line) == p && line != "" && !IsEventLine(line)
  {
    assert line[|DATA|..] == " " + p;
    assert (" " + p)[1..] == p;
    assert line[..|DATA|] == DATA;
    assert line[0] == DATA[0] && EVENT[0] != DATA[0];
  }

  /** What is collected once a whole payload has been fed. */
  function Collected(data: string, payload: string): string {
    if data == "" then StripNewlines(payload) else data + "\n" + payload
  }

  lemma CollectLast(data: string, piece: string)
    requires '\n' !in piece
    ensures AppendData(data, piece) == Collected(data, piece)
  {
  }

  lemma CollectFirst(data: string, piece: string, rest: string)
    requires '\n' !in piece
    ensures Collected(AppendData(data, piece), rest) == Collected(data, piece + "\n" + rest)
  {
    var payload := piece + "\n" + rest;
    if data != "" {
      Regroup(data + "\n", piece, "\n");
      Regroup(data + "\n", piece + "\n", rest);
    } else if piece == "" {
      assert payload[0] == '\n' && payload[1..] == rest;
    } else {
      assert payload[0] == piece[0];
    }
  }

  lemma FeedPiece(p: Parser, piece: string, more: seq<string>)
    ensures FeedAll(p, [DATA + " " + piece] + more) == FeedAll(p.(data := AppendData(p.data, piece)), more)
  {
    var line := DATA + " " + piece;
    JoinPieces(piece, line);
    FeedNext(p, line, more);
  }

  lemma PiecesSplit(payload: string) returns (piece: string, rest: string)
    requires '\n' in payload
    ensures '\n' !in piece && payload == piece + "\n" + rest && |rest| < |payload|
    ensures DataLines(Pieces(payload)) == [DATA + " " + piece] + DataLines(Pieces(rest))
  {
    var n := LineEnd(payload);
    piece, rest := payload[..n], payload[n + 1..];
    assert payload == piece + [payload[n]] + rest;
    assert ([piece] + Pieces(rest))[1..] == Pieces(rest);
  }

  /** The data lines of a payload rebuild it, behind what has been collected. */
  lemma {:induction false} FeedPieces(p: Parser, payload: string)
    ensures FeedAll(p, DataLines(Pieces(payload))) == p.(data := Collected(p.data, payload))
    decreases |payload|
  {
    if '\n' in payload {
      var piece, rest := PiecesSplit(payload);
      FeedPiece(p, piece, DataLines(Pieces(rest)));
      FeedPieces(p.(data := AppendData(p.data, piece)), rest);
      CollectFirst(p.data, piece, rest);
    } else {
      assert LineEnd(payload) == |payload|;
      FeedPiece(p, payload, []);
      CollectLast(p.data, payload);
      assert DataLines(Pieces(payload)) == [DATA + " " + payload] + [];
    }
  }

  lemma IdLine(p: Parser, id: string)
    ensures Feed(p, "id: " + id) == p
  {
    var line := "id: " + id;
    assert line[0] == 'i' && EVENT[0] == 'e' && DATA[0] == 'd';
  }

  lemma CommentLine(p: Parser, text: string)
    ensures Feed(p, ":" + text) == p
  {
    var line := ":" + text;
    assert line[0] == ':' && EVENT[0] == 'e' && DATA[0] == 'd';
  }

  /** One item, fed to a parser between events. */
  lemma FeedItem(out: seq<string>, item: Item)
    ensures FeedAll(Parser("message", "", out), Print(item)) == Parser("message", "", out + Expected([item]))
  {
    var p := Parser("message", "", out);
    match item {
      case Comment(text) =>
        CommentLine(p, text);
        FeedNext(p, ":" + text, []);
        assert [":" + text] + [] == Print(item);
      case Message(id, payload) =>
        var lines := DataLines(Pieces(payload));
        IdLine(p, id);
        FeedNext(p, "id: " + id, lines + [""]);
        assert ["id: " + id] + (lines + [""]) == Print(item);
        FeedAllConcat(p, lines, [""]);
        FeedPieces(p, payload);
        assert FeedAll(p, lines) == p.(data := StripNewlines(payload));
        FeedNext(p.(data := StripNewlines(payload)), "", []);
        assert [""] + [] == [""];
    }
    assert Expected([item]) == if item.Message? && StripNewlines(item.payload) != ""
                               then [StripNewlines(item.payload)] else [] by {
      assert [item][1..] == [];
    }
  }

  lemma ExpectedCons(items: seq<Item>)
    requires items != []
    ensures Expected(items) == Expected([items[0]]) + Expected(items[1..])
  {
    assert [items[0]][1..] == [];
  }

  lemma {:induction false} FeedItems(out: seq<string>, items: seq<Item>)
    ensures FeedAll(Parser("message", "", out), PrintAll(items)) == Parser("message", "", out + Expected(items))
    decreases |items|
  {
    if items == [] {
    } else {
      var now := Expected([items[0]]);
      FeedItem(out, items[0]);
      FeedAllConcat(Parser("message", "", out), Print(items[0]), PrintAll(items[1..]));
      FeedItems(out + now, items[1..]);
      ExpectedCons(items);
      Regroup(out, now, Expected(items[1..]));
    }
  }

  /** Text fit for printing: no CR in a payload, and one line each for ids and comments. */
  predicate Printable(item: Item) {
    match item
    case Comment(text) => CleanLine(text)
    case Message(id, payload) => CleanLine(id) && '\r' !in payload
  }

  /** Any payload without CR, and any id or comment on one line that does not end in CR. */
  lemma PrintableIff(item: Item)
    ensures Printable(item) <==>
              match item
              case Comment(t) => '\n' !in t && (t == "" || t[|t| - 1] != '\r')
              case Message(id, p) => '\n' !in id && (id == "" || id[|id| - 1] != '\r') && '\r' !in p
  {
    assert forall t: string :: t != "" && t[|t| - 1] == '\r' ==> |DropCr(t)| < |t|;
  }

  lemma {:induction false} PiecesKeepChars(p: string, c: char)
    requires c !in p
    ensures forall i | 0 <= i < |Pieces(p)| :: c !in Pieces(p)[i]
    decreases |p|
  {
    var n := LineEnd(p);
    if n < |p| { PiecesKeepChars(p[n + 1..], c); }
  }

  lemma {:induction false} DataLinesClean(ls: seq<string>)
    requires forall i | 0 <= i < |ls| :: '\n' !in ls[i] && '\r' !in ls[i]
    ensures forall i | 0 <= i < |DataLines(ls)| :: CleanLine(DataLines(ls)[i])
  {
    if ls == [] {
    } else {
      DataLinesClean(ls[1..]);
      PrefixedClean(DATA + " ", ls[0]);
    }
  }

  lemma PrefixedClean(prefix: string, text: string)
    requires CleanLine(text) && prefix != "" && '\n' !in prefix && prefix[|prefix| - 1] != '\r'
    ensures CleanLine(prefix + text)
  {
  }

  lemma {:induction false} PrintedClean(items: seq<Item>)
    requires forall i | 0 <= i < |items| :: Printable(items[i])
    ensures forall i | 0 <= i < |PrintAll(items)| :: CleanLine(PrintAll(items)[i])
  {
    if items == [] {
    } else {
      PrintedClean(items[1..]);
      match items[0]
      case Comment(text) => PrefixedClean(":", text);
      case Message(id, payload) =>
        PrefixedClean("id: ", id);
        PiecesKeepChars(payload, '\r');
        DataLinesClean(Pieces(payload));
    }
  }

  /** Round trip: parsing what was printed hands over the payloads in order,
      each without its leading line feeds, and nothing for payloads that are
      empty or all line feeds, provided every line fits the scanner's buffer. */
  lemma RoundTrip(items: seq<Item>, limit: nat)
    requires forall i | 0 <= i < |items| :: Printable(items[i])
    requires forall i | 0 <= i < |PrintAll(items)| :: |PrintAll(items)[i]| < limit
    ensures var s := ScanLines(Unlines(PrintAll(items)), limit);
            !s.tooLong && FeedAll(START, s.lines).out == Expected(items)
  {
    PrintedClean(items);
    ScanUnlines(PrintAll(items), limit);
    FeedItems([], items);
    assert [] + Expected(items) == Expected(items);
  }

  function Payloads(items: seq<Item>): seq<string> {
    if items == [] then []
    else (if items[0].Message? then [items[0].payload] else []) + Payloads(items[1..])
  }

  /** A payload that comes back as it went in. */
  predicate Survives(item: Item) {
    item.Message? ==> item.payload != "" && item.payload[0] != '\n'
  }

  /** The payloads come back unchanged exactly when none of them is empty or
      starts with a line feed. */
  lemma {:induction false} ExpectedUnchangedIff(items: seq<Item>)
    ensures |Expected(items)| <= |Payloads(items)|
    ensures Expected(items) == Payloads(items) <==> forall i | 0 <= i < |items| :: Survives(items[i])
  {
    if items == [] {
    } else {
      var head, tail := items[0], items[1..];
      ExpectedUnchangedIff(tail);
      if head.Message? {
        StripShortens(head.payload);
        if StripNewlines(head.payload) != "" {
          assert Expected(items)[1..] == Expected(tail) && Payloads(items)[1..] == Payloads(tail);
          assert Expected(items)[0] == StripNewlines(head.payload) && Payloads(items)[0] == head.payload;
        }
      } else {
        assert Expected(items) == Expected(tail) && Payloads(items) == Payloads(tail);
      }
      assert (forall i | 0 <= i < |items| :: Survives(items[i]))
        <==> Survives(head) && forall i | 0 <= i < |tail| :: Survives(tail[i]);
    }
  }

  lemma {:induction false} StripShortens(p: string)
    ensures |StripNewlines(p)| <= |p|
    ensures StripNewlines(p) == p <==> (p == "" || p[0] != '\n')
  {
    if p != "" && p[0] == '\n' { StripShortens(p[1..]); }
  }
}
