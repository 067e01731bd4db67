/** The server-sent-event stream between sidecar and SDK: the server frames one payload per event, the client
    scans lines and keeps what follows "data: ". A string here is a sequence of bytes, one character for each, so that
    lengths and cuts count bytes as the scanner does. */
module EventStream {
  import opened Text

  const EVENT_LINE := "event: update\n"
  const DATA := "data: "

  /** The longest line that the client's scanner accepts is one shorter than this. */
  const LINE_LIMIT := 65536

  function DataLines(payload: string): string {
    DATA + payload + "\n\n"
  }

  function Frame(payload: string): string {
    EVENT_LINE + DataLines(payload)
  }

  function Stream(payloads: seq<string>): string {
    if payloads == [] then [] else Frame(payloads[0]) + Stream(payloads[1..])
  }

  // ---- The client's scanner ---------------------------------------------------------------

  function DropCR(line: string): string {
    if line != [] && line[|line| - 1] == '\r' then line[..|line| - 1] else line
  }

  /** The lines of an input that ends where the connection ends. A line over the limit stops the scanner;
      a last line without newline still counts. */
  function Lines(input: string): seq<string> {
    var i := IndexOf(input, '\n');
    if input == [] || i >= LINE_LIMIT then []
    else if i == |input| then [DropCR(input)]
    else [DropCR(input[..i])] + Lines(input[i + 1..])
  }

  /** What one line carries. */
  function PayloadOf(line: string): seq<string> {
    if HasPrefix(line, DATA) then [line[|DATA|..]] else []
  }

  function Payloads(lines: seq<string>): seq<string> {
    if lines == [] then [] else PayloadOf(lines[0]) + Payloads(lines[1..])
  }

  function Received(input: string): seq<string> {
    Payloads(Lines(input))
  }

  /** What one scanned line leaves to scan. */
  function AfterLine(input: string): (r: string)
    ensures input != [] ==> |r| < |input|
  {
    var i := IndexOf(input, '\n');
    if i == |input| then [] else input[i + 1..]
  }

  lemma ReceiveFirst(input: string)
    requires input != [] && IndexOf(input, '\n') < LINE_LIMIT
    ensures Received(input) == PayloadOf(DropCR(input[..IndexOf(input, '\n')])) + Received(AfterLine(input))
  {
    var i := IndexOf(input, '\n');
    assert input[..|input|] == input;
    assert Lines(input) == [DropCR(input[..i])] + Lines(AfterLine(input));
    assert Lines(input)[1..] == Lines(AfterLine(input));
  }

  // ---- One line at a time -----------------------------------------------------------------

  lemma NewlineIs(s: string, i: nat)
    requires i <= |s| && (i < |s| ==> s[i] == '\n') && '\n' !in s[..i]
    ensures IndexOf(s, '\n') == i
  {
    forall j | 0 <= j < i ensures s[j] != '\n' { assert s[..i][j] == s[j]; }
    assert !(IndexOf(s, '\n') < i) && !(i < IndexOf(s, '\n'));
  }

  /** A terminated line contributes its payload, and the rest follows. */
  lemma ReceiveLine(line: string, rest: string)
    requires '\n' !in line && |line| < LINE_LIMIT
    ensures Received(line + "\n" + rest)
      == PayloadOf(DropCR(line)) + Received(rest)
  {
    var input := line + "\n" + rest;
    assert input[..|line|] == line && input[|line| + 1..] == rest;
    NewlineIs(input, |line|);
    assert Lines(input)[1..] == Lines(rest);
  }

  lemma ReceiveLastLine(line: string)
    requires '\n' !in line && |line| < LINE_LIMIT
    ensures Received(line) == PayloadOf(DropCR(line))
  {
    if line != [] {
      assert line[..|line|] == line;
      NewlineIs(line, |line|);
      assert Lines(line) == [DropCR(line)] && Lines(line)[1..] == [];
      assert Payloads([]) == [];
    }
  }

  lemma TooLong(line: string, rest: string)
    requires '\n' !in line && |line| >= LINE_LIMIT
    ensures Received(line + rest) == []
  {
    var input := line + rest;
    forall j | 0 <= j < |line| ensures input[j] != '\n' { assert input[j] == line[j]; }
    assert IndexOf(input, '\n') >= |line|;
  }

  // ---- Round trip -------------------------------------------------------------------------

  /** One line without a trailing carriage return. */
  predicate OneLine(p: string) {
    '\n' !in p && DropCR(p) == p
  }

  predicate Fits(p: string) {
    |DATA| + |p| < LINE_LIMIT
  }

  predicate Intact(p: string) {
    OneLine(p) && Fits(p)
  }

  lemma DropCRAfterData(p: string)
    ensures DropCR(DATA + p) == DATA + DropCR(p)
    ensures HasPrefix(DropCR(DATA + p), DATA) && DropCR(DATA + p)[|DATA|..] == DropCR(p)
  {
    if p == [] { assert DATA + p == DATA; } else { assert (DATA + p)[|DATA + p| - 1] == p[|p| - 1]; }
  }

  /** The event line of a frame contributes nothing. */
  lemma SkipEventLine(rest: string)
    ensures Received(EVENT_LINE + rest) == Received(rest)
  {
    var event := EVENT_LINE[..13];
    assert EVENT_LINE + rest == event + "\n" + rest;
    ReceiveLine(event, rest);
    assert event[0] != DATA[0];
  }

  lemma SkipBlankLine(rest: string)
    ensures Received("\n" + rest) == Received(rest)
  {
    assert "" + "\n" + rest == "\n" + rest;
    ReceiveLine("", rest);
  }

  lemma FrameParts(p: string, rest: string)
    ensures Frame(p) + rest == EVENT_LINE + (DATA + p + "\n" + ("\n" + rest))
    ensures Frame(p) + rest == EVENT_LINE + (DATA + p + ("\n\n" + rest))
  {
    assert "\n\n" + rest == "\n" + ("\n" + rest);
  }

  lemma ReceiveFrame(p: string, rest: string)
    requires '\n' !in p && Fits(p)
    ensures Received(Frame(p) + rest) == [DropCR(p)] + Received(rest)
  {
    FrameParts(p, rest);
    SkipEventLine(DATA + p + "\n" + ("\n" + rest));
    ReceiveLine(DATA + p, "\n" + rest);
    SkipBlankLine(rest);
    DropCRAfterData(p);
  }

  lemma FrameTooLong(p: string, rest: string)
    requires '\n' !in p && !Fits(p)
    ensures Received(Frame(p) + rest) == []
  {
    FrameParts(p, rest);
    SkipEventLine(DATA + p + ("\n\n" + rest));
    TooLong(DATA + p, "\n\n" + rest);
  }

  /** The leading payloads that fit a line. */
  function FittingPrefix(payloads: seq<string>): (r: seq<string>)
    ensures |r| <= |payloads| && r == payloads[..|r|]
    ensures forall i | 0 <= i < |r| :: Fits(payloads[i])
    ensures |r| < |payloads| ==> !Fits(payloads[|r|])
  {
    if payloads == [] || !Fits(payloads[0]) then []
    else [payloads[0]] + FittingPrefix(payloads[1..])
  }

  lemma {:induction false} StreamReadsBack(payloads: seq<string>)
    requires forall i | 0 <= i < |payloads| :: OneLine(payloads[i])
    ensures Received(Stream(payloads)) == FittingPrefix(payloads)
  {
    if payloads != [] {
      StreamReadsBack(payloads[1..]);
      if Fits(payloads[0]) {
        ReceiveFrame(payloads[0], Stream(payloads[1..]));
      } else {
        FrameTooLong(payloads[0], Stream(payloads[1..]));
      }
    }
  }

  /** Framing and reading back returns the payloads, up to the first that is too long for a line; so it returns all of
      them exactly when all fit. */
  lemma RoundTrip(payloads: seq<string>)
    requires forall i | 0 <= i < |payloads| :: OneLine(payloads[i])
    ensures Received(Stream(payloads)) == FittingPrefix(payloads)
    ensures Received(Stream(payloads)) == payloads <==> forall i | 0 <= i < |payloads| :: Intact(payloads[i])
  {
    StreamReadsBack(payloads);
    assert payloads[..|payloads|] == payloads;
  }

  lemma {:induction false} LinesHaveNoNewline(input: string)
    ensures forall i | 0 <= i < |Lines(input)| :: '\n' !in Lines(input)[i]
    decreases |input|
  {
    var i := IndexOf(input, '\n');
    if input != [] && i < LINE_LIMIT {
      assert '\n' !in input[..i];
      assert input[..|input|] == input;
      if i < |input| { LinesHaveNoNewline(input[i + 1..]); }
    }
  }

  lemma {:induction false} PayloadsHaveNoNewline(lines: seq<string>)
    requires forall i | 0 <= i < |lines| :: '\n' !in lines[i]
    ensures forall i | 0 <= i < |Payloads(lines)| :: '\n' !in Payloads(lines)[i]
  {
    if lines != [] { PayloadsHaveNoNewline(lines[1..]); }
  }

  /** What the server writes for one payload. */
  lemma FrameText(p: string)
    ensures Frame(p) == "event: update\ndata: " + p + "\n\n"
  {
    assert Frame(p) == "event: update\n" + ("data: " + p + "\n\n");
  }

  /** A line carries a payload exactly if it starts with "data: ". */
  lemma LineMeans(line: string, p: string)
    ensures PayloadOf(line) == [p] <==> line == "data: " + p
    ensures PayloadOf(line) == [] <==> forall x :: line != "data: " + x
  {
    if HasPrefix(line, DATA) { assert line == "data: " + line[6..]; }
    forall x ensures HasPrefix("data: " + x, DATA) && ("data: " + x)[6..] == x { }
  }

  /** A frame of its own delivers its payload exactly if that has no newline, does not end in a carriage return, and
      leaves the line "data: …" shorter than 65536 bytes. */
  lemma SurvivesIffIntact(p: string)
    ensures Received(Frame(p)) == [p] <==>
      '\n' !in p && (p != "" ==> p[|p| - 1] != '\r') && 6 + |p| < 65536
  {
    assert Frame(p) + "" == Frame(p);
    LinesHaveNoNewline(Frame(p));
    PayloadsHaveNoNewline(Lines(Frame(p)));
    if '\n' in p {
      assert '\n' in [p][0];
    } else if Fits(p) {
      ReceiveFrame(p, "");
      assert Received("") == [];
      assert Received(Frame(p)) == [DropCR(p)];
      assert [DropCR(p)][0] == DropCR(p);
    } else {
      FrameTooLong(p, "");
    }
  }

  // ---- Cutting the stream -----------------------------------------------------------------

  predicate IsPrefix(s: string, t: string) {
    |s| <= |t| && t[..|s|] == s
  }

  /** What may come of a cut: some whole payloads, and perhaps a truncation of the next one. */
  ghost predicate CutShort(r: seq<string>, payloads: seq<string>, whole: nat) {
    && whole <= |payloads|
    && (r == payloads[..whole]
        || (whole < |payloads| && |r| == whole + 1 && r[..whole] == payloads[..whole]
            && IsPrefix(r[whole], payloads[whole]) && Fits(r[whole])))
  }

  /** Nothing, or one payload that fits a line and is a truncation of p. */
  ghost predicate AtMostTruncated(r: seq<string>, p: string) {
    r == [] || (|r| == 1 && IsPrefix(r[0], p) && Fits(r[0]))
  }

  lemma CutData(p: string, m: nat)
    requires OneLine(p) && m <= |DATA| + |p|
    ensures AtMostTruncated(Received((DATA + p)[..m]), p)
  {
    var line := (DATA + p)[..m];
    if m < LINE_LIMIT {
      ReceiveLastLine(line);
      var dropped := DropCR(line);
      if HasPrefix(dropped, DATA) {
        assert dropped == (DATA + p)[..|dropped|];
        assert dropped[|DATA|..] == p[..|dropped| - |DATA|];
      }
    } else {
      TooLong(line, "");
      assert line + "" == line;
    }
  }

  lemma TakeOfConcatenation(a: string, b: string, k: nat)
    requires k <= |a + b|
    ensures (a + b)[..k] == if k < |a| then a[..k] else a + b[..k - |a|]
  {
  }

  lemma CutEventLine(k: nat)
    requires k < |EVENT_LINE|
    ensures Received(EVENT_LINE[..k]) == []
  {
    var cut := EVENT_LINE[..k];
    ReceiveLastLine(cut);
    assert k > 0 ==> cut[0] != DATA[0];
  }

  lemma CutBeforeBlankLine(p: string)
    requires OneLine(p)
    ensures Received(DATA + p + "\n") == if Fits(p) then [p] else []
  {
    if Fits(p) {
      assert DATA + p + "\n" == (DATA + p) + "\n" + "";
      ReceiveLine(DATA + p, "");
      DropCRAfterData(p);
      assert Received("") == [];
    } else {
      TooLong(DATA + p, "\n");
    }
  }

  /** What follows the event line, cut before its end. */
  lemma CutBody(p: string, m: nat)
    requires OneLine(p) && m < |DataLines(p)|
    ensures AtMostTruncated(Received(DataLines(p)[..m]), p)
  {
    TakeOfConcatenation(DATA + p, "\n\n", m);
    if m <= |DATA + p| {
      assert DataLines(p)[..m] == (DATA + p)[..m];
      CutData(p, m);
    } else {
      assert DataLines(p)[..m] == DATA + p + "\n";
      CutBeforeBlankLine(p);
    }
  }

  lemma CutAfterEventLine(body: string, k: nat)
    requires k <= |EVENT_LINE + body|
    ensures Received((EVENT_LINE + body)[..k])
      == if k < |EVENT_LINE| then [] else Received(body[..k - |EVENT_LINE|])
  {
    TakeOfConcatenation(EVENT_LINE, body, k);
    if k < |EVENT_LINE| {
      CutEventLine(k);
    } else {
      SkipEventLine(body[..k - |EVENT_LINE|]);
    }
  }

  /** A line of the stream with a body behind the event line, where the body is cut as promised. */
  lemma CutBehindEventLine(p: string, body: string, k: nat)
    requires k < |EVENT_LINE + body|
    requires forall m | 0 <= m < |body| :: AtMostTruncated(Received(body[..m]), p)
    ensures AtMostTruncated(Received((EVENT_LINE + body)[..k]), p)
  {
    CutAfterEventLine(body, k);
  }

  lemma CutFrame(p: string, k: nat)
    requires OneLine(p) && k < |Frame(p)|
    ensures AtMostTruncated(Received(Frame(p)[..k]), p)
  {
    forall m | 0 <= m < |DataLines(p)| ensures AtMostTruncated(Received(DataLines(p)[..m]), p) {
      CutBody(p, m);
    }
    CutBehindEventLine(p, DataLines(p), k);
  }

  lemma CutShortStep(r: seq<string>, payloads: seq<string>, whole: nat)
    requires payloads != [] && CutShort(r, payloads[1..], whole)
    ensures CutShort([payloads[0]] + r, payloads, whole + 1)
  {
    assert payloads[..whole + 1] == [payloads[0]] + payloads[1..][..whole];
    if |r| == whole + 1 {
      assert ([payloads[0]] + r)[..whole + 1] == [payloads[0]] + r[..whole];
    }
  }

  /** Cutting the stream at any byte yields a prefix of the payloads plus at most one truncated payload, and nothing
      from the first payload on that is too long for a line, except perhaps a truncation of that one. */
  lemma {:induction false} CutStream(payloads: seq<string>, k: nat) returns (whole: nat)
    requires (forall i | 0 <= i < |payloads| :: OneLine(payloads[i])) && k <= |Stream(payloads)|
    ensures CutShort(Received(Stream(payloads)[..k]), payloads, whole)
    ensures whole <= |FittingPrefix(payloads)|
    decreases |payloads|
  {
    whole := 0;
    if payloads != [] {
      var f := Frame(payloads[0]);
      TakeOfConcatenation(f, Stream(payloads[1..]), k);
      if k < |f| {
        CutFrame(payloads[0], k);
      } else {
        var rest := Stream(payloads[1..])[..k - |f|];
        if Fits(payloads[0]) {
          ReceiveFrame(payloads[0], rest);
          whole := CutStream(payloads[1..], k - |f|);
          CutShortStep(Received(rest), payloads, whole);
          whole := whole + 1;
        } else {
          FrameTooLong(payloads[0], rest);
        }
      }
    }
  }
}
