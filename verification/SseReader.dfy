/** The reader of the document_match event stream. */
module SseReader {
  import opened Wrappers
  import opened Text

  /** A decoded data line. `Other` has a type nobody looks at; reading a field of a
      JSON null throws. */
  datatype Event = TextDelta(text: string) | Failure | Done | Other | Null

  /** The text, or why there is none: an error event (or a null), or nothing at all. */
  datatype Outcome = Result(text: string) | Reported | NoResult

  /** `JSON.parse`, None for a syntax error. */
  type Decoder = string -> Option<Event>

  // ---- lines --------------------------------------------------------------

  /** `text.split('\n')` */
  function Split(text: string): (r: seq<string>)
    ensures |r| >= 1
  {
    if text == "" then [""]
    else
      var front := Split(text[..|text| - 1]);
      var c, last := text[|text| - 1], |front| - 1;
      if c == '\n' then front + [""] else front[..last] + [front[last] + [c]]
  }

  /** All but the last piece: `lines` once `lines.pop()` is taken off. */
  function Complete(text: string): seq<string> {
    Split(text)[..|Split(text)| - 1]
  }

  function Rest(text: string): string {
    Split(text)[|Split(text)| - 1]
  }

  /** Splitting is incremental: keep the unfinished line, split it with the next chunk. */
  lemma {:induction false} SplitIncrementally(a: string, b: string)
    ensures Complete(a + b) == Complete(a) + Complete(Rest(a) + b)
    ensures Rest(a + b) == Rest(Rest(a) + b)
  {
    if b == "" {
      assert a + b == a && Rest(a) + b == Rest(a);
      RestIsOneLine(a);
    } else {
      var front, c := b[..|b| - 1], b[|b| - 1];
      SplitIncrementally(a, front);
      OneMoreChar(a, front, c);
      assert b == front + [c];
    }
  }

  lemma OneMoreChar(a: string, front: string, c: char)
    requires Complete(a + front) == Complete(a) + Complete(Rest(a) + front) && Rest(a + front) == Rest(Rest(a) + front)
    ensures Complete(a + (front + [c])) == Complete(a) + Complete(Rest(a) + (front + [c]))
    ensures Rest(a + (front + [c])) == Rest(Rest(a) + (front + [c]))
  {
    LastChar(a, front, c);
    LastChar(Rest(a), front, c);
  }

  lemma LastChar(a: string, front: string, c: char)
    ensures var whole, less := a + (front + [c]), a + front;
      && Complete(whole) == (if c == '\n' then Complete(less) + [Rest(less)] else Complete(less))
      && Rest(whole) == if c == '\n' then "" else Rest(less) + [c]
  {
    var whole, less := a + (front + [c]), a + front;
    assert whole == less + [c];
    assert whole[..|whole| - 1] == less;
    assert Split(less) == Complete(less) + [Rest(less)];
  }

  lemma {:induction false} SplitLine(line: string)
    requires '\n' !in line
    ensures Split(line) == [line]
  {
    if line != "" {
      SplitLine(line[..|line| - 1]);
      assert line == line[..|line| - 1] + [line[|line| - 1]];
    }
  }

  lemma {:induction false} RestHasNoLineEnd(a: string)
    ensures '\n' !in Rest(a)
  {
    if a != "" {
      RestHasNoLineEnd(a[..|a| - 1]);
      LastChar("", a[..|a| - 1], a[|a| - 1]);
      assert "" + (a[..|a| - 1] + [a[|a| - 1]]) == a && "" + a[..|a| - 1] == a[..|a| - 1];
    }
  }

  /** The unfinished line holds no line end: splitting it again gives itself. */
  lemma RestIsOneLine(a: string)
    ensures Split(Rest(a)) == [Rest(a)]
  {
    RestHasNoLineEnd(a);
    SplitLine(Rest(a));
  }

  // ---- events -------------------------------------------------------------

  predicate StartsWith(s: string, prefix: string) {
    |prefix| <= |s| && s[..|prefix|] == prefix
  }

  /** What one line says; None when it is skipped. */
  function LineEvent(line: string, decode: Decoder): Option<Event> {
    var trimmed := Trim(line);
    if !StartsWith(trimmed, "data:") then None
    else
      var jsonText := Trim(trimmed[5..]);
      if jsonText == "" then None else decode(jsonText)
  }

  datatype Reading = Going(collected: string) | Over(outcome: Outcome)

  function ReadLine(r: Reading, line: string, decode: Decoder): Reading {
    if r.Over? then r
    else match LineEvent(line, decode)
         case Some(TextDelta(text)) => Going(r.collected + text)
         case Some(Failure) => Over(Reported)
         case Some(Null) => Over(Reported)
         case Some(Done) => Over(Result(r.collected))
         case _ => r
  }

  function ReadLines(r: Reading, lines: seq<string>, decode: Decoder): Reading {
    if lines == [] then r
    else ReadLine(ReadLines(r, lines[..|lines| - 1], decode), lines[|lines| - 1], decode)
  }

  function Closed(r: Reading): Outcome {
    match r
    case Over(outcome) => outcome
    case Going(collected) => if collected == "" then NoResult else Result(collected)
  }

  /** The reference: parse the complete lines of the whole text once. */
  function ParseWhole(text: string, decode: Decoder): Outcome {
    Closed(ReadLines(Going(""), Complete(text), decode))
  }

  lemma {:induction false} ReadLinesConcat(r: Reading, a: seq<string>, b: seq<string>, decode: Decoder)
    ensures ReadLines(r, a + b, decode) == ReadLines(ReadLines(r, a, decode), b, decode)
  {
    if b == [] {
      assert a + b == a;
    } else {
      assert (a + b)[..|a + b| - 1] == a + b[..|b| - 1];
      ReadLinesConcat(r, a, b[..|b| - 1], decode);
    }
  }

  lemma {:induction false} OverIsFinal(outcome: Outcome, lines: seq<string>, decode: Decoder)
    ensures ReadLines(Over(outcome), lines, decode) == Over(outcome)
  {
    if lines != [] {
      OverIsFinal(outcome, lines[..|lines| - 1], decode);
    }
  }

  lemma {:induction false} ConcatSplit(chunks: seq<string>, n: nat)
    requires n <= |chunks|
    ensures exists rest :: Joined(chunks) == Joined(chunks[..n]) + rest
  {
    if n < |chunks| {
      var front := chunks[..|chunks| - 1];
      ConcatSplit(front, n);
      assert front[..n] == chunks[..n];
      var rest :| Joined(front) == Joined(front[..n]) + rest;
      assert Joined(chunks) == Joined(chunks[..n]) + (rest + chunks[|chunks| - 1]);
    } else {
      assert chunks[..n] == chunks;
      assert Joined(chunks) == Joined(chunks) + "";
    }
  }

  /** An outcome reached on the lines so far is the outcome on any longer text. */
  lemma OutcomeStands(prefix: string, text: string, lines: seq<string>, decode: Decoder, outcome: Outcome)
    requires exists rest :: text == prefix + rest
    requires lines <= Complete(prefix) && ReadLines(Going(""), lines, decode) == Over(outcome)
    ensures ParseWhole(text, decode) == outcome
  {
    var rest :| text == prefix + rest;
    SplitIncrementally(prefix, rest);
    assert lines <= Complete(text);
    var more := Complete(text)[|lines|..];
    assert Complete(text) == lines + more;
    ReadLinesConcat(Going(""), lines, more, decode);
    OverIsFinal(outcome, more, decode);
  }

  /** collectTextFromSseStream(): the outcome is that of the whole text, however it
      is cut into chunks. */
  method CollectText(chunks: seq<string>, decode: Decoder) returns (r: Outcome)
    ensures r == ParseWhole(Joined(chunks), decode)
  {
    var buffer, collected := "", "";
    for n := 0 to |chunks|
      invariant buffer == Rest(Joined(chunks[..n]))
      invariant ReadLines(Going(""), Complete(Joined(chunks[..n])), decode) == Going(collected)
    {
      ghost var before := Joined(chunks[..n]);
      assert chunks[..n + 1][..n] == chunks[..n];
      SplitIncrementally(before, chunks[n]);
      var lines := Split(buffer + chunks[n]);
      var pieces := lines[..|lines| - 1];
      buffer := lines[|lines| - 1];
      ConcatSplit(chunks, n + 1);
      var outcome;
      outcome, collected := ReadPieces(pieces, collected, decode);
      ReadLinesConcat(Going(""), Complete(before), pieces, decode);
      if outcome.Some? {
        OutcomeStands(Joined(chunks[..n + 1]), Joined(chunks), Complete(Joined(chunks[..n + 1])), decode, outcome.value);
        return outcome.value;
      }
    }
    assert chunks[..|chunks|] == chunks;
    if collected == "" { return NoResult; }
    return Result(collected);
  }

  /** The loop over the complete lines of one chunk: an outcome, or the text so far. */
  method ReadPieces(lines: seq<string>, before: string, decode: Decoder)
    returns (outcome: Option<Outcome>, collected: string)
    ensures ReadLines(Going(before), lines, decode) ==
            if outcome.Some? then Over(outcome.value) else Going(collected)
  {
    collected := before;
    for n := 0 to |lines|
      invariant ReadLines(Going(before), lines[..n], decode) == Going(collected)
    {
      assert lines[..n + 1][..n] == lines[..n];
      assert lines == lines[..n + 1] + lines[n + 1..];
      ReadLinesConcat(Going(before), lines[..n + 1], lines[n + 1..], decode);
      match LineEvent(lines[n], decode) {
        case Some(TextDelta(text)) => collected := collected + text;
        case Some(Failure) =>
          OverIsFinal(Reported, lines[n + 1..], decode);
          return Some(Reported), collected;
        case Some(Null) =>
          OverIsFinal(Reported, lines[n + 1..], decode);
          return Some(Reported), collected;
        case Some(Done) =>
          OverIsFinal(Result(collected), lines[n + 1..], decode);
          return Some(Result(collected)), collected;
        case _ =>
      }
    }
    assert lines[..|lines|] == lines;
    outcome := None;
  }

  // ---- round trip ---------------------------------------------------------

  /** The server's encoder: one line of JSON, decoded back to the same event. */
  ghost predicate Inverse(encode: Event -> string, decode: Decoder) {
    forall e: Event :: !e.Null? ==>
      && encode(e) != "" && Trimmed(encode(e)) && '\n' !in encode(e)
      && decode(encode(e)) == Some(e)
  }

  /** `data: <json>\n\n` */
  function Frame(e: Event, encode: Event -> string): string {
    "data: " + encode(e) + "\n\n"
  }

  function Frames(events: seq<Event>, encode: Event -> string): string {
    if events == [] then "" else Frames(events[..|events| - 1], encode) + Frame(events[|events| - 1], encode)
  }

  function Texts(texts: seq<string>): seq<Event> {
    seq(|texts|, i requires 0 <= i < |texts| => TextDelta(texts[i]))
  }

  /** A finished text followed by one frame: one data line and one empty line more. */
  lemma FrameSplits(text: string, e: Event, encode: Event -> string)
    requires Rest(text) == "" && '\n' !in encode(e)
    ensures Complete(text + Frame(e, encode)) == Complete(text) + ["data: " + encode(e), ""]
    ensures Rest(text + Frame(e, encode)) == ""
  {
    var line := "data: " + encode(e);
    SplitIncrementally(text, Frame(e, encode));
    assert Rest(text) + Frame(e, encode) == Frame(e, encode);
    LineAndBlank(line);
    assert Frame(e, encode) == line + "\n" + "\n";
  }

  lemma LineAndBlank(line: string)
    requires '\n' !in line
    ensures Complete(line + "\n" + "\n") == [line, ""] && Rest(line + "\n" + "\n") == ""
  {
    SplitLine(line);
    LineEnd(line);
    LineEnd(line + "\n");
    assert Complete(line) == [];
  }

  lemma LineEnd(a: string)
    ensures Complete(a + "\n") == Complete(a) + [Rest(a)] && Rest(a + "\n") == ""
  {
    LastChar(a, "", '\n');
    assert a + ("" + ['\n']) == a + "\n" && a + "" == a;
  }

  lemma TrimOfTrimmed(s: string)
    requires s != "" && Trimmed(s)
    ensures Trim(s) == s && Trim(" " + s) == s
  {
    assert White(' ');
    assert (" " + s)[1..] == s;
    assert TrimStart(" " + s) == TrimStart(s) == s;
  }

  lemma FrameSays(e: Event, encode: Event -> string, decode: Decoder)
    requires Inverse(encode, decode) && !e.Null?
    ensures LineEvent("data: " + encode(e), decode) == Some(e)
    ensures LineEvent("", decode) == None
  {
    var line := "data: " + encode(e);
    assert line[0] == 'd' && line[|line| - 1] == encode(e)[|encode(e)| - 1];
    TrimOfTrimmed(line);
    TrimOfTrimmed(encode(e));
    assert line[..5] == "data:" && line[5..] == " " + encode(e);
  }

  function ReadEvents(events: seq<Event>): Reading {
    if events == [] then Going("")
    else
      var r := ReadEvents(events[..|events| - 1]);
      if r.Over? then r
      else match events[|events| - 1]
           case TextDelta(text) => Going(r.collected + text)
           case Failure => Over(Reported)
           case Null => Over(Reported)
           case Done => Over(Result(r.collected))
           case Other => r
  }

  /** Reading the encoding of a list of events is reading the events. */
  lemma {:induction false} ReadsWhatWasSent(events: seq<Event>, encode: Event -> string, decode: Decoder)
    requires Inverse(encode, decode) && forall e <- events :: !e.Null?
    ensures ReadLines(Going(""), Complete(Frames(events, encode)), decode) == ReadEvents(events)
    ensures Rest(Frames(events, encode)) == ""
  {
    if events != [] {
      var front, e := events[..|events| - 1], events[|events| - 1];
      assert e in events;
      ReadsWhatWasSent(front, encode, decode);
      FrameSplits(Frames(front, encode), e, encode);
      FrameSays(e, encode, decode);
      var line := "data: " + encode(e);
      var lines := Complete(Frames(front, encode));
      assert (lines + [line, ""])[..|lines| + 1] == lines + [line];
      assert (lines + [line])[..|lines|] == lines;
      assert ReadLine(ReadEvents(front), line, decode) == ReadEvents(events);
    }
  }

  lemma {:induction false} TextsCollect(texts: seq<string>)
    ensures ReadEvents(Texts(texts)) == Going(Joined(texts))
  {
    if texts != [] {
      var last := |texts| - 1;
      TextsCollect(texts[..last]);
      assert Texts(texts)[..last] == Texts(texts[..last]);
    }
  }

  /** Any texts sent as text_delta events and then done come back as their
      concatenation, whatever follows the done event. */
  lemma RoundTrip(texts: seq<string>, encode: Event -> string, decode: Decoder, trailing: string)
    requires Inverse(encode, decode)
    ensures ParseWhole(Frames(Texts(texts) + [Done], encode) + trailing, decode) == Result(Joined(texts))
  {
    var events := Texts(texts) + [Done];
    TextsCollect(texts);
    assert events[..|texts|] == Texts(texts);
    ReadsWhatWasSent(events, encode, decode);
    var sent := Frames(events, encode);
    OutcomeStands(sent, sent + trailing, Complete(sent), decode, Result(Joined(texts)));
  }

  /** Frames of other types between them are passed over, and an error frame ends the
      reading whatever came before and whatever follows. */
  lemma ErrorReported(events: seq<Event>, encode: Event -> string, decode: Decoder, trailing: string)
    requires Inverse(encode, decode) && forall e <- events :: e.TextDelta? || e.Other?
    ensures ParseWhole(Frames(events + [Failure], encode) + trailing, decode) == Reported
  {
    var all := events + [Failure];
    assert all[..|events|] == events;
    DeltasCollect(events);
    ReadsWhatWasSent(all, encode, decode);
    var sent := Frames(all, encode);
    OutcomeStands(sent, sent + trailing, Complete(sent), decode, Reported);
  }

  /** The same with done: what the text_delta frames carried, whatever else came between. */
  lemma OthersIgnored(events: seq<Event>, encode: Event -> string, decode: Decoder, trailing: string)
    requires Inverse(encode, decode) && forall e <- events :: e.TextDelta? || e.Other?
    ensures ParseWhole(Frames(events + [Done], encode) + trailing, decode) == Result(Deltas(events))
  {
    var all := events + [Done];
    assert all[..|events|] == events;
    DeltasCollect(events);
    ReadsWhatWasSent(all, encode, decode);
    var sent := Frames(all, encode);
    OutcomeStands(sent, sent + trailing, Complete(sent), decode, Result(Deltas(events)));
  }

  function Deltas(events: seq<Event>): string {
    if events == [] then ""
    else
      var last := events[|events| - 1];
      Deltas(events[..|events| - 1]) + (if last.TextDelta? then last.text else "")
  }

  lemma {:induction false} DeltasCollect(events: seq<Event>)
    requires forall e <- events :: e.TextDelta? || e.Other?
    ensures ReadEvents(events) == Going(Deltas(events))
  {
    if events != [] {
      var front, last := events[..|events| - 1], events[|events| - 1];
      assert last in events;
      DeltasCollect(front);
      assert Deltas(front) + "" == Deltas(front);
    }
  }

  /** A line that is not a data line, or whose JSON does not parse, might as well not be there. */
  lemma LineSkipped(text: string, line: string, more: string, decode: Decoder)
    requires Rest(text) == "" && '\n' !in line && LineEvent(line, decode) == None
    ensures ParseWhole(text + line + "\n" + more, decode) == ParseWhole(text + more, decode)
  {
    SplitLine(line);
    LineEnd(line);
    SplitIncrementally(text, line + "\n");
    assert text + (line + "\n") == text + line + "\n" && "" + (line + "\n") == line + "\n";
    var longer := text + line + "\n";
    assert Complete(longer) == Complete(text) + [line] && Rest(longer) == "";
    SplitIncrementally(longer, more);
    SplitIncrementally(text, more);
    SkippedInTheMiddle(Complete(text), line, Complete("" + more), decode);
    assert Complete(text) + [line] + Complete("" + more) == Complete(longer + more);
  }

  lemma SkippedInTheMiddle(before: seq<string>, line: string, after: seq<string>, decode: Decoder)
    requires LineEvent(line, decode) == None
    ensures ReadLines(Going(""), before + [line] + after, decode) == ReadLines(Going(""), before + after, decode)
  {
    ReadLinesConcat(Going(""), before + [line], after, decode);
    ReadLinesConcat(Going(""), before, [line], decode);
    ReadLinesConcat(Going(""), before, after, decode);
    var r := ReadLines(Going(""), before, decode);
    assert [line][..0] == [];
    assert ReadLines(r, [line], decode) == ReadLine(r, line, decode) == r;
  }

  /** A data line starts with "data:" once trimmed, and says what decoding the trimmed rest
      of it says; everything else is skipped. */
  lemma OnlyDataLines(line: string, decode: Decoder)
    ensures
      if |Trim(line)| >= 5 && Trim(line)[..5] == "data:" && Trim(Trim(line)[5..]) != ""
      then LineEvent(line, decode) == decode(Trim(Trim(line)[5..]))
      else LineEvent(line, decode) == None
  {
  }

  /** A stream that closes without done is an error exactly when it carried no text;
      otherwise the text so far counts as the result. */
  lemma ClosedWithoutDone(texts: seq<string>, encode: Event -> string, decode: Decoder)
    requires Inverse(encode, decode)
    ensures ParseWhole(Frames(Texts(texts), encode), decode) ==
            if Joined(texts) == "" then NoResult else Result(Joined(texts))
  {
    TextsCollect(texts);
    ReadsWhatWasSent(Texts(texts), encode, decode);
  }

  /** One delta and no done: a result, not the error it is described as. */
  lemma OneDeltaWithoutDone(encode: Event -> string, decode: Decoder)
    requires Inverse(encode, decode)
    ensures ParseWhole(Frame(TextDelta("42"), encode), decode) == Result("42")
  {
    var texts := ["42"];
    ClosedWithoutDone(texts, encode, decode);
    assert Joined(texts) == "42";
    var events := Texts(texts);
    assert events[..0] == [] && events[0] == TextDelta("42");
    assert Frames(events, encode) == "" + Frame(TextDelta("42"), encode) == Frame(TextDelta("42"), encode);
  }

  /** A line cut off by the end of the stream is not read. */
  lemma UnfinishedLineIgnored(text: string, cut: string, decode: Decoder)
    requires Rest(text) == "" && '\n' !in cut
    ensures ParseWhole(text + cut, decode) == ParseWhole(text, decode)
  {
    SplitIncrementally(text, cut);
    assert Rest(text) + cut == cut;
    SplitLine(cut);
    assert Complete(text + cut) == Complete(text);
  }
}
