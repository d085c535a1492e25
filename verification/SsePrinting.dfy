/** Printing events and parsing them again (src/proxy/sse/transformer.ts:267-376). */
module SsePrinting {
  import opened Text
  import opened SseLines
  import opened SseParser
  import opened SseChunking
  import Decimal

  /** The part of an event that a second reader must find again; `raw` is the text it was read from. */
  datatype Visible = Visible(event: Option<string>, id: Option<string>, retry: Option<int>, data: string)

  function See(e: Event): Visible { Visible(e.event, e.id, e.retry, e.data) }

  function SeeAll(es: seq<Event>): (vs: seq<Visible>) {
    seq(|es|, i requires 0 <= i < |es| => See(es[i]))
  }

  predicate OptionalOneLine(o: Option<string>) { o.Some? ==> OneLine(o.value) }

  predicate NoCr(s: string) { forall i | 0 <= i < |s| :: s[i] != '\r' }

  predicate Printable(e: Event) {
    OptionalOneLine(e.event) && OptionalOneLine(e.id) && NoCr(e.data)
  }

  predicate PendingPrintable(p: Pending) {
    && OptionalOneLine(p.eventType) && OptionalOneLine(p.eventId)
    && forall l | l in p.dataLines :: OneLine(l)
  }

  predicate StatePrintable(s: State) {
    PendingPrintable(s.pending) && forall e | e in s.events :: Printable(e)
  }

  // ----- every parsed event is printable

  lemma {:induction false} JoinedHasNoCr(lines: seq<string>)
    requires forall l | l in lines :: OneLine(l)
    ensures NoCr(JoinLines(lines))
  {
    if |lines| == 1 {
      assert OneLine(lines[0]);
    } else if |lines| > 1 {
      assert OneLine(lines[0]);
      JoinedHasNoCr(lines[1..]);
    }
  }

  lemma FieldKeepsPrintable(p: Pending, line: string)
    requires PendingPrintable(p) && OneLine(line)
    ensures PendingPrintable(AddField(p, line))
  {
  }

  lemma LineKeepsPrintable(mode: Mode, s: State, line: string)
    requires StatePrintable(s) && OneLine(line)
    ensures StatePrintable(Line(mode, s, line))
  {
    if line == "" {
      JoinedHasNoCr(s.pending.dataLines);
    } else {
      FieldKeepsPrintable(s.pending.(rawLines := s.pending.rawLines + [line]), line);
    }
  }

  lemma {:induction false} LinesKeepPrintable(mode: Mode, s: State, lines: seq<string>)
    requires StatePrintable(s) && forall l | l in lines :: OneLine(l)
    ensures StatePrintable(Lines(mode, s, lines))
    decreases |lines|
  {
    if lines != [] {
      LineKeepsPrintable(mode, s, lines[0]);
      LinesKeepPrintable(mode, Line(mode, s, lines[0]), lines[1..]);
    }
  }

  lemma {:induction false} SplitLinesAreOneLine(text: string)
    ensures forall l | l in SplitLines(text, "") :: OneLine(l)
  {
    ScanIsOnePassSplit(text);
    ScannedLinesAreOneLine(text, true);
    LeftoverShape(text, true);
  }

  /** No event that comes out of a stream has a newline in its type or id, or a CR in its data. */
  lemma StreamedEventsArePrintable(mode: Mode, chunks: seq<string>)
    ensures forall e | e in Stream(mode, chunks).events :: Printable(e)
  {
    var text := Flatten(chunks);
    if mode.Passthrough? {
      ModesAgreeOnEvents(chunks);
    }
    StreamIsOnePass(chunks);
    SplitLinesAreOneLine(text);
    LinesKeepPrintable(Events, START, SplitLines(text, ""));
    LineKeepsPrintable(Events, Lines(Events, START, SplitLines(text, "")), "");
  }

  // ----- what is sent is what is printed

  function Printed(es: seq<Event>): (r: seq<string>) {
    seq(|es|, i requires 0 <= i < |es| => FormatEvent(es[i]))
  }

  lemma {:induction false} LinesSendPrinted(s: State, lines: seq<string>)
    requires s.sent == Printed(s.events)
    ensures Lines(Events, s, lines).sent == Printed(Lines(Events, s, lines).events)
    decreases |lines|
  {
    if lines != [] {
      DispatchSendsPrinted(s);
      LinesSendPrinted(Line(Events, s, lines[0]), lines[1..]);
    }
  }

  lemma {:induction false} FeedAllSendsPrinted(s: State, chunks: seq<string>)
    requires s.sent == Printed(s.events)
    ensures FeedAll(Events, s, chunks).sent == Printed(FeedAll(Events, s, chunks).events)
    decreases |chunks|
  {
    if chunks != [] {
      var x := s.(buffer := s.buffer + chunks[0]);
      LinesSendPrinted(x, Scan(x.buffer, false).0);
      FeedAllSendsPrinted(Feed(Events, s, chunks[0]), chunks[1..]);
    }
  }

  /** In events mode one printed text goes downstream for each event, in order. */
  lemma StreamSendsPrinted(chunks: seq<string>)
    ensures Stream(Events, chunks).sent == Printed(Stream(Events, chunks).events)
  {
    FeedAllSendsPrinted(START, chunks);
    FlushSendsPrinted(FeedAll(Events, START, chunks));
  }

  lemma DispatchSendsPrinted(s: State)
    requires s.sent == Printed(s.events)
    ensures Dispatch(Events, s).sent == Printed(Dispatch(Events, s).events)
  {
  }

  lemma FlushSendsPrinted(s: State)
    requires s.sent == Printed(s.events)
    ensures Flush(Events, s).sent == Printed(Flush(Events, s).events)
  {
    LinesSendPrinted(s, Scan(s.buffer, true).0);
    var parsed := Parse(Events, s, true);
    var done := if parsed.buffer == "" then parsed else Line(Events, parsed.(buffer := ""), parsed.buffer);
    assert done.sent == Printed(done.events);
    DispatchSendsPrinted(done);
  }

  // ----- the lines of a printed event

  function DataLines(pieces: seq<string>): (r: seq<string>) {
    seq(|pieces|, i requires 0 <= i < |pieces| => "data: " + pieces[i])
  }

  function HeadingLines(e: Event): (r: seq<string>) { EventLine(e) + IdLine(e) + RetryLine(e) }

  function EventLines(e: Event): (r: seq<string>) {
    HeadingLines(e) + DataLines(SplitOnLf(e.data)) + [""]
  }

  lemma UnlinesOne(line: string)
    ensures Unlines([line]) == line + "\n"
  {
  }

  lemma {:induction false} DataFieldsAreLines(pieces: seq<string>)
    ensures DataFields(pieces) == Unlines(DataLines(pieces))
  {
    if pieces != [] {
      DataFieldsAreLines(pieces[1..]);
      assert DataLines(pieces)[1..] == DataLines(pieces[1..]);
      assert Field("data", pieces[0]) == "data: " + pieces[0] + "\n";
    }
  }

  lemma FieldIsLine(name: string, prefix: string, value: string)
    requires prefix == name + ": "
    ensures Field(name, value) == Unlines([prefix + value])
  {
  }

  lemma HeadingIsLines(e: Event)
    ensures Heading(e) == Unlines(HeadingLines(e))
  {
    UnlinesAppend(EventLine(e) + IdLine(e), RetryLine(e));
    UnlinesAppend(EventLine(e), IdLine(e));
    if e.event.Some? { FieldIsLine("event", "event: ", e.event.value); }
    if e.id.Some? { FieldIsLine("id", "id: ", e.id.value); }
    if e.retry.Some? { FieldIsLine("retry", "retry: ", Decimal.IntToString(e.retry.value)); }
  }

  lemma FormatIsLines(e: Event)
    ensures FormatEvent(e) == Unlines(EventLines(e))
  {
    HeadingIsLines(e);
    DataFieldsAreLines(SplitOnLf(e.data));
    UnlinesAppend(HeadingLines(e), DataLines(SplitOnLf(e.data)));
    UnlinesAppend(HeadingLines(e) + DataLines(SplitOnLf(e.data)), [""]);
    UnlinesOne("");
  }

  lemma {:induction false} JoinSplit(s: string)
    ensures JoinLines(SplitOnLf(s)) == s
  {
    if s != "" {
      var rest := SplitOnLf(s[1..]);
      JoinSplit(s[1..]);
      if s[0] == '\n' {
        assert ([""] + rest)[1..] == rest;
      } else if |rest| > 1 {
        var r := [[s[0]] + rest[0]] + rest[1..];
        assert r[1..] == rest[1..];
      }
    }
  }

  lemma {:induction false} SplitPiecesAreOneLine(s: string)
    requires NoCr(s)
    ensures forall l | l in SplitOnLf(s) :: OneLine(l)
  {
    if s != "" {
      assert NoCr(s[1..]);
      SplitPiecesAreOneLine(s[1..]);
      var rest := SplitOnLf(s[1..]);
      assert rest[0] in rest;
    }
  }

  lemma {:induction false} DigitsHaveNoNewline(n: nat)
    ensures OneLine(Decimal.Digits(n))
  {
  }

  lemma DataLinesAreOneLine(data: string)
    requires NoCr(data)
    ensures forall l | l in DataLines(SplitOnLf(data)) :: OneLine(l)
  {
    SplitPiecesAreOneLine(data);
    var pieces := SplitOnLf(data);
    forall i | 0 <= i < |pieces|
      ensures OneLine("data: " + pieces[i])
    {
      assert pieces[i] in pieces;
    }
  }

  lemma HeadingLinesAreOneLine(e: Event)
    requires Printable(e)
    ensures forall l | l in HeadingLines(e) :: OneLine(l)
  {
    if e.retry.Some? {
      DigitsHaveNoNewline(if e.retry.value < 0 then -e.retry.value else e.retry.value);
    }
  }

  lemma EventLinesAreOneLine(e: Event)
    requires Printable(e)
    ensures forall l | l in EventLines(e) :: OneLine(l)
  {
    HeadingLinesAreOneLine(e);
    DataLinesAreOneLine(e.data);
  }

  // ----- reading the lines of a printed event

  predicate IsField(line: string) { line != "" && line[0] != ':' }

  function AddAll(p: Pending, lines: seq<string>): (q: Pending)
    decreases |lines|
  {
    if lines == [] then p
    else AddAll(AddField(p.(rawLines := p.rawLines + [lines[0]]), lines[0]), lines[1..])
  }

  lemma {:induction false} LinesAddFields(mode: Mode, s: State, lines: seq<string>)
    requires forall l | l in lines :: IsField(l)
    ensures Lines(mode, s, lines) == s.(pending := AddAll(s.pending, lines))
    decreases |lines|
  {
    if lines != [] {
      assert IsField(lines[0]);
      LinesAddFields(mode, Line(mode, s, lines[0]), lines[1..]);
    }
  }

  lemma {:induction false} AddAllAppend(p: Pending, a: seq<string>, b: seq<string>)
    ensures AddAll(p, a + b) == AddAll(AddAll(p, a), b)
    decreases |a|
  {
    if a == [] {
      assert a + b == b;
    } else {
      assert (a + b)[1..] == a[1..] + b;
      AddAllAppend(AddField(p.(rawLines := p.rawLines + [a[0]]), a[0]), a[1..], b);
    }
  }

  lemma ReadDataField(p: Pending, v: string)
    ensures AddField(p, "data: " + v) == p.(dataLines := p.dataLines + [v])
  {
  }

  lemma ReadEventField(p: Pending, v: string)
    ensures AddField(p, "event: " + v) == p.(eventType := Some(v))
  {
    var line := "event: " + v;
    assert line[0] == 'e';
    assert line[..6] == "event:" && line[6] == ' ' && line[7..] == v;
  }

  lemma ReadIdField(p: Pending, v: string)
    ensures AddField(p, "id: " + v) == p.(eventId := Some(v))
  {
    var line := "id: " + v;
    assert line[0] == 'i';
    assert line[..3] == "id:" && line[3] == ' ' && line[4..] == v;
  }

  lemma ReadRetryText(p: Pending, v: string, r: Option<int>)
    requires r.Some? && Decimal.ParseInt(Trim(" " + v)) == r
    ensures AddField(p, "retry: " + v) == p.(retry := r)
  {
    var line := "retry: " + v;
    assert line[0] == 'r';
    assert line[..6] == "retry:" && line[6..] == " " + v;
  }

  lemma ReadRetryField(p: Pending, n: int)
    ensures AddField(p, "retry: " + Decimal.IntToString(n)) == p.(retry := Some(n))
  {
    Decimal.ParseIntOfPrinted(n);
    ReadRetryText(p, Decimal.IntToString(n), Some(n));
  }

  /** Equal apart from the raw lines. */
  predicate SameFields(p: Pending, q: Pending) {
    p.(rawLines := []) == q.(rawLines := [])
  }

  lemma {:induction false} ReadDataLines(p: Pending, pieces: seq<string>)
    ensures SameFields(AddAll(p, DataLines(pieces)), p.(dataLines := p.dataLines + pieces))
    decreases |pieces|
  {
    if pieces == [] {
      assert p.dataLines + pieces == p.dataLines;
    } else {
      var lines := DataLines(pieces);
      var q := p.(rawLines := p.rawLines + [lines[0]]);
      ReadDataField(q, pieces[0]);
      assert lines[1..] == DataLines(pieces[1..]);
      ReadDataLines(AddField(q, lines[0]), pieces[1..]);
      assert p.dataLines + [pieces[0]] + pieces[1..] == p.dataLines + pieces;
    }
  }

  function EventLine(e: Event): seq<string> { if e.event.Some? then ["event: " + e.event.value] else [] }

  function IdLine(e: Event): seq<string> { if e.id.Some? then ["id: " + e.id.value] else [] }

  function RetryLine(e: Event): seq<string> {
    if e.retry.Some? then ["retry: " + Decimal.IntToString(e.retry.value)] else []
  }

  lemma ReadEventLine(p: Pending, e: Event)
    requires p.eventType.None?
    ensures SameFields(AddAll(p, EventLine(e)), p.(eventType := e.event))
  {
    if e.event.Some? {
      var line := EventLine(e)[0];
      ReadOne(p, line);
      ReadEventField(p.(rawLines := p.rawLines + [line]), e.event.value);
    }
  }

  lemma ReadIdLine(p: Pending, e: Event)
    requires p.eventId.None?
    ensures SameFields(AddAll(p, IdLine(e)), p.(eventId := e.id))
  {
    if e.id.Some? {
      var line := IdLine(e)[0];
      ReadOne(p, line);
      ReadIdField(p.(rawLines := p.rawLines + [line]), e.id.value);
    }
  }

  lemma ReadRetryLine(p: Pending, e: Event)
    requires p.retry.None?
    ensures SameFields(AddAll(p, RetryLine(e)), p.(retry := e.retry))
  {
    if e.retry.Some? {
      var line := RetryLine(e)[0];
      ReadOne(p, line);
      ReadRetryField(p.(rawLines := p.rawLines + [line]), e.retry.value);
    }
  }

  lemma ReadHeading(e: Event)
    ensures SameFields(AddAll(EMPTY, HeadingLines(e)), Pending([], [], e.event, e.id, e.retry))
  {
    AddAllAppend(EMPTY, EventLine(e) + IdLine(e), RetryLine(e));
    AddAllAppend(EMPTY, EventLine(e), IdLine(e));
    ReadEventLine(EMPTY, e);
    var p := AddAll(EMPTY, EventLine(e));
    ReadIdLine(p, e);
    ReadRetryLine(AddAll(p, IdLine(e)), e);
  }

  lemma HeadingLinesAreFields(e: Event)
    ensures forall l | l in HeadingLines(e) :: IsField(l)
  {
  }

  lemma ReadOne(p: Pending, line: string)
    ensures AddAll(p, [line]) == AddField(p.(rawLines := p.rawLines + [line]), line)
  {
  }

  /** The lines of a printed event, read with no event under way, give that event and end it. */
  lemma ReadEventLines(mode: Mode, s: State, e: Event)
    requires s.pending == EMPTY
    ensures var t := Lines(mode, s, EventLines(e));
            t.pending == EMPTY && t.buffer == s.buffer
            && |t.events| == |s.events| + 1 && t.events[..|s.events|] == s.events
            && See(t.events[|s.events|]) == See(e)
  {
    var pieces := SplitOnLf(e.data);
    var head, body := HeadingLines(e), DataLines(pieces);
    ReadHeading(e);
    HeadingLinesAreFields(e);
    var p := AddAll(EMPTY, head);
    ReadDataLines(p, pieces);
    AddAllAppend(EMPTY, head, body);
    LinesAddFields(mode, s, head + body);
    LinesAppend(mode, s, head + body, [""]);
    var u := Lines(mode, s, head + body);
    assert Lines(mode, u, [""]) == Lines(mode, Line(mode, u, ""), []);
    JoinSplit(e.data);
    assert [] + pieces == pieces;
    assert u.pending.dataLines == pieces;
  }

  function AllEventLines(es: seq<Event>): (r: seq<string>) {
    if es == [] then [] else EventLines(es[0]) + AllEventLines(es[1..])
  }

  lemma FlattenCons(first: string, rest: seq<string>)
    ensures Flatten([first] + rest) == first + Flatten(rest)
  {
  }

  lemma {:induction false} PrintedIsLines(es: seq<Event>)
    ensures Flatten(Printed(es)) == Unlines(AllEventLines(es))
  {
    if es != [] {
      FormatIsLines(es[0]);
      PrintedIsLines(es[1..]);
      UnlinesAppend(EventLines(es[0]), AllEventLines(es[1..]));
      FlattenCons(Printed(es)[0], Printed(es[1..]));
      assert Printed(es) == [Printed(es)[0]] + Printed(es[1..]);
    }
  }

  lemma {:induction false} AllEventLinesAreOneLine(es: seq<Event>)
    requires forall e | e in es :: Printable(e)
    ensures forall l | l in AllEventLines(es) :: OneLine(l)
  {
    if es != [] {
      EventLinesAreOneLine(es[0]);
      AllEventLinesAreOneLine(es[1..]);
    }
  }

  lemma SeeAllStep(before: seq<Event>, after: seq<Event>, es: seq<Event>)
    requires es != [] && |after| == |before| + 1 && after[..|before|] == before && See(after[|before|]) == See(es[0])
    ensures SeeAll(after) + SeeAll(es[1..]) == SeeAll(before) + SeeAll(es)
  {
  }

  lemma {:induction false} ReadAllEventLines(mode: Mode, s: State, es: seq<Event>)
    requires s.pending == EMPTY
    ensures var t := Lines(mode, s, AllEventLines(es));
            t.pending == EMPTY && SeeAll(t.events) == SeeAll(s.events) + SeeAll(es)
    decreases |es|
  {
    if es == [] {
      assert SeeAll(s.events) + [] == SeeAll(s.events);
    } else {
      ReadEventLines(mode, s, es[0]);
      var u := Lines(mode, s, EventLines(es[0]));
      LinesAppend(mode, s, EventLines(es[0]), AllEventLines(es[1..]));
      ReadAllEventLines(mode, u, es[1..]);
      SeeAllStep(s.events, u.events, es);
    }
  }

  lemma FeedLines(lines: seq<string>)
    requires forall l | l in lines :: OneLine(l)
    ensures var text := Unlines(lines);
            Feed(Events, START, text) == Lines(Events, START.(buffer := text), lines).(buffer := "")
  {
    assert "" + Unlines(lines) == Unlines(lines);
    ScanUnlines(lines);
  }

  /** Feeding the printed text of printable events reads them all and leaves nothing behind. */
  lemma FeedPrinted(es: seq<Event>, text: string)
    requires (forall e | e in es :: Printable(e)) && text == Flatten(Printed(es))
    ensures var t := Feed(Events, START, text);
            t.buffer == "" && t.pending == EMPTY && SeeAll(t.events) == SeeAll(es)
  {
    var lines := AllEventLines(es);
    assert text == Unlines(lines) by { PrintedIsLines(es); }
    AllEventLinesAreOneLine(es);
    FeedLines(lines);
    ReadAllEventLines(Events, START.(buffer := text), es);
    NothingBefore(es);
  }

  lemma NothingBefore(es: seq<Event>)
    ensures SeeAll([]) + SeeAll(es) == SeeAll(es)
  {
  }

  lemma FlushNothing(s: State)
    requires s.buffer == "" && s.pending == EMPTY
    ensures Flush(Events, s).events == s.events
  {
  }

  /** Printable events, printed and read again in any chunks and either mode, come back unchanged. */
  lemma ReadPrinted(mode: Mode, es: seq<Event>, chunks: seq<string>)
    requires forall e | e in es :: Printable(e)
    requires Flatten(chunks) == Flatten(Printed(es))
    ensures SeeAll(Stream(mode, chunks).events) == SeeAll(es)
  {
    if mode.Passthrough? {
      ModesAgreeOnEvents(chunks);
    }
    FeedPrinted(es, Flatten(chunks));
    FeedAllIsFeedWhole(Events, START, chunks);
    FlushNothing(FeedAll(Events, START, chunks));
  }

  /**
   * Print/parse round trip: the output of an events-mode stream, read again under any chunking,
   * yields the same events; and normalising it a second time sends the very same texts.
   */
  lemma NormalisedStreamRoundTrip(chunks: seq<string>, again: seq<string>, mode: Mode)
    requires Flatten(again) == Flatten(Stream(Events, chunks).sent)
    ensures SeeAll(Stream(mode, again).events) == SeeAll(Stream(Events, chunks).events)
    ensures Stream(Events, again).sent == Stream(Events, chunks).sent
  {
    var es := Stream(Events, chunks).events;
    StreamSendsPrinted(chunks);
    StreamedEventsArePrintable(Events, chunks);
    ReadPrinted(mode, es, again);
    ReadPrinted(Events, es, again);
    StreamSendsPrinted(again);
    var fs := Stream(Events, again).events;
    assert SeeAll(fs) == SeeAll(es);
    assert |fs| == |SeeAll(fs)| == |es|;
    forall i | 0 <= i < |es| ensures Printed(fs)[i] == Printed(es)[i] {
      assert SeeAll(fs)[i] == SeeAll(es)[i];
    }
  }
}
