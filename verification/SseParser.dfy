/**
 * The stream transformer: a mutable parser fed with chunks, and the value-level
 * steps it is proved against (src/proxy/sse/transformer.ts).
 */
module SseParser {
  import opened Text
  import opened SseLines
  import Decimal

  datatype Event = Event(event: Option<string>, id: Option<string>, retry: Option<int>, data: string, raw: string)

  /** The fields of the event being read. */
  datatype Pending = Pending(dataLines: seq<string>, rawLines: seq<string>, eventType: Option<string>,
                             eventId: Option<string>, retry: Option<int>)

  const EMPTY := Pending([], [], None, None, None)

  datatype Mode = Passthrough | Events

  /** Everything a transformer holds: unread text, pending fields, parsed events, chunks sent downstream. */
  datatype State = State(buffer: string, pending: Pending, events: seq<Event>, sent: seq<string>)

  const START := State("", EMPTY, [], [])

  // ----- lines and fields

  function JoinLines(lines: seq<string>): (r: string) {
    if lines == [] then ""
    else if |lines| == 1 then lines[0]
    else lines[0] + "\n" + JoinLines(lines[1..])
  }

  /** `data.split("\n")`: always at least one piece. */
  function SplitOnLf(s: string): (r: seq<string>)
    ensures |r| >= 1
  {
    if s == "" then [""]
    else
      var rest := SplitOnLf(s[1..]);
      if s[0] == '\n' then [""] + rest else [[s[0]] + rest[0]] + rest[1..]
  }

  predicate StartsWith(s: string, prefix: string) {
    |prefix| <= |s| && s[..|prefix|] == prefix
  }

  /** The value after the colon, one leading blank removed. */
  function FieldValue(line: string, from: nat): (v: string)
    requires from <= |line|
  {
    if from < |line| && line[from] == ' ' then line[from + 1..] else line[from..]
  }

  predicate Dispatchable(p: Pending) {
    p.dataLines != [] || p.eventType.Some? || p.eventId.Some?
  }

  function ToEvent(p: Pending): (e: Event) {
    Event(p.eventType, p.eventId, p.retry, JoinLines(p.dataLines), JoinLines(p.rawLines))
  }

  function Field(name: string, value: string): (r: string) { name + ": " + value + "\n" }

  function DataFields(lines: seq<string>): (r: string) {
    if lines == [] then "" else Field("data", lines[0]) + DataFields(lines[1..])
  }

  function Heading(e: Event): (r: string) {
    (if e.event.Some? then Field("event", e.event.value) else "")
    + (if e.id.Some? then Field("id", e.id.value) else "")
    + (if e.retry.Some? then Field("retry", Decimal.IntToString(e.retry.value)) else "")
  }

  /** The text sent downstream for one event in "events" mode. */
  function FormatEvent(e: Event): (r: string) {
    Heading(e) + DataFields(SplitOnLf(e.data)) + "\n"
  }

  function Dispatch(mode: Mode, s: State): (t: State) {
    var e := ToEvent(s.pending);
    State(s.buffer, EMPTY, s.events + [e], if mode.Events? then s.sent + [FormatEvent(e)] else s.sent)
  }

  function AddField(p: Pending, line: string): (q: Pending) {
    if StartsWith(line, "data:") then p.(dataLines := p.dataLines + [FieldValue(line, 5)])
    else if line == "data" then p.(dataLines := p.dataLines + [""])
    else if StartsWith(line, "event:") then p.(eventType := Some(FieldValue(line, 6)))
    else if StartsWith(line, "id:") then p.(eventId := Some(FieldValue(line, 3)))
    else if StartsWith(line, "retry:") then
      var parsed := Decimal.ParseInt(Trim(line[6..]));
      if parsed.Some? then p.(retry := parsed) else p
    else p
  }

  function Line(mode: Mode, s: State, line: string): (t: State) {
    if line == "" then
      (if Dispatchable(s.pending) then Dispatch(mode, s) else s)
    else
      var p := s.pending.(rawLines := s.pending.rawLines + [line]);
      s.(pending := if line[0] == ':' then p else AddField(p, line))
  }

  function Lines(mode: Mode, s: State, lines: seq<string>): (t: State)
    decreases |lines|
  {
    if lines == [] then s else Lines(mode, Line(mode, s, lines[0]), lines[1..])
  }

  // ----- steps

  function Parse(mode: Mode, s: State, flushing: bool): (t: State) {
    var r := Scan(s.buffer, flushing);
    Lines(mode, s, r.0).(buffer := r.1)
  }

  function Feed(mode: Mode, s: State, chunk: string): (t: State) {
    var forwarded := if mode.Passthrough? then s.sent + [chunk] else s.sent;
    Parse(mode, s.(buffer := s.buffer + chunk, sent := forwarded), false)
  }

  function Flush(mode: Mode, s: State): (t: State) {
    var parsed := Parse(mode, s, true);
    var done := if parsed.buffer == "" then parsed
                else Line(mode, parsed.(buffer := ""), parsed.buffer);
    if Dispatchable(done.pending) then Dispatch(mode, done) else done
  }

  function FeedAll(mode: Mode, s: State, chunks: seq<string>): (t: State)
    decreases |chunks|
  {
    if chunks == [] then s else FeedAll(mode, Feed(mode, s, chunks[0]), chunks[1..])
  }

  /** A whole stream, from a new transformer to its flush. */
  function Stream(mode: Mode, chunks: seq<string>): (t: State) {
    Flush(mode, FeedAll(mode, START, chunks))
  }

  /** What a reader of the stream can tell: how the output was cut into chunks is left out. */
  function Seen(s: State): (string, Pending, seq<Event>, string) {
    (s.buffer, s.pending, s.events, Flatten(s.sent))
  }

  // ----- the transformer

  class SseTransformer {
    const mode: Mode
    var buffer: string
    var dataLines: seq<string>
    var rawLines: seq<string>
    var eventType: Option<string>
    var eventId: Option<string>
    var retry: Option<int>
    var events: seq<Event>
    var sent: seq<string>

    ghost function View(): State
      reads this
    {
      State(buffer, Pending(dataLines, rawLines, eventType, eventId, retry), events, sent)
    }

    constructor (mode: Mode)
      ensures this.mode == mode && View() == START
    {
      this.mode := mode;
      buffer, dataLines, rawLines, events, sent := "", [], [], [], [];
      eventType, eventId, retry := None, None, None;
    }

    method HandleTransform(chunk: string)
      modifies this
      ensures View() == Feed(mode, old(View()), chunk)
    {
      if mode.Passthrough? {
        sent := sent + [chunk];
      }
      buffer := buffer + chunk;
      ParseBuffer(false);
    }

    method HandleFlush()
      modifies this
      ensures View() == Flush(mode, old(View()))
    {
      ParseBuffer(true);
      if buffer != "" {
        var remaining := buffer;
        buffer := "";
        ProcessLine(remaining);
      }
      if dataLines != [] || eventType.Some? || eventId.Some? {
        DispatchEvent();
      }
    }

    method ParseBuffer(flushing: bool)
      modifies this
      ensures View() == Parse(mode, old(View()), flushing)
    {
      var k := FindNextNewlineIndex(buffer, flushing);
      while k != -1
        invariant k == LineEnd(buffer, flushing)
        invariant Parse(mode, View(), flushing) == Parse(mode, old(View()), flushing)
        decreases |buffer|
      {
        TakeLine(k, flushing);
        k := FindNextNewlineIndex(buffer, flushing);
      }
    }

    /** One turn of the loop: cut off the first line and handle it. */
    method TakeLine(k: nat, flushing: bool)
      requires k == LineEnd(buffer, flushing)
      modifies this
      ensures |buffer| < |old(buffer)|
      ensures Parse(mode, View(), flushing) == Parse(mode, old(View()), flushing)
    {
      ghost var before := View();
      var line := buffer[..k];
      var isCrLf := buffer[k] == '\r' && k + 1 < |buffer| && buffer[k + 1] == '\n';
      buffer := buffer[k + (if isCrLf then 2 else 1)..];
      assert View() == before.(buffer := AfterLine(before.buffer, flushing));
      ProcessLine(line);
      ParseOneLine(mode, before, flushing);
    }

    method FindNextNewlineIndex(buf: string, flushing: bool) returns (r: int)
      ensures r == LineEnd(buf, flushing)
    {
      var i := 0;
      while i < |buf|
        invariant 0 <= i <= |buf|
        invariant OneLine(buf[..i])
      {
        if buf[i] == '\n' {
          FirstNewlineUnique(buf, i);
          return i;
        }
        if buf[i] == '\r' {
          FirstNewlineUnique(buf, i);
          if i == |buf| - 1 && !flushing {
            return -1;
          }
          return i;
        }
        i := i + 1;
      }
      FirstNewlineUnique(buf, |buf|);
      return -1;
    }

    method ProcessLine(line: string)
      modifies this
      ensures View() == Line(mode, old(View()), line)
    {
      if line == "" {
        if dataLines != [] || eventType.Some? || eventId.Some? {
          DispatchEvent();
        }
        return;
      }
      rawLines := rawLines + [line];
      if line[0] == ':' {
        return;
      }
      if StartsWith(line, "data:") {
        dataLines := dataLines + [FieldValue(line, 5)];
      } else if line == "data" {
        dataLines := dataLines + [""];
      } else if StartsWith(line, "event:") {
        eventType := Some(FieldValue(line, 6));
      } else if StartsWith(line, "id:") {
        eventId := Some(FieldValue(line, 3));
      } else if StartsWith(line, "retry:") {
        var parsed := Decimal.ParseInt(Trim(line[6..]));
        if parsed.Some? {
          retry := parsed;
        }
      }
    }

    method DispatchEvent()
      modifies this
      ensures View() == Dispatch(mode, old(View()))
    {
      var event := Event(eventType, eventId, retry, JoinLines(dataLines), JoinLines(rawLines));
      dataLines, rawLines, eventType, eventId, retry := [], [], None, None, None;
      events := events + [event];
      if mode.Events? {
        var text := Format(event);
        sent := sent + [text];
      }
    }

    static method Format(event: Event) returns (text: string)
      ensures text == FormatEvent(event)
    {
      text := "";
      if event.event.Some? {
        text := text + Field("event", event.event.value);
      }
      if event.id.Some? {
        text := text + Field("id", event.id.value);
      }
      if event.retry.Some? {
        text := text + Field("retry", Decimal.IntToString(event.retry.value));
      }
      assert text == Heading(event);
      var fields := FormatData(SplitOnLf(event.data));
      text := text + fields + "\n";
    }

    static method FormatData(pieces: seq<string>) returns (text: string)
      ensures text == DataFields(pieces)
    {
      text := "";
      for i := 0 to |pieces|
        invariant text + DataFields(pieces[i..]) == DataFields(pieces)
      {
        var field := Field("data", pieces[i]);
        assert pieces[i..][1..] == pieces[i + 1..];
        assert text + (field + DataFields(pieces[i + 1..])) == (text + field) + DataFields(pieces[i + 1..]);
        text := text + field;
      }
    }
  }

  lemma LineKeepsBuffer(mode: Mode, s: State, line: string, buffer: string)
    ensures Line(mode, s.(buffer := buffer), line) == Line(mode, s, line).(buffer := buffer)
  {
  }

  lemma {:induction false} LinesKeepBuffer(mode: Mode, s: State, lines: seq<string>, buffer: string)
    ensures Lines(mode, s.(buffer := buffer), lines) == Lines(mode, s, lines).(buffer := buffer)
    decreases |lines|
  {
    if lines != [] {
      LineKeepsBuffer(mode, s, lines[0], buffer);
      LinesKeepBuffer(mode, Line(mode, s, lines[0]), lines[1..], buffer);
    }
  }

  lemma {:induction false} LinesAppend(mode: Mode, s: State, a: seq<string>, b: seq<string>)
    ensures Lines(mode, s, a + b) == Lines(mode, Lines(mode, s, a), b)
    decreases |a|
  {
    if a == [] {
      assert a + b == b;
    } else {
      assert (a + b)[1..] == a[1..] + b;
      LinesAppend(mode, Line(mode, s, a[0]), a[1..], b);
    }
  }

  /** One turn of the parsing loop leaves the final outcome as it was. */
  lemma ParseOneLine(mode: Mode, s: State, flushing: bool)
    requires LineEnd(s.buffer, flushing) != -1
    ensures var line := s.buffer[..LineEnd(s.buffer, flushing)];
            var next := Line(mode, s.(buffer := AfterLine(s.buffer, flushing)), line);
            && next.buffer == AfterLine(s.buffer, flushing)
            && Parse(mode, next, flushing) == Parse(mode, s, flushing)
  {
    var line, rest := s.buffer[..LineEnd(s.buffer, flushing)], AfterLine(s.buffer, flushing);
    var r := Scan(rest, flushing);
    assert ([line] + r.0)[1..] == r.0;
    LineKeepsBuffer(mode, s, line, rest);
    LinesKeepBuffer(mode, Line(mode, s, line), r.0, rest);
  }
}
