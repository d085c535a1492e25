/** What a stream of server-sent events means, told by field names and values (src/proxy/sse/transformer.ts:146-376). */
module SseFields {
  import opened Text
  import opened SseLines
  import opened SseParser
  import opened SseChunking
  import Decimal

  // ----- the reference: a line has a name, up to the first colon, and a value

  /** Where the first colon is; the length of the line when there is none. */
  function Colon(line: string): (k: nat)
    ensures k <= |line| && (k < |line| ==> line[k] == ':')
    ensures forall i | 0 <= i < k :: line[i] != ':'
  {
    if line == "" || line[0] == ':' then 0
    else
      var k := Colon(line[1..]);
      assert forall i | 1 <= i < k + 1 :: line[i] == line[1..][i - 1];
      k + 1
  }

  predicate HasColon(line: string) { Colon(line) < |line| }

  function Name(line: string): string { line[..Colon(line)] }

  function AfterColon(line: string): string { if HasColon(line) then line[Colon(line) + 1..] else "" }

  function Unblanked(v: string): string { if v != "" && v[0] == ' ' then v[1..] else v }

  function Value(line: string): string { Unblanked(AfterColon(line)) }

  /** The values of all data lines of a block. */
  function DataOf(block: seq<string>): (values: seq<string>) {
    if block == [] then []
    else
      var line := block[|block| - 1];
      DataOf(block[..|block| - 1]) + (if Name(line) == "data" then [Value(line)] else [])
  }

  /** The value of the last line of a block that has that name and a colon. */
  function LastOf(block: seq<string>, name: string): (value: Option<string>) {
    if block == [] then None
    else
      var line := block[|block| - 1];
      if HasColon(line) && Name(line) == name then Some(Value(line)) else LastOf(block[..|block| - 1], name)
  }

  /** The last retry line of a block that has a number. */
  function RetryOf(block: seq<string>): (retry: Option<int>) {
    if block == [] then None
    else
      var line := block[|block| - 1];
      if HasColon(line) && Name(line) == "retry" && Decimal.ParseInt(Trim(AfterColon(line))).Some?
      then Decimal.ParseInt(Trim(AfterColon(line)))
      else RetryOf(block[..|block| - 1])
  }

  /** A block is an event if it has a data, event or id field; other blocks run on into the next. */
  predicate IsEvent(block: seq<string>) {
    DataOf(block) != [] || LastOf(block, "event").Some? || LastOf(block, "id").Some?
  }

  function EventOf(block: seq<string>): (e: Event) {
    Event(LastOf(block, "event"), LastOf(block, "id"), RetryOf(block), JoinLines(DataOf(block)), JoinLines(block))
  }

  /** The events of some lines after the block begun: a blank line, or the end, ends a block. */
  function Interpreted(block: seq<string>, lines: seq<string>): (es: seq<Event>)
    decreases |lines|
  {
    if lines == [] then (if IsEvent(block) then [EventOf(block)] else [])
    else if lines[0] != "" then Interpreted(block + [lines[0]], lines[1..])
    else if IsEvent(block) then [EventOf(block)] + Interpreted([], lines[1..])
    else Interpreted(block, lines[1..])
  }

  // ----- prefixes are names

  lemma ColonIs(line: string, k: nat)
    requires k < |line| && line[k] == ':' && forall i | 0 <= i < k :: line[i] != ':'
    ensures Colon(line) == k
  {
  }

  /** A line starts with a name and a colon exactly if that is its name. */
  lemma PrefixIsName(line: string, name: string)
    requires forall i | 0 <= i < |name| :: name[i] != ':'
    ensures StartsWith(line, name + ":") <==> HasColon(line) && Name(line) == name
    ensures StartsWith(line, name + ":") ==> AfterColon(line) == line[|name| + 1..]
    ensures line == name ==> !HasColon(line) && Name(line) == name
  {
    var prefix := name + ":";
    if StartsWith(line, prefix) {
      assert line[|name|] == prefix[|name|];
      assert forall i | 0 <= i < |name| :: line[i] == prefix[i];
      ColonIs(line, |name|);
      assert line[..|name|] == name;
    }
    if HasColon(line) && Name(line) == name {
      assert line[..|prefix|] == prefix;
    }
  }

  /** The pending fields of a block. */
  function PendingOf(block: seq<string>): (p: Pending) {
    Pending(DataOf(block), block, LastOf(block, "event"), LastOf(block, "id"), RetryOf(block))
  }

  lemma BlockSnoc(block: seq<string>, line: string)
    ensures (block + [line])[..|block|] == block && (block + [line])[|block|] == line
    ensures DataOf(block) + [] == DataOf(block)
  {
  }

  lemma BareName(line: string, name: string)
    requires !HasColon(line)
    ensures Name(line) == name <==> line == name
  {
  }

  lemma DataLineMeans(block: seq<string>, line: string)
    requires Name(line) == "data"
    ensures AddField(PendingOf(block).(rawLines := block + [line]), line) == PendingOf(block + [line])
  {
    BlockSnoc(block, line);
    PrefixIsName(line, "data");
    assert "data" + ":" == "data:";
    if !HasColon(line) {
      BareName(line, "data");
    }
  }

  lemma PrefixesAreNames(line: string)
    ensures StartsWith(line, "data:") <==> HasColon(line) && Name(line) == "data"
    ensures StartsWith(line, "event:") <==> HasColon(line) && Name(line) == "event"
    ensures StartsWith(line, "id:") <==> HasColon(line) && Name(line) == "id"
    ensures StartsWith(line, "retry:") <==> HasColon(line) && Name(line) == "retry"
    ensures line == "data" ==> !HasColon(line) && Name(line) == "data"
  {
    PrefixIsName(line, "data");
    PrefixIsName(line, "event");
    PrefixIsName(line, "id");
    PrefixIsName(line, "retry");
    assert "data" + ":" == "data:" && "event" + ":" == "event:" && "id" + ":" == "id:" && "retry" + ":" == "retry:";
  }

  lemma OtherLineMeans(block: seq<string>, line: string)
    requires Name(line) != "data" && line != ""
    ensures AddField(PendingOf(block).(rawLines := block + [line]), line) == PendingOf(block + [line])
  {
    BlockSnoc(block, line);
    PrefixesAreNames(line);
    if HasColon(line) && Name(line) in {"event", "id", "retry"} {
      PrefixIsName(line, Name(line));
    }
  }

  lemma CommentMeans(block: seq<string>, line: string)
    requires line != "" && line[0] == ':'
    ensures PendingOf(block).(rawLines := block + [line]) == PendingOf(block + [line])
  {
    BlockSnoc(block, line);
    assert Name(line) == "";
  }

  /** A line of a block, whatever it is, adds what its name and value say. */
  lemma LineMeans(mode: Mode, s: State, block: seq<string>, line: string)
    requires s.pending == PendingOf(block) && line != ""
    ensures Line(mode, s, line) == s.(pending := PendingOf(block + [line]))
  {
    if line[0] == ':' {
      CommentMeans(block, line);
    } else if Name(line) == "data" {
      DataLineMeans(block, line);
    } else {
      OtherLineMeans(block, line);
    }
  }

  lemma BlankMeans(mode: Mode, s: State, block: seq<string>)
    requires s.pending == PendingOf(block)
    ensures var t := Line(mode, s, "");
            if IsEvent(block) then t.events == s.events + [EventOf(block)] && t.pending == PendingOf([]) else t == s
  {
  }

  lemma {:induction false} LinesMean(mode: Mode, s: State, block: seq<string>, lines: seq<string>)
    requires s.pending == PendingOf(block)
    ensures var t := Lines(mode, s, lines);
            (if Dispatchable(t.pending) then Dispatch(mode, t) else t).events == s.events + Interpreted(block, lines)
    decreases |lines|
  {
    if lines == [] {
      BlankMeans(mode, s, block);
      assert s.events + [] == s.events;
    } else {
      var next := Line(mode, s, lines[0]);
      if lines[0] != "" {
        LineMeans(mode, s, block, lines[0]);
        LinesMean(mode, next, block + [lines[0]], lines[1..]);
      } else {
        BlankMeans(mode, s, block);
        if IsEvent(block) {
          LinesMean(mode, next, [], lines[1..]);
          assert s.events + [EventOf(block)] + Interpreted([], lines[1..])
              == s.events + ([EventOf(block)] + Interpreted([], lines[1..]));
        } else {
          LinesMean(mode, next, block, lines[1..]);
        }
      }
    }
  }

  /**
   * Every stream, in any chunks and either mode, yields the events its lines mean: of each block the
   * values of its data lines joined, the last event type and id, the last retry that is a number,
   * and its lines as they came.
   */
  lemma StreamMeans(mode: Mode, chunks: seq<string>)
    ensures Stream(mode, chunks).events == Interpreted([], SplitLines(Flatten(chunks), ""))
  {
    if mode.Passthrough? {
      ModesAgreeOnEvents(chunks);
    }
    StreamIsOnePass(chunks);
    LinesMean(Events, START, [], SplitLines(Flatten(chunks), ""));
    assert [] + Interpreted([], SplitLines(Flatten(chunks), "")) == Interpreted([], SplitLines(Flatten(chunks), ""));
  }

  // ----- one field

  lemma {:induction false} SplitFrom(line: string, current: string, rest: string)
    requires OneLine(line)
    ensures SplitLines(line + "\n" + rest, current) == [current + line] + SplitLines(rest, "")
    decreases |line|
  {
    var text := line + "\n" + rest;
    if line == "" {
      assert text[1..] == rest && current + line == current;
    } else {
      assert text[1..] == line[1..] + "\n" + rest;
      SplitFrom(line[1..], current + [line[0]], rest);
      assert current + [line[0]] + line[1..] == current + line;
    }
  }

  /** A line and a blank one make a block of that line. */
  lemma OneLineBlock(mode: Mode, chunks: seq<string>, line: string)
    requires OneLine(line) && line != "" && Flatten(chunks) == line + "\n\n"
    ensures Stream(mode, chunks).events == if IsEvent([line]) then [EventOf([line])] else []
  {
    StreamMeans(mode, chunks);
    assert line + "\n\n" == line + "\n" + "\n";
    SplitFrom(line, "", "\n");
    assert "" + line == line && SplitLines("\n", "") == [""];
    var lines := SplitLines(Flatten(chunks), "");
    assert lines == [line, ""];
    assert lines[1..] == [""] && [] + [line] == [line];
    assert Interpreted([], lines) == Interpreted([line], [""]);
    assert [""][1..] == [];
  }

  lemma BlockOfOne(line: string)
    ensures DataOf([line]) == if Name(line) == "data" then [Value(line)] else []
    ensures forall name :: LastOf([line], name)
                           == if HasColon(line) && Name(line) == name then Some(Value(line)) else None
  {
    assert [line][..0] == [];
  }

  lemma FieldLine(name: string, v: string)
    requires forall i | 0 <= i < |name| :: name[i] != ':'
    ensures var line := name + ":" + v;
            HasColon(line) && Name(line) == name && AfterColon(line) == v
  {
    var line := name + ":" + v;
    ColonIs(line, |name|);
    assert line[..|name|] == name && line[|name| + 1..] == v;
  }

  lemma RetryOfOne(line: string)
    requires Name(line) != "retry"
    ensures RetryOf([line]) == None
  {
    assert [line][..0] == [];
  }

  lemma EventOfOne(name: string, v: string)
    requires name in {"data", "event", "id"}
    ensures var line, value := name + ":" + v, Unblanked(v);
            && IsEvent([line])
            && EventOf([line]) == Event(if name == "event" then Some(value) else None,
                                        if name == "id" then Some(value) else None,
                                        None, if name == "data" then value else "", line)
  {
    var line := name + ":" + v;
    FieldLine(name, v);
    BlockOfOne(line);
    RetryOfOne(line);
  }

  lemma FieldIsOneLine(name: string, v: string)
    requires OneLine(name) && OneLine(v)
    ensures var line := name + ":" + v;
            OneLine(line) && line != "" && name + ":" + v + "\n\n" == line + "\n\n"
  {
  }

  lemma NamesAreOneLine(name: string)
    requires name in {"data", "event", "id"}
    ensures OneLine(name)
  {
  }

  /**
   * The stream of one field, name and value separated by a colon: of the value one leading blank
   * is dropped, and nothing else.
   */
  lemma FieldIsRead(mode: Mode, chunks: seq<string>, name: string, v: string)
    requires name in {"data", "event", "id"} && OneLine(v) && Flatten(chunks) == name + ":" + v + "\n\n"
    ensures var value := if v != "" && v[0] == ' ' then v[1..] else v;
            Stream(mode, chunks).events == [Event(if name == "event" then Some(value) else None,
                                                  if name == "id" then Some(value) else None,
                                                  None, if name == "data" then value else "", name + ":" + v)]
  {
    NamesAreOneLine(name);
    FieldIsOneLine(name, v);
    OneLineBlock(mode, chunks, name + ":" + v);
    EventOfOne(name, v);
  }

  /** The bare name of a data field is an empty data line. */
  lemma BareDataIsRead(mode: Mode, chunks: seq<string>)
    requires Flatten(chunks) == "data\n\n"
    ensures Stream(mode, chunks).events == [Event(None, None, None, "", "data")]
  {
    PrefixIsName("data", "data");
    BlockOfOne("data");
    RetryOfOne("data");
    assert "data" + "\n\n" == "data\n\n";
    OneLineBlock(mode, chunks, "data");
  }

  /** Comments, fields with any other name, and other lines without a colon change nothing but the raw text. */
  lemma OtherLinesAreIgnored(mode: Mode, s: State, line: string)
    requires line != "" && line != "data" && !(HasColon(line) && Name(line) in {"data", "event", "id", "retry"})
    ensures Line(mode, s, line) == s.(pending := s.pending.(rawLines := s.pending.rawLines + [line]))
  {
    PrefixesAreNames(line);
  }
}
