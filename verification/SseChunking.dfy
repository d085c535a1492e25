/** However a stream is cut into chunks, the transformer does the same (src/proxy/sse/transformer.ts:146-261). */
module SseChunking {
  import opened Text
  import opened SseLines
  import opened SseParser

  /** Equal up to how the text sent downstream was cut, apart from the unread buffer. */
  predicate Alike(s: State, t: State) {
    s.pending == t.pending && s.events == t.events && Flatten(s.sent) == Flatten(t.sent)
  }

  lemma LineAlike(mode: Mode, s: State, t: State, line: string)
    requires Alike(s, t)
    ensures Alike(Line(mode, s, line), Line(mode, t, line))
  {
    var text := FormatEvent(ToEvent(s.pending));
    FlattenSnoc(s.sent, text);
    FlattenSnoc(t.sent, text);
  }

  lemma {:induction false} LinesAlike(mode: Mode, s: State, t: State, lines: seq<string>)
    requires Alike(s, t)
    ensures Alike(Lines(mode, s, lines), Lines(mode, t, lines))
    decreases |lines|
  {
    if lines != [] {
      LineAlike(mode, s, t, lines[0]);
      LinesAlike(mode, Line(mode, s, lines[0]), Line(mode, t, lines[0]), lines[1..]);
    }
  }

  /** In passthrough mode lines do not write downstream. */
  lemma {:induction false} PassthroughSendsNothing(s: State, lines: seq<string>)
    ensures Lines(Passthrough, s, lines).sent == s.sent
    decreases |lines|
  {
    if lines != [] {
      PassthroughSendsNothing(Line(Passthrough, s, lines[0]), lines[1..]);
    }
  }

  lemma FlushAlike(mode: Mode, s: State, t: State)
    requires Seen(s) == Seen(t)
    ensures Seen(Flush(mode, s)) == Seen(Flush(mode, t))
  {
    LinesAlike(mode, s, t, Scan(s.buffer, true).0);
    var s1, t1 := Parse(mode, s, true), Parse(mode, t, true);
    LineAlike(mode, s1.(buffer := ""), t1.(buffer := ""), s1.buffer);
    LineKeepsBuffer(mode, s1, s1.buffer, "");
    LineKeepsBuffer(mode, t1, s1.buffer, "");
    var s2 := if s1.buffer == "" then s1 else Line(mode, s1.(buffer := ""), s1.buffer);
    var t2 := if t1.buffer == "" then t1 else Line(mode, t1.(buffer := ""), t1.buffer);
    LineAlike(mode, s2, t2, "");
  }

  lemma Regrouped(x: string, a: string, b: string)
    ensures (x + a) + b == x + (a + b)
  {
  }

  /** In events mode a chunk adds the lines it completes, and the buffer keeps the rest. */
  lemma FeedAddsLines(s: State, chunk: string, r: (seq<string>, string))
    requires r == Scan(s.buffer + chunk, false)
    ensures Feed(Events, s, chunk) == Lines(Events, s, r.0).(buffer := r.1)
  {
    LinesKeepBuffer(Events, s, r.0, s.buffer + chunk);
  }

  lemma LinesInTwoParts(s: State, a: seq<string>, b: seq<string>, mid: string, rest: string)
    ensures Lines(Events, Lines(Events, s, a).(buffer := mid), b).(buffer := rest)
            == Lines(Events, s, a + b).(buffer := rest)
  {
    LinesAppend(Events, s, a, b);
    LinesKeepBuffer(Events, Lines(Events, s, a), b, mid);
  }

  lemma FeedInTwoPartsEvents(s: State, a: string, b: string)
    ensures Feed(Events, Feed(Events, s, a), b) == Feed(Events, s, a + b)
  {
    var first := Scan(s.buffer + a, false);
    var second := Scan(first.1 + b, false);
    Regrouped(s.buffer, a, b);
    ScanInTwoParts(s.buffer + a, b, false);
    FeedAddsLines(s, a, first);
    FeedAddsLines(Feed(Events, s, a), b, second);
    FeedAddsLines(s, a + b, (first.0 + second.0, second.1));
    LinesInTwoParts(s, first.0, second.0, first.1, second.1);
  }

  /** In passthrough mode a chunk goes downstream as it is, and its lines are parsed as ever. */
  lemma FeedPassesThrough(s: State, chunk: string, r: (seq<string>, string))
    requires r == Scan(s.buffer + chunk, false)
    ensures var t, parsed := Feed(Passthrough, s, chunk), Lines(Passthrough, s, r.0);
            && t.buffer == r.1 && t.sent == s.sent + [chunk] && parsed.sent == s.sent
            && t.pending == parsed.pending && t.events == parsed.events
  {
    var fed := s.(buffer := s.buffer + chunk, sent := s.sent + [chunk]);
    PassthroughSendsNothing(fed, r.0);
    PassthroughSendsNothing(s, r.0);
    LinesPending(fed, s, r.0);
  }

  lemma FeedInTwoPartsPassthrough(s: State, a: string, b: string)
    ensures Seen(Feed(Passthrough, Feed(Passthrough, s, a), b)) == Seen(Feed(Passthrough, s, a + b))
  {
    var first := Scan(s.buffer + a, false);
    var second := Scan(first.1 + b, false);
    Regrouped(s.buffer, a, b);
    ScanInTwoParts(s.buffer + a, b, false);
    FeedPassesThrough(s, a, first);
    FeedPassesThrough(Feed(Passthrough, s, a), b, second);
    FeedPassesThrough(s, a + b, (first.0 + second.0, second.1));
    LinesAppend(Passthrough, s, first.0, second.0);
    LinesPending(Feed(Passthrough, s, a), Lines(Passthrough, s, first.0), second.0);
    SentInTwoParts(s.sent, a, b);
  }

  lemma SentInTwoParts(sent: seq<string>, a: string, b: string)
    ensures Flatten(sent + [a] + [b]) == Flatten(sent + [a + b])
  {
    FlattenSnoc(sent, a);
    FlattenSnoc(sent + [a], b);
    FlattenSnoc(sent, a + b);
  }

  /** Feeding a and then b leaves the same buffer, pending fields, events and output text as feeding a + b. */
  lemma FeedInTwoParts(mode: Mode, s: State, a: string, b: string)
    ensures Seen(Feed(mode, Feed(mode, s, a), b)) == Seen(Feed(mode, s, a + b))
    ensures mode.Events? ==> Feed(mode, Feed(mode, s, a), b) == Feed(mode, s, a + b)
  {
    if mode.Events? {
      FeedInTwoPartsEvents(s, a, b);
    } else {
      FeedInTwoPartsPassthrough(s, a, b);
    }
  }

  /** In passthrough mode what was sent before plays no part in parsing. */
  lemma {:induction false} LinesPending(s: State, t: State, lines: seq<string>)
    requires s.pending == t.pending && s.events == t.events
    ensures Lines(Passthrough, s, lines).pending == Lines(Passthrough, t, lines).pending
    ensures Lines(Passthrough, s, lines).events == Lines(Passthrough, t, lines).events
    decreases |lines|
  {
    if lines != [] {
      LinesPending(Line(Passthrough, s, lines[0]), Line(Passthrough, t, lines[0]), lines[1..]);
    }
  }

  lemma {:induction false} LeftoverIsSettled(buf: string, flushing: bool)
    ensures LineEnd(Scan(buf, flushing).1, flushing) == -1
    decreases |buf|
  {
    var k := LineEnd(buf, flushing);
    if k != -1 {
      LeftoverIsSettled(AfterLine(buf, flushing), flushing);
    }
  }

  /** Any chunks do what their concatenation does. */
  lemma {:induction false} FeedAllIsFeedWhole(mode: Mode, s: State, chunks: seq<string>)
    requires LineEnd(s.buffer, false) == -1
    ensures Seen(FeedAll(mode, s, chunks)) == Seen(Feed(mode, s, Flatten(chunks)))
    decreases |chunks|
  {
    if chunks == [] {
      assert s.buffer + "" == s.buffer;
      FlattenSnoc(s.sent, "");
      assert Flatten(s.sent) + "" == Flatten(s.sent);
    } else {
      var next := Feed(mode, s, chunks[0]);
      LeftoverIsSettled(s.buffer + chunks[0], false);
      FeedAllIsFeedWhole(mode, next, chunks[1..]);
      FeedInTwoParts(mode, s, chunks[0], Flatten(chunks[1..]));
    }
  }

  /** Chunking independence: two ways of cutting one text give the same events and the same output text. */
  lemma ChunkingIndependence(mode: Mode, a: seq<string>, b: seq<string>)
    requires Flatten(a) == Flatten(b)
    ensures Seen(Stream(mode, a)) == Seen(Stream(mode, b))
  {
    FeedAllIsFeedWhole(mode, START, a);
    FeedAllIsFeedWhole(mode, START, b);
    FlushAlike(mode, FeedAll(mode, START, a), FeedAll(mode, START, b));
  }

  /** The reference: split the whole text in one pass, handle the lines, dispatch what is left. */
  function OnePass(mode: Mode, text: string): (t: State) {
    var s := Lines(mode, START, SplitLines(text, ""));
    if Dispatchable(s.pending) then Dispatch(mode, s) else s
  }

  /** Feeding a text and parsing what is left, as a flush does, handles the lines of one final scan. */
  lemma FeedThenParse(text: string)
    ensures var r := Scan(text, true);
            Parse(Events, Feed(Events, START, text), true) == Lines(Events, START, r.0).(buffer := r.1)
  {
    var first := Scan(text, false);
    var second := Scan(first.1, true);
    ScanInTwoParts(text, "", true);
    assert text + "" == text && first.1 + "" == first.1 && "" + text == text;
    var s1 := Lines(Events, START, first.0);
    LinesKeepBuffer(Events, START, first.0, text);
    LinesKeepBuffer(Events, s1, second.0, first.1);
    LinesAppend(Events, START, first.0, second.0);
  }

  lemma FeedThenFlush(text: string)
    ensures Flush(Events, Feed(Events, START, text)) == OnePass(Events, text)
  {
    var r := Scan(text, true);
    var s := Lines(Events, START, r.0);
    FeedThenParse(text);
    ScanIsOnePassSplit(text);
    LinesKeepBuffer(Events, START, r.0, "");
    var last := if r.1 == "" then [] else [r.1];
    LinesAppend(Events, START, r.0, last);
    if last != [] {
      assert Lines(Events, s, last) == Line(Events, s, r.1) by {
        assert last[0] == r.1 && last[1..] == [];
      }
    }
  }

  /** A stream of any chunks yields what the one-pass reference yields on the whole text. */
  lemma StreamIsOnePass(chunks: seq<string>)
    ensures Seen(Stream(Events, chunks)) == Seen(OnePass(Events, Flatten(chunks)))
  {
    FeedAllIsFeedWhole(Events, START, chunks);
    FlushAlike(Events, FeedAll(Events, START, chunks), Feed(Events, START, Flatten(chunks)));
    FeedThenFlush(Flatten(chunks));
  }

  lemma {:induction false} PassthroughSentIs(s: State, chunks: seq<string>)
    ensures FeedAll(Passthrough, s, chunks).sent == s.sent + chunks
    decreases |chunks|
  {
    if chunks != [] {
      FeedSends(s, chunks[0]);
      PassthroughSentIs(Feed(Passthrough, s, chunks[0]), chunks[1..]);
      assert chunks == [chunks[0]] + chunks[1..];
    }
  }

  lemma FeedSends(s: State, chunk: string)
    ensures Feed(Passthrough, s, chunk).sent == s.sent + [chunk]
  {
    FeedPassesThrough(s, chunk, Scan(s.buffer + chunk, false));
  }

  /** In passthrough mode exactly the chunks received go downstream, in order and unchanged. */
  lemma PassthroughForwardsChunks(chunks: seq<string>)
    ensures Stream(Passthrough, chunks).sent == chunks
  {
    PassthroughSentIs(START, chunks);
    FlushSendsNothing(FeedAll(Passthrough, START, chunks));
    assert [] + chunks == chunks;
  }

  lemma FlushSendsNothing(s: State)
    ensures Flush(Passthrough, s).sent == s.sent
  {
    PassthroughSendsNothing(s, Scan(s.buffer, true).0);
  }

  lemma {:induction false} ModesAgreeOnLines(s: State, t: State, lines: seq<string>)
    requires s.pending == t.pending && s.events == t.events
    ensures Lines(Passthrough, s, lines).pending == Lines(Events, t, lines).pending
    ensures Lines(Passthrough, s, lines).events == Lines(Events, t, lines).events
    decreases |lines|
  {
    if lines != [] {
      ModesAgreeOnLines(Line(Passthrough, s, lines[0]), Line(Events, t, lines[0]), lines[1..]);
    }
  }

  lemma {:induction false} ModesAgreeOnFeeding(s: State, t: State, chunks: seq<string>)
    requires s.buffer == t.buffer && s.pending == t.pending && s.events == t.events
    ensures var p, e := FeedAll(Passthrough, s, chunks), FeedAll(Events, t, chunks);
            p.buffer == e.buffer && p.pending == e.pending && p.events == e.events
    decreases |chunks|
  {
    if chunks != [] {
      var x := s.(buffer := s.buffer + chunks[0], sent := s.sent + [chunks[0]]);
      var y := t.(buffer := t.buffer + chunks[0]);
      ModesAgreeOnLines(x, y, Scan(x.buffer, false).0);
      ModesAgreeOnFeeding(Feed(Passthrough, s, chunks[0]), Feed(Events, t, chunks[0]), chunks[1..]);
    }
  }

  /** The mode changes what is sent downstream, never which events are parsed. */
  lemma ModesAgreeOnEvents(chunks: seq<string>)
    ensures Stream(Passthrough, chunks).events == Stream(Events, chunks).events
  {
    ModesAgreeOnFeeding(START, START, chunks);
    var p, e := FeedAll(Passthrough, START, chunks), FeedAll(Events, START, chunks);
    ModesAgreeOnLines(p, e, Scan(p.buffer, true).0);
  }
}
