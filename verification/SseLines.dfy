/** Cutting a text that arrives in chunks into lines (src/proxy/sse/transformer.ts). */
module SseLines {

  predicate IsNewline(c: char) { c == '\n' || c == '\r' }

  predicate OneLine(s: string) {
    forall i | 0 <= i < |s| :: !IsNewline(s[i])
  }

  /** Where the first newline character is; the length of the text when there is none. */
  function FirstNewline(s: string): (k: nat)
    ensures k <= |s| && OneLine(s[..k])
    ensures k < |s| ==> IsNewline(s[k])
  {
    if s == "" || IsNewline(s[0]) then 0
    else
      var k := 1 + FirstNewline(s[1..]);
      assert forall i | 0 < i < k :: s[i] == s[1..][..k - 1][i - 1];
      k
  }

  lemma FirstNewlineUnique(s: string, k: nat)
    requires k <= |s| && OneLine(s[..k]) && (k < |s| ==> IsNewline(s[k]))
    ensures FirstNewline(s) == k
  {
    var j := FirstNewline(s);
    assert forall i | 0 <= i < k :: s[..k][i] == s[i];
    assert forall i | 0 <= i < j :: s[..j][i] == s[i];
  }

  /** The line end the parser may act on: a CR at the edge of the buffer waits for the next chunk. */
  function LineEnd(buf: string, flushing: bool): (k: int)
    ensures -1 <= k < |buf|
  {
    var k := FirstNewline(buf);
    if k == |buf| || (buf[k] == '\r' && k == |buf| - 1 && !flushing) then -1 else k
  }

  function DelimiterLength(buf: string, k: nat): (d: nat)
    requires k < |buf|
    ensures 1 <= d && k + d <= |buf|
  {
    if buf[k] == '\r' && k + 1 < |buf| && buf[k + 1] == '\n' then 2 else 1
  }

  /** What follows the first line of a buffer. */
  function AfterLine(buf: string, flushing: bool): (rest: string)
    requires LineEnd(buf, flushing) != -1
    ensures |rest| < |buf|
  {
    var k := LineEnd(buf, flushing);
    buf[k + DelimiterLength(buf, k)..]
  }

  /** All complete lines of a buffer, and what stays in it. */
  function Scan(buf: string, flushing: bool): (r: (seq<string>, string))
    decreases |buf|
  {
    var k := LineEnd(buf, flushing);
    if k == -1 then ([], buf)
    else
      var rest := Scan(AfterLine(buf, flushing), flushing);
      ([buf[..k]] + rest.0, rest.1)
  }

  lemma {:induction false} ScannedLinesAreOneLine(buf: string, flushing: bool)
    ensures forall l | l in Scan(buf, flushing).0 :: OneLine(l)
    decreases |buf|
  {
    var k := LineEnd(buf, flushing);
    if k != -1 {
      ScannedLinesAreOneLine(AfterLine(buf, flushing), flushing);
    }
  }

  /** No newline, except for a CR held back at the edge. */
  predicate Leftover(rest: string, flushing: bool) {
    OneLine(rest) || (!flushing && OneLine(rest[..|rest| - 1]) && rest[|rest| - 1] == '\r')
  }

  lemma NothingUsable(buf: string, flushing: bool)
    requires LineEnd(buf, flushing) == -1
    ensures Leftover(buf, flushing)
  {
  }

  lemma {:induction false} LeftoverShape(buf: string, flushing: bool)
    ensures Leftover(Scan(buf, flushing).1, flushing)
    decreases |buf|
  {
    if LineEnd(buf, flushing) == -1 {
      NothingUsable(buf, flushing);
    } else {
      LeftoverShape(AfterLine(buf, flushing), flushing);
    }
  }

  /** A usable line end of a buffer stays the first usable one whatever arrives later. */
  lemma LineEndStable(a: string, b: string, flushing: bool)
    requires LineEnd(a, false) != -1
    ensures LineEnd(a + b, flushing) == LineEnd(a, false)
    ensures DelimiterLength(a + b, LineEnd(a, false)) == DelimiterLength(a, LineEnd(a, false))
  {
    var k := LineEnd(a, false);
    assert (a + b)[..k] == a[..k];
    FirstNewlineUnique(a + b, k);
  }

  lemma AfterLineOfBoth(a: string, b: string, flushing: bool)
    requires LineEnd(a, false) != -1
    ensures LineEnd(a + b, flushing) == LineEnd(a, false)
    ensures (a + b)[..LineEnd(a, false)] == a[..LineEnd(a, false)]
    ensures AfterLine(a + b, flushing) == AfterLine(a, false) + b
  {
    LineEndStable(a, b, flushing);
  }

  /** The first line of a + b is the first line of a, if a has one. */
  lemma FirstLineOfBoth(a: string, b: string, flushing: bool)
    requires LineEnd(a, false) != -1
    ensures var r := Scan(AfterLine(a, false) + b, flushing);
            Scan(a + b, flushing) == ([a[..LineEnd(a, false)]] + r.0, r.1)
  {
    AfterLineOfBoth(a, b, flushing);
  }

  /** Scanning a, then what it left followed by b, finds the lines of a + b. */
  lemma {:induction false} ScanInTwoParts(a: string, b: string, flushing: bool)
    ensures var first := Scan(a, false);
            var second := Scan(first.1 + b, flushing);
            Scan(a + b, flushing) == (first.0 + second.0, second.1)
    decreases |a|
  {
    if LineEnd(a, false) == -1 {
      assert [] + Scan(a + b, flushing).0 == Scan(a + b, flushing).0;
    } else {
      FirstLineOfBoth(a, b, flushing);
      var line, tail := a[..LineEnd(a, false)], Scan(AfterLine(a, false), false);
      ScanInTwoParts(AfterLine(a, false), b, flushing);
      assert [line] + (tail.0 + Scan(tail.1 + b, flushing).0) == ([line] + tail.0) + Scan(tail.1 + b, flushing).0;
    }
  }

  /** The reference: one pass over the text, a line ending at CRLF, LF or CR, and a last line if text is left. */
  function SplitLines(text: string, current: string): (lines: seq<string>)
    decreases |text|
  {
    if text == "" then (if current == "" then [] else [current])
    else if text[0] == '\n' then [current] + SplitLines(text[1..], "")
    else if text[0] == '\r' then
      [current] + SplitLines(if |text| > 1 && text[1] == '\n' then text[2..] else text[1..], "")
    else SplitLines(text[1..], current + [text[0]])
  }

  /** All lines of a finished text as the parser hands them out. */
  function AllLines(text: string): (lines: seq<string>) {
    var r := Scan(text, true);
    r.0 + (if r.1 == "" then [] else [r.1])
  }

  /** The first line of a finished text, and the lines after it. */
  lemma AllLinesStep(current: string, text: string)
    requires OneLine(current) && text != "" && IsNewline(text[0])
    ensures var d := if text[0] == '\r' && |text| > 1 && text[1] == '\n' then 2 else 1;
            AllLines(current + text) == [current] + AllLines(text[d..])
  {
    var buf := current + text;
    assert buf[..|current|] == current;
    FirstNewlineUnique(buf, |current|);
    var d := DelimiterLength(buf, |current|);
    assert buf[|current| + d..] == text[d..];
    var r := Scan(text[d..], true);
    var last := if r.1 == "" then [] else [r.1];
    assert ([current] + r.0) + last == [current] + (r.0 + last);
  }

  lemma {:induction false} AllLinesFrom(text: string, current: string)
    requires OneLine(current)
    ensures AllLines(current + text) == SplitLines(text, current)
    decreases |text|
  {
    var buf := current + text;
    if text == "" {
      assert buf == current && buf[..|buf|] == buf;
      FirstNewlineUnique(buf, |buf|);
    } else if IsNewline(text[0]) {
      AllLinesStep(current, text);
      var d := if text[0] == '\r' && |text| > 1 && text[1] == '\n' then 2 else 1;
      AllLinesFrom(text[d..], "");
      assert "" + text[d..] == text[d..];
    } else {
      AllLinesFrom(text[1..], current + [text[0]]);
      assert current + [text[0]] + text[1..] == buf;
    }
  }

  /** The buffered scan of a whole text cuts it exactly as the one-pass reference does. */
  lemma ScanIsOnePassSplit(text: string)
    ensures AllLines(text) == SplitLines(text, "")
  {
    AllLinesFrom(text, "");
    assert "" + text == text;
  }

  /** Every line followed by a LF. */
  function Unlines(lines: seq<string>): (r: string) {
    if lines == [] then "" else lines[0] + "\n" + Unlines(lines[1..])
  }

  lemma {:induction false} UnlinesAppend(a: seq<string>, b: seq<string>)
    ensures Unlines(a + b) == Unlines(a) + Unlines(b)
  {
    if a == [] {
      assert a + b == b;
    } else {
      assert (a + b)[1..] == a[1..] + b;
      UnlinesAppend(a[1..], b);
    }
  }

  /** Scanning printed lines gives them back and leaves nothing. */
  lemma {:induction false} ScanUnlines(lines: seq<string>)
    requires forall l | l in lines :: OneLine(l)
    ensures Scan(Unlines(lines), false) == (lines, "")
  {
    if lines != [] {
      var buf := Unlines(lines);
      var k := |lines[0]|;
      assert buf[..k] == lines[0] && buf[k] == '\n';
      FirstNewlineUnique(buf, k);
      assert buf[k + 1..] == Unlines(lines[1..]);
      ScanUnlines(lines[1..]);
      assert [lines[0]] + lines[1..] == lines;
    }
  }
}
