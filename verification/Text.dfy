/** Text shared by the stream parser, the registry and the money code. */
module Text {

  datatype Option<+T> = None | Some(value: T)

  /** The characters JavaScript's `trim` and `parseInt` skip. */
  predicate IsSpace(c: char) {
    var n := c as int;
    (9 <= n <= 13) || n == 0x20 || n == 0xA0 || n == 0x1680 || (0x2000 <= n <= 0x200A)
    || n == 0x2028 || n == 0x2029 || n == 0x202F || n == 0x205F || n == 0x3000 || n == 0xFEFF
  }

  function TrimStart(s: string): (r: string) {
    if s != "" && IsSpace(s[0]) then TrimStart(s[1..]) else s
  }

  function TrimEnd(s: string): (r: string) {
    if s != "" && IsSpace(s[|s| - 1]) then TrimEnd(s[..|s| - 1]) else s
  }

  function Trim(s: string): (r: string) {
    TrimEnd(TrimStart(s))
  }

  /** `toLowerCase`, on the ASCII letters. */
  function LowerChar(c: char): char {
    if 'A' <= c <= 'Z' then (c as int + 32) as char else c
  }

  function Lower(s: string): (r: string)
    ensures |r| == |s|
  {
    seq(|s|, i requires 0 <= i < |s| => LowerChar(s[i]))
  }

  /** Concatenation of a list of texts. */
  function Flatten(parts: seq<string>): (r: string) {
    if parts == [] then "" else parts[0] + Flatten(parts[1..])
  }

  lemma {:induction false} FlattenAppend(a: seq<string>, b: seq<string>)
    ensures Flatten(a + b) == Flatten(a) + Flatten(b)
  {
    if a == [] {
      assert a + b == b;
    } else {
      assert (a + b)[1..] == a[1..] + b;
      FlattenAppend(a[1..], b);
    }
  }

  lemma FlattenSnoc(a: seq<string>, x: string)
    ensures Flatten(a + [x]) == Flatten(a) + x
  {
    FlattenAppend(a, [x]);
    assert Flatten([x]) == x + Flatten([]);
  }

  // ----- what these mean

  predicate AllSpaces(s: string) { forall i | 0 <= i < |s| :: IsSpace(s[i]) }

  lemma SpacesAre(c: char)
    ensures IsSpace(c) <==> c as int in {9, 10, 11, 12, 13, 32, 160, 5760, 8192, 8193, 8194, 8195, 8196, 8197, 8198,
                                         8199, 8200, 8201, 8202, 8232, 8233, 8239, 8287, 12288, 65279}
  {
  }

  lemma {:induction false} TrimStartIsRest(a: string, s: string)
    requires AllSpaces(a) && (s == "" || !IsSpace(s[0]))
    ensures TrimStart(a + s) == s
  {
    if a == "" {
      assert a + s == s;
    } else {
      assert (a + s)[1..] == a[1..] + s;
      TrimStartIsRest(a[1..], s);
    }
  }

  lemma {:induction false} TrimEndIsRest(s: string, b: string)
    requires AllSpaces(b) && (s == "" || !IsSpace(s[|s| - 1]))
    ensures TrimEnd(s + b) == s
  {
    if b == "" {
      assert s + b == s;
    } else {
      assert (s + b)[..|s + b| - 1] == s + b[..|b| - 1];
      TrimEndIsRest(s, b[..|b| - 1]);
    }
  }

  /** Trimming takes the white space off both ends, all of it and nothing else. */
  lemma TrimIsInner(a: string, s: string, b: string)
    requires AllSpaces(a) && AllSpaces(b) && s != "" && !IsSpace(s[0]) && !IsSpace(s[|s| - 1])
    ensures Trim(a + s + b) == s && Trim(a) == ""
  {
    assert a + s + b == a + (s + b);
    TrimStartIsRest(a, s + b);
    TrimEndIsRest(s, b);
    TrimStartIsRest(a, "");
    assert a + "" == a;
  }

  const UPPER := "ABCDEFGHIJKLMNOPQRSTUVWXYZ"
  const LOWER := "abcdefghijklmnopqrstuvwxyz"

  /** Each capital letter becomes the small one, and no other character changes. */
  lemma LowerMeans(s: string, i: nat)
    requires i < |s|
    ensures forall k | 0 <= k < 26 :: s[i] == UPPER[k] ==> Lower(s)[i] == LOWER[k]
    ensures s[i] !in UPPER ==> Lower(s)[i] == s[i]
  {
    if 'A' <= s[i] <= 'Z' {
      assert UPPER[s[i] as int - 'A' as int] == s[i];
    }
  }

  // ----- trimming and letter case together

  lemma {:induction false} TrimStartLower(s: string)
    ensures TrimStart(Lower(s)) == Lower(TrimStart(s))
  {
    if s != "" && IsSpace(s[0]) {
      TrimStartLower(s[1..]);
      assert Lower(s)[1..] == Lower(s[1..]);
    }
  }

  lemma {:induction false} TrimEndLower(s: string)
    ensures TrimEnd(Lower(s)) == Lower(TrimEnd(s))
  {
    if s != "" && IsSpace(s[|s| - 1]) {
      TrimEndLower(s[..|s| - 1]);
      assert Lower(s)[..|s| - 1] == Lower(s[..|s| - 1]);
    }
  }

  /** It does not matter whether white space or letter case is dealt with first. */
  lemma TrimLower(s: string)
    ensures Trim(Lower(s)) == Lower(Trim(s))
  {
    TrimStartLower(s);
    TrimEndLower(TrimStart(s));
  }

  lemma {:induction false} TrimStartEnds(s: string)
    ensures TrimStart(s) == "" || (!IsSpace(TrimStart(s)[0]) && TrimStart(s)[|TrimStart(s)| - 1] == s[|s| - 1])
  {
    if s != "" && IsSpace(s[0]) {
      TrimStartEnds(s[1..]);
    }
  }

  lemma {:induction false} TrimEndEnds(s: string)
    ensures TrimEnd(s) == "" || (TrimEnd(s)[0] == s[0] && !IsSpace(TrimEnd(s)[|TrimEnd(s)| - 1]))
  {
    if s != "" && IsSpace(s[|s| - 1]) {
      TrimEndEnds(s[..|s| - 1]);
    }
  }

  /** Trimmed text stays as it is. */
  lemma TrimTwice(s: string)
    ensures Trim(Trim(s)) == Trim(s)
  {
    TrimStartEnds(s);
    TrimEndEnds(TrimStart(s));
  }
}

/** Decimal notation: printing, reading, and that reading undoes printing. */
module Decimal {
  import opened Text

  predicate IsDigit(c: char) { '0' <= c <= '9' }

  function DigitValue(c: char): (r: nat)
    requires IsDigit(c)
    ensures r < 10
  {
    c as int - '0' as int
  }

  function DigitChar(d: nat): (c: char)
    requires d < 10
    ensures IsDigit(c) && DigitValue(c) == d
  {
    (d + '0' as int) as char
  }

  predicate AllDigits(s: string) {
    forall i | 0 <= i < |s| :: IsDigit(s[i])
  }

  function Value(s: string): (r: nat)
    requires AllDigits(s)
  {
    if s == "" then 0 else Value(s[..|s| - 1]) * 10 + DigitValue(s[|s| - 1])
  }

  /** The shortest decimal notation of a natural number. */
  function Digits(n: nat): (s: string)
    ensures |s| >= 1 && AllDigits(s) && Value(s) == n
  {
    if n < 10 then [DigitChar(n)]
    else
      var s := Digits(n / 10) + [DigitChar(n % 10)];
      assert s[..|s| - 1] == Digits(n / 10);
      s
  }

  function IntToString(n: int): (s: string) {
    if n < 0 then "-" + Digits(-n) else Digits(n)
  }

  /** The longest prefix of digits. */
  function LeadingDigits(s: string): (d: string)
    ensures |d| <= |s| && AllDigits(d)
  {
    if s != "" && IsDigit(s[0]) then [s[0]] + LeadingDigits(s[1..]) else ""
  }

  /** `parseInt(s, 10)`: skip white space, read a sign, then as many digits as there are. */
  function ParseInt(s: string): (r: Option<int>) {
    var t := TrimStart(s);
    var negative := t != "" && t[0] == '-';
    var digits := LeadingDigits(if t != "" && (t[0] == '-' || t[0] == '+') then t[1..] else t);
    if digits == "" then None
    else Some(if negative then 0 - Value(digits) else Value(digits))
  }

  lemma {:induction false} LeadingDigitsOf(digits: string, rest: string)
    requires AllDigits(digits) && (rest == "" || !IsDigit(rest[0]))
    ensures LeadingDigits(digits + rest) == digits
  {
    if digits == "" {
      assert digits + rest == rest;
    } else {
      LeadingDigitsOf(digits[1..], rest);
      assert (digits + rest)[1..] == digits[1..] + rest;
      assert [digits[0]] + digits[1..] == digits;
    }
  }

  lemma ReadsTail(s: string, text: string, sign: string, tail: string)
    requires TrimStart(s) == text && text == sign + tail && sign in {"", "-", "+"}
    requires sign == "" && tail != "" ==> tail[0] !in "+-"
    ensures var digits := LeadingDigits(tail);
            ParseInt(s) == if digits == "" then None else Some(if sign == "-" then 0 - Value(digits) else Value(digits))
  {
    if sign == "" {
      assert text == tail;
    } else {
      assert text[0] == sign[0] && text[1..] == tail;
    }
  }

  lemma PrintedDigits(n: nat)
    ensures var s := Digits(n);
            LeadingDigits(s) == s && IsDigit(s[0]) && TrimStart(s) == s && TrimStart("-" + s) == "-" + s
  {
    LeadingDigitsOf(Digits(n), "");
    assert Digits(n) + "" == Digits(n);
  }

  lemma ReadNatural(n: nat)
    ensures ParseInt(Digits(n)) == Some(n)
  {
    PrintedDigits(n);
  }

  lemma ReadNegative(n: nat)
    ensures ParseInt("-" + Digits(n)) == Some(0 - n)
  {
    PrintedDigits(n);
    ReadsTail("-" + Digits(n), "-" + Digits(n), "-", Digits(n));
  }

  lemma ReadPrintedInt(n: int)
    ensures ParseInt(IntToString(n)) == Some(n)
  {
    if n < 0 {
      ReadNegative(-n);
    } else {
      ReadNatural(n);
    }
  }

  /** Reading a printed integer behind the blank that precedes it on a field line. */
  lemma ParseIntOfPrinted(n: int)
    ensures ParseInt(Trim(" " + IntToString(n))) == Some(n)
  {
    var s := IntToString(n);
    ReadPrintedInt(n);
    assert (" " + s)[1..] == s;
    assert Trim(" " + s) == s;
  }

  lemma Regrouped(a: string, b: string, c: string, d: string)
    ensures a + b + c + d == a + (b + (c + d))
  {
  }

  /** White space, perhaps a sign, and digits are read as that number, whatever follows. */
  lemma ParseIntMeans(spaces: string, sign: string, digits: string, rest: string)
    requires AllSpaces(spaces) && sign in {"", "-", "+"} && AllDigits(digits)
    requires rest == "" || !IsDigit(rest[0])
    requires digits == "" && sign == "" ==> rest == "" || (!IsSpace(rest[0]) && rest[0] !in "+-")
    ensures ParseInt(spaces + sign + digits + rest)
            == if digits == "" then None else Some(if sign == "-" then 0 - Value(digits) else Value(digits))
  {
    var tail := digits + rest;
    var text := sign + tail;
    Regrouped(spaces, sign, digits, rest);
    assert digits != "" ==> IsDigit(tail[0]);
    assert digits == "" ==> tail == rest;
    TrimStartIsRest(spaces, text);
    LeadingDigitsOf(digits, rest);
    ReadsTail(spaces + text, text, sign, tail);
  }
}
