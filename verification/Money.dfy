/** Fixed-point microdollars as text (src/constants/financial.ts). */
module Money {
  import opened Text
  import opened Decimal

  // ----- digit strings

  function Pow10(k: nat): (p: nat)
    ensures p >= 1
  {
    if k == 0 then 1 else 10 * Pow10(k - 1)
  }

  lemma SixZeros()
    ensures Pow10(6) == 1_000_000 && Pow10(4) == 10000
  {
    assert Pow10(2) == 100 && Pow10(3) == 1000;
    assert Pow10(4) == 10000 && Pow10(5) == 100000;
  }

  function Zeros(k: nat): (s: string)
    ensures |s| == k && AllDigits(s) && forall i | 0 <= i < k :: s[i] == '0'
  {
    seq(k, _ => '0')
  }

  lemma {:induction false} ZerosValue(k: nat)
    ensures Value(Zeros(k)) == 0
  {
    if k > 0 {
      ZerosValue(k - 1);
      assert Zeros(k)[..k - 1] == Zeros(k - 1);
    }
  }

  lemma {:induction false} ValueBound(s: string)
    requires AllDigits(s)
    ensures Value(s) < Pow10(|s|)
  {
    if s != "" {
      ValueBound(s[..|s| - 1]);
    }
  }

  lemma Tenfold(v: int, p: int)
    ensures v * (10 * p) == 10 * (v * p)
  {
  }

  lemma {:induction false} ValueAppend(a: string, b: string)
    requires AllDigits(a) && AllDigits(b)
    ensures AllDigits(a + b) && Value(a + b) == Value(a) * Pow10(|b|) + Value(b)
    decreases |b|
  {
    if b == "" {
      assert a + b == a;
    } else {
      var n := |b| - 1;
      ValueAppend(a, b[..n]);
      assert (a + b)[..|a + b| - 1] == a + b[..n];
      Tenfold(Value(a), Pow10(n));
    }
  }

  lemma {:induction false} DigitsFit(n: nat, k: nat)
    requires k >= 1 && n < Pow10(k)
    ensures |Digits(n)| <= k
    decreases k
  {
    if n >= 10 {
      assert k >= 2 by { assert Pow10(1) == 10 * Pow10(0); }
      DigitsFit(n / 10, k - 1);
    }
  }

  function PadStart(s: string, k: nat): string { if |s| < k then Zeros(k - |s|) + s else s }

  function PadEnd(s: string, k: nat): string { if |s| < k then s + Zeros(k - |s|) else s }

  function DropZeros(s: string): (r: string) {
    if s != "" && s[|s| - 1] == '0' then DropZeros(s[..|s| - 1]) else s
  }

  lemma {:induction false} DroppedZeros(s: string)
    ensures |DropZeros(s)| <= |s| && s == DropZeros(s) + Zeros(|s| - |DropZeros(s)|)
  {
    if s != "" && s[|s| - 1] == '0' {
      var t := s[..|s| - 1];
      DroppedZeros(t);
      var k := |t| - |DropZeros(t)|;
      assert s == t + "0";
      assert Zeros(k + 1) == Zeros(k) + "0";
    } else {
      assert s + "" == s;
    }
  }

  // ----- reading

  /** The fraction brought to six digits: padded, or cut. */
  function SixDigits(fraction: string): (r: string)
    ensures |r| == 6
    ensures AllDigits(fraction) ==> AllDigits(r)
  {
    if |fraction| < 6 then fraction + Zeros(6 - |fraction|) else fraction[..6]
  }

  /** Digits before and after the point, in microdollars. */
  function Amount(whole: string, fraction: string): (n: nat)
    requires AllDigits(whole) && AllDigits(fraction)
  {
    Value(whole) * 1_000_000 + Value(SixDigits(fraction))
  }

  /** The magnitude of an unsigned amount: digits, and perhaps a point and more digits. */
  function ParseMagnitude(cleaned: string): (r: Option<nat>) {
    var whole := LeadingDigits(cleaned);
    var rest := cleaned[|whole|..];
    if whole == "" then None
    else if rest == "" then Some(Amount(whole, ""))
    else if |rest| >= 2 && rest[0] == '.' && AllDigits(rest[1..]) then
      Some(Amount(whole, rest[1..]))
    else None
  }

  /** `dollarsToMicrodollars` on text; None where the source throws. */
  function ParseDollars(dollars: string): (r: Option<int>) {
    var str := Trim(dollars);
    var negative := str != "" && str[0] == '-';
    var magnitude := ParseMagnitude(if negative then str[1..] else str);
    if magnitude.None? then None else Some(if negative then 0 - magnitude.value else magnitude.value)
  }

  // ----- printing

  datatype Precision = Cents | Microdollars | Auto

  function FractionText(fraction: nat, precision: Precision): (s: string)
    requires fraction < 1_000_000
  {
    var padded := PadStart(Digits(fraction), 6);
    match precision
    case Cents => Prefix2(padded)
    case Microdollars => padded
    case Auto => if fraction % 10000 == 0 then Prefix2(padded) else PadEnd(DropZeros(padded), 2)
  }

  /** `slice(0, 2)` */
  function Prefix2(s: string): string { if |s| < 2 then s else s[..2] }

  /** The unsigned text of an amount. */
  function Body(abs: nat, precision: Precision): string {
    Digits(abs / 1_000_000) + ("." + FractionText(abs % 1_000_000, precision))
  }

  function FormatMicrodollars(m: int, precision: Precision, symbol: bool): (s: string) {
    var text := (if symbol then "$" else "") + Body(if m < 0 then -m else m, precision);
    (if m < 0 then "-" else "") + text
  }

  // ----- what is read

  function Unsigned(whole: string, fraction: string): string {
    whole + (if fraction == "" then "" else "." + fraction)
  }

  /** The text is an optional minus, digits, and perhaps a point and more digits. */
  predicate Spells(text: string, negative: bool, whole: string, fraction: string) {
    && AllDigits(whole) && whole != "" && AllDigits(fraction)
    && text == if negative then "-" + Unsigned(whole, fraction) else Unsigned(whole, fraction)
  }

  lemma ReadMagnitude(whole: string, fraction: string)
    requires AllDigits(whole) && whole != "" && AllDigits(fraction)
    ensures var r := ParseMagnitude(Unsigned(whole, fraction));
            r.Some? && r.value == Amount(whole, fraction)
  {
    var rest := if fraction == "" then "" else "." + fraction;
    LeadingDigitsOf(whole, rest);
    assert (whole + rest)[|whole|..] == rest;
    assert fraction != "" ==> rest[1..] == fraction;
  }

  /** Text of that shape, white space around it or not, reads as the amount it spells. */
  lemma SpelledReads(s: string, negative: bool, whole: string, fraction: string)
    requires Spells(Trim(s), negative, whole, fraction)
    ensures var r := ParseDollars(s);
            r.Some? && r.value == if negative then 0 - Amount(whole, fraction) else Amount(whole, fraction)
  {
    var body := Unsigned(whole, fraction);
    ReadMagnitude(whole, fraction);
    assert body[0] == whole[0];
    assert ("-" + body)[1..] == body;
  }

  lemma {:induction false} LeadingDigitsLead(s: string)
    ensures s[..|LeadingDigits(s)|] == LeadingDigits(s)
  {
    if s != "" && IsDigit(s[0]) {
      var n := |LeadingDigits(s[1..])|;
      LeadingDigitsLead(s[1..]);
      assert s[..n + 1] == [s[0]] + s[1..][..n];
    }
  }

  lemma MagnitudeIsSpelled(cleaned: string)
    requires ParseMagnitude(cleaned).Some?
    ensures exists whole, fraction :: AllDigits(whole) && whole != "" && AllDigits(fraction)
                                      && cleaned == Unsigned(whole, fraction)
  {
    var whole := LeadingDigits(cleaned);
    var rest := cleaned[|whole|..];
    LeadingDigitsLead(cleaned);
    assert cleaned == whole + rest;
    var fraction := if rest == "" then "" else rest[1..];
    assert rest != "" ==> rest == "." + fraction;
    assert AllDigits(fraction) && cleaned == Unsigned(whole, fraction);
  }

  lemma SignedIsSpelled(str: string, whole: string, fraction: string)
    requires AllDigits(whole) && whole != "" && AllDigits(fraction) && str != ""
    requires (if str[0] == '-' then str[1..] else str) == Unsigned(whole, fraction)
    ensures Spells(str, str[0] == '-', whole, fraction)
  {
    if str[0] == '-' {
      assert str == "-" + str[1..];
    }
  }

  lemma ReadIsSpelled(s: string)
    requires ParseDollars(s).Some?
    ensures exists negative, whole, fraction :: Spells(Trim(s), negative, whole, fraction)
  {
    var str := Trim(s);
    var cleaned := if str != "" && str[0] == '-' then str[1..] else str;
    MagnitudeIsSpelled(cleaned);
    var whole, fraction :| AllDigits(whole) && whole != "" && AllDigits(fraction)
                           && cleaned == Unsigned(whole, fraction);
    SignedIsSpelled(str, whole, fraction);
  }

  /** Nothing else is read: all other text is an error. */
  lemma AcceptsExactly(s: string)
    ensures ParseDollars(s).Some? <==> exists negative, whole, fraction :: Spells(Trim(s), negative, whole, fraction)
  {
    if exists negative, whole, fraction :: Spells(Trim(s), negative, whole, fraction) {
      var negative, whole, fraction :| Spells(Trim(s), negative, whole, fraction);
      SpelledReads(s, negative, whole, fraction);
    }
    if ParseDollars(s).Some? {
      ReadIsSpelled(s);
    }
  }

  // ----- reading what was printed

  lemma TrimsNothing(s: string)
    requires s != "" && !IsSpace(s[0]) && !IsSpace(s[|s| - 1])
    ensures Trim(s) == s
  {
  }

  lemma PaddedFraction(fraction: nat)
    requires fraction < 1_000_000
    ensures var padded := PadStart(Digits(fraction), 6);
            |padded| == 6 && AllDigits(padded) && Value(padded) == fraction
  {
    SixZeros();
    DigitsFit(fraction, 6);
    var d := Digits(fraction);
    ZerosValue(6 - |d|);
    ValueAppend(Zeros(6 - |d|), d);
    assert "" + d == d;
  }

  lemma ValueAppendFour(a: string, b: string)
    requires AllDigits(a) && AllDigits(b) && |b| == 4
    ensures AllDigits(a + b) && Value(a + b) == Value(a) * 10000 + Value(b) && Value(b) < 10000
  {
    SixZeros();
    ValueAppend(a, b);
    ValueBound(b);
  }

  /** The first two of six digits count the whole cents. */
  lemma CentsOf(padded: string)
    requires |padded| == 6 && AllDigits(padded)
    ensures Value(SixDigits(padded[..2])) == Value(padded) - Value(padded) % 10000
  {
    var head, tail := padded[..2], padded[2..];
    assert padded == head + tail;
    ValueAppendFour(head, tail);
    ValueAppendFour(head, Zeros(4));
    ZerosValue(4);
    assert SixDigits(head) == head + Zeros(4);
    WholeTenThousands(Value(padded), Value(head), Value(tail));
  }

  lemma WholeTenThousands(n: int, q: int, r: int)
    requires n == q * 10000 + r && 0 <= r < 10000
    ensures n - n % 10000 == q * 10000
  {
  }

  lemma FractionReads(fraction: nat, precision: Precision)
    requires fraction < 1_000_000
    ensures var text := FractionText(fraction, precision);
            && text != "" && AllDigits(text)
            && Value(SixDigits(text)) == if precision.Cents? then fraction - fraction % 10000 else fraction
  {
    var padded := PadStart(Digits(fraction), 6);
    PaddedFraction(fraction);
    CentsOf(padded);
    assert padded[..6] == padded;
    if precision.Auto? && fraction % 10000 != 0 {
      DroppedZeros(padded);
      var kept := DropZeros(padded);
      assert AllDigits(kept) by { assert kept == padded[..|kept|]; }
      SixOfDropped(kept);
    }
  }

  lemma ZerosAdd(a: nat, b: nat)
    ensures Zeros(a) + Zeros(b) == Zeros(a + b)
  {
  }

  lemma SixOfDropped(kept: string)
    requires |kept| <= 6 && AllDigits(kept)
    ensures AllDigits(PadEnd(kept, 2)) && SixDigits(PadEnd(kept, 2)) == kept + Zeros(6 - |kept|)
  {
    if |kept| < 2 {
      SixOfShort(kept);
    } else if |kept| == 6 {
      assert kept[..6] == kept && kept + Zeros(0) == kept;
    }
  }

  lemma SixOfShort(kept: string)
    requires |kept| < 2 && AllDigits(kept)
    ensures SixDigits(kept + Zeros(2 - |kept|)) == kept + Zeros(6 - |kept|)
  {
    var k := 2 - |kept|;
    ZerosAdd(k, 4);
    assert kept + Zeros(k) + Zeros(4) == kept + (Zeros(k) + Zeros(4));
  }

  /** An amount cut towards zero to whole cents. */
  function ToCents(m: int): int {
    if m < 0 then -((-m) / 10000 * 10000) else m / 10000 * 10000
  }

  lemma CentsArithmetic(abs: nat)
    ensures abs / 1_000_000 * 1_000_000 + (abs % 1_000_000 - abs % 1_000_000 % 10000) == abs / 10000 * 10000
  {
    var q, f := abs / 1_000_000, abs % 1_000_000;
    var cents, rest := f / 10000, f % 10000;
    WholeTenThousands(abs, q * 100 + cents, rest);
    assert abs == abs / 10000 * 10000 + abs % 10000;
  }

  lemma BodyReads(abs: nat, precision: Precision)
    ensures var whole, text := Digits(abs / 1_000_000), FractionText(abs % 1_000_000, precision);
            && AllDigits(whole) && whole != "" && text != "" && AllDigits(text)
            && Body(abs, precision) == Unsigned(whole, text)
            && Amount(whole, text) == if precision.Cents? then abs / 10000 * 10000 else abs
  {
    FractionReads(abs % 1_000_000, precision);
    CentsArithmetic(abs);
  }

  /** Money round trip: the symbol-free text of any amount reads back as that amount, or as its whole cents. */
  lemma ReadingUndoesPrinting(m: int, precision: Precision)
    ensures var read := ParseDollars(FormatMicrodollars(m, precision, false));
            read.Some? && read.value == if precision.Cents? then ToCents(m) else m
  {
    var abs := if m < 0 then -m else m;
    var whole, text := Digits(abs / 1_000_000), FractionText(abs % 1_000_000, precision);
    var body, s := Body(abs, precision), FormatMicrodollars(m, precision, false);
    BodyReads(abs, precision);
    assert s == if m < 0 then "-" + body else body;
    SpelledTrims(s, m < 0, whole, text);
    SpelledReads(s, m < 0, whole, text);
  }

  lemma SpelledTrims(s: string, negative: bool, whole: string, fraction: string)
    requires Spells(s, negative, whole, fraction)
    ensures Trim(s) == s
  {
    var last := if fraction == "" then whole else fraction;
    assert s[0] == (if negative then '-' else whole[0]) && s[|s| - 1] == last[|last| - 1];
    TrimsNothing(s);
  }

  lemma SymbolIsNoMagnitude(body: string)
    ensures ParseMagnitude("$" + body).None?
  {
    assert ("$" + body)[0] == '$';
  }

  /** With the dollar sign the text is not an amount that can be read. */
  lemma SymbolIsRejected(m: int, precision: Precision)
    ensures ParseDollars(FormatMicrodollars(m, precision, true)).None?
  {
    var abs := if m < 0 then -m else m;
    var text, body := FractionText(abs % 1_000_000, precision), Body(abs, precision);
    var s := FormatMicrodollars(m, precision, true);
    BodyReads(abs, precision);
    assert s == if m < 0 then "-" + ("$" + body) else "$" + body;
    assert body[|body| - 1] == text[|text| - 1] && s[|s| - 1] == body[|body| - 1];
    TrimsNothing(s);
    SymbolIsNoMagnitude(body);
    assert m < 0 ==> s[1..] == "$" + body;
  }

  // ----- what reading means

  lemma AmountIsValue(whole: string, fraction: string)
    requires AllDigits(whole) && AllDigits(fraction)
    ensures AllDigits(whole + SixDigits(fraction)) && Value(whole + SixDigits(fraction)) == Amount(whole, fraction)
  {
    SixZeros();
    ValueAppend(whole, SixDigits(fraction));
  }

  lemma ShortFraction(whole: string, fraction: string)
    requires AllDigits(whole) && AllDigits(fraction) && |fraction| <= 6
    ensures AllDigits(whole + fraction)
    ensures Value(whole + SixDigits(fraction)) == Value(whole + fraction) * Pow10(6 - |fraction|)
  {
    var zeros := Zeros(6 - |fraction|);
    assert whole + SixDigits(fraction) == (whole + fraction) + zeros;
    ValueAppend(whole + fraction, zeros);
    ZerosValue(6 - |fraction|);
  }

  lemma LongFraction(whole: string, fraction: string)
    requires AllDigits(whole) && AllDigits(fraction) && |fraction| > 6
    ensures AllDigits(whole + fraction)
    ensures var unit := Pow10(|fraction| - 6);
            0 <= Value(whole + fraction) - Value(whole + SixDigits(fraction)) * unit < unit
  {
    var head, tail := whole + SixDigits(fraction), fraction[6..];
    assert whole + fraction == head + tail;
    ValueAppend(head, tail);
    ValueBound(tail);
  }

  /**
   * Reading cuts the exact decimal value to whole microdollars, whatever the number of digits: up to
   * six decimals are read exactly, and of more only a remainder of less than one microdollar is dropped.
   */
  lemma ReadingTruncates(whole: string, fraction: string)
    requires AllDigits(whole) && AllDigits(fraction)
    ensures AllDigits(whole + fraction)
    ensures |fraction| <= 6 ==> Amount(whole, fraction) == Value(whole + fraction) * Pow10(6 - |fraction|)
    ensures |fraction| > 6 ==>
              var unit := Pow10(|fraction| - 6);
              0 <= Value(whole + fraction) - Amount(whole, fraction) * unit < unit
  {
    AmountIsValue(whole, fraction);
    if |fraction| <= 6 {
      ShortFraction(whole, fraction);
    } else {
      LongFraction(whole, fraction);
    }
  }

  // ----- what is printed

  lemma {:induction false} DigitsShape(n: nat)
    ensures |Digits(n)| > 1 ==> Digits(n)[0] != '0'
    ensures n > 0 ==> Digits(n)[0] != '0'
  {
    if n >= 10 {
      DigitsShape(n / 10);
    }
  }

  lemma {:induction false} DroppedShape(s: string)
    ensures DropZeros(s) != "" ==> DropZeros(s)[|DropZeros(s)| - 1] != '0'
  {
    if s != "" && s[|s| - 1] == '0' {
      DroppedShape(s[..|s| - 1]);
    }
  }

  /** Two decimals for cents, six for microdollars; else as many as needed, but no fewer than two. */
  predicate FractionShape(fraction: string, precision: Precision) {
    match precision
    case Cents => |fraction| == 2
    case Microdollars => |fraction| == 6
    case Auto => 2 <= |fraction| <= 6 && (|fraction| > 2 ==> fraction[|fraction| - 1] != '0')
  }

  lemma FractionShaped(fraction: nat, precision: Precision)
    requires fraction < 1_000_000
    ensures FractionShape(FractionText(fraction, precision), precision)
  {
    var padded := PadStart(Digits(fraction), 6);
    PaddedFraction(fraction);
    DroppedZeros(padded);
    DroppedShape(padded);
  }

  /** The text is a minus for negative amounts, the symbol if asked for, whole dollars, a point, and decimals. */
  lemma TextShape(m: int, precision: Precision, symbol: bool) returns (whole: string, fraction: string)
    ensures FormatMicrodollars(m, precision, symbol)
            == (if m < 0 then "-" else "") + ((if symbol then "$" else "") + (whole + "." + fraction))
    ensures AllDigits(whole) && AllDigits(fraction) && Value(whole) == (if m < 0 then -m else m) / 1_000_000
    ensures whole != "" && (|whole| > 1 ==> whole[0] != '0') && FractionShape(fraction, precision)
  {
    var abs := if m < 0 then -m else m;
    whole, fraction := Digits(abs / 1_000_000), FractionText(abs % 1_000_000, precision);
    DigitsShape(abs / 1_000_000);
    FractionReads(abs % 1_000_000, precision);
    FractionShaped(abs % 1_000_000, precision);
    assert whole + ("." + fraction) == whole + "." + fraction;
  }
}
