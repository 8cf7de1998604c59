/** VIZ asset strings: "189.027 VIZ" and back. */
module VizAmount {
  import opened Wrappers
  import opened Decimal
  import opened Text

  /** The part before the first `c`, and, if there is one, the part after it. */
  function SplitAt(s: string, c: char): (string, Option<string>) {
    if s == "" then ("", None)
    else if s[0] == c then ("", Some(s[1..]))
    else var (head, tail) := SplitAt(s[1..], c); ([s[0]] + head, tail)
  }

  /** `BigInt(s)` on an optionally signed numeral; absent where it throws. */
  function ReadInteger(s: string): Option<int> {
    if IsNumeral(s) then Some(Value(s) as int)
    else if s != "" && s[0] == '-' && IsNumeral(s[1..]) then Some(0 - Value(s[1..]))
    else None
  }

  /** Integer part times 1000 plus the first three fraction digits, which are never negative. */
  function NumericToMilli(numeric: string): Option<int> {
    var (intPart, rest) := SplitAt(numeric, '.');
    var fracPart := if rest.None? then "" else SplitAt(rest.value, '.').0;
    var int0 := ReadInteger(if intPart == "" then "0" else intPart);
    var frac0 := ReadInteger((fracPart + "000")[..3]);
    if int0.None? || frac0.None? then None else Some(int0.value * 1000 + frac0.value)
  }

  function VizToMilli(amount: string): Option<int> {
    NumericToMilli(SplitAt(Trim(amount), ' ').0)
  }

  /** `padStart(3, "0")` of a number's digits. */
  function Pad3(n: nat): string {
    seq(if |Dec(n)| < 3 then 3 - |Dec(n)| else 0, _ => '0') + Dec(n)
  }

  lemma PadIsThreeDigits(n: nat)
    requires n < 1000
    ensures Pad3(n) == [DigitOf(n / 100), DigitOf(n / 10 % 10), DigitOf(n % 10)]
  {
    assert n >= 10 ==> Dec(n) == Dec(n / 10) + [DigitOf(n % 10)];
    assert n >= 100 ==> Dec(n / 10) == Dec(n / 100) + [DigitOf(n / 10 % 10)];
  }

  lemma PadValue(n: nat)
    requires n < 1000
    ensures |Pad3(n)| == 3 && IsNumeral(Pad3(n)) && Value(Pad3(n)) == n
  {
    var s := [DigitOf(n / 100), DigitOf(n / 10 % 10), DigitOf(n % 10)];
    PadIsThreeDigits(n);
    assert s[..2][..1] == s[..1] && s[..1][..0] == "";
    assert Value(s[..1]) == n / 100;
    assert Value(s[..2]) == n / 100 * 10 + n / 10 % 10;
  }

  function MilliToViz(milli: int): string {
    var v := if milli < 0 then -milli else milli;
    (if milli < 0 then "-" else "") + Dec(v / 1000) + "." + Pad3(v % 1000) + " VIZ"
  }

  /** `<whole>.<3 digits> VIZ`, with no leading zero, for an amount of so many thousandths. */
  predicate WritesAmount(milli: nat, whole: string, frac: string) {
    && IsNumeral(whole) && (whole[0] == '0' ==> |whole| == 1)
    && |frac| == 3 && IsNumeral(frac)
    && Value(whole) * 1000 + Value(frac) == milli
  }

  lemma ValueOfThree(frac: string)
    requires |frac| == 3 && IsNumeral(frac)
    ensures IsDigit(frac[0]) && IsDigit(frac[1]) && IsDigit(frac[2])
    ensures Value(frac) == DigitValue(frac[0]) * 100 + DigitValue(frac[1]) * 10 + DigitValue(frac[2])
  {
    assert frac[0] in frac && frac[1] in frac && frac[2] in frac;
    assert frac[..2][..1] == frac[..1] && frac[..1][..0] == "";
    assert Value(frac[..1]) == DigitValue(frac[0]);
    assert Value(frac[..2]) == Value(frac[..1]) * 10 + DigitValue(frac[1]);
  }

  lemma DigitsOfThree(a: nat, b: nat, c: nat)
    requires a < 10 && b < 10 && c < 10
    ensures var n := a * 100 + b * 10 + c; n < 1000 && n / 100 == a && n / 10 % 10 == b && n % 10 == c
  {
    var n := a * 100 + b * 10 + c;
    assert n / 10 == a * 10 + b;
  }

  function DigitValue(c: char): nat
    requires IsDigit(c)
  {
    c as int - '0' as int
  }

  lemma ThreeDigits(frac: string)
    requires |frac| == 3 && IsNumeral(frac)
    ensures Value(frac) < 1000 && Pad3(Value(frac)) == frac
  {
    ValueOfThree(frac);
    var a, b, c := DigitValue(frac[0]), DigitValue(frac[1]), DigitValue(frac[2]);
    DigitsOfThree(a, b, c);
    PadIsThreeDigits(Value(frac));
    DigitOfValue(frac[0]);
    DigitOfValue(frac[1]);
    DigitOfValue(frac[2]);
  }

  lemma DigitOfValue(c: char)
    requires IsDigit(c)
    ensures DigitValue(c) < 10 && DigitOf(DigitValue(c)) == c
  {
  }

  lemma WrittenHasShape(milli: nat)
    ensures WritesAmount(milli, Dec(milli / 1000), Pad3(milli % 1000))
    ensures MilliToViz(milli) == Dec(milli / 1000) + "." + Pad3(milli % 1000) + " VIZ"
  {
    ValueOfDec(milli / 1000);
    PadValue(milli % 1000);
    assert "" + Dec(milli / 1000) == Dec(milli / 1000);
  }

  lemma ShapeIsWritten(milli: nat, whole: string, frac: string)
    requires WritesAmount(milli, whole, frac)
    ensures whole == Dec(milli / 1000) && frac == Pad3(milli % 1000)
  {
    ThreeDigits(frac);
    DecOfValue(whole);
    assert milli / 1000 == Value(whole) && milli % 1000 == Value(frac);
  }

  /** An amount has one text, and this is its shape. */
  lemma WrittenIff(milli: nat, text: string)
    ensures text == MilliToViz(milli)
            <==> exists whole, frac :: WritesAmount(milli, whole, frac) && text == whole + "." + frac + " VIZ"
  {
    WrittenHasShape(milli);
    if exists whole, frac :: WritesAmount(milli, whole, frac) && text == whole + "." + frac + " VIZ" {
      var whole, frac :| WritesAmount(milli, whole, frac) && text == whole + "." + frac + " VIZ";
      ShapeIsWritten(milli, whole, frac);
    }
  }

  lemma {:induction false} SplitAtFirst(a: string, c: char, b: string)
    requires c !in a
    ensures SplitAt(a + [c] + b, c) == (a, Some(b))
  {
    if a == "" {
      assert a + [c] + b == [c] + b;
      assert ([c] + b)[1..] == b;
    } else {
      SplitAtFirst(a[1..], c, b);
      assert (a + [c] + b)[1..] == a[1..] + [c] + b;
      assert a == [a[0]] + a[1..];
    }
  }

  lemma {:induction false} SplitAtNone(a: string, c: char)
    requires c !in a
    ensures SplitAt(a, c) == (a, None)
  {
    if a != "" {
      SplitAtNone(a[1..], c);
      assert a == [a[0]] + a[1..];
    }
  }

  /** Sign and whole part as `MilliToViz` writes them. */
  function Whole(milli: int): string {
    (if milli < 0 then "-" else "") + Dec((if milli < 0 then -milli else milli) / 1000)
  }

  lemma ReadNegative(n: nat)
    ensures ReadInteger("-" + Dec(n)) == Some(0 - n)
  {
    var s := "-" + Dec(n);
    assert s[1..] == Dec(n);
    assert s[0] in s && !IsDigit(s[0]);
    ValueOfDec(n);
  }

  lemma NumeralHas(s: string)
    requires IsNumeral(s)
    ensures !IsSpace(s[0]) && ' ' !in s && '.' !in s && s[0] != '-'
  {
    assert s[0] in s && !IsDigit(' ') && !IsDigit('.') && !IsDigit('-');
  }

  lemma ReadWhole(milli: int)
    ensures ReadInteger(Whole(milli)) == Some(if milli < 0 then -((-milli) / 1000) else milli / 1000)
    ensures Whole(milli) != "" && !IsSpace(Whole(milli)[0]) && ' ' !in Whole(milli) && '.' !in Whole(milli)
  {
    var whole: nat := (if milli < 0 then -milli else milli) / 1000;
    NumeralHas(Dec(whole));
    if milli < 0 {
      ReadNegative(whole);
      assert Whole(milli) == "-" + Dec(whole);
    } else {
      assert Whole(milli) == Dec(whole);
      ValueOfDec(whole);
    }
  }

  /** Reading what has the shape `<whole>.<3 digits> VIZ`. */
  lemma ReadShape(whole: string, frac: string)
    requires whole != "" && !IsSpace(whole[0]) && ' ' !in whole && '.' !in whole && |frac| == 3 && IsNumeral(frac)
    ensures VizToMilli(whole + "." + frac + " VIZ")
            == if ReadInteger(whole).None? then None else Some(ReadInteger(whole).value * 1000 + Value(frac))
  {
    var numeric := whole + "." + frac;
    TrimNumeric(numeric);
    assert whole[0] == numeric[0];
    assert forall c :: c in frac ==> IsDigit(c);
    ReadNumeric(whole, frac);
  }

  lemma TrimNumeric(numeric: string)
    requires numeric != "" && ' ' !in numeric && !IsSpace(numeric[0])
    ensures VizToMilli(numeric + " VIZ") == NumericToMilli(numeric)
  {
    var s := numeric + " VIZ";
    assert Trimmed(s);
    TrimIsTrimmed(s);
    assert s == numeric + [' '] + "VIZ";
    SplitAtFirst(numeric, ' ', "VIZ");
  }

  lemma ReadNumeric(whole: string, frac: string)
    requires whole != "" && '.' !in whole && |frac| == 3 && IsNumeral(frac)
    ensures NumericToMilli(whole + "." + frac)
            == if ReadInteger(whole).None? then None else Some(ReadInteger(whole).value * 1000 + Value(frac))
  {
    assert '.' !in frac;
    SplitAtFirst(whole, '.', frac);
    SplitAtNone(frac, '.');
    assert (frac + "000")[..3] == frac;
  }

  lemma PartsMakeNumeric(numeric: string, whole: string, frac: string, a: int, b: int)
    requires SplitAt(numeric, '.') == (whole, if numeric == whole then None else Some(frac)) && SplitAt(frac, '.').0 == frac
    requires numeric == whole ==> frac == ""
    requires ReadInteger(if whole == "" then "0" else whole) == Some(a) && ReadInteger((frac + "000")[..3]) == Some(b)
    ensures NumericToMilli(numeric) == Some(a * 1000 + b)
  {
  }

  lemma ZeroReads()
    ensures ReadInteger("0") == Some(0) && IsNumeral("000") && Value("000") == 0
  {
    assert "0"[..0] == "" && Value("0") == 0;
    assert "000"[..2] == "00" && "00"[..1] == "0";
    assert Value("00") == 0;
  }

  /** What stands for the thousandths: digits past them are dropped, missing ones are zeros. */
  function Thousandths(frac: string): (t: string)
    requires forall c :: c in frac ==> IsDigit(c)
    ensures |t| == 3 && IsNumeral(t)
  {
    if |frac| >= 3 then frac[..3] else if |frac| == 2 then frac + "0" else if |frac| == 1 then frac + "00" else "000"
  }

  lemma ThousandthsArePadded(frac: string)
    requires forall c :: c in frac ==> IsDigit(c)
    ensures (frac + "000")[..3] == Thousandths(frac)
  {
  }

  lemma DigitsOnly(s: string)
    requires forall c :: c in s ==> IsDigit(c)
    ensures ' ' !in s && '.' !in s && (s != "" ==> !IsSpace(s[0]))
  {
    if s != "" {
      NumeralHas(s);
    }
  }

  lemma PointedIsRead(whole: string, frac: string)
    requires (forall c :: c in whole ==> IsDigit(c)) && forall c :: c in frac ==> IsDigit(c)
    ensures VizToMilli(whole + "." + frac + " VIZ") == NumericToMilli(whole + "." + frac)
  {
    var numeric := whole + "." + frac;
    DigitsOnly(whole);
    DigitsOnly(frac);
    assert numeric[0] == if whole == "" then '.' else whole[0];
    TrimNumeric(numeric);
  }

  lemma PointedSplits(whole: string, frac: string)
    requires '.' !in whole && '.' !in frac
    ensures SplitAt(whole + "." + frac, '.') == (whole, Some(frac)) && SplitAt(frac, '.').0 == frac && whole + "." + frac != whole
  {
    assert whole + "." + frac == whole + ['.'] + frac;
    assert |whole + "." + frac| > |whole|;
    SplitAtFirst(whole, '.', frac);
    SplitAtNone(frac, '.');
  }

  lemma WholePartReads(whole: string)
    requires forall c :: c in whole ==> IsDigit(c)
    ensures ReadInteger(if whole == "" then "0" else whole) == Some(Value(whole))
  {
    ZeroReads();
  }

  lemma ThousandthsRead(frac: string)
    requires forall c :: c in frac ==> IsDigit(c)
    ensures ReadInteger((frac + "000")[..3]) == Some(Value(Thousandths(frac)))
  {
    ThousandthsArePadded(frac);
  }

  lemma PointedParts(whole: string, frac: string, a: int, b: int)
    requires (forall c :: c in whole ==> IsDigit(c)) && forall c :: c in frac ==> IsDigit(c)
    requires ReadInteger(if whole == "" then "0" else whole) == Some(a) && ReadInteger((frac + "000")[..3]) == Some(b)
    ensures VizToMilli(whole + "." + frac + " VIZ") == Some(a * 1000 + b)
  {
    DigitsOnly(whole);
    DigitsOnly(frac);
    PointedIsRead(whole, frac);
    PointedSplits(whole, frac);
    PartsMakeNumeric(whole + "." + frac, whole, frac, a, b);
  }

  /** A text with no whole part reads as if it were zero, as does one with no fraction. */
  lemma ReadsDecimal(whole: string, frac: string)
    requires (forall c :: c in whole ==> IsDigit(c)) && forall c :: c in frac ==> IsDigit(c)
    ensures VizToMilli(whole + "." + frac + " VIZ") == Some(Value(whole) * 1000 + Value(Thousandths(frac)))
  {
    WholePartReads(whole);
    ThousandthsRead(frac);
    PointedParts(whole, frac, Value(whole), Value(Thousandths(frac)));
  }

  lemma ReadsWholeAmount(whole: string)
    requires IsNumeral(whole)
    ensures VizToMilli(whole + " VIZ") == Some(Value(whole) * 1000)
  {
    NumeralHas(whole);
    TrimNumeric(whole);
    SplitAtNone(whole, '.');
    ZeroReads();
    assert ("" + "000")[..3] == "000";
    PartsMakeNumeric(whole, whole, "", Value(whole), 0);
  }

  lemma ReadMilliToViz(milli: int)
    ensures var v := if milli < 0 then -milli else milli;
            VizToMilli(MilliToViz(milli)) == Some((if milli < 0 then -(v / 1000) else v / 1000) * 1000 + v % 1000)
  {
    var v := if milli < 0 then -milli else milli;
    PadValue(v % 1000);
    ReadWhole(milli);
    ReadShape(Whole(milli), Pad3(v % 1000));
  }

  /**
   Documented as inverses, the two are so exactly on non-negative amounts and on negative
   whole-VIZ ones: a negative fraction comes back with its sign lost.
   */
  lemma RoundTripExactly(milli: int)
    ensures VizToMilli(MilliToViz(milli)) == Some(milli) <==> milli >= 0 || milli % 1000 == 0
  {
    ReadMilliToViz(milli);
  }

  /** One amount, one string: what the signer compares as text is what it means as a number. */
  lemma MilliToVizInjective(a: nat, b: nat)
    requires MilliToViz(a) == MilliToViz(b)
    ensures a == b
  {
    RoundTripExactly(a);
    RoundTripExactly(b);
  }

  lemma NegativeFractionLosesSign(milli: int)
    requires -1000 < milli < 0
    ensures VizToMilli(MilliToViz(milli)) == Some(0 - milli)
  {
    ReadMilliToViz(milli);
  }
}
