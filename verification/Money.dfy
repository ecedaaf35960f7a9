/**
 `euroToCents` and `centsToEuroInput` of `frontend/lib/shop.ts`, with the rounding of binary64 arithmetic.
*/
module Money {
  import opened JsMath
  import opened Options
  import opened Text

  // ----- Numbers -----

  const TWO_TO_51: int := 0x8_0000_0000_0000
  const TWO_TO_52: int := 0x10_0000_0000_0000
  const TWO_TO_53: int := 0x20_0000_0000_0000

  /**
   Rounding to the nearest double: relative error at most 2^-53 on the range used here (section 4.3.1 of IEEE
   754-2019).
  */
  ghost predicate RoundsToNearest(rnd: real -> real) {
    && rnd(0.0) == 0.0
    && forall x: real :: 0.001 <= x <= TWO_TO_53 as real ==> Near(rnd(x), x)
  }

  predicate Near(y: real, x: real) {
    -x <= (y - x) * (TWO_TO_53 as real) <= x
  }

  // ----- Digits -----

  predicate IsDigit(c: char) {
    '0' <= c <= '9'
  }

  predicate AllDigits(s: string) {
    forall i :: 0 <= i < |s| ==> IsDigit(s[i])
  }

  function Digit(n: int): char
    requires 0 <= n < 10
  {
    "0123456789"[n]
  }

  /** The value of a string of decimal digits. */
  function Value(s: string): nat
    requires AllDigits(s)
  {
    if s == "" then 0 else Value(s[..|s| - 1]) * 10 + (s[|s| - 1] as int - '0' as int)
  }

  function Decimal(n: nat): string
    decreases n
  {
    if n < 10 then [Digit(n)] else Decimal(n / 10) + [Digit(n % 10)]
  }

  lemma {:induction false} ValueOfDecimal(n: nat)
    ensures AllDigits(Decimal(n)) && Decimal(n) != "" && Value(Decimal(n)) == n
    decreases n
  {
    if n >= 10 {
      ValueOfDecimal(n / 10);
      var s := Decimal(n);
      assert s[..|s| - 1] == Decimal(n / 10);
    } else {
      assert Decimal(n)[..0] == "";
    }
  }

  // ----- The code -----

  function RemoveAll(s: string, drop: char -> bool): string {
    if s == "" then "" else (if drop(s[0]) then "" else [s[0]]) + RemoveAll(s[1..], drop)
  }

  /** `/\s|€/g` */
  predicate IsDecoration(c: char) {
    IsSpace(c) || c == '\U{20AC}'
  }

  /** `.replace(',', '.')`: the first comma only. */
  function CommaToPoint(s: string): string {
    var i := IndexOf(s, ',');
    if i < |s| then s[i := '.'] else s
  }

  /** `/^\d+(\.\d{1,2})?$/` */
  predicate IsAmount(s: string) {
    var i := IndexOf(s, '.');
    && 0 < i && AllDigits(s[..i])
    && (i == |s| || (AllDigits(s[i + 1..]) && 1 <= |s| - i - 1 <= 2))
  }

  /** The exact value of an amount, in hundredths. */
  function Hundredths(s: string): nat
    requires IsAmount(s)
  {
    var i := IndexOf(s, '.');
    Value(s[..i]) * 100 +
    (if i == |s| then 0 else if |s| - i - 1 == 1 then Value(s[i + 1..]) * 10 else Value(s[i + 1..]))
  }

  function Normalised(raw: string): string {
    CommaToPoint(RemoveAll(Trim(raw), IsDecoration))
  }

  function EuroToCents(rnd: real -> real, raw: string): Option<int> {
    var s := Normalised(raw);
    if !IsAmount(s) then None
    else
      var number := rnd(Hundredths(s) as real / 100.0);   // Number(s)
      Some(MathRound(rnd(number * 100.0)))
  }

  /**
   `toFixed(2)` of a finite number below 1e21: the nearest integer number of hundredths (section 21.1.3.3 of
   ECMA-262).
  */
  function ToFixed2(x: real): string {
    var n := MathRound((if x < 0.0 then -x else x) * 100.0);
    (if x < 0.0 then "-" else "") + Decimal(n / 100) + "." + [Digit(n / 10 % 10), Digit(n % 10)]
  }

  function PointToComma(s: string): string {
    var i := IndexOf(s, '.');
    if i < |s| then s[i := ','] else s
  }

  function CentsToEuroInput(rnd: real -> real, cents: int): string {
    PointToComma(ToFixed2(if cents < 0 then -rnd((-cents) as real / 100.0) else rnd(cents as real / 100.0)))
  }

  // ----- Characters and digits one by one -----

  /** What is dropped is white space and the euro sign. */
  lemma {:induction false} DecorationsExactly(c: char)
    ensures IsDecoration(c) <==> c in WHITE_SPACE || [c] == "\U{20AC}"
  {
    SpacesExactly(c);
    assert "\U{20AC}"[0] == '\U{20AC}';
  }

  /** A digit more makes ten times the value and the digit. */
  lemma {:induction false} ValueOfDigits(s: string, n: nat)
    requires AllDigits(s) && n < 10
    ensures Value("") == 0
    ensures AllDigits(s + ["0123456789"[n]]) && Value(s + ["0123456789"[n]]) == 10 * Value(s) + n
  {
    var t := s + ["0123456789"[n]];
    assert t[..|s|] == s;
  }

  /** Numbers are printed without leading zeros. */
  lemma {:induction false} NoLeadingZeros(n: nat)
    ensures Decimal(n) != "" && (Decimal(n)[0] == '0' ==> Decimal(n) == "0" && n == 0)
    decreases n
  {
    if n >= 10 {
      NoLeadingZeros(n / 10);
    }
  }

  // ----- Rounding errors -----

  lemma RoundsBack(x: real, n: int)
    requires n as real - 0.5 <= x < n as real + 0.5
    ensures MathRound(x) == n
  {
  }

  /** The number of hundredths in the quotient, as `toFixed(2)` sees it. */
  ghost predicate PrintsItself(rnd: real -> real, c: nat) {
    (c > 0 ==> rnd(c as real / 100.0) > 0.0) && MathRound(rnd(c as real / 100.0) * 100.0) == c
  }

  /** What the reader makes of the decimal of `c` hundredths. */
  function CentsRead(rnd: real -> real, c: nat): int {
    MathRound(rnd(rnd(c as real / 100.0) * 100.0))
  }

  /** Dividing by 100 and printing two places recovers the number of cents. */
  lemma PrintedCents(rnd: real -> real, c: nat)
    requires RoundsToNearest(rnd) && c < TWO_TO_52
    ensures PrintsItself(rnd, c) && rnd(c as real / 100.0) >= 0.0
  {
    if c == 0 {
      RoundsBack(0.0, 0);
    } else {
      var x := c as real / 100.0;
      var y := rnd(x);
      assert Near(y, x);
      assert x * 100.0 == c as real;
      ScaledError(y, x, c as real);
      RoundsBack(y * 100.0, c);
    }
  }

  lemma ScaledError(y: real, x: real, c: real)
    requires Near(y, x) && x * 100.0 == c && 0.0 < c <= (TWO_TO_52 - 1) as real
    ensures -c <= (y * 100.0 - c) * (TWO_TO_53 as real) <= c
    ensures c - 0.5 < y * 100.0 < c + 0.5 && 0.0 < y
  {
  }

  lemma TwiceRounded(w: real, z: real, c: real)
    requires 1.0 <= c <= (TWO_TO_51 - 1) as real
    requires -c <= (z - c) * (TWO_TO_53 as real) <= c && Near(w, z)
    ensures c - 0.5 <= w < c + 0.5
  {
  }

  /** Reading a decimal and scaling it by 100 in binary64 recovers the number of cents. */
  lemma ReadCents(rnd: real -> real, c: nat)
    requires RoundsToNearest(rnd) && c < TWO_TO_51
    ensures CentsRead(rnd, c) == c
  {
    if c == 0 {
      RoundsBack(0.0, 0);
    } else {
      var x := c as real / 100.0;
      var y := rnd(x);
      assert Near(y, x);
      assert x * 100.0 == c as real;
      ScaledError(y, x, c as real);
      var z := y * 100.0;
      assert Near(rnd(z), z);
      TwiceRounded(rnd(z), z, c as real);
      RoundsBack(rnd(z), c);
    }
  }

  // ----- Reading -----

  /**
   Reading is exact: whatever the decoration, an amount below 2^51 cents comes out as its decimal value, and
   everything that is not an amount is refused.
  */
  lemma {:induction false} ReadingIsExact(rnd: real -> real, raw: string)
    requires RoundsToNearest(rnd)
    requires IsAmount(Normalised(raw)) ==> Hundredths(Normalised(raw)) < TWO_TO_51
    ensures EuroToCents(rnd, raw) ==
      if IsAmount(Normalised(raw)) then Some(Hundredths(Normalised(raw))) else None
  {
    if IsAmount(Normalised(raw)) {
      ReadCents(rnd, Hundredths(Normalised(raw)));
    }
  }

  lemma {:induction false} NothingRemoved(s: string)
    requires forall i :: 0 <= i < |s| ==> !IsDecoration(s[i])
    ensures RemoveAll(s, IsDecoration) == s
  {
    if s != "" {
      NothingRemoved(s[1..]);
    }
  }

  /** Amounts are digits, or digits, a point and one or two digits. */
  lemma {:induction false} AmountsExactly(s: string)
    ensures IsAmount(s) <==>
      IsWhole(s) || exists whole, cents :: IsWhole(whole) && IsCents(cents) && s == whole + "." + cents
  {
    if IsAmount(s) {
      var i := IndexOf(s, '.');
      if i == |s| {
        assert s[..i] == s;
      } else {
        assert IsWhole(s[..i]) && IsCents(s[i + 1..]) && s == s[..i] + "." + s[i + 1..];
      }
    }
    if IsWhole(s) {
      AmountWithoutCents(s);
    }
    forall whole, cents | IsWhole(whole) && IsCents(cents) && s == whole + "." + cents ensures IsAmount(s) {
      AmountWithCents(whole, cents);
    }
  }

  predicate IsWhole(s: string) {
    s != "" && AllDigits(s)
  }

  predicate IsCents(s: string) {
    AllDigits(s) && 1 <= |s| <= 2
  }

  lemma RemoveFirst(c: char, s: string)
    ensures RemoveAll([c] + s, IsDecoration) == (if IsDecoration(c) then "" else [c]) + RemoveAll(s, IsDecoration)
  {
    assert ([c] + s)[1..] == s;
  }

  lemma {:induction false} RemoveAllConcat(a: string, b: string)
    ensures RemoveAll(a + b, IsDecoration) == RemoveAll(a, IsDecoration) + RemoveAll(b, IsDecoration)
  {
    if a == "" {
      assert a + b == b;
    } else {
      hide RemoveAll, IsDecoration;
      RemoveAllConcat(a[1..], b);
      assert a == [a[0]] + a[1..] && a + b == [a[0]] + (a[1..] + b);
      RemoveFirst(a[0], a[1..]);
      RemoveFirst(a[0], a[1..] + b);
    }
  }

  lemma {:induction false} BlankIsRemoved(s: string)
    requires Blank(s)
    ensures RemoveAll(s, IsDecoration) == ""
  {
    if s != "" {
      BlankIsRemoved(s[1..]);
    }
  }

  lemma TrimIsRedundant(s: string)
    ensures RemoveAll(Trim(s), IsDecoration) == RemoveAll(s, IsDecoration)
  {
    hide RemoveAll, Trim;
    var i, j := TrimSplits(s);
    assert s == s[..i] + s[i..j] + s[j..];
    RemoveAllConcat(s[..i] + s[i..j], s[j..]);
    RemoveAllConcat(s[..i], s[i..j]);
    BlankIsRemoved(s[..i]);
    BlankIsRemoved(s[j..]);
  }

  /** White space and euro signs make no difference, wherever they are. */
  lemma {:induction false} DecorationDoesNotMatter(rnd: real -> real, a: string, c: char, b: string)
    requires IsDecoration(c)
    ensures EuroToCents(rnd, a + [c] + b) == EuroToCents(rnd, a + b)
  {
    hide EuroToCents;
    DecorationIsRemoved(a, c, b);
    SameReading(rnd, a + [c] + b, a + b);
  }

  lemma SameReading(rnd: real -> real, s: string, t: string)
    requires Normalised(s) == Normalised(t)
    ensures EuroToCents(rnd, s) == EuroToCents(rnd, t)
  {
  }

  lemma DecorationIsRemoved(a: string, c: char, b: string)
    requires IsDecoration(c)
    ensures Normalised(a + [c] + b) == Normalised(a + b)
  {
    SingleIsRemoved(c);
    hide RemoveAll, Trim, CommaToPoint;
    TrimIsRedundant(a + [c] + b);
    TrimIsRedundant(a + b);
    RemoveAllConcat(a + [c], b);
    RemoveAllConcat(a, [c]);
    RemoveAllConcat(a, b);
    assert RemoveAll(a, IsDecoration) + "" == RemoveAll(a, IsDecoration);
  }

  lemma SingleIsRemoved(c: char)
    requires IsDecoration(c)
    ensures RemoveAll([c], IsDecoration) == ""
  {
    assert [c][1..] == "";
  }

  /** Digits, commas, points and signs. */
  predicate IsPlainChar(c: char) {
    IsDigit(c) || c == ',' || c == '.' || c == '-'
  }

  lemma PlainText(s: string)
    requires forall i :: 0 <= i < |s| ==> IsPlainChar(s[i])
    ensures Normalised(s) == CommaToPoint(s)
  {
    hide CommaToPoint;
    assert "" + s + "" == s;
    TrimOfPadded("", s, "");
    NothingRemoved(s);
  }

  lemma Separated(whole: string, sep: char, cents: string)
    requires AllDigits(whole) && AllDigits(cents) && !IsDigit(sep)
    ensures var s := whole + [sep] + cents;
      && s[|whole|] == sep && s[..|whole|] == whole && s[|whole| + 1..] == cents
      && forall i :: 0 <= i < |s| && i != |whole| ==> IsDigit(s[i])
  {
    var s := whole + [sep] + cents;
    assert forall i :: 0 <= i < |whole| ==> s[i] == whole[i];
    assert forall i :: |whole| < i < |s| ==> s[i] == cents[i - |whole| - 1];
  }

  /** A text of digits and one separator is normalised by turning a comma into a point. */
  lemma PlainIsNormalised(whole: string, sep: char, cents: string)
    requires AllDigits(whole) && AllDigits(cents) && (sep == ',' || sep == '.')
    ensures Normalised(whole + [sep] + cents) == whole + "." + cents
  {
    hide Normalised, AllDigits;
    var s := whole + [sep] + cents;
    Separated(whole, sep, cents);
    PlainText(s);
    if sep == ',' {
      IndexOfIs(s, ',', |whole|);
      assert s[|whole| := '.'] == whole + "." + cents;
    } else {
      IndexOfIs(s, ',', |s|);
    }
  }

  lemma WholeIsNormalised(whole: string)
    requires AllDigits(whole)
    ensures Normalised(whole) == whole
  {
    TrimOfPadded("", whole, "");
    assert "" + whole + "" == whole;
    NothingRemoved(whole);
    IndexOfIs(whole, ',', |whole|);
  }

  lemma AmountWithCents(whole: string, cents: string)
    requires whole != "" && AllDigits(whole) && AllDigits(cents) && 1 <= |cents| <= 2
    ensures var s := whole + "." + cents;
      IsAmount(s) && Hundredths(s) == Value(whole) * 100 + (if |cents| == 1 then Value(cents) * 10 else Value(cents))
  {
    var s := whole + "." + cents;
    assert forall i :: 0 <= i < |whole| ==> s[i] == whole[i];
    IndexOfIs(s, '.', |whole|);
    assert s[..|whole|] == whole && s[|whole| + 1..] == cents;
  }

  lemma AmountWithoutCents(whole: string)
    requires whole != "" && AllDigits(whole)
    ensures IsAmount(whole) && Hundredths(whole) == Value(whole) * 100
  {
    IndexOfIs(whole, '.', |whole|);
    assert whole[..|whole|] == whole;
  }

  lemma ValueOfTwo(a: int, b: int)
    requires 0 <= a < 10 && 0 <= b < 10
    ensures AllDigits([Digit(a), Digit(b)]) && Value([Digit(a), Digit(b)]) == a * 10 + b
  {
    var s := [Digit(a), Digit(b)];
    assert s[..1] == [Digit(a)] && s[..1][..0] == "";
    assert Value(s[..1]) == a;
  }

  // ----- Round trip -----

  lemma PointBecomesComma(head: string, tail: string)
    requires forall i :: 0 <= i < |head| ==> head[i] != '.'
    ensures PointToComma(head + "." + tail) == head + "," + tail
  {
    var s := head + "." + tail;
    assert forall i :: 0 <= i < |head| ==> s[i] == head[i];
    IndexOfIs(s, '.', |head|);
    assert s[|head| := ','] == head + "," + tail;
  }

  function Places(c: nat): string {
    [Digit(c / 10 % 10), Digit(c % 10)]
  }

  lemma NoPointInDigits(sign: string, digits: string)
    requires (sign == "" || sign == "-") && AllDigits(digits)
    ensures forall i :: 0 <= i < |sign + digits| ==> (sign + digits)[i] != '.'
  {
    forall i | 0 <= i < |sign + digits| ensures (sign + digits)[i] != '.' {
      assert (sign + digits)[i] == if i < |sign| then sign[i] else digits[i - |sign|];
    }
  }

  function Abs(n: int): nat {
    if n < 0 then -n else n
  }

  lemma DigitsPrinted(rnd: real -> real, cents: int)
    requires PrintsItself(rnd, Abs(cents)) && (cents >= 0 ==> rnd(cents as real / 100.0) >= 0.0)
    ensures CentsToEuroInput(rnd, cents) == (if cents < 0 then "-"
      else "") + Decimal(Abs(cents) / 100) + "," + Places(Abs(cents))
  {
    hide Decimal, Digit, MathRound, PointToComma;
    var c := Abs(cents);
    var x := rnd(c as real / 100.0);
    var sign := if cents < 0 then "-" else "";
    ValueOfDecimal(c / 100);
    NoPointInDigits(sign, Decimal(c / 100));
    PointBecomesComma(sign + Decimal(c / 100), Places(c));
    assert ToFixed2(if cents < 0 then -x else x) == sign + Decimal(c / 100) + "." + Places(c);
  }

  lemma PrintedForm(rnd: real -> real, cents: int)
    requires RoundsToNearest(rnd) && -TWO_TO_52 < cents < TWO_TO_52
    ensures var c := Abs(cents);
      CentsToEuroInput(rnd, cents) == (if cents < 0 then "-" else "") + Decimal(c / 100) + "," + Places(c)
  {
    hide CentsToEuroInput, Decimal, Places;
    PrintedCents(rnd, Abs(cents));
    DigitsPrinted(rnd, cents);
  }

  lemma ValueOfPlaces(c: nat)
    ensures |Places(c)| == 2 && AllDigits(Places(c)) && Value(Places(c)) == c % 100
    ensures c / 100 * 100 + c % 100 == c
  {
    ValueOfTwo(c / 10 % 10, c % 10);
    LastTwoDigits(c);
  }

  lemma LastTwoDigits(c: nat)
    ensures c / 10 % 10 * 10 + c % 10 == c % 100
  {
    var q, r := c / 10, c % 10;
    assert c == 100 * (q / 10) + (q % 10 * 10 + r);
  }

  /** An amount that is printed as itself is read as what the reader makes of its decimal. */
  lemma PrintedIsRead(rnd: real -> real, c: nat)
    requires PrintsItself(rnd, c) && rnd(c as real / 100.0) >= 0.0
    ensures EuroToCents(rnd, CentsToEuroInput(rnd, c)) == Some(CentsRead(rnd, c))
  {
    hide *;
    var whole, tail := Decimal(c / 100), Places(c);
    NotNegative(c);
    DigitsPrinted(rnd, c);
    ValueOfDecimal(c / 100);
    ValueOfPlaces(c);
    assert CentsToEuroInput(rnd, c) == whole + [','] + tail;
    PlainIsNormalised(whole, ',', tail);
    AmountWithCents(whole, tail);
    AmountIsRead(rnd, CentsToEuroInput(rnd, c));
  }

  lemma NotNegative(c: nat)
    ensures Abs(c) == c
  {
  }

  lemma AmountIsRead(rnd: real -> real, raw: string)
    requires IsAmount(Normalised(raw))
    ensures EuroToCents(rnd, raw) == Some(CentsRead(rnd, Hundredths(Normalised(raw))))
  {
  }

  ghost predicate IsReadBack(rnd: real -> real, c: nat) {
    EuroToCents(rnd, CentsToEuroInput(rnd, c)) == Some(c)
  }

  /** What is printed for an amount of cents is read back as that amount, for all amounts from 0 up to 2^51. */
  lemma CentsRoundTrip(rnd: real -> real, c: nat)
    requires RoundsToNearest(rnd) && c < TWO_TO_51
    ensures EuroToCents(rnd, CentsToEuroInput(rnd, c)) == Some(c)
  {
    hide EuroToCents, CentsToEuroInput, RoundsToNearest, PrintsItself, CentsRead;
    PrintedCents(rnd, c);
    ReadCents(rnd, c);
    PrintedIsRead(rnd, c);
  }

  /** Negative amounts are printed with a sign, which the reader refuses. */
  lemma {:induction false} NegativeCentsAreRefused(rnd: real -> real, c: int)
    requires RoundsToNearest(rnd) && -TWO_TO_52 < c < 0
    ensures EuroToCents(rnd, CentsToEuroInput(rnd, c)) == None
  {
    hide CentsToEuroInput, Decimal, Places, Normalised, IsAmount, RoundsToNearest, Value, Digit, Hundredths, MathRound;
    var n := -c;
    var whole, tail := Decimal(n / 100), Places(n);
    PrintedForm(rnd, c);
    ValueOfDecimal(n / 100);
    ValueOfPlaces(n);
    var s := CentsToEuroInput(rnd, c);
    assert s == "-" + whole + "," + tail;
    NegativeIsNoAmount(s, whole, tail);
  }

  lemma NegativeIsNoAmount(s: string, whole: string, tail: string)
    requires s == "-" + whole + "," + tail && AllDigits(whole) && AllDigits(tail) && |tail| == 2
    ensures !IsAmount(Normalised(s))
  {
    forall i | 0 <= i < |s| ensures !IsDecoration(s[i]) {
      assert s[i] == if i == 0 then '-' else if i <= |whole| then whole[i - 1]
        else if i == |whole| + 1 then ',' else tail[i - |whole| - 2];
    }
    TrimOfPadded("", s, "");
    assert "" + s + "" == s;
    NothingRemoved(s);
    var t := CommaToPoint(s);
    assert t[0] == '-';
    assert IndexOf(t, '.') > 0 ==> t[..IndexOf(t, '.')][0] == '-';
  }

  lemma ZeroDigits()
    ensures AllDigits("0") && Value("0") == 0 && AllDigits("00") && Value("00") == 0
  {
    ValueOfTwo(0, 0);
    assert "0"[..0] == "" && "00" == [Digit(0), Digit(0)];
  }

  lemma NoPlaces(n: nat)
    ensures Decimal(n * 100 / 100) + "," + Places(n * 100) == Decimal(n) + ",00"
  {
    hide Decimal;
    assert n * 100 / 100 == n && n * 100 / 10 == n * 10;
    assert n * 10 % 10 == 0 && n * 100 % 10 == 0;
    assert Places(n * 100) == "00";
  }

  /** The ways of writing a whole amount are one amount: "3", "3,0" and "3.00" are all printed as "3,00". */
  lemma SpellingsAgree(rnd: real -> real, whole: string)
    requires RoundsToNearest(rnd) && whole != "" && AllDigits(whole) && Value(whole) * 100 < TWO_TO_51
    ensures EuroToCents(rnd, whole) == Some(Value(whole) * 100)
    ensures EuroToCents(rnd, whole + ",0") == Some(Value(whole) * 100)
    ensures EuroToCents(rnd, whole + ".00") == Some(Value(whole) * 100)
    ensures CentsToEuroInput(rnd, Value(whole) * 100) == Decimal(Value(whole)) + ",00"
  {
    hide EuroToCents, CentsToEuroInput, Decimal, Digit, Normalised, IsAmount, Hundredths, RoundsToNearest;
    WholeIsNormalised(whole);
    AmountWithoutCents(whole);
    ReadingIsExact(rnd, whole);
    ZeroDigits();
    PlainIsNormalised(whole, ',', "0");
    AmountWithCents(whole, "0");
    assert whole + [','] + "0" == whole + ",0";
    ReadingIsExact(rnd, whole + ",0");
    PlainIsNormalised(whole, '.', "00");
    AmountWithCents(whole, "00");
    assert whole + ['.'] + "00" == whole + ".00";
    ReadingIsExact(rnd, whole + ".00");
    PrintedForm(rnd, Value(whole) * 100);
    NoPlaces(Value(whole));
  }

  /** An amount with one or two places, after a comma or a point, with a euro sign and blanks around it. */
  lemma {:induction false} WrittenAmounts(rnd: real -> real, whole: string, cents: string, sep: char)
    requires RoundsToNearest(rnd) && whole != "" && AllDigits(whole) && AllDigits(cents) && 1 <= |cents| <= 2
    requires (sep == ',' || sep == '.') && Value(whole) * 100 + 99 < TWO_TO_51
    ensures var amount := Value(whole) * 100 + (if |cents| == 1 then 10 * Value(cents) else Value(cents));
      && EuroToCents(rnd, whole + [sep] + cents) == Some(amount)
      && EuroToCents(rnd, whole + [sep] + cents + " \U{20AC}") == Some(amount)
      && EuroToCents(rnd, "\U{20AC} " + (whole + [sep] + cents)) == Some(amount)
  {
    var s := whole + [sep] + cents;
    hide EuroToCents, RoundsToNearest, AllDigits, Value;
    PlainAmount(rnd, whole, cents, sep);
    BehindIsDropped(rnd, s);
    BeforeIsDropped(rnd, s);
  }

  lemma PlainAmount(rnd: real -> real, whole: string, cents: string, sep: char)
    requires RoundsToNearest(rnd) && whole != "" && AllDigits(whole) && AllDigits(cents) && 1 <= |cents| <= 2
    requires (sep == ',' || sep == '.') && Value(whole) * 100 + 99 < TWO_TO_51
    ensures EuroToCents(rnd, whole + [sep] + cents) ==
      Some(Value(whole) * 100 + (if |cents| == 1 then 10 * Value(cents) else Value(cents)))
  {
    hide *;
    UpToTwoDigits(cents);
    PlainIsNormalised(whole, sep, cents);
    AmountWithCents(whole, cents);
    ReadAs(rnd, whole + [sep] + cents, whole + "." + cents);
  }

  lemma ReadAs(rnd: real -> real, raw: string, amount: string)
    requires RoundsToNearest(rnd) && Normalised(raw) == amount && IsAmount(amount) && Hundredths(amount) < TWO_TO_51
    ensures EuroToCents(rnd, raw) == Some(Hundredths(amount))
  {
    hide *;
    ReadingIsExact(rnd, raw);
  }

  lemma UpToTwoDigits(s: string)
    requires AllDigits(s) && 1 <= |s| <= 2
    ensures Value(s) < (if |s| == 1 then 10 else 100)
  {
    assert s[..|s| - 1][..0] == "";
    if |s| == 2 {
      assert Value(s[..1]) == s[0] as int - '0' as int;
    }
  }

  lemma BehindIsDropped(rnd: real -> real, s: string)
    ensures EuroToCents(rnd, s + " \U{20AC}") == EuroToCents(rnd, s)
  {
    hide EuroToCents;
    DecorationDoesNotMatter(rnd, s + " ", '\U{20AC}', "");
    DecorationDoesNotMatter(rnd, s, ' ', "");
    assert s + " " + ['\U{20AC}'] + "" == s + " \U{20AC}" && s + " " + "" == s + [' '] + "" && s + "" == s;
  }

  lemma BeforeIsDropped(rnd: real -> real, s: string)
    ensures EuroToCents(rnd, "\U{20AC} " + s) == EuroToCents(rnd, s)
  {
    hide EuroToCents;
    DecorationDoesNotMatter(rnd, "", '\U{20AC}', " " + s);
    DecorationDoesNotMatter(rnd, "", ' ', s);
    assert "" + ['\U{20AC}'] + (" " + s) == "\U{20AC} " + s && "" + (" " + s) == "" + [' '] + s && "" + s == s;
  }

  /** Some amounts as they are printed. */
  lemma {:induction false} PrintedExamples(rnd: real -> real)
    requires RoundsToNearest(rnd)
    ensures CentsToEuroInput(rnd, 305) == "3,05" && CentsToEuroInput(rnd, -5) == "-0,05"
    ensures CentsToEuroInput(rnd, 123456) == "1234,56"
  {
    hide CentsToEuroInput;
    PrintedForm(rnd, 305);
    PrintedForm(rnd, -5);
    PrintedForm(rnd, 123456);
    assert Decimal(12) == "12" && Decimal(123) == "123" && Decimal(1234) == "1234";
    assert Places(305) == "05" && Places(5) == "05" && Places(123456) == "56";
  }

  // ----- Binary64 itself -----

  /** The nearest integer, the even one from the middle. */
  function RoundEven(x: real): int {
    var n := x.Floor;
    var d := x - n as real;
    if d < 0.5 || (d == 0.5 && n % 2 == 0) then n else n + 1
  }

  /** How far `x` is from having an integer significand of 53 bits. */
  function Distance(x: real): nat
    requires x > 0.0
  {
    if x >= TWO_TO_53 as real then x.Floor else (TWO_TO_53 as real / x).Floor
  }

  /** Round to nearest, ties to even, for doubles that neither overflow nor are subnormal. */
  function Binary64(x: real): real
    decreases x < 0.0, if x > 0.0 then Distance(x) else 0
  {
    if x == 0.0 then 0.0
    else if x < 0.0 then -Binary64(-x)
    else if x >= TWO_TO_53 as real then
      HalfIsCloser(x);
      2.0 * Binary64(x / 2.0)
    else if x < TWO_TO_52 as real then
      DoubleIsCloser(x);
      Binary64(2.0 * x) / 2.0
    else RoundEven(x) as real
  }

  lemma HalfIsCloser(x: real)
    requires x >= TWO_TO_53 as real
    ensures Distance(x / 2.0) < Distance(x)
  {
  }

  lemma DoubleIsCloser(x: real)
    requires 0.0 < x < TWO_TO_52 as real
    ensures Distance(2.0 * x) < Distance(x)
  {
  }

  lemma {:induction false} Binary64IsNear(x: real)
    requires 0.0 < x
    ensures Near(Binary64(x), x)
    decreases Distance(x)
  {
    if x >= TWO_TO_53 as real {
      HalfIsCloser(x);
      Binary64IsNear(x / 2.0);
    } else if x < TWO_TO_52 as real {
      DoubleIsCloser(x);
      Binary64IsNear(2.0 * x);
    }
  }

  /** The assumption on rounding is met by binary64. */
  lemma {:induction false} Binary64Rounds()
    ensures RoundsToNearest(Binary64)
  {
    forall x: real | 0.001 <= x <= TWO_TO_53 as real ensures Near(Binary64(x), x) {
      Binary64IsNear(x);
    }
  }

  // ----- How far the round trip goes -----

  /** The worst rounding the assumption admits: always outwards, by the largest relative error. */
  function Outwards(x: real): real {
    x + x / TWO_TO_53 as real
  }

  lemma OutwardsRounds()
    ensures RoundsToNearest(Outwards)
  {
    forall x: real ensures 0.001 <= x <= TWO_TO_53 as real ==> Near(Outwards(x), x) {
    }
  }

  lemma OutwardsFails()
    ensures !IsReadBack(Outwards, TWO_TO_51)
  {
    var c := TWO_TO_51;
    OutwardsRounds();
    PrintedCents(Outwards, c);
    assert CentsRead(Outwards, c) == c + 1;
    hide *;
    PrintedIsRead(Outwards, c);
  }

  ghost predicate AllReadBack(rnd: real -> real, bound: nat) {
    forall c: nat :: c < bound ==> IsReadBack(rnd, c)
  }

  /**
   From the relative error alone the round trip follows for all amounts below a bound exactly when the bound is
   at most 2^51.
  */
  lemma RelativeErrorLimitExactly(bound: nat)
    ensures (forall rnd: real -> real :: RoundsToNearest(rnd) ==> AllReadBack(rnd, bound)) <==> bound <= TWO_TO_51
  {
    if bound <= TWO_TO_51 {
      forall rnd: real -> real, c: nat | RoundsToNearest(rnd) && c < bound ensures IsReadBack(rnd, c) {
        CentsRoundTrip(rnd, c);
      }
    } else {
      OutwardsRounds();
      OutwardsFails();
      assert !AllReadBack(Outwards, bound);
    }
  }

  function Pow2(k: nat): nat {
    if k == 0 then 1 else 2 * Pow2(k - 1)
  }

  lemma Binary64Halves(x: real)
    requires 0.0 < x < TWO_TO_52 as real
    ensures Binary64(x) == Binary64(2.0 * x) / 2.0
  {
  }

  lemma Binary64Integers(x: real)
    requires TWO_TO_52 as real <= x < TWO_TO_53 as real
    ensures Binary64(x) == RoundEven(x) as real && -0.5 <= Binary64(x) - x <= 0.5
  {
  }

  /** `y` is the double nearest to `x` among those `1 / p` apart. */
  ghost predicate IsSpaced(y: real, x: real, p: nat) {
    y * p as real == RoundEven(x * p as real) as real && -0.5 <= (y - x) * p as real <= 0.5
  }

  lemma Doubling(x: real, y2: real, p: nat, q: nat)
    requires x > 0.0 && p >= 1 && q == 2 * p
    ensures (2.0 * x) * p as real == x * q as real
    ensures x * q as real < TWO_TO_53 as real ==> x < TWO_TO_52 as real
    ensures y2 * p as real == (y2 / 2.0) * q as real
    ensures (y2 - 2.0 * x) * p as real == (y2 / 2.0 - x) * q as real
  {
    assert q as real == 2.0 * p as real;
  }

  lemma SpacedAt(y: real, x: real, p: nat, scaled: real)
    requires scaled == x * p as real
    ensures IsSpaced(y, x, p) <==> y * p as real == RoundEven(scaled) as real && -0.5 <= (y - x) * p as real <= 0.5
  {
  }

  lemma SpacingDoubles(x: real, y2: real, p: nat, q: nat)
    requires x > 0.0 && p >= 1 && q == 2 * p && IsSpaced(y2, 2.0 * x, p)
    ensures IsSpaced(y2 / 2.0, x, q)
  {
    hide RoundEven, IsSpaced;
    Doubling(x, y2, p, q);
    var scaled := x * q as real;
    SpacedAt(y2, 2.0 * x, p, scaled);
    SpacedAt(y2 / 2.0, x, q, scaled);
  }

  lemma {:induction false} Pow2IsPositive(k: nat)
    ensures Pow2(k) >= 1
  {
    if k > 0 {
      Pow2IsPositive(k - 1);
    }
  }

  /** Doubles whose significand spans 2^52 to 2^53 after `k` doublings are spaced 2^-k apart. */
  lemma {:induction false} Binary64Spacing(x: real, k: nat)
    requires x > 0.0 && TWO_TO_52 as real <= x * Pow2(k) as real < TWO_TO_53 as real
    ensures IsSpaced(Binary64(x), x, Pow2(k))
    decreases k
  {
    hide Binary64, RoundEven;
    if k > 0 {
      hide IsSpaced;
      var p := Pow2(k - 1);
      Pow2IsPositive(k - 1);
      Doubling(x, 0.0, p, Pow2(k));
      Binary64Halves(x);
      Binary64Spacing(2.0 * x, k - 1);
      SpacingDoubles(x, Binary64(2.0 * x), p, Pow2(k));
    } else {
      Binary64Integers(x);
    }
  }

  lemma PowersOfTwo()
    ensures Pow2(1) == 2 && Pow2(2) == 4 && Pow2(7) == 128 && Pow2(8) == 256
  {
    assert Pow2(3) == 8 && Pow2(4) == 16 && Pow2(5) == 32;
  }

  /** 2^45 euros. */
  const TWO_TO_45_EUROS: int := 0x2000_0000_0000 * 100

  /** From 2^51 to 2^45 euros the quotient errs by at most 1/512 of a euro. */
  lemma QuotientSpacing(c: nat)
    requires TWO_TO_51 <= c < TWO_TO_45_EUROS
    ensures var y := Binary64(c as real / 100.0); -0.2 < y * 100.0 - c as real < 0.2 && y > 0.0
  {
    hide Binary64, RoundEven, Pow2;
    PowersOfTwo();
    Binary64Spacing(c as real / 100.0, 8);
  }

  lemma ProductSpacing(z: real)
    requires 0x4_0000_0000_0000 as real <= z < TWO_TO_52 as real
    ensures -0.25 <= Binary64(z) - z <= 0.25
  {
    hide Binary64, RoundEven, Pow2;
    PowersOfTwo();
    Binary64Spacing(z, if z < TWO_TO_51 as real then 2 else 1);
  }

  lemma LargeCentsReadBack(c: nat)
    requires TWO_TO_51 <= c < TWO_TO_45_EUROS
    ensures IsReadBack(Binary64, c)
  {
    hide Binary64, EuroToCents, CentsToEuroInput;
    QuotientSpacing(c);
    var z := Binary64(c as real / 100.0) * 100.0;
    ProductSpacing(z);
    RoundsBack(z, c);
    RoundsBack(Binary64(z), c);
    PrintedIsRead(Binary64, c);
  }

  /** Just above, doubles are 1/128 of a euro apart. */
  lemma EdgeQuotient(d: nat)
    requires d <= 2
    ensures Binary64((TWO_TO_45_EUROS + d) as real / 100.0) * 128.0
      == TWO_TO_52 as real + (if d == 0 then 0.0 else if d == 1 then 1.0 else 3.0)
  {
    hide Binary64, Pow2;
    PowersOfTwo();
    Binary64Spacing((TWO_TO_45_EUROS + d) as real / 100.0, 7);
  }

  lemma EdgeProduct(d: nat)
    requires d <= 2
    ensures var z := Binary64((TWO_TO_45_EUROS + d) as real / 100.0) * 100.0;
      && z == TWO_TO_45_EUROS as real + (if d == 0 then 0.0 else if d == 1 then 0.78125 else 2.34375)
      && Binary64(z) == TWO_TO_45_EUROS as real + (if d == 0 then 0.0 else if d == 1 then 1.0 else 2.5)
  {
    hide Binary64, Pow2;
    EdgeQuotient(d);
    var z := Binary64((TWO_TO_45_EUROS + d) as real / 100.0) * 100.0;
    PowersOfTwo();
    Binary64Spacing(z, 1);
  }

  /** At 2^45 euros and two cents the text is right, and the reader makes three cents of the two. */
  lemma EdgeRead(d: nat)
    requires d <= 2
    ensures var c := TWO_TO_45_EUROS + d;
      EuroToCents(Binary64, CentsToEuroInput(Binary64, c)) == Some(if d == 2 then c + 1 else c)
  {
    hide Binary64, EuroToCents, CentsToEuroInput;
    var c := TWO_TO_45_EUROS + d;
    EdgeProduct(d);
    RoundsBack(Binary64(c as real / 100.0) * 100.0, c);
    RoundsBack(Binary64(Binary64(c as real / 100.0) * 100.0), if d == 2 then c + 1 else c);
    PrintedIsRead(Binary64, c);
  }

  /**
   With doubles the round trip holds for all amounts below a bound exactly when the bound is at most 2^45 euros
   and two cents, which is the first amount that is not read back.
  */
  lemma Binary64LimitExactly(bound: nat)
    ensures AllReadBack(Binary64, bound) <==> bound <= TWO_TO_45_EUROS + 2
  {
    hide Binary64, EuroToCents, CentsToEuroInput;
    if bound <= TWO_TO_45_EUROS + 2 {
      Binary64Rounds();
      forall c: nat | c < bound ensures IsReadBack(Binary64, c) {
        if c < TWO_TO_51 {
          CentsRoundTrip(Binary64, c);
        } else if c < TWO_TO_45_EUROS {
          LargeCentsReadBack(c);
        } else {
          EdgeRead(c - TWO_TO_45_EUROS);
        }
      }
    } else {
      EdgeRead(2);
      assert !IsReadBack(Binary64, TWO_TO_45_EUROS + 2);
    }
  }

  // ----- How far printing goes -----

  const TWO_TO_46_EUROS: int := 0x4000_0000_0000 * 100

  /** The amount is printed as itself: its whole euros, a comma and two digits. */
  ghost predicate IsPrinted(rnd: real -> real, c: nat) {
    CentsToEuroInput(rnd, c) == Decimal(c / 100) + "," + Places(c)
  }

  /** From 2^45 to 2^46 euros the quotient errs by at most 1/256 of a euro. */
  lemma LargeQuotient(c: nat)
    requires TWO_TO_45_EUROS <= c < TWO_TO_46_EUROS
    ensures var y := Binary64(c as real / 100.0); -0.4 < y * 100.0 - c as real < 0.4 && y > 0.0
  {
    hide Binary64, RoundEven, Pow2;
    PowersOfTwo();
    Binary64Spacing(c as real / 100.0, 7);
  }

  lemma PrintedBelow(c: nat)
    requires c <= TWO_TO_46_EUROS
    ensures PrintsItself(Binary64, c) && Binary64(c as real / 100.0) >= 0.0
  {
    hide Binary64;
    if c < TWO_TO_52 {
      Binary64Rounds();
      PrintedCents(Binary64, c);
    } else {
      if c < TWO_TO_46_EUROS {
        LargeQuotient(c);
      } else {
        FirstMisprint(0);
      }
      RoundsBack(Binary64(c as real / 100.0) * 100.0, c);
    }
  }

  /** From 2^46 euros on doubles are 1/64 of a euro apart. */
  lemma FirstMisprint(d: nat)
    requires d <= 1
    ensures var y := Binary64((TWO_TO_46_EUROS + d) as real / 100.0);
      y * 100.0 == TWO_TO_46_EUROS as real + (if d == 0 then 0.0 else 1.5625)
  {
    hide Binary64, Pow2;
    assert Pow2(6) == 64 by { PowerSix(); }
    Binary64Spacing((TWO_TO_46_EUROS + d) as real / 100.0, 6);
  }

  lemma PowerSix()
    ensures Pow2(6) == 64
  {
    assert Pow2(3) == 8;
  }

  /** 2^46 euros and one cent are printed as two cents. */
  lemma MisprintedCents()
    ensures CentsToEuroInput(Binary64, TWO_TO_46_EUROS + 1)
      == Decimal((TWO_TO_46_EUROS + 2) / 100) + "," + Places(TWO_TO_46_EUROS + 2)
    ensures !IsPrinted(Binary64, TWO_TO_46_EUROS + 1)
  {
    hide Binary64, Decimal, MathRound, PointToComma;
    var c := TWO_TO_46_EUROS + 1;
    FirstMisprint(1);
    var x := Binary64(c as real / 100.0);
    RoundsBack(x * 100.0, c + 1);
    ValueOfDecimal((c + 1) / 100);
    NoPointInDigits("", Decimal((c + 1) / 100));
    PointBecomesComma("" + Decimal((c + 1) / 100), Places(c + 1));
    assert ToFixed2(x) == "" + Decimal((c + 1) / 100) + "." + Places(c + 1);
    assert CentsToEuroInput(Binary64, c) == "" + Decimal((c + 1) / 100) + "," + Places(c + 1);
    var printed, right := Decimal((c + 1) / 100) + "," + Places(c + 1), Decimal(c / 100) + "," + Places(c);
    assert printed[|printed| - 1] == Places(c + 1)[1] == '2';
    assert right[|right| - 1] == Places(c)[1] == '1';
    assert "" + Decimal((c + 1) / 100) + "," + Places(c + 1) == printed;
  }

  /**
   With doubles all amounts below a bound are printed as themselves exactly when the bound is at most 2^46 euros
   and one cent, which is the first amount that is not.
  */
  lemma PrintingLimitExactly(bound: nat)
    ensures (forall c: nat :: c < bound ==> IsPrinted(Binary64, c)) <==> bound <= TWO_TO_46_EUROS + 1
  {
    hide Binary64, CentsToEuroInput, Decimal, Places, PrintsItself;
    if bound <= TWO_TO_46_EUROS + 1 {
      forall c: nat | c < bound ensures IsPrinted(Binary64, c) {
        PrintedBelow(c);
        NotNegative(c);
        DigitsPrinted(Binary64, c);
      }
    } else {
      MisprintedCents();
    }
  }
}
