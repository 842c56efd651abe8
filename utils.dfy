/** The integer currency formatters: an amount in grosze (minor units) is
    rendered as złoty and grosze.  `ReadAmount` is the reading a person
    gives such a string (an optional minus sign applying to the whole
    amount, the złoty digits, the separator, two grosze digits, the
    suffix); it is the partner against which the formatters are judged. */
module Currency {

  datatype Option<T> = None | Some(value: T)

  /** The suffix the display format appends: a space, then "zł". */
  const Suffix: string := " zł"

  function Abs(a: int): nat
  {
    if a < 0 then -a else a
  }

  predicate IsDigit(c: char)
  {
    '0' <= c <= '9'
  }

  predicate AllDigits(s: string)
  {
    forall k :: 0 <= k < |s| ==> IsDigit(s[k])
  }

  function DigitChar(d: nat): (c: char)
    requires d < 10
    ensures IsDigit(c) && c as int - '0' as int == d
  {
    (d + '0' as int) as char
  }

  /** The value of a string of decimal digits, most significant first. */
  function DigitsValue(s: string): nat
    requires AllDigits(s)
  {
    if s == [] then 0 else DigitsValue(s[..|s| - 1]) * 10 + (s[|s| - 1] as int - '0' as int)
  }

  /** Python's `str` on a non-negative integer: its decimal digits, with no
      leading zero. */
  function NatToString(n: nat): (r: string)
    ensures r != [] && AllDigits(r)
    ensures |r| > 1 ==> r[0] != '0'
  {
    if n < 10 then [DigitChar(n)] else NatToString(n / 10) + [DigitChar(n % 10)]
  }

  /** Python's `str` on any integer: a minus sign before a negative one. */
  function IntToString(z: int): (r: string)
    ensures r != []
    ensures z < 0 <==> r[0] == '-'
  {
    if z < 0 then "-" + NatToString(-z) else NatToString(z)
  }

  /** Python's `{g:02d}` for `g` in 0..99: exactly two digits. */
  function TwoDigits(g: nat): (r: string)
    requires g < 100
    ensures |r| == 2 && AllDigits(r)
  {
    [DigitChar(g / 10), DigitChar(g % 10)]
  }

  /** `format_currency`: floor division gives the złoty part, the absolute
      value's remainder the grosze part. */
  function FormatCurrency(amountMinor: int): (r: string)
    ensures |r| >= 7 && r[|r| - 6] == ',' && r[|r| - 3..] == Suffix
    ensures AllDigits(r[|r| - 5..|r| - 3])
    ensures amountMinor < 0 <==> r[0] == '-'
  {
    var zloty := amountMinor / 100;
    var grosze := Abs(amountMinor) % 100;
    IntToString(zloty) + "," + TwoDigits(grosze) + Suffix
  }

  /** `format_currency_input`: the same two parts, a dot between them and no
      suffix (the form prefilled into an amount field). */
  function FormatCurrencyInput(amountMinor: int): (r: string)
    ensures |r| >= 4 && r[|r| - 3] == '.' && AllDigits(r[|r| - 2..])
    ensures amountMinor < 0 <==> r[0] == '-'
  {
    var zloty := amountMinor / 100;
    var grosze := Abs(amountMinor) % 100;
    IntToString(zloty) + "." + TwoDigits(grosze)
  }

  /** The display format as evidently intended: the sign belongs to the whole
      amount, so a negative amount shows its magnitude after the minus. */
  function FormatCurrencyCorrected(amountMinor: int): string
  {
    var sign := if amountMinor < 0 then "-" else "";
    sign + NatToString(Abs(amountMinor) / 100) + "," + TwoDigits(Abs(amountMinor) % 100) + Suffix
  }

  /** How a reader takes `s`: an optional minus sign for the whole amount,
      one or more złoty digits, `sep`, exactly two grosze digits, `suffix`.
      Anything else is not an amount. */
  function ReadAmount(s: string, sep: char, suffix: string): (r: Option<int>)
    ensures r.Some? ==> |s| >= |suffix| + 4 && s[|s| - |suffix| - 3] == sep
    ensures r.Some? ==> s[|s| - |suffix|..] == suffix
  {
    if |s| < |suffix| + 4 then None
    else
      var n := |s| - |suffix| - 3;
      var head, frac := s[..n], s[n + 1..n + 3];
      var negative := head[0] == '-';
      var whole := if negative then head[1..] else head;
      if s[n] != sep || s[n + 3..] != suffix || whole == [] || !AllDigits(whole) || !AllDigits(frac) then None
      else
        var magnitude := DigitsValue(whole) * 100 + DigitsValue(frac);
        Some(if negative then -magnitude else magnitude)
  }

  /** Reading back the digits `NatToString` writes gives the number. */
  lemma {:induction false} NatToStringRoundTrip(n: nat)
    ensures DigitsValue(NatToString(n)) == n
  {
    var r := NatToString(n);
    if n >= 10 {
      NatToStringRoundTrip(n / 10);
      assert r[..|r| - 1] == NatToString(n / 10);
    }
  }

  lemma TwoDigitsRoundTrip(g: nat)
    requires g < 100
    ensures DigitsValue(TwoDigits(g)) == g
  {
    var r := TwoDigits(g);
    var hi := r[..1];
    assert hi == [DigitChar(g / 10)];
    assert hi[..0] == [];
    assert DigitsValue(hi) == g / 10;
    assert DigitsValue(r) == DigitsValue(hi) * 10 + g % 10;
  }

  /** The value a reader takes from a string built as sign, złoty digits,
      separator, grosze digits and suffix. */
  lemma ReadParts(sign: string, w: nat, g: nat, sep: char, suffix: string)
    requires sign == "" || sign == "-"
    requires g < 100
    ensures ReadAmount(sign + NatToString(w) + [sep] + TwoDigits(g) + suffix, sep, suffix)
         == Some(if sign == "-" then -(w * 100 + g) else w * 100 + g)
  {
    var digits := NatToString(w);
    var s := sign + digits + [sep] + TwoDigits(g) + suffix;
    var n := |s| - |suffix| - 3;
    assert n == |sign| + |digits|;
    assert s[..n] == sign + digits;
    assert s[n] == sep;
    assert s[n + 1..n + 3] == TwoDigits(g);
    assert s[n + 3..] == suffix;
    if sign == "-" {
      assert (sign + digits)[0] == '-';
      assert (sign + digits)[1..] == digits;
    } else {
      assert sign + digits == digits;
      assert digits[0] != '-';
    }
    NatToStringRoundTrip(w);
    TwoDigitsRoundTrip(g);
  }

  /** The grosze part of both formats is two digits whose value is the
      remainder of the absolute amount, in 0..99, just before the suffix. */
  lemma GroszeDigits(a: int)
    ensures var s := FormatCurrency(a);
      |s| >= 6 && AllDigits(s[|s| - 5..|s| - 3]) && DigitsValue(s[|s| - 5..|s| - 3]) == Abs(a) % 100
    ensures var s := FormatCurrencyInput(a);
      |s| >= 3 && AllDigits(s[|s| - 2..]) && DigitsValue(s[|s| - 2..]) == Abs(a) % 100
  {
    var w, g := IntToString(a / 100), TwoDigits(Abs(a) % 100);
    var s := FormatCurrency(a);
    assert s[|s| - 5..|s| - 3] == g;
    var t := FormatCurrencyInput(a);
    assert t[|t| - 2..] == g;
    TwoDigitsRoundTrip(Abs(a) % 100);
  }

  /** The two formats carry the same złoty part and the same grosze digits;
      the display form uses a comma where the input form uses a dot, and
      appends the suffix. */
  lemma InputMatchesDisplay(a: int)
    ensures var t := FormatCurrencyInput(a);
      |t| >= 4 && t[|t| - 3] == '.'
      && FormatCurrency(a) == t[..|t| - 3] + "," + t[|t| - 2..] + Suffix
  {
    var w, g := IntToString(a / 100), TwoDigits(Abs(a) % 100);
    var t := FormatCurrencyInput(a);
    assert t == w + "." + g;
    assert t[..|t| - 3] == w;
    assert t[|t| - 2..] == g;
  }

  /** For a non-negative amount the display form reads back as the amount:
      the złoty and grosze parts reconstruct it. */
  lemma FormatCurrencyRoundTrip(a: int)
    requires a >= 0
    ensures ReadAmount(FormatCurrency(a), ',', Suffix) == Some(a)
  {
    var w, g := a / 100, a % 100;
    assert Abs(a) == a;
    assert FormatCurrency(a) == "" + NatToString(w) + [','] + TwoDigits(g) + Suffix;
    ReadParts("", w, g, ',', Suffix);
    assert w * 100 + g == a;
  }

  /** The same for the input form, whose separator is a dot and which has
      no suffix. */
  lemma FormatCurrencyInputRoundTrip(a: int)
    requires a >= 0
    ensures ReadAmount(FormatCurrencyInput(a), '.', "") == Some(a)
  {
    var w, g := a / 100, a % 100;
    assert Abs(a) == a;
    assert FormatCurrencyInput(a) == "" + NatToString(w) + ['.'] + TwoDigits(g) + "";
    ReadParts("", w, g, '.', "");
    assert w * 100 + g == a;
  }

  /** The display form of a negative amount that is not a whole number of
      złoty reads as one złoty more negative than the amount: floor division
      rounds the złoty part down while the grosze part keeps the magnitude's
      remainder.  Whole-złoty amounts read correctly. */
  lemma FormatCurrencyMisreadsNegatives(a: int)
    requires a < 0
    ensures ReadAmount(FormatCurrency(a), ',', Suffix)
         == Some(if a % 100 == 0 then a else a - 100)
  {
    var q, g := a / 100, Abs(a) % 100;
    FloorOfNegative(a);
    NegativeDisplay(a);
    ReadParts("-", -q, g, ',', Suffix);
    var read := -(-q * 100 + g);
    assert ReadAmount(FormatCurrency(a), ',', Suffix) == Some(read);
    assert read == (if a % 100 == 0 then a else a - 100);
  }

  /** The display form of a negative amount: a minus sign, the digits of
      the negated floor quotient, the grosze digits, the suffix. */
  lemma NegativeDisplay(a: int)
    requires a < 0
    ensures a / 100 < 0
    ensures FormatCurrency(a) == "-" + NatToString(-(a / 100)) + [','] + TwoDigits(Abs(a) % 100) + Suffix
  {
    FloorOfNegative(a);
    assert IntToString(a / 100) == "-" + NatToString(-(a / 100));
  }

  /** Floor division of a negative amount: the złoty part overshoots the
      magnitude's whole złoty by one exactly when grosze remain. */
  lemma FloorOfNegative(a: int)
    requires a < 0
    ensures a / 100 < 0
    ensures a % 100 == 0 <==> Abs(a) % 100 == 0
    ensures -(a / 100) * 100 + Abs(a) % 100 == (if a % 100 == 0 then -a else 100 - a)
  {
    var m := -a;
    assert a == (a / 100) * 100 + a % 100;
    assert m == (m / 100) * 100 + m % 100;
    if m % 100 == 0 {
      assert a == -(m / 100) * 100;
      assert a / 100 == -(m / 100);
    } else {
      assert a == (-(m / 100) - 1) * 100 + (100 - m % 100);
      assert a / 100 == -(m / 100) - 1;
    }
  }

  /** The smallest example: 1,50 zł owed is displayed as "-2,50 zł". */
  lemma MinusOneFiftyShownAsMinusTwoFifty()
    ensures FormatCurrency(-150) == "-2,50 zł"
    ensures ReadAmount(FormatCurrency(-150), ',', Suffix) == Some(-250)
  {
    FormatCurrencyMisreadsNegatives(-150);
    assert NatToString(2) == "2";
    assert TwoDigits(50) == "50";
  }

  /** The corrected display form reads back as the amount, for every amount. */
  lemma FormatCurrencyCorrectedRoundTrip(a: int)
    ensures ReadAmount(FormatCurrencyCorrected(a), ',', Suffix) == Some(a)
  {
    var sign := if a < 0 then "-" else "";
    var w, g := Abs(a) / 100, Abs(a) % 100;
    assert FormatCurrencyCorrected(a) == sign + NatToString(w) + [','] + TwoDigits(g) + Suffix;
    ReadParts(sign, w, g, ',', Suffix);
    assert w * 100 + g == Abs(a);
  }

  /** Where the original reads correctly (a non-negative amount, or a whole
      number of złoty), the corrected form is the very same string. */
  lemma FormatCurrencyCorrectedAgrees(a: int)
    requires a >= 0 || a % 100 == 0
    ensures FormatCurrencyCorrected(a) == FormatCurrency(a)
  {
    if a < 0 {
      assert (-a) / 100 == -(a / 100);
      assert (-a) % 100 == 0;
      assert IntToString(a / 100) == "-" + NatToString((-a) / 100);
    } else {
      assert IntToString(a / 100) == "" + NatToString(a / 100);
    }
  }
}
