/**
 * Whole-rupiah amounts as the cashier screen reads and writes them: digit
 * stripping, parsing, the dot-grouped display form and the 12-digit input cap.
 */
module Money {

  predicate IsDigit(c: char) {
    '0' <= c <= '9'
  }

  predicate AllDigits(s: string) {
    forall k :: 0 <= k < |s| ==> IsDigit(s[k])
  }

  /** A digit string as `Number.prototype.toString` writes it: no leading zero except for "0". */
  predicate Canonical(d: string) {
    AllDigits(d) && |d| > 0 && (d[0] == '0' ==> |d| == 1)
  }

  function Abs(x: int): nat {
    if x < 0 then -x else x
  }

  function Pow10(k: nat): (p: nat)
    ensures p >= 1
  {
    if k == 0 then 1 else 10 * Pow10(k - 1)
  }

  /** Deleting every character that is not an ASCII digit: the digits of `raw`, in order. */
  function StripNonDigits(raw: string): (d: string)
    ensures AllDigits(d)
    ensures |d| <= |raw|
  {
    if |raw| == 0 then ""
    else StripNonDigits(raw[..|raw| - 1]) + (if IsDigit(raw[|raw| - 1]) then [raw[|raw| - 1]] else "")
  }

  /** Every digit of `raw` is kept, as often as it occurs, and nothing else; StripConcat gives the order. */
  lemma {:induction false} StripKeepsDigits(raw: string)
    ensures var d := StripNonDigits(raw);
      forall c :: multiset(d)[c] == if IsDigit(c) then multiset(raw)[c] else 0
  {
    if |raw| > 0 {
      var last := raw[|raw| - 1];
      assert raw == raw[..|raw| - 1] + [last];
      StripKeepsDigits(raw[..|raw| - 1]);
    }
  }

  lemma {:induction false} StripConcat(a: string, b: string)
    ensures StripNonDigits(a + b) == StripNonDigits(a) + StripNonDigits(b)
  {
    if |b| > 0 {
      var b' := b[..|b| - 1];
      assert (a + b)[..|a + b| - 1] == a + b';
      StripConcat(a, b');
    } else {
      assert a + b == a;
    }
  }

  /** Stripping a string that is already all digits leaves it as it is. */
  lemma {:induction false} StripDigitsUnchanged(d: string)
    requires AllDigits(d)
    ensures StripNonDigits(d) == d
  {
    if |d| > 0 {
      StripDigitsUnchanged(d[..|d| - 1]);
    }
  }

  function DigitValue(c: char): (k: nat)
    requires IsDigit(c)
    ensures k < 10
  {
    c as int - '0' as int
  }

  function DigitChar(k: nat): (c: char)
    requires k < 10
    ensures IsDigit(c) && DigitValue(c) == k
  {
    ('0' as int + k) as char
  }

  /** The decimal value of a digit string; the empty string reads as 0, as the code's fallback makes it. */
  function ValueOf(d: string): nat
    requires AllDigits(d)
  {
    if |d| == 0 then 0 else ValueOf(d[..|d| - 1]) * 10 + DigitValue(d[|d| - 1])
  }

  /** How every amount field is read: the value of its digits, 0 when it has none. */
  function ParseAmount(raw: string): nat {
    ValueOf(StripNonDigits(raw))
  }

  /** The decimal text JavaScript writes for a non-negative integer. */
  function Decimal(n: nat): (d: string)
    ensures Canonical(d)
  {
    if n < 10 then [DigitChar(n)] else Decimal(n / 10) + [DigitChar(n % 10)]
  }

  lemma {:induction false} ValueOfDecimal(n: nat)
    ensures ValueOf(Decimal(n)) == n
  {
    if n >= 10 {
      var d := Decimal(n);
      assert d[..|d| - 1] == Decimal(n / 10);
      ValueOfDecimal(n / 10);
    }
  }

  /** A number written out in decimal reads back as itself. */
  lemma ParseDecimal(n: nat)
    ensures ParseAmount(Decimal(n)) == n
  {
    StripDigitsUnchanged(Decimal(n));
    ValueOfDecimal(n);
  }

  lemma {:induction false} ValuePositive(d: string)
    requires AllDigits(d) && |d| > 0 && d[0] != '0'
    ensures ValueOf(d) > 0
  {
    if |d| > 1 {
      ValuePositive(d[..|d| - 1]);
    }
  }

  lemma {:induction false} DecimalOfValue(d: string)
    requires Canonical(d)
    ensures Decimal(ValueOf(d)) == d
  {
    if |d| > 1 {
      var p := d[..|d| - 1];
      ValuePositive(p);
      DecimalOfValue(p);
      var v := ValueOf(d);
      assert v / 10 == ValueOf(p) && v % 10 == DigitValue(d[|d| - 1]);
      assert d == p + [d[|d| - 1]];
    }
  }

  lemma {:induction false} ValueBelowPow10(d: string)
    requires AllDigits(d)
    ensures ValueOf(d) < Pow10(|d|)
  {
    if |d| > 0 {
      ValueBelowPow10(d[..|d| - 1]);
    }
  }

  lemma {:induction false} DecimalLength(n: nat, k: nat)
    requires k >= 1 && n < Pow10(k)
    ensures |Decimal(n)| <= k
  {
    if n >= 10 {
      assert k >= 2;
      DecimalLength(n / 10, k - 1);
    }
  }

  /**
   * The dot grouping `formatCurrency` applies to the digits, computed by
   * splitting off the last three digits.
   */
  function GroupThousands(d: string): string {
    if |d| <= 3 then d else GroupThousands(d[..|d| - 3]) + "." + d[|d| - 3..]
  }

  /** One dot for every full group of three in front of the leading group. */
  lemma {:induction false} GroupLength(d: string)
    ensures |GroupThousands(d)| == |d| + (if |d| == 0 then 0 else (|d| - 1) / 3)
  {
    if |d| > 3 {
      GroupLength(d[..|d| - 3]);
    }
  }

  /**
   * The regular expression of `formatCurrency`, read position by position: a dot goes before
   * character i exactly when i is not the first position (its non-boundary test) and a positive
   * multiple of three characters remains from i on (the lookahead).
   */
  function RegexGroupFrom(d: string, i: nat): string
    decreases |d| - i
  {
    if i >= |d| then ""
    else (if 0 < i && (|d| - i) % 3 == 0 then "." else "") + [d[i]] + RegexGroupFrom(d, i + 1)
  }

  lemma {:induction false} RegexShortTail(d: string, i: nat)
    requires 0 < i <= |d| && |d| - i <= 2
    ensures RegexGroupFrom(d, i) == d[i..]
    decreases |d| - i
  {
    if i < |d| {
      assert (|d| - i) % 3 != 0 by {
        assert |d| - i == 1 || |d| - i == 2;
      }
      RegexShortTail(d, i + 1);
      assert d[i..] == [d[i]] + d[i + 1..];
    }
  }

  lemma {:induction false} RegexSplit(d: string, p: string, i: nat)
    requires |d| == |p| + 3 && p == d[..|p|] && i <= |p|
    ensures RegexGroupFrom(d, i) == RegexGroupFrom(p, i) + RegexGroupFrom(d, |p|)
    decreases |p| - i
  {
    if i < |p| {
      RegexSplit(d, p, i + 1);
      assert d[i] == p[i];
      var k := |p| - i;
      assert |d| - i == k + 3;
      ThreeMore(k);
    }
  }

  lemma ThreeMore(k: nat)
    ensures (k + 3) % 3 == k % 3
  {
  }

  /** The last three digits of a longer number form one dot-led group. */
  lemma RegexLastGroup(d: string)
    requires |d| > 3
    ensures RegexGroupFrom(d, |d| - 3) == "." + d[|d| - 3..]
  {
    var k := |d| - 3;
    assert |d| - k == 3 && 3 % 3 == 0;
    assert RegexGroupFrom(d, k) == "." + [d[k]] + RegexGroupFrom(d, k + 1);
    RegexShortTail(d, k + 1);
    assert d[k..] == [d[k]] + d[k + 1..];
  }

  /** The recursive grouping agrees with the regular expression's reading. */
  lemma {:induction false} GroupMatchesRegex(d: string)
    ensures GroupThousands(d) == RegexGroupFrom(d, 0)
  {
    if |d| == 0 {
    } else if |d| <= 3 {
      assert RegexGroupFrom(d, 0) == [d[0]] + RegexGroupFrom(d, 1);
      if |d| > 1 {
        RegexShortTail(d, 1);
      }
      assert [d[0]] + d[1..] == d;
    } else {
      var p := d[..|d| - 3];
      GroupMatchesRegex(p);
      RegexSplit(d, p, 0);
      RegexLastGroup(d);
      assert GroupThousands(d) == GroupThousands(p) + "." + d[|d| - 3..];
    }
  }

  /** The separators are the only characters grouping adds. */
  lemma {:induction false} StripGroup(d: string)
    requires AllDigits(d)
    ensures StripNonDigits(GroupThousands(d)) == d
  {
    if |d| <= 3 {
      StripDigitsUnchanged(d);
    } else {
      var p := d[..|d| - 3];
      var t := d[|d| - 3..];
      var gp := GroupThousands(p);
      assert GroupThousands(d) == (gp + ".") + t;
      StripGroup(p);
      StripConcat(gp + ".", t);
      StripConcat(gp, ".");
      assert StripNonDigits(".") == "" by {
        assert "."[..0] == "";
      }
      StripDigitsUnchanged(t);
      assert d == p + t;
    }
  }

  /** `formatCurrency`: "Rp 0" for zero, otherwise "Rp " and the grouped absolute value. */
  function FormatCurrency(amount: int): string {
    if amount == 0 then "Rp 0" else CurrencyPrefix + GroupThousands(Decimal(Abs(amount)))
  }

  const CurrencyPrefix: string := "Rp "

  /** The currency prefix carries no digits. */
  lemma StripPrefix(g: string)
    ensures StripNonDigits(CurrencyPrefix + g) == StripNonDigits(g)
  {
    var r := CurrencyPrefix;
    assert r[..|r| - 1][..|r| - 2][..|r| - 3] == "";
    assert StripNonDigits(r) == "";
    StripConcat(r, g);
  }

  /** Reading back a formatted amount gives its magnitude. */
  lemma FormatThenParse(amount: int)
    ensures ParseAmount(FormatCurrency(amount)) == Abs(amount)
  {
    if amount != 0 {
      var n := Abs(amount);
      StripPrefix(GroupThousands(Decimal(n)));
      StripGroup(Decimal(n));
      ValueOfDecimal(n);
    } else {
      assert FormatCurrency(0) == CurrencyPrefix + "0";
      StripPrefix("0");
      assert StripNonDigits("0") == "0" by {
        assert "0"[..0] == "";
      }
    }
  }

  /** A grouped amount, parsed and formatted again, comes back as it was shown. */
  lemma ParseThenFormat(d: string)
    requires Canonical(d)
    ensures FormatCurrency(ParseAmount(GroupThousands(d))) == CurrencyPrefix + GroupThousands(d)
  {
    StripGroup(d);
    DecimalOfValue(d);
    if ValueOf(d) == 0 {
      assert d == "0";
    }
  }

  /** `onCurrencyFocus` leaves only the digits in the field, which does not change the amount it holds. */
  lemma FocusKeepsAmount(raw: string)
    ensures ParseAmount(StripNonDigits(raw)) == ParseAmount(raw)
  {
    StripDigitsUnchanged(StripNonDigits(raw));
  }

  /** Amount fields hold at most this many digits. */
  const MaxInputDigits: nat := 12

  /** The digits a currency field keeps: the first twelve. */
  function InputDigits(raw: string): (t: string)
    ensures AllDigits(t) && |t| <= MaxInputDigits
    ensures t <= StripNonDigits(raw)
    ensures |t| == if |StripNonDigits(raw)| < MaxInputDigits then |StripNonDigits(raw)| else MaxInputDigits
  {
    var d := StripNonDigits(raw);
    if |d| > MaxInputDigits then d[..MaxInputDigits] else d
  }

  /** `formatCurrencyInput`: keep twelve digits, then show their value grouped by dots. */
  function FormatCurrencyInput(raw: string): string {
    var t := InputDigits(raw);
    if t == "" then "" else GroupThousands(Decimal(ValueOf(t)))
  }

  /** A formatted field holds at most twelve digits, and their value is that of the kept digits. */
  lemma FormatInputAmount(raw: string)
    ensures |StripNonDigits(FormatCurrencyInput(raw))| <= MaxInputDigits
    ensures ParseAmount(FormatCurrencyInput(raw)) == ValueOf(InputDigits(raw))
  {
    var t := InputDigits(raw);
    if t != "" {
      var n := ValueOf(t);
      StripGroup(Decimal(n));
      ValueOfDecimal(n);
      ValueBelowPow10(t);
      assert Pow10(|t|) <= Pow10(MaxInputDigits) by {
        Pow10Monotone(|t|, MaxInputDigits);
      }
      DecimalLength(n, MaxInputDigits);
    }
  }

  lemma {:induction false} Pow10Monotone(i: nat, j: nat)
    requires i <= j
    ensures Pow10(i) <= Pow10(j)
    decreases j
  {
    if i < j {
      Pow10Monotone(i, j - 1);
    }
  }

  /** Formatting the field again (as every input and blur event does) changes nothing. */
  lemma FormatInputIdempotent(raw: string)
    ensures FormatCurrencyInput(FormatCurrencyInput(raw)) == FormatCurrencyInput(raw)
  {
    var t := InputDigits(raw);
    if t != "" {
      var d := Decimal(ValueOf(t));
      var f := GroupThousands(d);
      assert FormatCurrencyInput(raw) == f;
      FormatInputAmount(raw);
      StripGroup(d);
      assert StripNonDigits(f) == d;
      assert InputDigits(f) == d;
      ValueOfDecimal(ValueOf(t));
      assert Decimal(ValueOf(d)) == d;
    }
  }
}
