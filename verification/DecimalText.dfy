/** Decimal text, read and printed with integers only. */
module DecimalText {
  import opened Wrappers

  function Pow10(n: nat): (r: nat)
    ensures r > 0
  {
    if n == 0 then 1 else 10 * Pow10(n - 1)
  }

  lemma {:induction false} PowSum(m: nat, n: nat)
    ensures Pow10(m + n) == Pow10(m) * Pow10(n)
  {
    if m > 0 { PowSum(m - 1, n); }
  }

  predicate IsDigit(c: char) { '0' <= c <= '9' }

  predicate Digits(s: string) { forall i :: 0 <= i < |s| ==> IsDigit(s[i]) }

  /** The number that a string of digits denotes in base ten; the empty string denotes 0. */
  function Value(s: string): nat
    requires Digits(s)
    decreases |s|
  {
    if |s| == 0 then 0 else 10 * Value(s[..|s| - 1]) + (s[|s| - 1] - '0') as nat
  }

  lemma {:induction false} ValueConcat(a: string, b: string)
    requires Digits(a) && Digits(b)
    ensures Digits(a + b) && Value(a + b) == Value(a) * Pow10(|b|) + Value(b)
    decreases |b|
  {
    if |b| == 0 {
      assert a + b == a;
    } else {
      var front := b[..|b| - 1];
      assert (a + b)[..|a + b| - 1] == a + front;
      ValueConcat(a, front);
      TenTimes(Value(a), Pow10(|front|));
    }
  }

  lemma TenTimes(x: nat, p: nat)
    ensures x * (10 * p) == 10 * (x * p)
  {
  }

  lemma {:induction false} ValueBound(s: string)
    requires Digits(s)
    ensures Value(s) < Pow10(|s|)
    decreases |s|
  {
    if |s| != 0 { ValueBound(s[..|s| - 1]); }
  }

  /** Cutting digits off the end is division rounding down. */
  lemma ValuePrefix(s: string, n: nat)
    requires Digits(s) && n <= |s|
    ensures Value(s[..n]) == Value(s) / Pow10(|s| - n)
  {
    var tail := s[n..];
    assert s == s[..n] + tail;
    ValueConcat(s[..n], tail);
    ValueBound(tail);
    Quotient(Value(s), Pow10(|s| - n), Value(s[..n]), Value(tail));
  }

  lemma Quotient(x: nat, d: nat, q: nat, r: nat)
    requires x == q * d + r && r < d
    ensures x / d == q
  {
    var e := x / d - q;
    assert x == (x / d) * d + x % d;
    assert e * d == r - x % d;
    assert e >= 1 ==> e * d >= d;
    assert e <= -1 ==> e * d + d <= 0;
  }

  function Zeros(n: nat): (s: string)
    ensures |s| == n && forall i :: 0 <= i < n ==> s[i] == '0'
  {
    seq(n, _ => '0')
  }

  lemma {:induction false} ValueOfZeros(s: string)
    requires forall i :: 0 <= i < |s| ==> s[i] == '0'
    ensures Digits(s) && Value(s) == 0
    decreases |s|
  {
    if |s| != 0 { ValueOfZeros(s[..|s| - 1]); }
  }

  // ---- reading ---------------------------------------------------------------

  /** The text up to the first dot. */
  function BeforeDot(s: string): (r: string)
    ensures r <= s && '.' !in r && (|r| < |s| ==> s[|r|] == '.')
  {
    if |s| == 0 || s[0] == '.' then "" else [s[0]] + BeforeDot(s[1..])
  }

  /** `value.split('.')`: the first two parts, an absent second one being empty. */
  function Split(s: string): (string, string) {
    var whole := BeforeDot(s);
    if |whole| == |s| then (whole, "") else (whole, BeforeDot(s[|whole| + 1..]))
  }

  function PadEnd(s: string, n: nat): string {
    if |s| < n then s + Zeros(n - |s|) else s
  }

  /** Fixed point with `scale` decimals; None is the SyntaxError for a character that is no digit. */
  function Scaled(text: string, scale: nat): Option<nat> {
    var (whole, frac) := Split(text);
    var digits := whole + PadEnd(frac, scale)[..scale];
    if Digits(digits) then Some(Value(digits)) else None
  }

  function ToScaled(text: string): Option<nat> { Scaled(text, 18) }

  /** The text `whole`, or `whole.frac`. */
  function Text(whole: string, frac: string, dot: bool): string {
    if dot then whole + "." + frac else whole
  }

  lemma DigitsHaveNoDot(s: string)
    requires Digits(s)
    ensures '.' !in s
  {
  }

  lemma SplitText(whole: string, frac: string, dot: bool)
    requires Digits(whole) && Digits(frac) && (!dot ==> frac == "")
    ensures Split(Text(whole, frac, dot)) == (whole, frac)
  {
    DigitsHaveNoDot(whole);
    DigitsHaveNoDot(frac);
    var text := Text(whole, frac, dot);
    UpToDot(text, whole);
    if dot {
      assert text[|whole| + 1..] == frac;
      UpToDot(frac, frac);
    }
  }

  lemma UpToDot(s: string, front: string)
    requires front <= s && '.' !in front && (|front| < |s| ==> s[|front|] == '.')
    ensures BeforeDot(s) == front
  {
    var r := BeforeDot(s);
    assert forall i :: 0 <= i < |front| ==> s[i] == front[i];
    assert forall i :: 0 <= i < |r| ==> s[i] == r[i];
  }

  lemma PadsExactly(whole: string, frac: string, scale: nat)
    requires Digits(whole) && Digits(frac) && |frac| <= scale
    ensures Digits(whole + frac) && Digits(whole + PadEnd(frac, scale)[..scale])
    ensures Value(whole + PadEnd(frac, scale)[..scale]) == Value(whole + frac) * Pow10(scale - |frac|)
  {
    var zeros := Zeros(scale - |frac|);
    assert whole + PadEnd(frac, scale)[..scale] == (whole + frac) + zeros;
    ValueOfZeros(zeros);
    ValueConcat(whole + frac, zeros);
  }

  lemma CutsExactly(whole: string, frac: string, scale: nat)
    requires Digits(whole) && Digits(frac) && |frac| > scale
    ensures Digits(whole + frac) && Digits(whole + PadEnd(frac, scale)[..scale])
    ensures Value(whole + PadEnd(frac, scale)[..scale]) == Value(whole + frac) / Pow10(|frac| - scale)
  {
    assert whole + PadEnd(frac, scale)[..scale] == (whole + frac)[..|whole| + scale];
    ValuePrefix(whole + frac, |whole| + scale);
  }

  /** Both cases of the padding are one division. */
  lemma Rescales(x: nat, n: nat, scale: nat)
    ensures n <= scale ==> x * Pow10(scale) / Pow10(n) == x * Pow10(scale - n)
    ensures n > scale ==> x * Pow10(scale) / Pow10(n) == x / Pow10(n - scale)
  {
    if n <= scale {
      PowSum(scale - n, n);
      MultipleQuotient(x, Pow10(scale - n), Pow10(n), Pow10(scale));
    } else {
      PowSum(n - scale, scale);
      CancelFactor(x, Pow10(n - scale), Pow10(scale));
    }
  }

  lemma ScaledPads(whole: string, frac: string, dot: bool, scale: nat)
    requires Digits(whole) && Digits(frac) && (!dot ==> frac == "") && |frac| <= scale
    ensures Digits(whole + frac)
    ensures Scaled(Text(whole, frac, dot), scale) == Some(Value(whole + frac) * Pow10(scale - |frac|))
  {
    SplitText(whole, frac, dot);
    PadsExactly(whole, frac, scale);
  }

  lemma ScaledCuts(whole: string, frac: string, dot: bool, scale: nat)
    requires Digits(whole) && Digits(frac) && (!dot ==> frac == "") && |frac| > scale
    ensures Digits(whole + frac)
    ensures Scaled(Text(whole, frac, dot), scale) == Some(Value(whole + frac) / Pow10(|frac| - scale))
  {
    SplitText(whole, frac, dot);
    CutsExactly(whole, frac, scale);
  }

  /**
   Reading is exact up to rounding down: on digits, `whole.frac` scales to the
   floor of (whole.frac times 10^scale), whatever the number of fractional digits.
   */
  lemma ScaledIsFloor(whole: string, frac: string, dot: bool, scale: nat)
    requires Digits(whole) && Digits(frac) && (!dot ==> frac == "")
    ensures Digits(whole + frac)
    ensures Scaled(Text(whole, frac, dot), scale) == Some(Value(whole + frac) * Pow10(scale) / Pow10(|frac|))
  {
    if |frac| <= scale { ScaledPads(whole, frac, dot, scale); } else { ScaledCuts(whole, frac, dot, scale); }
    Rescales(Value(whole + frac), |frac|, scale);
  }

  lemma MultipleQuotient(x: nat, k: nat, d: nat, kd: nat)
    requires d > 0 && kd == k * d
    ensures x * kd / d == x * k
  {
    assert x * kd == (x * k) * d;
    Quotient(x * kd, d, x * k, 0);
  }

  lemma CancelFactor(x: nat, d: nat, k: nat)
    requires d > 0 && k > 0
    ensures d * k > 0 && x * k / (d * k) == x / d
  {
    var q, r := x / d, x % d;
    assert x == q * d + r;
    assert x * k == q * (d * k) + r * k;
    assert r * k < d * k;
    Quotient(x * k, d * k, q, r * k);
  }

  // ---- printing --------------------------------------------------------------

  /** The decimal digits of a bigint. */
  function Printed(v: nat): (s: string)
    ensures |s| > 0 && Digits(s) && Value(s) == v
    ensures s[0] == '0' ==> s == "0"
  {
    var last := ['0' + (v % 10) as char];
    if v < 10 then assert last[..0] == ""; last
    else
      var front := Printed(v / 10);
      assert (front + last)[..|front|] == front;
      front + last
  }

  function PadStart(s: string, n: nat): string {
    if |s| < n then Zeros(n - |s|) + s else s
  }

  /** `replace(/0+$/, '')`. */
  function StripZeros(s: string): (r: string)
    ensures r <= s && (|r| > 0 ==> r[|r| - 1] != '0')
    ensures forall i :: |r| <= i < |s| ==> s[i] == '0'
    decreases |s|
  {
    if |s| > 0 && s[|s| - 1] == '0' then StripZeros(s[..|s| - 1]) else s
  }

  function Padded(v: nat, decimals: nat): (s: string)
    ensures |s| >= decimals + 1
  {
    PadStart(Printed(v), decimals + 1)
  }

  function Whole(v: nat, decimals: nat): string {
    var s := Padded(v, decimals);
    s[..|s| - decimals]
  }

  function Frac(v: nat, decimals: nat): string {
    var s := Padded(v, decimals);
    StripZeros(s[|s| - decimals..])
  }

  function FormatBaseUnits(v: nat, decimals: nat): string {
    Text(Whole(v, decimals), Frac(v, decimals), Frac(v, decimals) != "")
  }

  lemma PaddedValue(v: nat, decimals: nat)
    ensures var s := Padded(v, decimals); Digits(s) && Value(s) == v
    ensures var s := Padded(v, decimals); |s| > decimals + 1 ==> s[0] != '0'
  {
    var s, width := Printed(v), decimals + 1;
    if |s| < width {
      ValueOfZeros(Zeros(width - |s|));
      ValueConcat(Zeros(width - |s|), s);
    }
  }

  /** The padded digits are the parts printed and the zeros stripped. */
  lemma PartsOfPadded(v: nat, decimals: nat) returns (zeros: string)
    ensures var whole, frac := Whole(v, decimals), Frac(v, decimals);
      && Padded(v, decimals) == (whole + frac) + zeros && |frac| + |zeros| == decimals
      && Digits(whole) && Digits(frac) && Digits(whole + frac)
      && (forall i :: 0 <= i < |zeros| ==> zeros[i] == '0')
      && (|frac| > 0 ==> frac[|frac| - 1] != '0')
  {
    PaddedValue(v, decimals);
    zeros := CutAndStripped(Padded(v, decimals), decimals);
  }

  lemma DigitsOfParts(a: string, b: string)
    requires Digits(a + b)
    ensures Digits(a) && Digits(b)
  {
    assert forall i :: 0 <= i < |a| ==> (a + b)[i] == a[i];
    assert forall i :: 0 <= i < |b| ==> (a + b)[|a| + i] == b[i];
  }

  /** What is stripped off the end are zeros. */
  lemma Stripped(tail: string) returns (zeros: string)
    ensures tail == StripZeros(tail) + zeros && forall i :: 0 <= i < |zeros| ==> zeros[i] == '0'
  {
    zeros := tail[|StripZeros(tail)|..];
  }

  /** Cutting a text in two and stripping the zeros off the end of the second part. */
  lemma CutAndStripped(s: string, n: nat) returns (zeros: string)
    requires Digits(s) && n <= |s|
    ensures var whole, frac := s[..|s| - n], StripZeros(s[|s| - n..]);
      && s == (whole + frac) + zeros && |frac| + |zeros| == n
      && Digits(whole) && Digits(frac) && Digits(whole + frac)
      && (forall i :: 0 <= i < |zeros| ==> zeros[i] == '0')
      && (|frac| > 0 ==> frac[|frac| - 1] != '0')
  {
    var whole, tail := s[..|s| - n], s[|s| - n..];
    zeros := Stripped(tail);
    var frac := StripZeros(tail);
    assert s == whole + tail;
    assert whole + (frac + zeros) == (whole + frac) + zeros;
    DigitsOfParts(whole + frac, zeros);
    DigitsOfParts(whole, frac);
  }

  /**
   Printing loses nothing and adds nothing: the digits printed, scaled back by the
   decimals not printed, are the number; at least one digit stands before the dot,
   without a redundant leading zero; and no zero ends the fraction.
   */
  lemma FormatIsExact(v: nat, decimals: nat)
    ensures var whole, frac := Whole(v, decimals), Frac(v, decimals);
      && Digits(whole) && Digits(frac) && Digits(whole + frac) && |frac| <= decimals
      && Value(whole + frac) * Pow10(decimals - |frac|) == v
      && |whole| > 0 && (whole[0] == '0' ==> |whole| == 1)
      && (|frac| > 0 ==> frac[|frac| - 1] != '0')
  {
    PaddedValue(v, decimals);
    var zeros := PartsOfPadded(v, decimals);
    ValueOfZeros(zeros);
    ValueConcat(Whole(v, decimals) + Frac(v, decimals), zeros);
  }

  lemma Rescale(units: nat, n: nat, decimals: nat, v: nat, scale: nat)
    requires n <= decimals && units * Pow10(decimals - n) == v
    ensures units * Pow10(scale) / Pow10(n) == v * Pow10(scale) / Pow10(decimals)
  {
    PowSum(n, decimals - n);
    var rest, k := Pow10(decimals - n), Pow10(scale);
    CancelFactor(units * k, Pow10(n), rest);
    assert units * k * rest == v * k;
  }

  /** Reading back what was printed gives the floor of v / 10^decimals, at whatever scale it is read. */
  lemma ReadBack(v: nat, decimals: nat, scale: nat)
    ensures Scaled(FormatBaseUnits(v, decimals), scale) == Some(v * Pow10(scale) / Pow10(decimals))
  {
    FormatIsExact(v, decimals);
    var whole, frac := Whole(v, decimals), Frac(v, decimals);
    ScaledIsFloor(whole, frac, frac != "", scale);
    Rescale(Value(whole + frac), |frac|, decimals, v, scale);
  }

  /** With no more decimals than the scale, nothing is lost, so no two amounts print alike. */
  lemma ReadBackExactly(v: nat, decimals: nat, scale: nat)
    requires decimals <= scale
    ensures Scaled(FormatBaseUnits(v, decimals), scale) == Some(v * Pow10(scale - decimals))
    ensures forall w: nat :: FormatBaseUnits(w, decimals) == FormatBaseUnits(v, decimals) ==> w == v
  {
    ReadBack(v, decimals, scale);
    Rescales(v, decimals, scale);
    forall w: nat | FormatBaseUnits(w, decimals) == FormatBaseUnits(v, decimals) ensures w == v {
      ReadBack(w, decimals, scale);
      Rescales(w, decimals, scale);
      CancelEqual(w, v, Pow10(scale - decimals));
    }
  }

  lemma CancelEqual(x: nat, y: nat, k: nat)
    requires k > 0 && x * k == y * k
    ensures x == y
  {
    assert (x - y) * k == 0;
  }

  /** What formatBaseUnits prints, toScaled reads back exactly. */
  lemma PrintedIsReadExactly(v: nat, decimals: nat, scale: nat)
    requires decimals <= scale == 18
    ensures ToScaled(FormatBaseUnits(v, decimals)) == Some(v * Pow10(scale - decimals))
  {
    ReadBackExactly(v, decimals, scale);
  }
}
