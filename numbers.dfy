/** JavaScript numbers as far as the edit planner sees them: a timestamp is
    either a finite value or NaN (what `parseFloat` gives for text with no
    digit in the right place), and every ordering comparison involving NaN is
    false. Floating-point rounding is not modelled: a finite value is an exact
    real. */
module Numbers {
  import opened Strings

  datatype Option<+T> = None | Some(value: T)

  datatype Num = Finite(v: real) | NaN

  /** `a > b` on JavaScript numbers. */
  predicate Gt(a: Num, b: Num) {
    a.Finite? && b.Finite? && a.v > b.v
  }

  /** `a < b` on JavaScript numbers. */
  predicate Lt(a: Num, b: Num) {
    a.Finite? && b.Finite? && a.v < b.v
  }

  /** A number used as a condition: 0 and NaN are falsy. */
  predicate Truthy(n: Num) {
    n.Finite? && n.v != 0.0
  }

  /** A character of the class `[\d.]`. */
  predicate IsNumberChar(c: char) {
    IsDigit(c) || c == '.'
  }

  predicate IsNumberText(s: string) {
    forall i :: 0 <= i < |s| ==> IsNumberChar(s[i])
  }

  /** The longest prefix of `s` made of decimal digits. */
  function DigitRun(s: string): (r: string)
    ensures |r| <= |s| && r <= s
    ensures AllDigits(r)
    ensures |r| == |s| || !IsDigit(s[|r|])
    decreases |s|
  {
    if |s| == 0 || !IsDigit(s[0]) then "" else [s[0]] + DigitRun(s[1..])
  }

  /** The value of the digits written after a decimal point. */
  function Fraction(ds: string): (f: real)
    requires AllDigits(ds)
    ensures 0.0 <= f < 1.0
    decreases |ds|
  {
    if |ds| == 0 then 0.0 else (DigitOf(ds[0]) as real + Fraction(ds[1..])) / 10.0
  }

  /** `parseFloat(s)` for a string matched by `[\d.]+`: the value of the longest
      prefix of the form `digits`, `digits.digits?` or `.digits`, and NaN when
      there is no such prefix (for instance `"."` or `"..5"`). Only strings of
      `[\d.]` reach it, so signs, exponents and `Infinity` need no case. */
  function ParseDecimal(s: string): (r: Num)
    ensures r.Finite? <==> |s| > 0 && (IsDigit(s[0]) || (|s| > 1 && s[0] == '.' && IsDigit(s[1])))
    ensures r.Finite? ==> r.v >= 0.0
  {
    var whole := DigitRun(s);
    if |whole| > 0 then
      var rest := s[|whole|..];
      if |rest| > 0 && rest[0] == '.' then
        Finite(DigitsValue(whole) as real + Fraction(DigitRun(rest[1..])))
      else
        Finite(DigitsValue(whole) as real)
    else if |s| > 1 && s[0] == '.' && IsDigit(s[1]) then
      Finite(Fraction(DigitRun(s[1..])))
    else
      NaN
  }

  lemma {:induction false} DigitRunStops(w: string, t: string)
    requires AllDigits(w)
    requires |t| == 0 || !IsDigit(t[0])
    ensures DigitRun(w + t) == w
    decreases |w|
  {
    if |w| == 0 {
      assert w + t == t;
    } else {
      assert (w + t)[1..] == w[1..] + t;
      DigitRunStops(w[1..], t);
      assert [w[0]] + w[1..] == w;
    }
  }

  /** A whole number, a point and a fraction are read as that decimal; anything
      after a second point is ignored. */
  lemma ParseDecimalPointed(w: string, f: string, t: string)
    requires |w| > 0 && AllDigits(w) && AllDigits(f)
    requires |t| == 0 || t[0] == '.'
    ensures ParseDecimal(w + "." + f + t) == Finite(DigitsValue(w) as real + Fraction(f))
  {
    var tail := ['.'] + (f + t);
    ConcatRegroup(w, f, t);
    PointedTail(w, tail, f, t);
  }

  lemma PointedTail(w: string, tail: string, f: string, t: string)
    requires |w| > 0 && AllDigits(w) && AllDigits(f)
    requires |t| == 0 || t[0] == '.'
    requires tail == ['.'] + (f + t)
    ensures ParseDecimal(w + tail) == Finite(DigitsValue(w) as real + Fraction(f))
  {
    assert tail[1..] == f + t;
    DigitRunStops(f, t);
    ParseWholeThenPoint(w, tail);
  }

  lemma ConcatRegroup(w: string, f: string, t: string)
    ensures w + "." + f + t == w + (['.'] + (f + t))
  {
    assert w + "." + f == w + ("." + f);
    assert "." + f + t == ['.'] + (f + t);
  }

  lemma ParseWholeThenPoint(w: string, rest: string)
    requires |w| > 0 && AllDigits(w)
    requires |rest| > 0 && rest[0] == '.'
    ensures ParseDecimal(w + rest) == Finite(DigitsValue(w) as real + Fraction(DigitRun(rest[1..])))
  {
    var s := w + rest;
    DigitRunStops(w, rest);
    assert s[|w|..] == rest;
    assert ParseDecimal(s).Finite?;
    assert ParseDecimal(s).v == DigitsValue(w) as real + Fraction(DigitRun(rest[1..]));
  }

  /** Reading back the decimal rendering of a whole number gives the number. */
  lemma ParseDecimalNat(n: nat)
    ensures ParseDecimal(NatStr(n)) == Finite(n as real)
  {
    var s := NatStr(n);
    DigitRunStops(s, "");
    assert s + "" == s;
    NatStrRoundTrip(n);
  }

  /** The values in the test suite's detection log, and text with no digit. */
  lemma ParseDecimalExamples()
    ensures ParseDecimal("1.5") == Finite(1.5)
    ensures ParseDecimal("2.5") == Finite(2.5)
    ensures ParseDecimal("4.0") == Finite(4.0)
    ensures ParseDecimal("5.0") == Finite(5.0)
    ensures ParseDecimal(".") == NaN
    ensures ParseDecimal("..5") == NaN
  {
    ParseDecimalOneDigit('1', '5');
    ParseDecimalOneDigit('2', '5');
    ParseDecimalOneDigit('4', '0');
    ParseDecimalOneDigit('5', '0');
  }

  lemma ParseDecimalOneDigit(a: char, b: char)
    requires IsDigit(a) && IsDigit(b)
    ensures ParseDecimal([a, '.', b]) == Finite(DigitOf(a) as real + DigitOf(b) as real / 10.0)
  {
    ParseDecimalPointed([a], [b], "");
    assert [a] + "." + [b] + "" == [a, '.', b];
    assert DigitsValue([a]) == DigitOf(a) by {
      assert [a][..0] == [];
    }
    assert Fraction([b]) == DigitOf(b) as real / 10.0 by {
      assert [b][1..] == [];
    }
  }

  /** Anything after a second decimal point is ignored. */
  lemma ParseDecimalSecondPoint()
    ensures ParseDecimal("1.2.3") == Finite(1.2)
  {
    ParseDecimalPointed("1", "2", ".3");
    assert "1" + "." + "2" + ".3" == "1.2.3";
  }
}
