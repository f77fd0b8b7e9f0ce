/**
 The number tokens that the reader of JSON accepts are those of the grammar in section 6 of
 RFC 8259: an optional minus, an integer part, and optionally a fraction and an exponent.
 */
module NumberTokens {
  import opened Ordering
  import opened Json

  predicate AllDigits(t: string) {
    forall i | 0 <= i < |t| :: '0' <= t[i] <= '9'
  }

  /** At least one digit. */
  predicate DigitRun(t: string) {
    t != "" && AllDigits(t)
  }

  predicate IntegerPart(t: string) {
    t == "0" || (DigitRun(t) && t[0] != '0')
  }

  predicate Fraction(t: string) {
    t == "" || (t[0] == '.' && DigitRun(t[1..]))
  }

  predicate Exponent(t: string) {
    t == "" ||
    ((t[0] == 'e' || t[0] == 'E') &&
     (DigitRun(t[1..]) || (|t| > 1 && (t[1] == '+' || t[1] == '-') && DigitRun(t[2..]))))
  }

  predicate Written(minus: string, whole: string, fraction: string, exponent: string) {
    (minus == "" || minus == "-") && IntegerPart(whole) && Fraction(fraction) && Exponent(exponent)
  }

  lemma DigitIs(c: char)
    ensures Digit(c) >= 0 <==> '0' <= c <= '9'
  {
  }

  /** The digits that are dropped. */
  lemma {:induction false} DropSplits(s: string) returns (run: string)
    ensures s == run + DropDigits(s) && AllDigits(run) && !StartsWithDigit(DropDigits(s))
    ensures run == "" <==> !StartsWithDigit(s)
    ensures run != "" ==> run[0] == s[0]
    decreases |s|
  {
    if StartsWithDigit(s) {
      var rest := DropSplits(s[1..]);
      run := [s[0]] + rest;
      assert s == [s[0]] + s[1..];
    } else {
      run := "";
    }
  }

  lemma {:induction false} DropRun(run: string, tail: string)
    requires AllDigits(run) && !StartsWithDigit(tail)
    ensures DropDigits(run + tail) == tail
    decreases |run|
  {
    if run == "" {
      assert run + tail == tail;
    } else {
      assert (run + tail)[1..] == run[1..] + tail;
      DropRun(run[1..], tail);
    }
  }

  lemma RunIs(t: string)
    ensures StartsWithDigit(t) && DropDigits(t) == "" <==> DigitRun(t)
  {
    var run := DropSplits(t);
    if DigitRun(t) {
      DropRun(t, "");
      assert t + "" == t;
    }
    if StartsWithDigit(t) && DropDigits(t) == "" {
      assert run == t;
    }
  }

  lemma ExponentIs(t: string)
    ensures ExponentPart(t) <==> Exponent(t)
  {
    if t != "" && (t[0] == 'e' || t[0] == 'E') {
      RunIs(t[1..]);
      if |t| > 1 && (t[1] == '+' || t[1] == '-') {
        RunIs(t[2..]);
        assert !DigitRun(t[1..]) by {
          assert t[1..][0] == t[1];
        }
      }
    }
  }

  /** A fraction, if there is one, and what follows it. */
  lemma FractionSplits(s: string) returns (fraction: string, exponent: string)
    requires FractionPart(s)
    ensures s == fraction + exponent && Fraction(fraction) && Exponent(exponent)
  {
    if s != "" && s[0] == '.' {
      var run := DropSplits(s[1..]);
      fraction, exponent := "." + run, DropDigits(s[1..]);
      assert fraction[1..] == run;
      assert s == ['.'] + s[1..];
    } else {
      fraction, exponent := "", s;
    }
    ExponentIs(exponent);
  }

  lemma FractionJoins(fraction: string, exponent: string)
    requires Fraction(fraction) && Exponent(exponent)
    ensures FractionPart(fraction + exponent) && !StartsWithDigit(fraction + exponent)
  {
    var s := fraction + exponent;
    ExponentIs(exponent);
    if fraction == "" {
      assert s == exponent;
    } else {
      assert s[1..] == fraction[1..] + exponent;
      DropRun(fraction[1..], exponent);
      assert s[1..][0] == fraction[1..][0];
    }
  }

  predicate NumberChars(s: string) {
    forall i | 0 <= i < |s| :: NumberChar(s[i])
  }

  lemma CharsFollow(minus: string, whole: string, fraction: string, exponent: string)
    requires Written(minus, whole, fraction, exponent)
    ensures NumberChars(minus) && NumberChars(whole) && NumberChars(fraction) && NumberChars(exponent)
  {
    forall i | 0 <= i < |fraction| ensures NumberChar(fraction[i]) {
      assert i > 0 ==> fraction[i] == fraction[1..][i - 1];
    }
    forall i | 0 <= i < |exponent| ensures NumberChar(exponent[i]) {
      assert i > 0 ==> exponent[i] == exponent[1..][i - 1];
      assert i > 1 ==> exponent[i] == exponent[2..][i - 2];
    }
  }

  lemma Regrouped(a: string, b: string, c: string, d: string)
    ensures a + b + c + d == a + (b + (c + d))
  {
  }

  /** What follows the sign. */
  predicate Unsigned(t: string) {
    StartsWithDigit(t) && FractionPart(if t[0] == '0' then t[1..] else DropDigits(t))
  }

  function Signless(s: string): string {
    if s != "" && s[0] == '-' then s[1..] else s
  }

  lemma TokenIs(s: string)
    ensures NumberToken(s) <==> NumberChars(s) && Unsigned(Signless(s))
  {
  }

  lemma UnsignedSplits(t: string) returns (whole: string, fraction: string, exponent: string)
    requires Unsigned(t)
    ensures t == whole + (fraction + exponent) && Written("", whole, fraction, exponent)
  {
    var run := DropSplits(t);
    if t[0] == '0' {
      whole := "0";
      fraction, exponent := FractionSplits(t[1..]);
      assert t == [t[0]] + t[1..];
    } else {
      whole := run;
      fraction, exponent := FractionSplits(DropDigits(t));
    }
  }

  lemma NumberSplits(s: string) returns (minus: string, whole: string, fraction: string, exponent: string)
    requires NumberToken(s)
    ensures s == minus + whole + fraction + exponent && Written(minus, whole, fraction, exponent)
  {
    TokenIs(s);
    var t := Signless(s);
    minus := if s != "" && s[0] == '-' then "-" else "";
    assert s == minus + t;
    whole, fraction, exponent := UnsignedSplits(t);
    Regrouped(minus, whole, fraction, exponent);
  }

  lemma UnsignedJoins(whole: string, fraction: string, exponent: string)
    requires Written("", whole, fraction, exponent)
    ensures Unsigned(whole + (fraction + exponent)) && (whole + (fraction + exponent))[0] != '-'
  {
    var rest := fraction + exponent;
    FractionJoins(fraction, exponent);
    assert (whole + rest)[0] == whole[0];
    if whole == "0" {
      assert (whole + rest)[1..] == rest;
    } else {
      DropRun(whole, rest);
    }
  }

  lemma CharsJoin(minus: string, whole: string, fraction: string, exponent: string)
    requires Written(minus, whole, fraction, exponent)
    ensures NumberChars(minus + (whole + (fraction + exponent)))
  {
    CharsFollow(minus, whole, fraction, exponent);
  }

  lemma NumberJoins(minus: string, whole: string, fraction: string, exponent: string)
    requires Written(minus, whole, fraction, exponent)
    ensures NumberToken(minus + whole + fraction + exponent)
  {
    var t := whole + (fraction + exponent);
    UnsignedJoins(whole, fraction, exponent);
    CharsJoin(minus, whole, fraction, exponent);
    Regrouped(minus, whole, fraction, exponent);
    assert Signless(minus + t) == t;
    TokenIs(minus + t);
  }

  /** A token is accepted exactly if it is put together from these parts. */
  lemma NumberTokensAre(s: string)
    ensures NumberToken(s) <==>
      exists minus, whole, fraction, exponent ::
        Written(minus, whole, fraction, exponent) && s == minus + whole + fraction + exponent
  {
    if NumberToken(s) {
      var minus, whole, fraction, exponent := NumberSplits(s);
    }
    if minus, whole, fraction, exponent :|
        Written(minus, whole, fraction, exponent) && s == minus + whole + fraction + exponent {
      NumberJoins(minus, whole, fraction, exponent);
    }
  }
}
