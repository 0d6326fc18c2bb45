/** Java's text conversions of numbers that the record and the importer rely on.
    Integer.toString, String.valueOf(int) and Integer.parseInt are modelled exactly on ASCII text;
    Double.toString and Double.parseDouble are left abstract: every lemma of the model holds for
    any choice of them. */
module Numbers {

  datatype Option<+T> = None | Some(value: T)

  /** A Java `int`. */
  type Int32 = x: int | -0x8000_0000 <= x <= 0x7fff_ffff

  /** Double.toString and Double.parseDouble, as parameters of the model. A double is a `real`;
      `parse` answers None where Java throws NumberFormatException. */
  datatype DoubleText = DoubleText(render: real -> string, parse: string -> Option<real>)

  predicate IsDigit(c: char) {
    '0' <= c <= '9'
  }

  predicate AllDigits(s: string) {
    forall i :: 0 <= i < |s| ==> IsDigit(s[i])
  }

  /** The digit scan of Integer.parseInt: left to right, every character is an ASCII digit. */
  predicate DigitsOnly(s: string)
    ensures DigitsOnly(s) ==> AllDigits(s)
  {
    if |s| == 0 then true
    else
      assert forall i :: 1 <= i < |s| ==> s[i] == s[1..][i - 1];
      IsDigit(s[0]) && DigitsOnly(s[1..])
  }

  /** The scan accepts exactly the texts made of digits. */
  lemma {:induction false} DigitsOnlyIffAllDigits(s: string)
    ensures DigitsOnly(s) <==> AllDigits(s)
  {
    if |s| > 0 {
      assert forall i :: 0 <= i < |s| - 1 ==> s[1..][i] == s[i + 1];
      DigitsOnlyIffAllDigits(s[1..]);
    }
  }

  function DigitChar(d: nat): (c: char)
    requires d < 10
    ensures IsDigit(c)
  {
    ('0' as int + d) as char
  }

  function DigitValue(c: char): nat
    requires IsDigit(c)
  {
    c as int - '0' as int
  }

  /** The decimal text of a non-negative number, without leading zeros
      (String.valueOf / Integer.toString on a non-negative value). */
  function NatToString(n: nat): (s: string)
    ensures |s| > 0 && AllDigits(s)
    ensures n > 0 ==> s[0] != '0'
  {
    if n < 10 then [DigitChar(n)] else NatToString(n / 10) + [DigitChar(n % 10)]
  }

  /** The number a run of decimal digits stands for, most significant digit first. */
  function DigitsValue(s: string): nat
    requires AllDigits(s)
  {
    if |s| == 0 then 0
    else
      assert AllDigits(s[..|s| - 1]);
      DigitsValue(s[..|s| - 1]) * 10 + DigitValue(s[|s| - 1])
  }

  /** Integer.toString: a minus sign before the digits of a negative value. */
  function IntToString(i: int): string {
    if i < 0 then "-" + NatToString(-i) else NatToString(i)
  }

  /** Integer.parseInt(s) with radix 10: an optional '+' or '-', then at least one ASCII digit,
      and a value inside the range of `int`; None stands for NumberFormatException. */
  function ParseInt(s: string): (r: Option<Int32>)
    ensures r.Some? ==> |s| > 0
  {
    if |s| == 0 then None
    else
      var body := if s[0] == '-' || s[0] == '+' then s[1..] else s;
      if |body| == 0 || !DigitsOnly(body) then None
      else
        var v: int := if s[0] == '-' then 0 - (DigitsValue(body) as int) else DigitsValue(body);
        if -0x8000_0000 <= v <= 0x7fff_ffff then Some(v) else None
  }

  /** Reading back the digits that NatToString wrote gives the number. */
  lemma {:induction false} NatToStringRoundTrip(n: nat)
    ensures DigitsValue(NatToString(n)) == n
  {
    var s := NatToString(n);
    if n >= 10 {
      var a := NatToString(n / 10);
      assert s == a + [DigitChar(n % 10)];
      assert s[..|s| - 1] == a;
      NatToStringRoundTrip(n / 10);
    }
  }

  /** Integer.parseInt reads back what Integer.toString writes, for every `int`. */
  lemma ParseIntRoundTrip(x: Int32)
    ensures ParseInt(IntToString(x)) == Some(x)
  {
    var s := IntToString(x);
    if x < 0 {
      var d := NatToString(0 - (x as int));
      assert s[1..] == d;
      DigitsOnlyIffAllDigits(d);
      NatToStringRoundTrip(0 - (x as int));
    } else {
      assert IsDigit(s[0]);
      DigitsOnlyIffAllDigits(s);
      NatToStringRoundTrip(x);
    }
  }

  /** Different numbers have different decimal texts. */
  lemma NatToStringInjective(m: nat, n: nat)
    requires NatToString(m) == NatToString(n)
    ensures m == n
  {
    NatToStringRoundTrip(m);
    NatToStringRoundTrip(n);
  }

  /** Integer.parseInt refuses text with a character that is neither a digit nor a leading sign. */
  lemma ParseIntRejectsNonDigit(s: string, i: nat)
    requires i < |s| && !IsDigit(s[i]) && (i == 0 ==> s[0] != '-' && s[0] != '+')
    ensures ParseInt(s) == None
  {
    if i > 0 && (s[0] == '-' || s[0] == '+') {
      assert s[1..][i - 1] == s[i];
    }
  }

  /** A sign without digits is refused. */
  lemma ParseIntRejectsLoneSign()
    ensures ParseInt("-") == None && ParseInt("+") == None
  {
  }

  /** Digits whose value lies beyond the largest `int` are refused. */
  lemma ParseIntRejectsOverflow(s: string)
    requires |s| > 0 && AllDigits(s) && DigitsValue(s) > 0x7fff_ffff
    ensures ParseInt(s) == None
  {
    DigitsOnlyIffAllDigits(s);
  }
}
