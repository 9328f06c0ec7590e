/**
 * Decimal integers as Go's strconv.Atoi reads them on a 64-bit platform,
 * and the canonical decimal spelling that Atoi reads back.
 */
module Decimal {
  import opened Outcomes
  import Text

  const MIN_INT: int := -0x8000_0000_0000_0000
  const MAX_INT: int := 0x7fff_ffff_ffff_ffff

  predicate IsDigit(c: char)
  {
    '0' <= c <= '9'
  }

  predicate AllDigits(s: string)
  {
    forall i :: 0 <= i < |s| ==> IsDigit(s[i])
  }

  /** The value of a digit string, accumulated left to right as n*10 + digit. */
  function Magnitude(ds: string): nat
    requires AllDigits(ds)
    decreases |ds|
  {
    if ds == [] then 0
    else
      assert IsDigit(ds[|ds| - 1]);
      Magnitude(ds[..|ds| - 1]) * 10 + (ds[|ds| - 1] as int - '0' as int)
  }

  /** What follows an optional leading '+' or '-'. */
  function Unsigned(s: string): string
  {
    if |s| >= 1 && (s[0] == '+' || s[0] == '-') then s[1..] else s
  }

  /**
   * strconv.Atoi: an optional sign, then one or more decimal digits, whose
   * value must fit in a 64-bit int; anything else is a syntax or range
   * error, which is None here.
   */
  function Atoi(s: string): (r: Option<int>)
    ensures r.Some? ==> MIN_INT <= r.value <= MAX_INT
  {
    var ds := Unsigned(s);
    if ds == [] || !AllDigits(ds) then None
    else
      var v: int := if s[0] == '-' then -(Magnitude(ds) as int) else Magnitude(ds);
      if MIN_INT <= v <= MAX_INT then Some(v) else None
  }

  function DigitChar(d: nat): char
    requires d < 10
  {
    ('0' as int + d) as char
  }

  /** The shortest decimal spelling of a natural number. */
  function Digits(n: nat): (s: string)
    ensures |s| >= 1 && AllDigits(s)
    decreases n
  {
    if n < 10 then [DigitChar(n)] else Digits(n / 10) + [DigitChar(n % 10)]
  }

  /** The canonical spelling of an integer (what strconv.Itoa writes). */
  function Itoa(n: int): string
  {
    if n < 0 then "-" + Digits(-n) else Digits(n)
  }

  lemma {:induction false} MagnitudeOfDigits(n: nat)
    ensures Magnitude(Digits(n)) == n
    decreases n
  {
    if n >= 10 {
      MagnitudeOfDigits(n / 10);
      var s := Digits(n);
      assert s[..|s| - 1] == Digits(n / 10);
    }
  }

  /** Atoi reads back every int it can hold from its canonical spelling. */
  lemma AtoiItoa(n: int)
    requires MIN_INT <= n <= MAX_INT
    ensures Atoi(Itoa(n)) == Some(n)
  {
    if n < 0 {
      MagnitudeOfDigits(-n);
      assert Unsigned(Itoa(n)) == Digits(-n);
    } else {
      MagnitudeOfDigits(n);
      assert IsDigit(Digits(n)[0]);
      assert Unsigned(Itoa(n)) == Digits(n);
    }
  }

  /** An explicit '+' in front of the digits is accepted too. */
  lemma AtoiPlus(n: nat)
    requires n <= MAX_INT
    ensures Atoi("+" + Digits(n)) == Some(n)
  {
    MagnitudeOfDigits(n);
    assert Unsigned("+" + Digits(n)) == Digits(n);
  }

  /**
   * One character that is neither a digit nor a sign in front makes the
   * field unreadable: a trailing '\r' or a word such as "NOTANUMBER".
   */
  lemma AtoiRejectsStray(s: string, i: nat)
    requires i < |s| && !IsDigit(s[i])
    requires i == 0 ==> s[0] != '+' && s[0] != '-'
    ensures Atoi(s) == None
  {
    var ds := Unsigned(s);
    if i == 0 {
      assert ds == s;
    } else if ds == s[1..] {
      assert ds[i - 1] == s[i];
    } else {
      assert ds[i] == s[i];
    }
  }

  /** A '0' in front of the digits leaves their value unchanged. */
  lemma {:induction false} MagnitudeLeadingZero(ds: string)
    requires AllDigits(ds)
    ensures AllDigits("0" + ds) && Magnitude("0" + ds) == Magnitude(ds)
    decreases |ds|
  {
    var z := "0" + ds;
    assert AllDigits(z) by {
      forall i | 0 <= i < |z| ensures IsDigit(z[i]) {
        if i > 0 {
          assert z[i] == ds[i - 1];
        }
      }
    }
    if ds != [] {
      var init := ds[..|ds| - 1];
      MagnitudeLeadingZero(init);
      assert z[..|z| - 1] == "0" + init;
      assert z[|z| - 1] == ds[|ds| - 1];
    }
  }

  /** A digit string that does not start with '0' has a positive value. */
  lemma {:induction false} MagnitudePositive(ds: string)
    requires ds != [] && AllDigits(ds) && ds[0] != '0'
    ensures Magnitude(ds) >= 1
    decreases |ds|
  {
    if |ds| > 1 {
      var init := ds[..|ds| - 1];
      assert init[0] == ds[0];
      MagnitudePositive(init);
    }
  }

  /**
   * A digit string without a leading zero (or the single digit "0") is the
   * canonical spelling of its own value. With AtoiLeadingZero, every digit
   * string therefore reads as some Digits(n), to which AtoiItoa, AtoiPlus
   * and AtoiOutOfRange apply.
   */
  lemma {:induction false} DigitsOfMagnitude(ds: string)
    requires ds != [] && AllDigits(ds) && (ds[0] != '0' || |ds| == 1)
    ensures Digits(Magnitude(ds)) == ds
    decreases |ds|
  {
    var init := ds[..|ds| - 1];
    var c := ds[|ds| - 1];
    assert IsDigit(c);
    var d := c as int - '0' as int;
    assert DigitChar(d) == c;
    if init == [] {
      assert ds == [c];
    } else {
      assert init[0] == ds[0];
      DigitsOfMagnitude(init);
      MagnitudePositive(init);
      var n := Magnitude(ds);
      assert n == Magnitude(init) * 10 + d;
      assert n / 10 == Magnitude(init) && n % 10 == d;
      assert ds == init + [c];
    }
  }

  /**
   * Leading zeros after the optional sign are accepted and ignored: "0100"
   * reads as 100, "+007" as 7. Together with AtoiItoa and AtoiPlus this
   * fixes the value of every spelling Atoi accepts.
   */
  lemma AtoiLeadingZero(p: string, ds: string)
    requires p == "" || p == "+" || p == "-"
    requires ds != [] && AllDigits(ds)
    ensures Atoi(p + "0" + ds) == Atoi(p + ds)
  {
    MagnitudeLeadingZero(ds);
    assert IsDigit(ds[0]);
    SignedDigits(p, "0" + ds);
    SignedDigits(p, ds);
    Text.ConcatAssociates(p, "0", ds);
  }

  /** A sign (or none) in front of text that starts with a digit: Unsigned strips exactly the sign. */
  lemma SignedDigits(p: string, x: string)
    requires p == "" || p == "+" || p == "-"
    requires x != [] && IsDigit(x[0])
    ensures Unsigned(p + x) == x
    ensures (p + x)[0] == '-' <==> p == "-"
  {
    if p == "" {
      assert p + x == x;
    } else {
      assert (p + x)[1..] == x;
    }
  }

  /** "-0" is zero: a minus sign on a zero magnitude is accepted. */
  lemma AtoiMinusZero(s: string)
    requires s == "-0"
    ensures Atoi(s) == Some(0)
  {
    var ds := "0";
    assert AllDigits(ds) && ds[..|ds| - 1] == "";
    assert Magnitude(ds) == 0;
    assert Unsigned(s) == ds;
  }

  /** "0100" reads as 100. */
  lemma AtoiZeroPadded(s: string)
    requires s == "0100"
    ensures Atoi(s) == Some(100)
  {
    var ds := "100";
    assert Magnitude(ds[..1]) == 1;
    assert ds[..2][..1] == ds[..1];
    assert Magnitude(ds[..2]) == 10;
    assert ds[..2] == ds[..|ds| - 1];
    assert Magnitude(ds) == 100;
    MagnitudeLeadingZero(ds);
    assert s == "0" + ds;
    assert Unsigned(s) == s;
  }

  /** "+007" reads as 7. */
  lemma AtoiPlusZeros(s: string)
    requires s == "+007"
    ensures Atoi(s) == Some(7)
  {
    var ds := "7";
    MagnitudeLeadingZero(ds);
    MagnitudeLeadingZero("0" + ds);
    assert s[1..] == "0" + ("0" + ds);
    assert Unsigned(s) == s[1..];
  }

  /** No digits at all is a syntax error: "", "+" and "-". */
  lemma AtoiNeedsDigits(s: string)
    requires s == "" || s == "+" || s == "-"
    ensures Atoi(s) == None
  {
    assert Unsigned(s) == [];
  }

  /**
   * A magnitude beyond the 64-bit range is a range error, with or without
   * a sign: more than MAX_INT unsigned or with '+', more than -MIN_INT with '-'.
   */
  lemma AtoiOutOfRange(n: nat)
    ensures n > MAX_INT ==> Atoi(Digits(n)) == None && Atoi("+" + Digits(n)) == None
    ensures n > -MIN_INT ==> Atoi("-" + Digits(n)) == None
  {
    MagnitudeOfDigits(n);
    assert IsDigit(Digits(n)[0]);
    SignedDigits("", Digits(n));
    SignedDigits("+", Digits(n));
    SignedDigits("-", Digits(n));
    assert "" + Digits(n) == Digits(n);
  }

  /** One past either end of the 64-bit range is a range error. */
  lemma AtoiRange()
    ensures Atoi(Digits(MAX_INT + 1)) == None
    ensures Atoi("-" + Digits(-MIN_INT + 1)) == None
    ensures Atoi("-" + Digits(-MIN_INT)) == Some(MIN_INT)
  {
    MagnitudeOfDigits(MAX_INT + 1);
    assert IsDigit(Digits(MAX_INT + 1)[0]);
    assert Unsigned(Digits(MAX_INT + 1)) == Digits(MAX_INT + 1);
    MagnitudeOfDigits(-MIN_INT + 1);
    assert Unsigned("-" + Digits(-MIN_INT + 1)) == Digits(-MIN_INT + 1);
    MagnitudeOfDigits(-MIN_INT);
    assert Unsigned("-" + Digits(-MIN_INT)) == Digits(-MIN_INT);
  }
}
