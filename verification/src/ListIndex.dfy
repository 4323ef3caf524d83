/** Numbers as text: what a list index of a path is read as. */
module ListIndex {
  import opened Options

  predicate IsDigit(c: char) {
    '0' <= c <= '9'
  }

  function DigitValue(c: char): int {
    c as int - '0' as int
  }

  predicate AllDigits(s: string) {
    forall i :: 0 <= i < |s| ==> IsDigit(s[i])
  }

  predicate Digits(s: string) {
    s != "" && AllDigits(s)
  }

  function Number(s: string): int {
    if s == "" then 0 else 10 * Number(s[..|s| - 1]) + DigitValue(s[|s| - 1])
  }

  /** Decimal digits after an optional sign. */
  function Atoi(s: string): Option<int> {
    if Digits(s) then Some(Number(s))
    else if |s| > 1 && s[0] == '+' && Digits(s[1..]) then Some(Number(s[1..]))
    else if |s| > 1 && s[0] == '-' && Digits(s[1..]) then Some(-Number(s[1..]))
    else None
  }

  // ----- numbers in decimal

  function Digit(d: nat): (c: char)
    requires d < 10
    ensures IsDigit(c) && DigitValue(c) == d
  {
    "0123456789"[d]
  }

  function Decimal(n: nat): string
    decreases n
  {
    if n < 10 then [Digit(n)] else Decimal(n / 10) + [Digit(n % 10)]
  }

  function Zeros(z: nat): string {
    seq(z, _ => '0')
  }

  /** `s` is the number with leading zeros and a sign; only a number that is not negative may lack one. */
  predicate Written(s: string, v: int, sign: string, z: nat) {
    && s == sign + (Zeros(z) + Decimal(if v < 0 then -v else v))
    && (v < 0 ==> sign == "-") && (v > 0 ==> sign != "-") && sign in {"", "+", "-"}
  }

  lemma {:induction false} NumberMore(t: string, c: char)
    ensures Number(t + [c]) == 10 * Number(t) + DigitValue(c)
    ensures AllDigits(t) && IsDigit(c) ==> Digits(t + [c])
  {
    assert (t + [c])[..|t|] == t;
  }

  lemma {:induction false} DecimalDigits(n: nat)
    ensures Digits(Decimal(n)) && Number(Decimal(n)) == n
    decreases n
  {
    if n < 10 {
      NumberMore("", Digit(n));
      assert "" + [Digit(n)] == [Digit(n)];
    } else {
      DecimalDigits(n / 10);
      NumberMore(Decimal(n / 10), Digit(n % 10));
    }
  }

  lemma {:induction false} ZerosMore(z: nat)
    ensures Zeros(z + 1) == Zeros(z) + ['0']
  {
  }

  lemma {:induction false} AllZeros(z: nat)
    ensures Number(Zeros(z)) == 0 && AllDigits(Zeros(z))
  {
    if z > 0 {
      AllZeros(z - 1);
      ZerosMore(z - 1);
      NumberMore(Zeros(z - 1), '0');
    }
  }

  lemma {:induction false} ZerosNumber(z: nat, s: string)
    requires AllDigits(s)
    ensures AllDigits(Zeros(z) + s) && Number(Zeros(z) + s) == Number(s)
    decreases |s|
  {
    if s == "" {
      AllZeros(z);
      assert Zeros(z) + s == Zeros(z);
    } else {
      var t, c := s[..|s| - 1], s[|s| - 1];
      ZerosNumber(z, t);
      NumberMore(Zeros(z) + t, c);
      assert Zeros(z) + s == (Zeros(z) + t) + [c];
    }
  }

  lemma {:induction false} DecimalMore(n: nat, d: nat)
    requires n > 0 && d < 10
    ensures Decimal(10 * n + d) == Decimal(n) + [Digit(d)]
  {
    assert (10 * n + d) / 10 == n && (10 * n + d) % 10 == d;
  }

  lemma {:induction false} MoreZeros(t: string, z: nat, d: nat)
    requires t == Zeros(z) + Decimal(0) && d < 10
    ensures t + [Digit(d)] == Zeros(z + 1) + Decimal(d)
  {
    assert Decimal(0) == [Digit(0)] && Digit(0) == '0' && Decimal(d) == [Digit(d)];
    ZerosMore(z);
  }

  lemma {:induction false} MoreDigits(t: string, z: nat, n: nat, d: nat)
    requires t == Zeros(z) + Decimal(n) && n > 0 && d < 10
    ensures t + [Digit(d)] == Zeros(z) + Decimal(10 * n + d)
  {
    DecimalMore(n, d);
    assert t + [Digit(d)] == Zeros(z) + (Decimal(n) + [Digit(d)]);
  }

  lemma {:induction false} DigitBack(c: char)
    requires IsDigit(c)
    ensures 0 <= DigitValue(c) < 10 && Digit(DigitValue(c)) == c
  {
  }

  /** Digits are zeros and a number in decimal. */
  lemma {:induction false} DigitsWritten(s: string) returns (z: nat)
    requires Digits(s)
    ensures Number(s) >= 0 && s == Zeros(z) + Decimal(Number(s))
    decreases |s|
  {
    var t, c := s[..|s| - 1], s[|s| - 1];
    DigitBack(c);
    assert s == t + [c];
    if t == "" {
      z := 0;
      OneDigit(c);
      assert s == [c] == Zeros(0) + [c];
    } else {
      z := DigitsWritten(t);
      NumberMore(t, c);
      if Number(t) == 0 {
        MoreZeros(t, z, DigitValue(c));
        z := z + 1;
      } else {
        MoreDigits(t, z, Number(t), DigitValue(c));
      }
    }
  }

  lemma {:induction false} OneDigit(c: char)
    requires IsDigit(c)
    ensures Number([c]) == DigitValue(c) >= 0 && Decimal(DigitValue(c)) == [c]
  {
    DigitBack(c);
    assert [c][..0] == "" && Number("") == 0;
  }

  lemma {:induction false} AtoiReads(s: string, v: int)
    requires Atoi(s) == Some(v)
    ensures exists sign, z :: Written(s, v, sign, z)
  {
    if Digits(s) {
      var z := DigitsWritten(s);
      assert s == "" + (Zeros(z) + Decimal(v));
      assert Written(s, v, "", z);
    } else {
      var z := DigitsWritten(s[1..]);
      var sign := [s[0]];
      assert s == sign + s[1..];
      assert sign == if s[0] == '+' then "+" else "-";
      assert Written(s, v, sign, z);
    }
  }

  lemma {:induction false} WrittenReads(s: string, v: int, sign: string, z: nat)
    requires Written(s, v, sign, z)
    ensures Atoi(s) == Some(v)
  {
    var n := if v < 0 then -v else v;
    var t := Zeros(z) + Decimal(n);
    DecimalDigits(n);
    ZerosNumber(z, Decimal(n));
    SignedReads(sign, t);
  }

  lemma {:induction false} SignedReads(sign: string, t: string)
    requires Digits(t) && sign in {"", "+", "-"}
    ensures Atoi(sign + t) == Some(if sign == "-" then -Number(t) else Number(t))
  {
    if sign == "" {
      assert sign + t == t;
    } else {
      assert (sign + t)[0] == sign[0] && (sign + t)[1..] == t;
      assert !IsDigit((sign + t)[0]);
    }
  }

  /** MAIN RESULT. Exactly the numbers written in decimal, with any leading zeros and a sign, are read, and read as
      what they are. */
  lemma {:induction false} AtoiIff(s: string, v: int)
    ensures Atoi(s) == Some(v) <==> exists sign, z :: Written(s, v, sign, z)
  {
    if Atoi(s) == Some(v) {
      AtoiReads(s, v);
    }
    if sign, z :| Written(s, v, sign, z) {
      WrittenReads(s, v, sign, z);
    }
  }
}
