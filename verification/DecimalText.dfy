/** Decimal digit strings: the text form of natural numbers and the value of a run of digits. */
module DecimalText {

  predicate IsDigit(c: char) {
    '0' <= c <= '9'
  }

  predicate AllDigits(s: string) {
    forall i :: 0 <= i < |s| ==> IsDigit(s[i])
  }

  function DigitChar(d: nat): (c: char)
    requires d < 10
    ensures IsDigit(c) && DigitOf(c) == d
  {
    '0' + d as char
  }

  function DigitOf(c: char): (d: nat)
    requires IsDigit(c)
    ensures d < 10
  {
    c as int - '0' as int
  }

  /** The number a run of digits denotes; the empty run denotes zero. */
  function Value(s: string): nat
    requires AllDigits(s)
  {
    if s == [] then 0 else 10 * Value(s[..|s| - 1]) + DigitOf(s[|s| - 1])
  }

  /** The usual decimal text of a natural number, without leading zeros. */
  function Decimal(n: nat): (s: string)
    ensures s != [] && AllDigits(s)
  {
    if n < 10 then [DigitChar(n)] else Decimal(n / 10) + [DigitChar(n % 10)]
  }

  /** The digits of a text, everything else removed. */
  function OnlyDigits(s: string): (r: string)
    ensures AllDigits(r) && |r| <= |s|
  {
    if s == [] then []
    else if IsDigit(s[0]) then [s[0]] + OnlyDigits(s[1..])
    else OnlyDigits(s[1..])
  }

  /** A number between 0 and 99 on exactly two characters. */
  function Pad2(n: nat): (s: string)
    requires n < 100
    ensures |s| == 2 && AllDigits(s)
  {
    [DigitChar(n / 10), DigitChar(n % 10)]
  }

  /** Text and value are inverse: the text of a number denotes that number. */
  lemma {:induction false} DecimalValue(n: nat)
    ensures Value(Decimal(n)) == n
  {
    if n < 10 {
      var s := Decimal(n);
      assert s[..|s| - 1] == [];
    } else {
      DecimalValue(n / 10);
      var s := Decimal(n);
      assert s[..|s| - 1] == Decimal(n / 10);
    }
  }

  /** Text and value are inverse the other way: a run of digits without a leading zero is the text of its value. */
  lemma {:induction false} ValueDecimal(s: string)
    requires AllDigits(s) && s != []
    requires s[0] != '0' || |s| == 1
    ensures Decimal(Value(s)) == s
  {
    var front, last := s[..|s| - 1], s[|s| - 1];
    if |s| == 1 {
      assert front == [] && s == [last];
    } else {
      ValueDecimal(front);
      ValuePositive(front);
      assert Value(s) / 10 == Value(front) && Value(s) % 10 == DigitOf(last);
      assert s == front + [last];
    }
  }

  lemma {:induction false} ValuePositive(s: string)
    requires AllDigits(s) && s != [] && s[0] != '0'
    ensures Value(s) > 0
  {
    if |s| == 1 {
      assert s[..|s| - 1] == [];
    } else {
      ValuePositive(s[..|s| - 1]);
    }
  }

  /** Leading zeros do not change the value. */
  lemma {:induction false} LeadingZero(s: string)
    requires AllDigits(s)
    ensures AllDigits("0" + s) && Value("0" + s) == Value(s)
  {
    var t := "0" + s;
    if s != [] {
      LeadingZero(s[..|s| - 1]);
      assert t[..|t| - 1] == "0" + s[..|s| - 1];
    } else {
      assert t[..|t| - 1] == [];
    }
  }

  lemma ValueOfTwo(s: string)
    requires |s| == 2 && AllDigits(s)
    ensures Value(s) == 10 * DigitOf(s[0]) + DigitOf(s[1]) < 100
    ensures Pad2(Value(s)) == s
  {
    assert s[..1] == [s[0]];
    assert Value(s[..1]) == DigitOf(s[0]) by {
      assert s[..1][..0] == [];
    }
  }

  lemma ValueOfPad2(n: nat)
    requires n < 100
    ensures Value(Pad2(n)) == n
  {
    ValueOfTwo(Pad2(n));
  }

  lemma ValueOfFour(s: string)
    requires |s| == 4 && AllDigits(s)
    ensures Value(s) == 1000 * DigitOf(s[0]) + 100 * DigitOf(s[1]) + 10 * DigitOf(s[2]) + DigitOf(s[3]) < 10000
  {
    assert s[..3][..2] == s[..2];
    ValueOfTwo(s[..2]);
  }

  /** A number has four digits exactly when it lies between 1000 and 9999. */
  lemma FourDigits(n: nat)
    ensures |Decimal(n)| == 4 <==> 1000 <= n <= 9999
    ensures |Decimal(n)| < 4 <==> n < 1000
  {
    assert n / 10 / 10 == n / 100 && n / 100 / 10 == n / 1000;
    if n >= 10 {
      assert |Decimal(n)| == 1 + |Decimal(n / 10)|;
      if n >= 100 {
        assert |Decimal(n / 10)| == 1 + |Decimal(n / 100)|;
        if n >= 1000 {
          assert |Decimal(n / 100)| == 1 + |Decimal(n / 1000)|;
          assert n / 1000 >= 10 ==> |Decimal(n / 1000)| == 1 + |Decimal(n / 1000 / 10)|;
        }
      }
    }
  }
}
