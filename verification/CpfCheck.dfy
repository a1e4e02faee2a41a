/** The check digits of a CPF number, and which single wrong digits they catch. */
module CpfCheck {
  import opened DecimalText

  predicate HasRepeatedDigits(s: string) {
    |s| >= 2 && forall i :: 0 <= i < |s| ==> s[i] == s[0]
  }

  /** The weighted digit sum: the first digit weighs `factor`, each further one less. */
  function WeightedSum(base: string, factor: int): int
    requires AllDigits(base)
  {
    if base == [] then 0
    else WeightedSum(base[..|base| - 1], factor) + DigitOf(base[|base| - 1]) * (factor - (|base| - 1))
  }

  function CheckDigit(total: int): int {
    var mod := total * 10 % 11;
    if mod == 10 then 0 else mod
  }

  /** `calcDigit`. */
  method CalcDigit(base: string, factor: int) returns (digit: int)
    requires AllDigits(base)
    ensures digit == CheckDigit(WeightedSum(base, factor))
  {
    var total := 0;
    for index := 0 to |base|
      invariant total == WeightedSum(base[..index], factor)
    {
      assert base[..index + 1][..index] == base[..index];
      total := total + DigitOf(base[index]) * (factor - index);
    }
    assert base[..|base|] == base;
    var mod := total * 10 % 11;
    digit := if mod == 10 then 0 else mod;
  }

  /** `isValidCpfDigits` on text that holds digits only. */
  predicate IsCpf(cpf: string) {
    && |cpf| == 11 && AllDigits(cpf) && !HasRepeatedDigits(cpf)
    && CheckDigit(WeightedSum(cpf[..9], 10)) == DigitOf(cpf[9])
    && CheckDigit(WeightedSum(cpf[..10], 11)) == DigitOf(cpf[10])
  }

  predicate IsValidCpf(value: string) {
    IsCpf(OnlyDigits(value))
  }

  /** `isValidCpfDigits`. */
  method IsValidCpfDigits(value: string) returns (r: bool)
    ensures r <==> IsValidCpf(value)
  {
    var cpf := OnlyDigits(value);
    if |cpf| != 11 || HasRepeatedDigits(cpf) {
      return false;
    }
    var first := CalcDigit(cpf[..9], 10);
    if first != DigitOf(cpf[9]) {
      return false;
    }
    var second := CalcDigit(cpf[..10], 11);
    r := second == DigitOf(cpf[10]);
  }

  predicate DifferOnlyAt(a: string, b: string, p: nat) {
    |a| == |b| && p < |a| && a[p] != b[p] && forall i :: 0 <= i < |a| && i != p ==> a[i] == b[i]
  }

  /** Changing one digit changes the weighted sum by its weight times the difference. */
  lemma {:induction false} SumDifference(a: string, b: string, p: nat, factor: int)
    requires AllDigits(a) && AllDigits(b) && |a| == |b|
    requires forall i :: 0 <= i < |a| && i != p ==> a[i] == b[i]
    ensures WeightedSum(b, factor) - WeightedSum(a, factor) ==
            if p < |a| then (DigitOf(b[p]) - DigitOf(a[p])) * (factor - p) else 0
  {
    if a == [] {
    } else if p == |a| - 1 {
      var n := |a| - 1;
      assert a[..n] == b[..n];
      Distribute(DigitOf(b[p]), DigitOf(a[p]), factor - p);
    } else {
      SumDifference(a[..|a| - 1], b[..|b| - 1], p, factor);
    }
  }

  lemma Distribute(x: int, y: int, w: int)
    ensures x * w - y * w == (x - y) * w
  {
  }

  /** Equal check digits mean that the sums agree modulo 11, or that they are 0 and 1 modulo 11. */
  lemma EqualCheckDigits(s: int, t: int)
    ensures CheckDigit(s) == CheckDigit(t) <==> (s - t) % 11 == 0 || (s % 11 <= 1 && t % 11 <= 1)
  {
    var a, b := s % 11, t % 11;
    TimesTen(s);
    TimesTen(t);
    assert (s - t) % 11 == (a - b) % 11 by {
      assert s - t == 11 * (s / 11 - t / 11) + (a - b);
      ShiftBy11(a - b, s / 11 - t / 11);
    }
  }

  lemma TimesTen(s: int)
    ensures s * 10 % 11 == if s % 11 == 0 then 0 else 11 - s % 11
  {
    var q, r := s / 11, s % 11;
    if r == 0 {
      ShiftBy11(0, 10 * q);
    } else {
      ShiftBy11(11 - r, 10 * q + r - 1);
    }
  }

  lemma ShiftBy11(x: int, k: int)
    ensures (11 * k + x) % 11 == x % 11
  {
  }

  /** Two sums that differ by d have equal check digits only if d is 0, 1 or -1 modulo 11. */
  lemma CloseSums(s: int, t: int, d: int)
    requires t - s == d && CheckDigit(s) == CheckDigit(t)
    ensures d % 11 == 0 || d % 11 == 1 || d % 11 == 10
  {
    EqualCheckDigits(t, s);
  }

  /** The weights of one position in both sums let a difference of digits through only in three cases. */
  lemma SlippingDifference(p: nat, d: int)
    requires p < 9 && -9 <= d <= 9 && d != 0
    requires (d * (10 - p)) % 11 == 0 || (d * (10 - p)) % 11 == 1 || (d * (10 - p)) % 11 == 10
    requires (d * (11 - p)) % 11 == 0 || (d * (11 - p)) % 11 == 1 || (d * (11 - p)) % 11 == 10
    ensures (p == 0 && (d == 1 || d == -1)) || (p == 5 && (d == 2 || d == -2 || d == 9 || d == -9))
  {
  }

  /**
   Single-digit error detection: two valid numbers that differ in one digit differ in the first by 1 or in the
   sixth by 2 or 9. Every other wrong digit is caught.
   */
  lemma WrongDigitIsCaught(a: string, b: string, p: nat)
    requires IsCpf(a) && IsCpf(b) && DifferOnlyAt(a, b, p)
    ensures var d := DigitOf(b[p]) - DigitOf(a[p]);
            (p == 0 && (d == 1 || d == -1)) || (p == 5 && (d == 2 || d == -2 || d == 9 || d == -9))
  {
    hide CheckDigit, WeightedSum, HasRepeatedDigits, DigitOf;
    DigitsDiffer(a[p], b[p]);
    SumDifference(a[..9], b[..9], p, 10);
    SumDifference(a[..10], b[..10], p, 11);
    if p < 9 {
      var d := DigitOf(b[p]) - DigitOf(a[p]);
      CloseSums(WeightedSum(a[..9], 10), WeightedSum(b[..9], 10), d * (10 - p));
      CloseSums(WeightedSum(a[..10], 11), WeightedSum(b[..10], 11), d * (11 - p));
      SlippingDifference(p, d);
    }
  }

  lemma DigitsDiffer(x: char, y: char)
    requires IsDigit(x) && IsDigit(y) && x != y
    ensures DigitOf(x) != DigitOf(y)
  {
  }

  lemma {:induction false} SumOf(s: string, factor: int, n: nat)
    requires n <= |s| && AllDigits(s)
    ensures n > 0 ==>
              WeightedSum(s[..n], factor) == WeightedSum(s[..n - 1], factor) + DigitOf(s[n - 1]) * (factor - (n - 1))
    ensures WeightedSum(s[..0], factor) == 0
  {
    if n > 0 {
      assert s[..n][..n - 1] == s[..n - 1];
    }
  }

  /** The sum over a prefix of ten digits or fewer, written out. */
  lemma SumWrittenOut(s: string, factor: int)
    requires |s| == 11 && AllDigits(s)
    ensures var d := (i: nat) requires i < 11 => DigitOf(s[i]);
            && WeightedSum(s[..9], factor) ==
               d(0) * factor + d(1) * (factor - 1) + d(2) * (factor - 2) + d(3) * (factor - 3) + d(4) * (factor - 4)
               + d(5) * (factor - 5) + d(6) * (factor - 6) + d(7) * (factor - 7) + d(8) * (factor - 8)
            && WeightedSum(s[..10], factor) == WeightedSum(s[..9], factor) + d(9) * (factor - 9)
  {
    hide WeightedSum, DigitOf;
    SumOf(s, factor, 1);
    SumOf(s, factor, 2);
    SumOf(s, factor, 3);
    SumOf(s, factor, 4);
    SumOf(s, factor, 5);
    SumOf(s, factor, 6);
    SumOf(s, factor, 7);
    SumOf(s, factor, 8);
    SumOf(s, factor, 9);
    SumOf(s, factor, 10);
  }

  /** The two weighted sums of a CPF, written out. */
  function FirstSum(s: string): int
    requires |s| == 11 && AllDigits(s)
  {
    10 * DigitOf(s[0]) + 9 * DigitOf(s[1]) + 8 * DigitOf(s[2]) + 7 * DigitOf(s[3]) + 6 * DigitOf(s[4])
    + 5 * DigitOf(s[5]) + 4 * DigitOf(s[6]) + 3 * DigitOf(s[7]) + 2 * DigitOf(s[8])
  }

  function SecondSum(s: string): int
    requires |s| == 11 && AllDigits(s)
  {
    11 * DigitOf(s[0]) + 10 * DigitOf(s[1]) + 9 * DigitOf(s[2]) + 8 * DigitOf(s[3]) + 7 * DigitOf(s[4])
    + 6 * DigitOf(s[5]) + 5 * DigitOf(s[6]) + 4 * DigitOf(s[7]) + 3 * DigitOf(s[8]) + 2 * DigitOf(s[9])
  }

  function PrefixSum(s: string, factor: int, n: nat): int
    requires n <= |s| && AllDigits(s)
  {
    WeightedSum(s[..n], factor)
  }

  lemma PrefixStep(s: string, factor: int, n: nat, weight: int)
    requires n < |s| && AllDigits(s) && weight == factor - n
    ensures PrefixSum(s, factor, n + 1) == PrefixSum(s, factor, n) + weight * DigitOf(s[n])
    ensures PrefixSum(s, factor, 0) == 0
  {
    SumOf(s, factor, n + 1);
  }

  /** Five digits of a sum, from position `n` on. */
  lemma FiveSteps(s: string, factor: int, n: nat)
    requires n + 5 <= |s| && AllDigits(s)
    ensures PrefixSum(s, factor, n + 5) ==
            PrefixSum(s, factor, n) + (factor - n) * DigitOf(s[n]) + (factor - n - 1) * DigitOf(s[n + 1])
            + (factor - n - 2) * DigitOf(s[n + 2]) + (factor - n - 3) * DigitOf(s[n + 3])
            + (factor - n - 4) * DigitOf(s[n + 4])
  {
    hide PrefixSum, DigitOf;
    PrefixStep(s, factor, n, factor - n);
    PrefixStep(s, factor, n + 1, factor - n - 1);
    PrefixStep(s, factor, n + 2, factor - n - 2);
    PrefixStep(s, factor, n + 3, factor - n - 3);
    PrefixStep(s, factor, n + 4, factor - n - 4);
  }

  lemma FirstSumIs(s: string)
    requires |s| == 11 && AllDigits(s)
    ensures PrefixSum(s, 10, 9) == FirstSum(s)
  {
    hide PrefixSum, DigitOf, AllDigits, IsDigit;
    FiveSteps(s, 10, 0);
    PrefixStep(s, 10, 0, 10);
    PrefixStep(s, 10, 5, 5);
    PrefixStep(s, 10, 6, 4);
    PrefixStep(s, 10, 7, 3);
    PrefixStep(s, 10, 8, 2);
  }

  lemma SecondSumIs(s: string)
    requires |s| == 11 && AllDigits(s)
    ensures PrefixSum(s, 11, 10) == SecondSum(s)
  {
    hide PrefixSum, DigitOf, AllDigits, IsDigit;
    FiveSteps(s, 11, 0);
    FiveSteps(s, 11, 5);
    PrefixStep(s, 11, 0, 11);
  }

  /**
   The rule for a CPF: eleven digits, not all the same, whose tenth and eleventh are the two weighted sums times ten
   modulo eleven, with ten read as zero.
   */
  lemma CpfByFormula(s: string)
    ensures IsCpf(s) <==>
            && |s| == 11 && AllDigits(s) && (exists i :: 0 <= i < 11 && s[i] != s[0])
            && FirstSum(s) * 10 % 11 % 10 == DigitOf(s[9]) && SecondSum(s) * 10 % 11 % 10 == DigitOf(s[10])
  {
    hide WeightedSum, CheckDigit, HasRepeatedDigits, FirstSum, SecondSum;
    if |s| == 11 && AllDigits(s) {
      FirstSumIs(s);
      SecondSumIs(s);
      CheckDigitIs(WeightedSum(s[..9], 10));
      CheckDigitIs(WeightedSum(s[..10], 11));
      RepeatedExactly(s);
    }
  }

  lemma RepeatedExactly(s: string)
    requires |s| == 11
    ensures HasRepeatedDigits(s) <==> !(exists i :: 0 <= i < 11 && s[i] != s[0])
  {
  }

  lemma CheckDigitIs(total: int)
    ensures CheckDigit(total) == total * 10 % 11 % 10
  {
  }

  /** A repeated number would pass both check digits, so the check refuses it for the repetition alone. */
  lemma RepeatedPassesDigits(s: string)
    requires |s| == 11 && AllDigits(s) && forall i :: 0 <= i < 11 ==> s[i] == s[0]
    ensures !IsCpf(s)
    ensures CheckDigit(WeightedSum(s[..9], 10)) == DigitOf(s[9])
    ensures CheckDigit(WeightedSum(s[..10], 11)) == DigitOf(s[10])
  {
    hide WeightedSum, CheckDigit;
    SumWrittenOut(s, 10);
    SumWrittenOut(s, 11);
    var d := DigitOf(s[0]);
    assert WeightedSum(s[..9], 10) == 54 * d && WeightedSum(s[..10], 11) == 65 * d;
    RepeatedDigit(d);
    RepeatedExactly(s);
  }

  lemma RepeatedDigit(d: nat)
    requires d < 10
    ensures CheckDigit(54 * d) == d && CheckDigit(65 * d) == d
  {
  }

  /** The exceptions are real: pairs that differ by 1 in the first digit, and by 2 and by 9 in the sixth. */
  lemma ExceptionsExist()
    ensures IsCpf("00000104302") && IsCpf("10000104302") && DifferOnlyAt("00000104302", "10000104302", 0)
    ensures IsCpf("00000135100") && IsCpf("00000335100") && DifferOnlyAt("00000135100", "00000335100", 5)
    ensures IsCpf("72981006100") && IsCpf("72981906100") && DifferOnlyAt("72981006100", "72981906100", 5)
  {
    hide IsCpf;
    Valid1();
    Valid2();
    Valid3();
    Valid4();
    Valid5();
    Valid6();
  }

  lemma Valid1()
    ensures IsCpf("00000104302")
  {
    hide WeightedSum;
    SumWrittenOut("00000104302", 10);
    SumWrittenOut("00000104302", 11);
    assert "00000104302"[5] != "00000104302"[4];
  }

  lemma Valid2()
    ensures IsCpf("10000104302")
  {
    hide WeightedSum;
    SumWrittenOut("10000104302", 10);
    SumWrittenOut("10000104302", 11);
    assert "10000104302"[5] != "10000104302"[4];
  }

  lemma Valid3()
    ensures IsCpf("00000135100")
  {
    hide WeightedSum;
    SumWrittenOut("00000135100", 10);
    SumWrittenOut("00000135100", 11);
    assert "00000135100"[5] != "00000135100"[4];
  }

  lemma Valid4()
    ensures IsCpf("00000335100")
  {
    hide WeightedSum;
    SumWrittenOut("00000335100", 10);
    SumWrittenOut("00000335100", 11);
    assert "00000335100"[5] != "00000335100"[4];
  }

  lemma Valid5()
    ensures IsCpf("72981006100")
  {
    hide WeightedSum;
    SumWrittenOut("72981006100", 10);
    SumWrittenOut("72981006100", 11);
    assert "72981006100"[1] != "72981006100"[0];
  }

  lemma Valid6()
    ensures IsCpf("72981906100")
  {
    hide WeightedSum;
    SumWrittenOut("72981906100", 10);
    SumWrittenOut("72981906100", 11);
    assert "72981906100"[1] != "72981906100"[0];
  }
}
