/**
 * The Brazilian taxpayer identifier (CPF): eleven digits of which the last two
 * are mod-11 check digits, and the `ddd.ddd.ddd-dd` display mask. The same
 * validator and formatter are written out twice in the source, once in the login
 * page and once in the PIX form; both copies are modelled here.
 */
module Cpf {
  import opened Text

  /** Sum over the first `n` digits of `digit(i) * (top - i)`. */
  function WeightedSum(c: string, n: nat, top: int): (sum: int)
    requires n <= |c| && AllDigits(c)
    requires n <= top
    ensures sum >= 0
  {
    if n == 0 then 0 else WeightedSum(c, n - 1, top) + DigitValue(c[n - 1]) * (top - (n - 1))
  }

  /** `11 - (sum % 11)`, with a result above 9 replaced by 0. */
  function CheckDigit(sum: int): (d: nat)
    requires sum >= 0
    ensures d <= 9
    ensures d == 0 <==> sum % 11 <= 1
  {
    var d := 11 - sum % 11;
    if d > 9 then 0 else d
  }

  /** `/^(\d)\1{10}$/` on an eleven-digit string: every digit equals the first. */
  predicate RepeatedDigit(c: string) {
    |c| > 0 && forall i :: 0 <= i < |c| ==> c[i] == c[0]
  }

  /** Digit 10 checks the first nine digits, digit 11 checks the first ten. */
  predicate CheckDigitsHold(c: string)
    requires |c| == 11 && AllDigits(c)
  {
    && DigitValue(c[9]) == CheckDigit(WeightedSum(c, 9, 10))
    && DigitValue(c[10]) == CheckDigit(WeightedSum(c, 10, 11))
  }

  /** What `isValidCPF` accepts. */
  predicate ValidCpf(s: string) {
    var c := OnlyDigits(s);
    |c| == 11 && !RepeatedDigit(c) && CheckDigitsHold(c)
  }

  /** `isValidCPF`, with its two summing loops. */
  method IsValidCpf(cpf: string) returns (ok: bool)
    ensures ok == ValidCpf(cpf)
    ensures ok ==> |OnlyDigits(cpf)| == 11
  {
    var clean := OnlyDigits(cpf);
    if |clean| != 11 {
      return false;
    }
    if RepeatedDigit(clean) {
      return false;
    }
    var sum := 0;
    for i := 0 to 9
      invariant sum == WeightedSum(clean, i, 10)
    {
      sum := sum + DigitValue(clean[i]) * (10 - i);
    }
    var digit1 := 11 - sum % 11;
    if digit1 > 9 {
      digit1 := 0;
    }
    if DigitValue(clean[9]) != digit1 {
      return false;
    }
    sum := 0;
    for i := 0 to 10
      invariant sum == WeightedSum(clean, i, 11)
    {
      sum := sum + DigitValue(clean[i]) * (11 - i);
    }
    var digit2 := 11 - sum % 11;
    if digit2 > 9 {
      digit2 := 0;
    }
    ok := DigitValue(clean[10]) == digit2;
  }

  /**
   * The check digits written out as the textbook formulas: with d1 .. d11 the
   * digits, d10 = 11 - ((10*d1 + 9*d2 + ... + 2*d9) mod 11) and
   * d11 = 11 - ((11*d1 + 10*d2 + ... + 2*d10) mod 11), a result above 9 read as 0.
   */
  lemma ValidCpfCharacterised(s: string)
    ensures ValidCpf(s) <==>
      var c := OnlyDigits(s);
      && |c| == 11
      && !(forall i :: 0 <= i < 11 ==> c[i] == c[0])
      && var d := seq(11, i requires 0 <= i < 11 => DigitValue(c[i]));
      && var s1 := 10 * d[0] + 9 * d[1] + 8 * d[2] + 7 * d[3] + 6 * d[4] + 5 * d[5] + 4 * d[6] + 3 * d[7] + 2 * d[8];
      && var s2 := 11 * d[0] + 10 * d[1] + 9 * d[2] + 8 * d[3] + 7 * d[4] + 6 * d[5] + 5 * d[6] + 4 * d[7] + 3 * d[8] + 2 * d[9];
      && d[9] == (if 11 - s1 % 11 > 9 then 0 else 11 - s1 % 11)
      && d[10] == (if 11 - s2 % 11 > 9 then 0 else 11 - s2 % 11)
  {
    var c := OnlyDigits(s);
    if |c| == 11 {
      var d := seq(11, i requires 0 <= i < 11 => DigitValue(c[i]));
      CheckDigitsFormula(c, d);
    }
  }

  /** `CheckDigitsHold` in terms of the digit values `d`. */
  lemma CheckDigitsFormula(c: string, d: seq<nat>)
    requires |c| == 11 && AllDigits(c)
    requires |d| == 11 && forall i :: 0 <= i < 11 ==> d[i] == DigitValue(c[i])
    ensures CheckDigitsHold(c) <==>
      var s1 := 10 * d[0] + 9 * d[1] + 8 * d[2] + 7 * d[3] + 6 * d[4] + 5 * d[5] + 4 * d[6] + 3 * d[7] + 2 * d[8];
      var s2 := 11 * d[0] + 10 * d[1] + 9 * d[2] + 8 * d[3] + 7 * d[4] + 6 * d[5] + 5 * d[6] + 4 * d[7] + 3 * d[8] + 2 * d[9];
      && d[9] == (if 11 - s1 % 11 > 9 then 0 else 11 - s1 % 11)
      && d[10] == (if 11 - s2 % 11 > 9 then 0 else 11 - s2 % 11)
  {
    FirstSumUnrolled(c);
    SecondSumUnrolled(c);
  }

  /** The first sum, one term per digit. */
  lemma FirstSumUnrolled(c: string)
    requires |c| == 11 && AllDigits(c)
    ensures WeightedSum(c, 9, 10) ==
      DigitValue(c[0]) * 10 + DigitValue(c[1]) * 9 + DigitValue(c[2]) * 8 + DigitValue(c[3]) * 7
      + DigitValue(c[4]) * 6 + DigitValue(c[5]) * 5 + DigitValue(c[6]) * 4 + DigitValue(c[7]) * 3
      + DigitValue(c[8]) * 2
  {
    assert WeightedSum(c, 1, 10) == DigitValue(c[0]) * 10;
    assert WeightedSum(c, 2, 10) == WeightedSum(c, 1, 10) + DigitValue(c[1]) * 9;
    assert WeightedSum(c, 3, 10) == WeightedSum(c, 2, 10) + DigitValue(c[2]) * 8;
    assert WeightedSum(c, 4, 10) == WeightedSum(c, 3, 10) + DigitValue(c[3]) * 7;
    assert WeightedSum(c, 5, 10) == WeightedSum(c, 4, 10) + DigitValue(c[4]) * 6;
    assert WeightedSum(c, 6, 10) == WeightedSum(c, 5, 10) + DigitValue(c[5]) * 5;
    assert WeightedSum(c, 7, 10) == WeightedSum(c, 6, 10) + DigitValue(c[6]) * 4;
    assert WeightedSum(c, 8, 10) == WeightedSum(c, 7, 10) + DigitValue(c[7]) * 3;
  }

  /** The second sum, one term per digit. */
  lemma SecondSumUnrolled(c: string)
    requires |c| == 11 && AllDigits(c)
    ensures WeightedSum(c, 10, 11) ==
      DigitValue(c[0]) * 11 + DigitValue(c[1]) * 10 + DigitValue(c[2]) * 9 + DigitValue(c[3]) * 8
      + DigitValue(c[4]) * 7 + DigitValue(c[5]) * 6 + DigitValue(c[6]) * 5 + DigitValue(c[7]) * 4
      + DigitValue(c[8]) * 3 + DigitValue(c[9]) * 2
  {
    assert WeightedSum(c, 1, 11) == DigitValue(c[0]) * 11;
    assert WeightedSum(c, 2, 11) == WeightedSum(c, 1, 11) + DigitValue(c[1]) * 10;
    assert WeightedSum(c, 3, 11) == WeightedSum(c, 2, 11) + DigitValue(c[2]) * 9;
    assert WeightedSum(c, 4, 11) == WeightedSum(c, 3, 11) + DigitValue(c[3]) * 8;
    assert WeightedSum(c, 5, 11) == WeightedSum(c, 4, 11) + DigitValue(c[4]) * 7;
    assert WeightedSum(c, 6, 11) == WeightedSum(c, 5, 11) + DigitValue(c[5]) * 6;
    assert WeightedSum(c, 7, 11) == WeightedSum(c, 6, 11) + DigitValue(c[6]) * 5;
    assert WeightedSum(c, 8, 11) == WeightedSum(c, 7, 11) + DigitValue(c[7]) * 4;
    assert WeightedSum(c, 9, 11) == WeightedSum(c, 8, 11) + DigitValue(c[8]) * 3;
  }

  /** The sum of the weights alone: `top + (top - 1) + ... + (top - n + 1)`. */
  function Weights(n: nat, top: int): int {
    if n == 0 then 0 else Weights(n - 1, top) + (top - (n - 1))
  }

  /** Weighted sum of a string whose first `n` digits are all `d`. */
  lemma {:induction false} WeightedSumOfRepeated(c: string, n: nat, top: int, d: nat)
    requires n <= |c| && AllDigits(c) && n <= top && d <= 9
    requires forall i :: 0 <= i < n ==> DigitValue(c[i]) == d
    ensures WeightedSum(c, n, top) == d * Weights(n, top)
  {
    if n > 0 {
      WeightedSumOfRepeated(c, n - 1, top, d);
      assert d * Weights(n, top) == d * Weights(n - 1, top) + d * (top - (n - 1));
    }
  }

  /**
   * Every eleven-digit string of one repeated digit passes both check digits
   * (its sums are 54d and 65d, both congruent to -d mod 11), so it is the
   * repeated-digit rule alone that rejects 000.000.000-00 .. 999.999.999-99.
   */
  lemma RepeatedDigitsPassCheckDigits(c: string)
    requires |c| == 11 && AllDigits(c) && RepeatedDigit(c)
    ensures CheckDigitsHold(c)
  {
    var d := DigitValue(c[0]);
    WeightedSumOfRepeated(c, 9, 10, d);
    WeightedSumOfRepeated(c, 10, 11, d);
    assert Weights(9, 10) == 54 && Weights(10, 11) == 65;
    assert CheckDigit(54 * d) == d && CheckDigit(65 * d) == d by {
      assert d == 0 || d == 1 || d == 2 || d == 3 || d == 4 || d == 5 || d == 6 || d == 7 || d == 8 || d == 9;
    }
  }

  /**
   * `formatCPF`: the digits of `value`; when there are at least eleven, the first
   * eleven are masked as `ddd.ddd.ddd-dd` and any further digits follow unchanged
   * (the regular expression has no anchors and no global flag).
   */
  function FormatCpf(value: string): (r: string)
    ensures OnlyDigits(r) == OnlyDigits(value)
    ensures |OnlyDigits(value)| < 11 ==> r == OnlyDigits(value)
    ensures |OnlyDigits(value)| >= 11 ==> |r| == |OnlyDigits(value)| + 3
  {
    var n := OnlyDigits(value);
    if |n| >= 11 then
      var r := n[..3] + "." + n[3..6] + "." + n[6..9] + "-" + n[9..11] + n[11..];
      assert OnlyDigits(r) == n by {
        FormatKeepsDigits(n);
      }
      r
    else
      OnlyDigitsIdempotent(value);
      n
  }

  lemma FormatKeepsDigits(n: string)
    requires AllDigits(n) && |n| >= 11
    ensures OnlyDigits(n[..3] + "." + n[3..6] + "." + n[6..9] + "-" + n[9..11] + n[11..]) == n
  {
    var m1 := n[..3] + ".";
    var m2 := m1 + n[3..6] + ".";
    var m3 := m2 + n[6..9] + "-";
    var m4 := m3 + n[9..11];
    AppendDigitGroup([], n[..3], ".");
    assert [] + n[..3] + "." == m1;
    AppendDigitGroup(m1, n[3..6], ".");
    AppendDigitGroup(m2, n[6..9], "-");
    AppendDigitsOnly(m3, n[9..11]);
    AppendDigitsOnly(m4, n[11..]);
    assert n == n[..3] + n[3..6] + n[6..9] + n[9..11] + n[11..];
  }

  /** Appending a group of digits and one separator adds just the digits. */
  lemma AppendDigitGroup(acc: string, group: string, sep: string)
    requires AllDigits(group) && |sep| == 1 && !IsDigit(sep[0])
    ensures OnlyDigits(acc + group + sep) == OnlyDigits(acc) + group
  {
    AppendDigitsOnly(acc, group);
    OnlyDigitsAppend(acc + group, sep);
    assert OnlyDigits(sep) == [] by {
      assert sep[1..] == [];
    }
  }

  /** Appending digits adds them unchanged. */
  lemma AppendDigitsOnly(acc: string, group: string)
    requires AllDigits(group)
    ensures OnlyDigits(acc + group) == OnlyDigits(acc) + group
  {
    OnlyDigitsAppend(acc, group);
    OnlyDigitsOfDigits(group);
  }

  /** Eleven digits become the fourteen-character mask `ddd.ddd.ddd-dd`. */
  lemma FormatCpfMask(value: string)
    requires |OnlyDigits(value)| == 11
    ensures var r := FormatCpf(value);
      && |r| == 14
      && r[3] == '.' && r[7] == '.' && r[11] == '-'
      && forall i :: 0 <= i < 14 && i != 3 && i != 7 && i != 11 ==> IsDigit(r[i])
  {
  }

  /** A mask exceeds fourteen characters exactly when there are more than eleven digits. */
  lemma FormatCpfLength(value: string)
    ensures |FormatCpf(value)| <= 14 <==> |OnlyDigits(value)| <= 11
  {
  }

  /** Masking an already masked value changes nothing. */
  lemma FormatCpfIdempotent(value: string)
    ensures FormatCpf(FormatCpf(value)) == FormatCpf(value)
  {
  }

  /** Validity depends on the digits only, so masking does not change it. */
  lemma ValidCpfIgnoresMask(value: string)
    ensures ValidCpf(FormatCpf(value)) == ValidCpf(value)
  {
  }

  /** A well-known valid identifier. */
  lemma SampleValidCpf()
    ensures ValidCpf("52998224725")
  {
    var c := "52998224725";
    SampleDigits(c);
    assert WeightedSum(c, 9, 10) == 295 by {
      FirstSumUnrolled(c);
    }
    assert WeightedSum(c, 10, 11) == 347 by {
      SecondSumUnrolled(c);
    }
    assert CheckDigit(295) == 2 && CheckDigit(347) == 5;
    assert CheckDigitsHold(c);
    assert !RepeatedDigit(c) by {
      assert c[1] != c[0];
    }
    OnlyDigitsOfDigits(c);
  }

  /** The same identifier with its last check digit altered. */
  lemma SampleInvalidCpf()
    ensures !ValidCpf("52998224724")
  {
    var c := "52998224724";
    SampleDigits(c);
    assert WeightedSum(c, 10, 11) == 347 by {
      SecondSumUnrolled(c);
    }
    assert CheckDigit(347) == 5;
    assert !CheckDigitsHold(c);
    OnlyDigitsOfDigits(c);
  }

  /** The digits of the two sample identifiers, which differ only in the last. */
  lemma SampleDigits(c: string)
    requires c == "52998224725" || c == "52998224724"
    ensures |c| == 11 && AllDigits(c)
    ensures DigitValue(c[0]) == 5 && DigitValue(c[1]) == 2 && DigitValue(c[2]) == 9 && DigitValue(c[3]) == 9
    ensures DigitValue(c[4]) == 8 && DigitValue(c[5]) == 2 && DigitValue(c[6]) == 2 && DigitValue(c[7]) == 4
    ensures DigitValue(c[8]) == 7 && DigitValue(c[9]) == 2
    ensures DigitValue(c[10]) == (if c == "52998224725" then 5 else 4)
  {
  }
}
