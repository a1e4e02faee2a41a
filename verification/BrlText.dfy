/**
 Amounts in Brazilian notation: the formatter that turns typed digits into cents with grouped thousands, and the
 parser that reads such text back. Decimals are exact.
 */
module BrlText {
  import opened DecimalText
  import opened TrimmedText

  /** A parsed number: `units` shifted by `scale` decimal places. Other stands for text outside plain decimals. */
  datatype Parsed = Nothing | Decimal(units: nat, scale: nat) | Other(text: string)

  // ---------------------------------------------------------------- formatting

  function PadStart3(s: string): (r: string)
    ensures |r| >= 3 && (AllDigits(s) ==> AllDigits(r))
  {
    if |s| >= 3 then s
    else if |s| == 2 then "0" + s
    else if |s| == 1 then "00" + s
    else "000"
  }

  /** Leading zeros removed, the last character always kept. */
  function StripZeros(s: string): (r: string)
    ensures |r| <= |s| && (s != [] ==> r != [])
    ensures AllDigits(s) ==> AllDigits(r)
    ensures |r| >= 2 ==> r[0] != '0'
  {
    if |s| >= 2 && s[0] == '0' then StripZeros(s[1..]) else s
  }

  /** A dot before every character that has a multiple of three characters from itself to the end. */
  function Dotted(s: string): string {
    if s == [] then []
    else if |s| % 3 == 0 then ['.', s[0]] + Dotted(s[1..])
    else [s[0]] + Dotted(s[1..])
  }

  /** The same, but never at the very start. */
  function Grouped(s: string): string {
    if s == [] then [] else [s[0]] + Dotted(s[1..])
  }

  function IntegerPart(digits: string): (r: string)
    requires AllDigits(digits)
    ensures r != [] && AllDigits(r) && (|r| >= 2 ==> r[0] != '0')
  {
    var padded := PadStart3(digits);
    StripZeros(padded[..|padded| - 2])
  }

  function DecimalPart(digits: string): (r: string)
    requires AllDigits(digits)
    ensures |r| == 2 && AllDigits(r)
  {
    var padded := PadStart3(digits);
    padded[|padded| - 2..]
  }

  /** `formatBRLInput`. */
  function FormatBrl(value: string): string {
    var digits := OnlyDigits(value);
    if digits == [] then [] else Grouped(IntegerPart(digits)) + "," + DecimalPart(digits)
  }

  /** `formatPercentInput`: the same without grouping. */
  function FormatPercent(value: string): string {
    var digits := OnlyDigits(value);
    if digits == [] then [] else IntegerPart(digits) + "," + DecimalPart(digits)
  }

  // ---------------------------------------------------------------- parsing

  function WithoutDots(s: string): string {
    if s == [] then [] else if s[0] == '.' then WithoutDots(s[1..]) else [s[0]] + WithoutDots(s[1..])
  }

  function FirstCommaToDot(s: string): string {
    if s == [] then [] else if s[0] == ',' then "." + s[1..] else [s[0]] + FirstCommaToDot(s[1..])
  }

  /** The position of the first dot, or the length. */
  function DotAt(s: string): (r: nat)
    ensures r <= |s| && (r < |s| ==> s[r] == '.') && forall i :: 0 <= i < r ==> s[i] != '.'
  {
    if s == [] || s[0] == '.' then 0 else 1 + DotAt(s[1..])
  }

  /** `Number` on plain decimals: digits, then possibly a dot and more digits. */
  function ToNumber(s: string): Parsed {
    var dot := DotAt(s);
    if s != [] && dot == |s| && AllDigits(s) then Decimal(Value(s), 0)
    else if 0 < dot < |s| - 1 && AllDigits(s[..dot]) && AllDigits(s[dot + 1..])
    then Decimal(Value(s[..dot] + s[dot + 1..]), |s| - dot - 1)
    else Other(s)
  }

  /** `parseNumber`. */
  function ParseNumber(value: string): Parsed {
    if forall i :: 0 <= i < |value| ==> IsSpace(value[i]) then Nothing
    else ToNumber(FirstCommaToDot(WithoutDots(value)))
  }

  // ---------------------------------------------------------------- round trip

  lemma {:induction false} StripZerosValue(s: string, rest: string)
    requires AllDigits(s) && AllDigits(rest)
    ensures Value(StripZeros(s) + rest) == Value(s + rest)
  {
    if |s| >= 2 && s[0] == '0' {
      StripZerosValue(s[1..], rest);
      LeadingZero(s[1..] + rest);
      assert s + rest == "0" + (s[1..] + rest);
    }
  }

  lemma PadValue(s: string)
    requires AllDigits(s)
    ensures Value(PadStart3(s)) == Value(s)
  {
    hide Value;
    if |s| == 2 {
      LeadingZero(s);
    } else if |s| == 1 {
      LeadingZero(s);
      LeadingZero("0" + s);
      assert "00" + s == "0" + ("0" + s);
    } else if |s| == 0 {
      LeadingZero("");
      LeadingZero("0");
      LeadingZero("00");
      assert "0" + "" == "0" && "0" + "0" == "00" && "0" + "00" == "000";
    }
  }

  /** The two parts together denote the number of cents that the digits denote. */
  lemma PartsKeepValue(digits: string)
    requires AllDigits(digits)
    ensures Value(IntegerPart(digits) + DecimalPart(digits)) == Value(digits)
  {
    hide Value, StripZeros, PadStart3;
    var padded := PadStart3(digits);
    PadValue(digits);
    StripZerosValue(padded[..|padded| - 2], padded[|padded| - 2..]);
    assert padded == padded[..|padded| - 2] + padded[|padded| - 2..];
  }

  lemma {:induction false} DottedWithoutDots(s: string)
    requires AllDigits(s)
    ensures WithoutDots(Dotted(s)) == s && OnlyDigits(Dotted(s)) == s
  {
    if s != [] {
      DottedWithoutDots(s[1..]);
      var d, rest := Dotted(s), Dotted(s[1..]);
      if |s| % 3 == 0 {
        assert d[1..] == [s[0]] + rest && d[1..][1..] == rest;
      } else {
        assert d[1..] == rest;
      }
    }
  }

  lemma GroupedWithoutDots(s: string)
    requires AllDigits(s) && s != []
    ensures WithoutDots(Grouped(s)) == s && OnlyDigits(Grouped(s)) == s && Grouped(s)[0] == s[0]
  {
    DottedWithoutDots(s[1..]);
    assert Grouped(s)[1..] == Dotted(s[1..]);
  }

  lemma PrependToBoth(c: char, x: string, y: string)
    ensures [c] + (x + y) == [c] + x + y
  {
  }

  lemma {:induction false} WithoutDotsAppend(a: string, b: string)
    ensures WithoutDots(a + b) == WithoutDots(a) + WithoutDots(b)
  {
    if a == [] {
      assert a + b == b;
    } else {
      WithoutDotsAppend(a[1..], b);
      assert (a + b)[0] == a[0] && (a + b)[1..] == a[1..] + b;
      PrependToBoth(a[0], WithoutDots(a[1..]), WithoutDots(b));
    }
  }

  lemma {:induction false} OnlyDigitsAppend(a: string, b: string)
    ensures OnlyDigits(a + b) == OnlyDigits(a) + OnlyDigits(b)
  {
    hide AllDigits, IsDigit;
    if a == [] {
      assert a + b == b;
    } else {
      OnlyDigitsAppend(a[1..], b);
      assert (a + b)[0] == a[0] && (a + b)[1..] == a[1..] + b;
      PrependToBoth(a[0], OnlyDigits(a[1..]), OnlyDigits(b));
    }
  }

  lemma {:induction false} DigitsHaveNoDots(s: string)
    requires AllDigits(s)
    ensures WithoutDots(s) == s && OnlyDigits(s) == s
  {
    if s != [] {
      DigitsHaveNoDots(s[1..]);
    }
  }

  lemma {:induction false} CommaAfterDigits(a: string, b: string)
    requires AllDigits(a)
    ensures FirstCommaToDot(a + "," + b) == a + "." + b
  {
    if a == [] {
      assert a + "," + b == "," + b && (a + "," + b)[1..] == b;
    } else {
      CommaAfterDigits(a[1..], b);
      assert (a + "," + b)[1..] == a[1..] + "," + b;
    }
  }

  lemma {:induction false} DotAfterDigits(a: string, b: string)
    requires AllDigits(a)
    ensures DotAt(a + "." + b) == |a|
  {
    if a == [] {
      assert (a + "." + b)[0] == '.';
    } else {
      DotAfterDigits(a[1..], b);
      assert (a + "." + b)[1..] == a[1..] + "." + b;
    }
  }

  lemma NumberOfParts(whole: string, decimals: string)
    requires AllDigits(whole) && whole != [] && AllDigits(decimals) && decimals != []
    ensures ToNumber(whole + "." + decimals) == Decimal(Value(whole + decimals), |decimals|)
  {
    hide Value;
    DotAfterDigits(whole, decimals);
    var number := whole + "." + decimals;
    assert number[..|whole|] == whole && number[|whole| + 1..] == decimals;
  }

  /** Digits around a comma, with dots anywhere before it, are read as one decimal with as many places as follow it. */
  lemma ParsesDecimal(text: string, whole: string, decimals: string)
    requires WithoutDots(text) == whole && AllDigits(whole) && whole != [] && AllDigits(decimals) && decimals != []
    ensures ParseNumber(text + "," + decimals) == Decimal(Value(whole + decimals), |decimals|)
  {
    hide Value, ToNumber, WithoutDots;
    var value := text + "," + decimals;
    WithoutDotsAppend(text + ",", decimals);
    WithoutDotsAppend(text, ",");
    DigitsHaveNoDots(decimals);
    CommaHasNoDots();
    CommaAfterDigits(whole, decimals);
    NumberOfParts(whole, decimals);
    assert value[|text|] == ',' && !IsSpace(value[|text|]);
  }

  /** Digits without a comma, with dots anywhere, are read as a whole number. */
  lemma ParsesWhole(text: string, whole: string)
    requires WithoutDots(text) == whole && AllDigits(whole) && whole != []
    ensures ParseNumber(text) == Decimal(Value(whole), 0)
  {
    hide Value, WithoutDots;
    SomeDigit(text);
    DigitsOnly(whole);
  }

  lemma {:induction false} SomeDigit(text: string)
    requires AllDigits(WithoutDots(text)) && WithoutDots(text) != []
    ensures exists i :: 0 <= i < |text| && IsDigit(text[i])
  {
    if text[0] == '.' {
      SomeDigit(text[1..]);
      var i :| 0 <= i < |text| - 1 && IsDigit(text[1..][i]);
      assert text[i + 1] == text[1..][i];
    } else {
      assert WithoutDots(text)[0] == text[0];
    }
  }

  lemma {:induction false} DigitsOnly(s: string)
    requires AllDigits(s)
    ensures FirstCommaToDot(s) == s && DotAt(s) == |s|
  {
    if s != [] {
      DigitsOnly(s[1..]);
    }
  }

  lemma CommaHasNoDots()
    ensures WithoutDots(",") == "," && OnlyDigits(",") == []
  {
    assert ","[1..] == [];
  }

  /** Parsing a formatted amount gives exactly the typed digits as a number of cents. */
  lemma ParseFormatBrl(value: string)
    requires OnlyDigits(value) != []
    ensures ParseNumber(FormatBrl(value)) == Decimal(Value(OnlyDigits(value)), 2)
  {
    hide Value, ParseNumber;
    var digits := OnlyDigits(value);
    GroupedWithoutDots(IntegerPart(digits));
    ParsesDecimal(Grouped(IntegerPart(digits)), IntegerPart(digits), DecimalPart(digits));
    PartsKeepValue(digits);
  }

  /** Parsing a formatted percentage gives exactly the typed digits as hundredths. */
  lemma ParseFormatPercent(value: string)
    requires OnlyDigits(value) != []
    ensures ParseNumber(FormatPercent(value)) == Decimal(Value(OnlyDigits(value)), 2)
  {
    hide Value, ParseNumber;
    var digits := OnlyDigits(value);
    DigitsHaveNoDots(IntegerPart(digits));
    ParsesDecimal(IntegerPart(digits), IntegerPart(digits), DecimalPart(digits));
    PartsKeepValue(digits);
  }

  /** Without a digit there is no text, and no number. */
  lemma NoDigitsNoNumber(value: string)
    requires OnlyDigits(value) == []
    ensures FormatBrl(value) == [] == FormatPercent(value) && ParseNumber(FormatBrl(value)) == Nothing
  {
  }

  /** Formatting what is already formatted changes nothing. */
  lemma FormatBrlIsIdempotent(value: string)
    ensures FormatBrl(FormatBrl(value)) == FormatBrl(value)
  {
    hide Value;
    var digits := OnlyDigits(value);
    if digits != [] {
      var whole, cents := IntegerPart(digits), DecimalPart(digits);
      GroupedWithoutDots(whole);
      OnlyDigitsAppend(Grouped(whole) + ",", cents);
      OnlyDigitsAppend(Grouped(whole), ",");
      DigitsHaveNoDots(cents);
      CommaHasNoDots();
      var again := OnlyDigits(FormatBrl(value));
      assert again == whole + cents;
      assert PadStart3(again) == again;
      assert again[..|again| - 2] == whole && again[|again| - 2..] == cents;
      StripZerosKeeps(whole);
    }
  }

  lemma StripZerosKeeps(s: string)
    requires |s| >= 2 ==> s[0] != '0'
    ensures StripZeros(s) == s
  {
  }

  /** A text of digits with a dot exactly every fourth character from the end. */
  predicate IsInGroups(text: string) {
    forall i :: 0 <= i < |text| ==>
      (text[i] == '.' <==> (|text| - i) % 4 == 0) && (text[i] == '.' || IsDigit(text[i]))
  }

  lemma GroupArithmetic(n: int)
    requires n > 0
    ensures n + n / 3 == (n - 1) + (n - 1) / 3 + if n % 3 == 0 then 2 else 1
    ensures ((n - 1) + (n - 1) / 3 + 1) % 4 != 0
    ensures n % 3 == 0 ==> (n + n / 3) % 4 == 0
  {
  }

  lemma {:induction false} DottedShape(s: string)
    requires AllDigits(s)
    ensures |Dotted(s)| == |s| + |s| / 3 && IsInGroups(Dotted(s))
  {
    hide IsInGroups;
    if s == [] {
      EmptyIsInGroups();
    } else {
      DottedShape(s[1..]);
      var d, rest := Dotted(s), Dotted(s[1..]);
      GroupArithmetic(|s|);
      Prepended(rest, s[0]);
      if |s| % 3 == 0 {
        Prepended([s[0]] + rest, '.');
        assert d == ['.'] + ([s[0]] + rest);
      }
    }
  }

  lemma Prepended(rest: string, c: char)
    requires IsInGroups(rest) && (IsDigit(c) || c == '.')
    requires c == '.' <==> (|rest| + 1) % 4 == 0
    ensures IsInGroups([c] + rest)
  {
    var text := [c] + rest;
    forall i | 0 <= i < |text|
      ensures (text[i] == '.' <==> (|text| - i) % 4 == 0) && (text[i] == '.' || IsDigit(text[i]))
    {
      if i > 0 {
        assert text[i] == rest[i - 1] && |text| - i == |rest| - (i - 1);
      }
    }
  }

  lemma EmptyIsInGroups()
    ensures IsInGroups([])
  {
  }

  lemma GroupedShape(s: string)
    requires AllDigits(s) && s != []
    ensures IsInGroups(Grouped(s)) && Grouped(s)[0] == s[0] && |Grouped(s)| == |s| + (|s| - 1) / 3
  {
    hide IsInGroups, Dotted;
    DottedShape(s[1..]);
    GroupArithmetic(|s|);
    Prepended(Dotted(s[1..]), s[0]);
  }

  /**
   The formatted integer part has a dot exactly every fourth character from its end, so its digits stand in groups
   of three, and it has no leading zero unless it is the single digit zero.
   */
  lemma GroupsOfThree(value: string)
    requires OnlyDigits(value) != []
    ensures var text := FormatBrl(value);
            var n := |text| - 3;
            && n > 0 && text[n] == ',' && IsDigit(text[n + 1]) && IsDigit(text[n + 2])
            && IsInGroups(text[..n])
            && (text[0] == '0' ==> n == 1)
  {
    hide Value, Grouped, IsInGroups, IntegerPart, DecimalPart;
    var whole, cents := IntegerPart(OnlyDigits(value)), DecimalPart(OnlyDigits(value));
    GroupedShape(whole);
    assert FormatBrl(value)[..|Grouped(whole)|] == Grouped(whole);
  }
}
