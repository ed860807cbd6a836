/** Reads the amount in an operator's USSD answer. */
module AmountParser {
  import opened SmsTypes

  predicate IsDigit(c: char) {
    '0' <= c <= '9'
  }

  /** What separates groups of digits, besides space. */
  predicate IsPoint(c: char) {
    c == '.' || c == ','
  }

  /** `\s` of a regular expression, the no-break spaces included. */
  predicate IsSpace(c: char) {
    var code := c as int;
    || 0x09 <= code <= 0x0D || code == 0x20 || code == 0xA0 || code == 0x1680 || 0x2000 <= code <= 0x200A
    || code in {0x2028, 0x2029, 0x202F, 0x205F, 0x3000, 0xFEFF}
  }

  function Keep(p: char -> bool, s: string): string {
    if s == [] then [] else Keep(p, s[..|s| - 1]) + (if p(s[|s| - 1]) then [s[|s| - 1]] else [])
  }

  function Strip(s: string): string {
    Keep(c => !IsSpace(c), s)
  }

  function OnlyDigits(s: string): string {
    Keep(c => IsDigit(c), s)
  }

  function WithoutPoints(s: string): string {
    Keep(c => !IsPoint(c), s)
  }

  predicate IsUnsigned(s: string) {
    s != [] && forall i :: 0 <= i < |s| ==> IsDigit(s[i]) || IsPoint(s[i])
  }

  predicate AllDigits(s: string) {
    forall i :: 0 <= i < |s| ==> IsDigit(s[i])
  }

  function Value(s: string): nat
    requires AllDigits(s)
  {
    if s == [] then 0 else 10 * Value(s[..|s| - 1]) + (s[|s| - 1] as int - '0' as int)
  }

  /** `Math.max` of the last positions of either point. */
  function LastPoint(s: string): (i: int)
    ensures -1 <= i < |s| && (i >= 0 ==> IsPoint(s[i]))
    ensures forall j :: i < j < |s| ==> !IsPoint(s[j])
  {
    if s == [] then -1 else if IsPoint(s[|s| - 1]) then |s| - 1 else LastPoint(s[..|s| - 1])
  }

  /** Two digits behind the last point make it a decimal point. Any other number of digits, and
      all points merely separate groups. */
  function ParseUnsigned(digits: string): Option<nat>
    requires IsUnsigned(digits)
  {
    var last := LastPoint(digits);
    var decimal := last != -1 && |digits| - last - 1 == 2;
    var whole := if decimal then digits[..last] else digits;
    var fraction := if decimal then digits[last + 1..] else "00";
    WithoutPointsIsOnlyDigits(whole);
    if WithoutPoints(whole) == [] then None else Some(Value(WithoutPoints(whole)) * 100 + Value(fraction))
  }

  function Negated(amount: Option<int>): Option<int> {
    if amount.None? then None else Some(-amount.value)
  }

  /** The amount in tiyin. */
  function ParseAmountToTiyin(text: string): Option<int> {
    var cleaned := Strip(text);
    if forall i :: 0 <= i < |cleaned| ==> !IsDigit(cleaned[i]) then None
    else if IsUnsigned(cleaned) then ParseUnsigned(cleaned)
    else if cleaned[0] == '-' && IsUnsigned(cleaned[1..]) then Negated(ParseUnsigned(cleaned[1..]))
    else None
  }

  // ---- filters ----------------------------------------------------------------------

  lemma {:induction false} KeepAdds(p: char -> bool, a: string, b: string)
    ensures Keep(p, a + b) == Keep(p, a) + Keep(p, b)
  {
    if b == [] {
      assert a + b == a;
    } else {
      assert (a + b)[..|a + b| - 1] == a + b[..|b| - 1];
      KeepAdds(p, a, b[..|b| - 1]);
    }
  }

  lemma {:induction false} KeepAll(p: char -> bool, s: string)
    requires forall i :: 0 <= i < |s| ==> p(s[i])
    ensures Keep(p, s) == s
  {
    if s != [] {
      KeepAll(p, s[..|s| - 1]);
    }
  }

  lemma {:induction false} KeptPass(p: char -> bool, s: string)
    ensures forall i :: 0 <= i < |Keep(p, s)| ==> p(Keep(p, s)[i])
    ensures Keep(p, s) == [] <==> forall i :: 0 <= i < |s| ==> !p(s[i])
  {
    if s != [] {
      KeptPass(p, s[..|s| - 1]);
      assert forall i :: 0 <= i < |s| - 1 ==> s[..|s| - 1][i] == s[i];
    }
  }

  lemma {:induction false} WithoutPointsIsOnlyDigits(s: string)
    requires forall i :: 0 <= i < |s| ==> IsDigit(s[i]) || IsPoint(s[i])
    ensures WithoutPoints(s) == OnlyDigits(s)
    ensures AllDigits(OnlyDigits(s))
  {
    if s != [] {
      WithoutPointsIsOnlyDigits(s[..|s| - 1]);
    }
  }

  lemma OnlyDigitsAreDigits(s: string)
    ensures AllDigits(OnlyDigits(s))
  {
    KeptPass(c => IsDigit(c), s);
  }

  // ---- values -----------------------------------------------------------------------

  function Pow10(n: nat): nat {
    if n == 0 then 1 else 10 * Pow10(n - 1)
  }

  lemma {:induction false} ValueOfConcatenation(a: string, b: string)
    requires AllDigits(a) && AllDigits(b)
    ensures AllDigits(a + b) && Value(a + b) == Value(a) * Pow10(|b|) + Value(b)
  {
    if b == [] {
      assert a + b == a;
    } else {
      var n := |b| - 1;
      assert (a + b)[..|a + b| - 1] == a + b[..n];
      ValueOfConcatenation(a, b[..n]);
      assert Value(a) * Pow10(|b|) == 10 * (Value(a) * Pow10(n));
    }
  }

  lemma DecimalDigits(whole: string, point: char, fraction: string)
    requires IsPoint(point) && AllDigits(fraction)
    ensures OnlyDigits(whole + [point] + fraction) == OnlyDigits(whole) + fraction
  {
    var isDigit := c => IsDigit(c);
    KeepAdds(isDigit, whole + [point], fraction);
    KeepAdds(isDigit, whole, [point]);
    KeptPass(isDigit, [point]);
    KeepAll(isDigit, fraction);
  }

  lemma DecimalValue(whole: string, fraction: string)
    requires AllDigits(whole) && AllDigits(fraction) && |fraction| == 2
    ensures AllDigits(whole + fraction) && Value(whole + fraction) == Value(whole) * 100 + Value(fraction)
  {
    ValueOfConcatenation(whole, fraction);
    assert Pow10(2) == 100;
  }

  lemma NoFraction()
    ensures AllDigits("00") && Value("00") == 0
  {
    assert "00"[..1] == "0" && "0"[..0] == "";
  }

  /** What an unsigned amount is worth: its digits read as one number, in hundredths when the
      last point has exactly two digits after it, and in whole units otherwise. */
  lemma UnsignedReadsAllDigits(s: string)
    requires IsUnsigned(s) && OnlyDigits(s) != []
    ensures AllDigits(OnlyDigits(s))
    ensures ParseUnsigned(s)
         == if LastPoint(s) == -1 || LastPoint(s) != |s| - 3 then Some(100 * Value(OnlyDigits(s)))
            else if |OnlyDigits(s)| == 2 then None
            else Some(Value(OnlyDigits(s)))
  {
    hide Value, OnlyDigits, WithoutPoints;
    OnlyDigitsAreDigits(s);
    var last := LastPoint(s);
    if last != -1 && last == |s| - 3 {
      var whole, fraction := s[..last], s[last + 1..];
      assert s == whole + [s[last]] + fraction;
      DecimalDigits(whole, s[last], fraction);
      WithoutPointsIsOnlyDigits(whole);
      DecimalValue(OnlyDigits(whole), fraction);
    } else {
      WithoutPointsIsOnlyDigits(s);
      NoFraction();
    }
  }

  /** A leading minus negates, in front of anything that does not start with one. */
  lemma MinusNegates(text: string)
    requires Strip(text) == [] || Strip(text)[0] != '-'
    ensures ParseAmountToTiyin("-" + text) == Negated(ParseAmountToTiyin(text))
  {
    var cleaned := Strip(text);
    KeepAdds(c => !IsSpace(c), "-", text);
    KeepAll(c => !IsSpace(c), "-");
    assert Strip("-" + text) == "-" + cleaned;
    assert ("-" + cleaned)[1..] == cleaned;
    assert forall i :: 0 <= i < |cleaned| ==> ("-" + cleaned)[i + 1] == cleaned[i];
    assert !IsUnsigned("-" + cleaned) by { assert ("-" + cleaned)[0] == '-'; }
  }

  // ---- printing ---------------------------------------------------------------------

  function DigitChar(d: nat): (c: char)
    requires d < 10
    ensures IsDigit(c) && c as int - '0' as int == d
  {
    '0' + d as char
  }

  function Print(n: nat): (s: string)
    ensures s != [] && AllDigits(s) && Value(s) == n
  {
    if n < 10 then [DigitChar(n)] else Print(n / 10) + [DigitChar(n % 10)]
  }

  /** Exactly `width` digits, with leading zeros. */
  function Padded(n: nat, width: nat): (s: string)
    requires n < Pow10(width)
    ensures |s| == width && AllDigits(s) && Value(s) == n
  {
    if width == 0 then "" else Padded(n / 10, width - 1) + [DigitChar(n % 10)]
  }

  /** What may stand between groups: the two points, and the white space and line terminators of
      sections 12.2 and 12.3 of ECMA-262, listed one by one. */
  predicate IsSeparator(c: char) {
    c in {'.', ','}
    || c as int in {
         0x09, 0x0A, 0x0B, 0x0C, 0x0D, 0x20, 0xA0, 0x1680, 0x2000, 0x2001, 0x2002, 0x2003, 0x2004, 0x2005, 0x2006,
         0x2007, 0x2008, 0x2009, 0x200A, 0x2028, 0x2029, 0x202F, 0x205F, 0x3000, 0xFEFF}
  }

  /** Nothing else is skipped or separates. */
  lemma SeparatorsArePointsAndSpaces(c: char)
    ensures IsSeparator(c) <==> IsPoint(c) || IsSpace(c)
    ensures IsPoint(c) <==> c in {'.', ','}
  {
  }

  /** A whole number in groups of three digits; `separators(k)` stands before the k-th group
      from the right, and each may be a different one. */
  function Grouped(n: nat, separators: nat -> char, k: nat): string {
    if n < 1000 then Print(n)
    else Grouped(n / 1000, separators, k + 1) + [separators(k)] + Padded(n % 1000, 3)
  }

  /** A printed number, its separating spaces stripped: all its digits are there, and its last
      point, if any, has at least three of them after it. */
  ghost predicate ReadsAs(s: string, n: nat) {
    && IsUnsigned(s) && OnlyDigits(s) != [] && AllDigits(OnlyDigits(s)) && Value(OnlyDigits(s)) == n
    && (LastPoint(s) != -1 ==> |s| - LastPoint(s) > 3)
  }

  lemma {:induction false} LastPointAfterDigits(a: string, b: string)
    requires AllDigits(b)
    ensures LastPoint(a + b) == LastPoint(a)
  {
    if b == [] {
      assert a + b == a;
    } else {
      assert (a + b)[..|a + b| - 1] == a + b[..|b| - 1];
      LastPointAfterDigits(a, b[..|b| - 1]);
    }
  }

  lemma AnotherGroup(s: string, n: nat, separator: char, group: string)
    requires ReadsAs(s, n) && (IsPoint(separator) || IsSpace(separator)) && AllDigits(group) && |group| == 3
    ensures ReadsAs(s + (if IsSpace(separator) then group else [separator] + group), 1000 * n + Value(group))
  {
    hide Value, OnlyDigits, IsSpace;
    OnlyDigitsOfDigits(group);
    ValueOfConcatenation(OnlyDigits(s), group);
    assert Pow10(3) == 1000;
    if IsSpace(separator) {
      OnlyDigitsAdds(s, group);
      LastPointAfterDigits(s, group);
    } else {
      DecimalDigits(s, separator, group);
      LastPointAfterDigits(s + [separator], group);
      assert s + ([separator] + group) == s + [separator] + group;
      assert LastPoint(s + [separator]) == |s|;
    }
  }

  lemma OnlyDigitsAdds(a: string, b: string)
    ensures OnlyDigits(a + b) == OnlyDigits(a) + OnlyDigits(b)
  {
    KeepAdds(c => IsDigit(c), a, b);
  }

  lemma OnlyDigitsOfDigits(s: string)
    requires AllDigits(s)
    ensures OnlyDigits(s) == s
  {
    KeepAll(c => IsDigit(c), s);
  }

  lemma StripAdds(a: string, b: string)
    ensures Strip(a + b) == Strip(a) + Strip(b)
  {
    KeepAdds(c => !IsSpace(c), a, b);
  }

  lemma StripNothing(s: string)
    requires forall i :: 0 <= i < |s| ==> !IsSpace(s[i])
    ensures Strip(s) == s
  {
    KeepAll(c => !IsSpace(c), s);
  }

  lemma StripSeparator(c: char)
    ensures Strip([c]) == if IsSpace(c) then [] else [c]
  {
    KeptPass(d => !IsSpace(d), [c]);
    if !IsSpace(c) { KeepAll(d => !IsSpace(d), [c]); }
  }

  lemma PrintedReadsAs(n: nat)
    ensures ReadsAs(Strip(Print(n)), n)
  {
    var s := Print(n);
    StripNothing(s);
    OnlyDigitsOfDigits(s);
    LastPointAfterDigits([], s);
    assert [] + s == s;
  }

  lemma {:induction false} GroupedReadsAs(n: nat, separators: nat -> char, k: nat)
    requires forall i :: IsSeparator(separators(i))
    ensures ReadsAs(Strip(Grouped(n, separators, k)), n)
    decreases n
  {
    hide ReadsAs, Value, Strip, Print, IsSeparator;
    if n < 1000 {
      PrintedReadsAs(n);
    } else {
      var before, group := Grouped(n / 1000, separators, k + 1), Padded(n % 1000, 3);
      GroupedReadsAs(n / 1000, separators, k + 1);
      StripAdds(before + [separators(k)], group);
      StripAdds(before, [separators(k)]);
      StripNothing(group);
      StripSeparator(separators(k));
      SeparatorsArePointsAndSpaces(separators(k));
      AnotherGroup(Strip(before), n / 1000, separators(k), group);
      assert Strip(before) + (if IsSpace(separators(k)) then group else [separators(k)] + group)
          == Strip(before) + Strip([separators(k)]) + group;
    }
  }

  /** Parsing undoes printing: however the groups are separated, a whole number comes back as
      a hundred times itself. */
  lemma ParsingUndoesPrinting(n: nat, separators: nat -> char)
    requires forall i :: IsSeparator(separators(i))
    ensures ParseAmountToTiyin(Grouped(n, separators, 0)) == Some(100 * n)
  {
    GroupedReadsAs(n, separators, 0);
    var s := Strip(Grouped(n, separators, 0));
    UnsignedReadsAllDigits(s);
    KeptPass(c => IsDigit(c), s);
  }

  /** A final point and two digits add exactly those hundredths. */
  lemma ParsingReadsHundredths(n: nat, separators: nat -> char, point: char, hundredths: nat)
    requires (forall i :: IsSeparator(separators(i))) && point in {'.', ','} && hundredths < 100
    ensures Pow10(2) == 100
    ensures ParseAmountToTiyin(Grouped(n, separators, 0) + [point] + Padded(hundredths, 2))
         == Some(100 * n + hundredths)
  {
    hide Value, OnlyDigits, Strip, Grouped;
    GroupedReadsAs(n, separators, 0);
    var printed, fraction := Grouped(n, separators, 0), Padded(hundredths, 2);
    StripAdds(printed + [point], fraction);
    StripAdds(printed, [point]);
    StripNothing([point] + fraction);
    StripNothing(fraction);
    StripNothing([point]);
    var s := Strip(printed) + [point] + fraction;
    DecimalDigits(Strip(printed), point, fraction);
    DecimalValue(OnlyDigits(Strip(printed)), fraction);
    LastPointAfterDigits(Strip(printed) + [point], fraction);
    assert LastPoint(Strip(printed) + [point]) == |Strip(printed)|;
    UnsignedReadsAllDigits(s);
    assert IsDigit(s[|s| - 1]);
  }

  /** And a leading minus negates either. */
  lemma ParsingReadsSigns(n: nat, separators: nat -> char, point: char, hundredths: nat)
    requires (forall i :: IsSeparator(separators(i))) && point in {'.', ','} && hundredths < 100
    ensures Pow10(2) == 100
    ensures ParseAmountToTiyin("-" + Grouped(n, separators, 0)) == Some(-100 * n)
    ensures ParseAmountToTiyin("-" + (Grouped(n, separators, 0) + [point] + Padded(hundredths, 2)))
         == Some(-(100 * n + hundredths))
  {
    hide Value, OnlyDigits, Strip, Grouped, ParseAmountToTiyin;
    GroupedReadsAs(n, separators, 0);
    ParsingUndoesPrinting(n, separators);
    ParsingReadsHundredths(n, separators, point, hundredths);
    var printed := Grouped(n, separators, 0);
    StripAdds(printed, [point] + Padded(hundredths, 2));
    assert printed + ([point] + Padded(hundredths, 2)) == printed + [point] + Padded(hundredths, 2);
    MinusNegates(printed);
    MinusNegates(printed + [point] + Padded(hundredths, 2));
  }

  lemma {:induction false} KeptOrNot(p: char -> bool, s: string)
    ensures forall i :: 0 <= i < |s| ==> s[i] in Keep(p, s) || !p(s[i])
  {
    if s != [] {
      var n := |s| - 1;
      KeptOrNot(p, s[..n]);
      assert forall i :: 0 <= i < n ==> s[i] == s[..n][i];
      assert Keep(p, s) == Keep(p, s[..n]) + (if p(s[n]) then [s[n]] else []);
    }
  }

  /** Whatever parses is made of digits, separators and a minus, and has a digit. */
  lemma OnlyAmountsParse(text: string)
    requires ParseAmountToTiyin(text).Some?
    ensures forall i :: 0 <= i < |text| ==> IsDigit(text[i]) || IsSeparator(text[i]) || text[i] == '-'
    ensures exists i :: 0 <= i < |text| && IsDigit(text[i])
  {
    var cleaned := Strip(text);
    KeptOrNot(c => !IsSpace(c), text);
    forall i | 0 <= i < |text| ensures IsDigit(text[i]) || IsSeparator(text[i]) || text[i] == '-' {
      SeparatorsArePointsAndSpaces(text[i]);
      if !IsSpace(text[i]) {
        var j :| 0 <= j < |cleaned| && cleaned[j] == text[i];
        if j > 0 && !IsUnsigned(cleaned) { assert cleaned[j] == cleaned[1..][j - 1]; }
      }
    }
    var d :| 0 <= d < |cleaned| && IsDigit(cleaned[d]);
    KeptCome(c => !IsSpace(c), text, d);
  }

  lemma {:induction false} KeptCome(p: char -> bool, s: string, k: nat)
    requires k < |Keep(p, s)|
    ensures Keep(p, s)[k] in s
  {
    var n := |s| - 1;
    if k < |Keep(p, s[..n])| {
      KeptCome(p, s[..n], k);
      assert Keep(p, s)[k] in s[..n];
    }
  }
}
