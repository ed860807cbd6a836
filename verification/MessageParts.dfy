/** How many parts a GSM-7 body really needs, when no character may be cut in two. */
module MessageParts {
  import opened SmsTypes
  import opened GsmAlphabet
  import opened MessageEncoder

  function Join(parts: seq<Text>): Text {
    if parts == [] then [] else Join(parts[..|parts| - 1]) + parts[|parts| - 1]
  }

  predicate FitsPart(part: Text) {
    Gsm7Length(part).Some? && Gsm7Length(part).value <= PartLimit(Gsm7)
  }

  /** A text cut into parts between characters: an escape sequence is never split, as section
      9.2.3.24.1 of 3GPP TS 23.040 asks. */
  ghost predicate IsCut(text: Text, parts: seq<Text>) {
    Join(parts) == text && forall i :: 0 <= i < |parts| ==> FitsPart(parts[i])
  }

  lemma {:induction false} PartsHoldTheText(parts: seq<Text>)
    requires forall i :: 0 <= i < |parts| ==> FitsPart(parts[i])
    ensures Gsm7Length(Join(parts)).Some? && Gsm7Length(Join(parts)).value <= |parts| * PartLimit(Gsm7)
  {
    hide Septets, Gsm7Length;
    if parts == [] {
      assert Gsm7Length([]) == Some(0) by { EmptyTakesNone(); }
    } else {
      var n := |parts| - 1;
      assert forall i :: 0 <= i < n ==> parts[..n][i] == parts[i];
      PartsHoldTheText(parts[..n]);
      GsmLengthAdds(Join(parts[..n]), parts[n]);
    }
  }

  lemma EmptyTakesNone()
    ensures Gsm7Length([]) == Some(0)
  {
  }

  /** No cut of a long body has fewer parts than are charged. */
  lemma NoCutBeatsTheCount(text: Text, parts: seq<Text>)
    requires Gsm7Length(text).Some? && Gsm7Length(text).value > SingleLimit(Gsm7) && IsCut(text, parts)
    ensures |parts| >= Encode(text).segments
  {
    PartsHoldTheText(parts);
    SegmentsAreLeast(Gsm7, Gsm7Length(text).value, |parts|);
  }

  predicate WidthAtMost(text: Text, width: nat) {
    forall i :: 0 <= i < |text| ==> Septets(text[i]).Some? && Septets(text[i]).value <= width
  }

  lemma {:induction false} LongestFit(text: Text, i: nat, width: nat) returns (j: nat)
    requires WidthAtMost(text, width) && i <= |text| && FitsPart(text[..i])
    requires Gsm7Length(text).Some? && Gsm7Length(text).value > PartLimit(Gsm7)
    ensures i <= j < |text| && FitsPart(text[..j]) && Gsm7Length(text[..j]).value + width > PartLimit(Gsm7)
    decreases |text| - i
  {
    hide IsBasic, IsExtended;
    assert text[..|text|] == text;
    GsmPrefixes(text, i + 1);
    assert text[..i + 1][..i] == text[..i];
    if FitsPart(text[..i + 1]) {
      j := LongestFit(text, i + 1, width);
    } else {
      j := i;
    }
  }

  /** Filling each part as far as it goes wastes less than the widest character in it. */
  lemma {:induction false} FillingParts(text: Text, width: nat, k: nat) returns (parts: seq<Text>)
    requires 1 <= width <= 2 && k >= 1 && WidthAtMost(text, width)
    requires Gsm7Length(text).Some? && Gsm7Length(text).value <= k * (PartLimit(Gsm7) + 1 - width)
    ensures IsCut(text, parts) && |parts| <= k
    decreases k
  {
    if Gsm7Length(text).value <= PartLimit(Gsm7) {
      parts := [text];
      assert Join(parts[..0]) + text == text;
    } else {
      assert FitsPart(text[..0]);
      var j := LongestFit(text, 0, width);
      assert text == text[..j] + text[j..];
      GsmLengthAdds(text[..j], text[j..]);
      var rest := FillingParts(text[j..], width, k - 1);
      parts := [text[..j]] + rest;
      JoinFromFirst(text[..j], rest);
    }
  }

  lemma {:induction false} JoinFromFirst(first: Text, rest: seq<Text>)
    ensures Join([first] + rest) == first + Join(rest)
  {
    if rest == [] {
      assert ([first] + rest)[..0] == [];
    } else {
      var n := |rest| - 1;
      assert ([first] + rest)[..n + 1] == [first] + rest[..n];
      JoinFromFirst(first, rest[..n]);
    }
  }

  /** A long body without extended characters can be cut into exactly the parts charged. */
  lemma PlainTextFillsTheCount(text: Text) returns (parts: seq<Text>)
    requires WidthAtMost(text, 1) && |text| > SingleLimit(Gsm7)
    ensures IsCut(text, parts) && |parts| == Encode(text).segments
  {
    WidthBoundsLength(text, 1);
    var n := Gsm7Length(text).value;
    SegmentsAreLeast(Gsm7, n, Encode(text).segments);
    parts := FillingParts(text, 1, Encode(text).segments);
    NoCutBeatsTheCount(text, parts);
  }

  lemma {:induction false} WidthBoundsLength(text: Text, width: nat)
    requires WidthAtMost(text, width)
    ensures Gsm7Length(text).Some? && (width == 1 ==> Gsm7Length(text).value == |text|)
  {
    hide Septets;
    if text != [] {
      var n := |text| - 1;
      WidthBoundsLength(text[..n], width);
    }
  }

  /** A euro sign whose escape falls on the 153rd septet leaves no cut in two. */
  lemma SplitEscape(a: Text, b: Text, p: Text, q: Text)
    requires WidthAtMost(a, 1) && WidthAtMost(b, 1) && |a| == |b| == 152
    requires p + q == a + [0x20AC] + b
    ensures !(FitsPart(p) && FitsPart(q))
  {
    hide Gsm7Length, Septets, WidthAtMost;
    var text := a + [0x20AC] + b;
    WidthBoundsLength(a, 1); WidthBoundsLength(b, 1); EuroTakesTwo();
    if |p| <= 152 {
      assert q == text[|p|..] == a[|p|..] + [0x20AC] + b;
      GsmLengthAdds(a[|p|..] + [0x20AC], b); GsmLengthAdds(a[|p|..], [0x20AC]);
    } else {
      assert p == text[..|p|] == a + [0x20AC] + p[153..];
      GsmLengthAdds(a + [0x20AC], p[153..]); GsmLengthAdds(a, [0x20AC]);
    }
  }

  lemma EuroTakesTwo()
    ensures Gsm7Length([0x20AC]) == Some(2)
  {
    SingleCharacter(0x20AC);
  }

  /** With extended characters it may take more: 152 plain characters on either side of a
      euro sign are charged as two parts and fit no two. */
  lemma EscapeMayNeedAnotherPart(a: Text, b: Text, p: Text, q: Text)
    requires WidthAtMost(a, 1) && WidthAtMost(b, 1) && |a| == |b| == 152
    ensures Encode(a + [0x20AC] + b).segments == 2
    ensures !IsCut(a + [0x20AC] + b, [p, q])
  {
    hide Gsm7Length, Septets, WidthAtMost;
    WidthBoundsLength(a, 1); WidthBoundsLength(b, 1); EuroTakesTwo();
    GsmLengthAdds(a, [0x20AC]); GsmLengthAdds(a + [0x20AC], b);
    if IsCut(a + [0x20AC] + b, [p, q]) {
      assert [p, q][..1] == [p] && [p][..0] == [];
      assert Join([]) == [] && Join([p]) == [] + p && Join([p, q]) == Join([p]) + q;
      assert FitsPart([p, q][0]) && FitsPart([p, q][1]);
      SplitEscape(a, b, p, q);
    }
  }

  // ---- the least number of parts ------------------------------------------------------------------

  predicate IsGsm7(text: Text) {
    Gsm7Length(text).Some?
  }

  lemma SliceOfGsm7(text: Text, a: nat, b: nat)
    requires IsGsm7(text) && a <= b <= |text|
    ensures IsGsm7(text[a..b]) && Gsm7Length(text[a..b]).value <= Gsm7Length(text).value
  {
    hide Gsm7Length;
    assert text == text[..a] + (text[a..b] + text[b..]);
    GsmLengthAdds(text[..a], text[a..b] + text[b..]);
    GsmLengthAdds(text[a..b], text[b..]);
  }

  /** How far the first part reaches, if it is filled as far as it goes from `i` on. */
  function Reach(text: Text, i: nat): (j: nat)
    requires i <= |text| && FitsPart(text[..i])
    ensures i <= j <= |text| && FitsPart(text[..j]) && (j < |text| ==> !FitsPart(text[..j + 1]))
    decreases |text| - i
  {
    if i < |text| && FitsPart(text[..i + 1]) then Reach(text, i + 1) else i
  }

  lemma FirstPartTakesSome(text: Text)
    requires IsGsm7(text) && text != []
    ensures FitsPart(text[..0]) && Reach(text, 0) >= 1
  {
    SliceOfGsm7(text, 0, 1);
    assert text[0..1] == text[..1] == [text[0]];
    SingleCharacter(text[0]);
  }

  /** The parts used when each is filled as far as it goes. */
  function GreedyParts(text: Text): nat
    requires IsGsm7(text)
    decreases |text|
  {
    if text == [] then 0
    else
      FirstPartTakesSome(text);
      var j := Reach(text, 0);
      assert text[j..] == text[j..|text|];
      SliceOfGsm7(text, j, |text|);
      1 + GreedyParts(text[j..])
  }

  lemma RestOfGsm7(text: Text, d: nat)
    requires IsGsm7(text) && d <= |text|
    ensures IsGsm7(text[d..])
  {
    assert text[d..] == text[d..|text|];
    SliceOfGsm7(text, d, |text|);
  }

  lemma GreedyStep(text: Text)
    requires IsGsm7(text) && text != []
    ensures FitsPart(text[..0]) && 1 <= Reach(text, 0) && IsGsm7(text[Reach(text, 0)..])
    ensures GreedyParts(text) == 1 + GreedyParts(text[Reach(text, 0)..])
  {
    hide Gsm7Length, FitsPart;
    FirstPartTakesSome(text);
    RestOfGsm7(text, Reach(text, 0));
  }

  lemma PrefixFits(text: Text, d: nat, i: nat)
    requires i <= d <= |text| && FitsPart(text[..d])
    ensures FitsPart(text[..i])
  {
    SliceOfGsm7(text[..d], 0, i);
    assert text[..d][0..i] == text[..i];
  }

  /** Nothing that fits a part reaches further than filling it does. */
  lemma NothingReachesFurther(text: Text, d: nat)
    requires IsGsm7(text) && d <= |text| && FitsPart(text[..d])
    ensures FitsPart(text[..0]) && d <= Reach(text, 0)
  {
    hide FitsPart;
    PrefixFits(text, d, 0);
    var j := Reach(text, 0);
    if j < d { PrefixFits(text, d, j + 1); }
  }

  /** What the first part still holds of a later rest fits the first part of that rest. */
  lemma LaterReach(text: Text, d: nat)
    requires IsGsm7(text) && FitsPart(text[..0]) && d <= Reach(text, 0)
    ensures IsGsm7(text[d..]) && FitsPart(text[d..][..0]) && Reach(text, 0) <= d + Reach(text[d..], 0)
  {
    hide Gsm7Length;
    var j := Reach(text, 0);
    RestOfGsm7(text, d);
    SliceOfGsm7(text[..j], d, j);
    assert text[..j][d..j] == text[d..][..j - d];
    NothingReachesFurther(text[d..], j - d);
  }

  /** A shorter rest never needs more parts. */
  lemma {:induction false} RestsNeedNoMore(text: Text, d: nat)
    requires IsGsm7(text) && d <= |text|
    ensures IsGsm7(text[d..]) && GreedyParts(text[d..]) <= GreedyParts(text)
    decreases |text|
  {
    hide Gsm7Length, FitsPart, Reach, IsGsm7;
    RestOfGsm7(text, d);
    if d == |text| {
      assert text[d..] == [];
    } else {
      hide GreedyParts;
      GreedyStep(text);
      var j := Reach(text, 0);
      if j <= d {
        RestsNeedNoMore(text[j..], d - j);
        assert text[j..][d - j..] == text[d..];
      } else {
        LaterReach(text, d);
        GreedyStep(text[d..]);
        var e := Reach(text[d..], 0);
        RestsNeedNoMore(text[j..], d + e - j);
        assert text[j..][d + e - j..] == text[d..][e..];
      }
    }
  }

  lemma CutWithoutFirst(text: Text, parts: seq<Text>)
    requires IsCut(text, parts) && parts != []
    ensures |parts[0]| <= |text| && text[..|parts[0]|] == parts[0] && FitsPart(parts[0])
    ensures IsCut(text[|parts[0]|..], parts[1..])
  {
    hide FitsPart;
    assert parts == [parts[0]] + parts[1..];
    JoinFromFirst(parts[0], parts[1..]);
    assert text[|parts[0]|..] == Join(parts[1..]);
  }

  lemma CutWithFirst(first: Text, text: Text, parts: seq<Text>)
    requires IsCut(text, parts) && FitsPart(first)
    ensures IsCut(first + text, [first] + parts)
  {
    hide FitsPart;
    JoinFromFirst(first, parts);
  }

  lemma {:induction false} NoCutBeatsGreed(text: Text, parts: seq<Text>)
    requires IsGsm7(text) && IsCut(text, parts)
    ensures |parts| >= GreedyParts(text)
    decreases |parts|
  {
    hide Gsm7Length, FitsPart, Reach, IsGsm7;
    if parts != [] && text != [] {
      hide GreedyParts, IsCut;
      var d := |parts[0]|;
      CutWithoutFirst(text, parts);
      GreedyStep(text);
      NothingReachesFurther(text, d);
      RestOfGsm7(text, d);
      NoCutBeatsGreed(text[d..], parts[1..]);
      var j := Reach(text, 0);
      RestsNeedNoMore(text[d..], j - d);
      assert text[d..][j - d..] == text[j..];
    }
  }

  lemma {:induction false} GreedyCut(text: Text) returns (parts: seq<Text>)
    requires IsGsm7(text)
    ensures IsCut(text, parts) && |parts| == GreedyParts(text)
    decreases |text|
  {
    hide Gsm7Length, FitsPart, IsGsm7;
    if text == [] {
      parts := [];
    } else {
      hide GreedyParts, IsCut;
      GreedyStep(text);
      var j := Reach(text, 0);
      var rest := GreedyCut(text[j..]);
      CutWithFirst(text[..j], text[j..], rest);
      parts := [text[..j]] + rest;
      assert text == text[..j] + text[j..];
    }
  }

  /** A GSM-7 body can be cut into at most `k` parts if and only if filling each as far as it
      goes takes no more than that. */
  lemma GreedyPartsAreLeast(text: Text, k: nat)
    requires IsGsm7(text)
    ensures (exists parts :: IsCut(text, parts) && |parts| <= k) <==> k >= GreedyParts(text)
  {
    hide IsCut, GreedyParts;
    if parts :| IsCut(text, parts) && |parts| <= k {
      NoCutBeatsGreed(text, parts);
    }
    var parts := GreedyCut(text);
  }

  /** The parts charged for a long body are the parts it takes if and only if filling does not
      take more. It never takes fewer, nor more than if each part lost a septet. */
  lemma ChargeIsExactIff(text: Text)
    requires IsGsm7(text) && Gsm7Length(text).value > SingleLimit(Gsm7)
    ensures (exists parts :: IsCut(text, parts) && |parts| == Encode(text).segments)
       <==> GreedyParts(text) <= Encode(text).segments
    ensures Encode(text).segments <= GreedyParts(text) <= CeilDiv(Gsm7Length(text).value, PartLimit(Gsm7) - 1)
  {
    hide IsCut, GreedyParts, BuildResult;
    var greedy := GreedyCut(text);
    NoCutBeatsTheCount(text, greedy);
    if parts :| IsCut(text, parts) && |parts| == Encode(text).segments {
      NoCutBeatsGreed(text, parts);
    }
    var n, k := Gsm7Length(text).value, CeilDiv(Gsm7Length(text).value, PartLimit(Gsm7) - 1);
    CeilDivIsLeast(n, PartLimit(Gsm7) - 1, k);
    CeilDivIsLeast(n, PartLimit(Gsm7) - 1, 0);
    AllAtMostTwo(text);
    var filled := FillingParts(text, 2, k);
    NoCutBeatsGreed(text, filled);
  }

  lemma {:induction false} AllAtMostTwo(text: Text)
    requires IsGsm7(text)
    ensures WidthAtMost(text, 2)
  {
    forall i | 0 <= i < |text| ensures Septets(text[i]).Some? && Septets(text[i]).value <= 2 {
      SliceOfGsm7(text, i, i + 1);
      assert text[i..i + 1] == [text[i]];
      SingleCharacter(text[i]);
    }
  }
}
