/** How a body travels over the air: its encoding, its length and its billable parts. */
module MessageEncoder {
  import opened SmsTypes
  import opened GsmAlphabet

  type Text = seq<CodeUnit>

  datatype Encoding = Gsm7 | Ucs2

  datatype EncodedMessage = EncodedMessage(encoding: Encoding, segments: nat, length: nat, remaining: nat)

  /** The characters the encoder counts as one septet. */
  predicate IsBasic(c: CodeUnit) {
    || c == 0x0A || c == 0x0D || 0x20 <= c <= 0x5A || c == 0x5F || 0x61 <= c <= 0x7A
    || c in {0xA1, 0xA3, 0xA4, 0xA5, 0xA7, 0xBF, 0xC4, 0xC5, 0xC6, 0xC7, 0xC9, 0xD1, 0xD6, 0xD8, 0xDC, 0xDF,
             0xE0, 0xE4, 0xE5, 0xE6, 0xE8, 0xE9, 0xEC, 0xF1, 0xF2, 0xF6, 0xF8, 0xF9, 0xFC}
    || c in {0x393, 0x394, 0x398, 0x39B, 0x39E, 0x3A0, 0x3A3, 0x3A6, 0x3A8, 0x3A9}
  }

  /** The characters it counts as two: `^ { } [ ~ ] |` and the euro sign. */
  predicate IsExtended(c: CodeUnit) {
    c in {0x5E, 0x7B, 0x7D, 0x5B, 0x7E, 0x5D, 0x7C, 0x20AC}
  }

  function Septets(c: CodeUnit): Option<nat> {
    if IsBasic(c) then Some(1) else if IsExtended(c) then Some(2) else None
  }

  function Gsm7Length(text: Text): (length: Option<nat>)
    ensures length.Some? ==> |text| <= length.value <= 2 * |text|
  {
    if text == [] then Some(0)
    else
      var before, last := Gsm7Length(text[..|text| - 1]), Septets(text[|text| - 1]);
      if before.None? || last.None? then None else Some(before.value + last.value)
  }

  function SingleLimit(encoding: Encoding): nat {
    if encoding.Gsm7? then 160 else 70
  }

  function PartLimit(encoding: Encoding): nat {
    if encoding.Gsm7? then 153 else 67
  }

  /** `Math.ceil(a / b)`. */
  function CeilDiv(a: nat, b: nat): nat
    requires b > 0
  {
    (a + b - 1) / b
  }

  function BuildResult(encoding: Encoding, length: nat): EncodedMessage {
    if length == 0 then EncodedMessage(encoding, 1, 0, SingleLimit(encoding))
    else if length <= SingleLimit(encoding) then EncodedMessage(encoding, 1, length, SingleLimit(encoding) - length)
    else
      var segments := CeilDiv(length, PartLimit(encoding));
      CeilDivIsLeast(length, PartLimit(encoding), segments);
      EncodedMessage(encoding, segments, length, segments * PartLimit(encoding) - length)
  }

  function Encode(text: Text): EncodedMessage {
    var septets := Gsm7Length(text);
    if septets.Some? then BuildResult(Gsm7, septets.value) else BuildResult(Ucs2, |text|)
  }

  /** Two code units that form one character outside the basic plane. */
  predicate IsSurrogatePair(text: Text, i: nat) {
    i + 1 < |text| && 0xD800 <= text[i] < 0xDC00 && 0xDC00 <= text[i + 1] < 0xE000
  }

  /** Walks the characters of the text, as the encoder does. */
  method CountSeptets(text: Text) returns (length: Option<nat>)
    ensures length == Gsm7Length(text)
  {
    hide IsBasic, IsExtended;
    var total, i := 0, 0;
    while i < |text|
      invariant 0 <= i <= |text|
      invariant Gsm7Length(text[..i]) == Some(total)
    {
      assert text[..i + 1][..i] == text[..i];
      if IsSurrogatePair(text, i) {
        SurrogatesAreOutside(text[i]);
        GsmPrefixes(text, i + 1);
        return None;
      }
      if IsBasic(text[i]) {
        total := total + 1;
      } else if IsExtended(text[i]) {
        total := total + 2;
      } else {
        GsmPrefixes(text, i + 1);
        return None;
      }
      i := i + 1;
    }
    assert text[..i] == text;
    return Some(total);
  }

  method EncodeMessage(text: Text) returns (r: EncodedMessage)
    ensures r == Encode(text)
  {
    var septets := CountSeptets(text);
    if septets.Some? { return BuildResult(Gsm7, septets.value); }
    return BuildResult(Ucs2, |text|);
  }

  // ---- arithmetic -------------------------------------------------------------------

  lemma CeilDivIsLeast(a: nat, b: nat, k: nat)
    requires b > 0
    ensures k >= CeilDiv(a, b) <==> k * b >= a
  {
    var q := CeilDiv(a, b);
    assert q * b >= a && (q == 0 || (q - 1) * b < a) by {
      assert a + b - 1 == q * b + (a + b - 1) % b;
      assert (q - 1) * b == q * b - b;
    }
    if k >= q { Scale(q, k, b); } else { Scale(k, q - 1, b); }
  }

  lemma Scale(x: nat, y: nat, b: nat)
    requires x <= y
    ensures x * b <= y * b
  {
  }

  // ---- lengths ----------------------------------------------------------------------

  /** Septets add up over a concatenation. */
  lemma {:induction false} GsmLengthAdds(a: Text, b: Text)
    ensures Gsm7Length(a + b) == if Gsm7Length(a).None? || Gsm7Length(b).None? then None
                                 else Some(Gsm7Length(a).value + Gsm7Length(b).value)
  {
    hide Septets;
    if b == [] {
      assert a + b == a;
    } else {
      var n := |b| - 1;
      assert (a + b)[..|a + b| - 1] == a + b[..n];
      GsmLengthAdds(a, b[..n]);
    }
  }

  lemma SurrogatesAreOutside(c: CodeUnit)
    requires 0xD800 <= c < 0xE000
    ensures Septets(c).None?
  {
  }

  lemma GsmPrefixes(text: Text, i: nat)
    requires i <= |text|
    ensures Gsm7Length(text[..i]).None? ==> Gsm7Length(text).None?
  {
    assert text == text[..i] + text[i..];
    GsmLengthAdds(text[..i], text[i..]);
  }

  // ---- segments ---------------------------------------------------------------------

  /** One part up to 160 septets, or 70 code units; beyond that, the least number of parts of 153
      septets, or 67 code units, that holds the whole length. */
  lemma SegmentsAreLeast(encoding: Encoding, length: nat, k: nat)
    ensures var r := BuildResult(encoding, length);
            k >= r.segments <==>
              && k >= 1
              && (length <= (if encoding.Gsm7? then 160 else 70) || k * (if encoding.Gsm7? then 153 else 67) >= length)
  {
    CeilDivIsLeast(length, PartLimit(encoding), k);
    CeilDivIsLeast(length, PartLimit(encoding), 1);
  }

  lemma LongerNeedsNoFewer(encoding: Encoding, a: nat, b: nat)
    requires a <= b
    ensures BuildResult(encoding, a).segments <= BuildResult(encoding, b).segments
  {
    SegmentsAreLeast(encoding, a, BuildResult(encoding, b).segments);
    SegmentsAreLeast(encoding, b, BuildResult(encoding, b).segments);
  }

  /** Leaving GSM-7 never makes a body cheaper, although it may halve its length. */
  lemma SwitchNeedsNoFewer(septets: nat, units: nat)
    requires septets <= 2 * units
    ensures BuildResult(Gsm7, septets).segments <= BuildResult(Ucs2, units).segments
  {
    var k := BuildResult(Ucs2, units).segments;
    SegmentsAreLeast(Ucs2, units, k);
    SegmentsAreLeast(Gsm7, septets, k);
  }

  /** Appending any text never lowers the number of segments. */
  lemma AppendingNeverLowersSegments(a: Text, b: Text)
    ensures Encode(a).segments <= Encode(a + b).segments
  {
    hide BuildResult;
    GsmLengthAdds(a, b);
    if Gsm7Length(a).None? {
      LongerNeedsNoFewer(Ucs2, |a|, |a + b|);
    } else if Gsm7Length(b).None? {
      SwitchNeedsNoFewer(Gsm7Length(a).value, |a + b|);
    } else {
      LongerNeedsNoFewer(Gsm7, Gsm7Length(a).value, Gsm7Length(a + b).value);
    }
  }

  /** `remaining` is exact: a text that keeps the encoding fits the current parts if and
      only if it is no longer than that. */
  lemma RemainingIsExact(a: Text, b: Text)
    requires Encode(a + b).encoding == Encode(a).encoding
    ensures Encode(a + b).segments == Encode(a).segments
       <==> Encode(a + b).length - Encode(a).length <= Encode(a).remaining
  {
    AppendingNeverLowersSegments(a, b);
    GsmLengthAdds(a, b);
    var r, s := Encode(a), Encode(a + b);
    SegmentsAreLeast(s.encoding, s.length, r.segments);
    assert r == BuildResult(r.encoding, r.length) && s == BuildResult(s.encoding, s.length);
  }

  // ---- the alphabet -----------------------------------------------------------------

  /** The two characters of the extension table that the encoder does not know. */
  predicate Overlooked(c: CodeUnit) {
    c == BACKSLASH || c == FORM_FEED
  }

  predicate HasOverlooked(text: Text) {
    exists i :: 0 <= i < |text| && Overlooked(text[i])
  }

  lemma BasicIsTheDefaultAlphabet(c: CodeUnit)
    ensures IsBasic(c) <==> DefaultSeptet(c).Some?
  {
  }

  lemma ExtendedIsTheExtensionTable(s: Septet)
    ensures ExtensionChar(s).Some? ==> var c := ExtensionChar(s).value;
              !IsBasic(c) && (IsExtended(c) <==> !Overlooked(c))
  {
  }

  /** A text spelled by septets is counted with exactly that many of them, unless it has a
      backslash or a form feed: then it is taken for one outside the alphabet. */
  lemma {:induction false} SpelledTextsAreCounted(septets: seq<Septet>)
    requires Decode(septets).Some?
    ensures Gsm7Length(Decode(septets).value)
         == if HasOverlooked(Decode(septets).value) then None else Some(|septets|)
  {
    hide IsBasic, IsExtended, DefaultChar, ExtensionChar, DefaultSeptet, Overlooked, Septets, HasOverlooked;
    if septets == [] {
      assert !HasOverlooked([]) by { NothingOverlooked(); }
    } else {
      var width := if septets[0] != ESC then 1 else 2;
      var c := if septets[0] != ESC then DefaultChar(septets[0]) else ExtensionChar(septets[1]).value;
      var rest := Decode(septets[width..]).value;
      assert Decode(septets).value == [c] + rest;
      hide Gsm7Length, Decode;
      SpelledTextsAreCounted(septets[width..]);
      GsmLengthAdds([c], rest);
      CharacterWidth(septets[0], if width == 2 then septets[1] else 0);
      SingleCharacter(c);
      OverlookedAdds(c, rest);
    }
  }

  lemma OverlookedAdds(c: CodeUnit, rest: Text)
    ensures HasOverlooked([c] + rest) <==> Overlooked(c) || HasOverlooked(rest)
  {
    var text := [c] + rest;
    assert text[0] == c && forall i :: 0 <= i < |rest| ==> text[i + 1] == rest[i];
  }

  lemma NothingOverlooked()
    ensures !HasOverlooked([])
  {
  }

  lemma SingleCharacter(c: CodeUnit)
    ensures Gsm7Length([c]) == Septets(c)
  {
    assert [c][..0] == [];
  }

  lemma CharacterWidth(first: Septet, second: Septet)
    ensures first != ESC ==> Septets(DefaultChar(first)) == Some(1) && !Overlooked(DefaultChar(first))
    ensures ExtensionChar(second).Some? ==>
      Septets(ExtensionChar(second).value) == if Overlooked(ExtensionChar(second).value) then None else Some(2)
  {
    hide DefaultChar, DefaultSeptet, IsBasic;
    if first != ESC {
      DefaultAlphabetIsABijection(DefaultChar(first), first);
      BasicIsTheDefaultAlphabet(DefaultChar(first));
      OverlookedAreNotBasic(DefaultChar(first));
    }
    if ExtensionChar(second).Some? {
      ExtendedIsTheExtensionTable(second);
    }
  }

  lemma OverlookedAreNotBasic(c: CodeUnit)
    ensures Overlooked(c) ==> !IsBasic(c)
  {
  }

  /** Every text counted as GSM-7 is one the alphabet can spell, with as many septets. */
  lemma {:induction false} CountedTextsAreSpelled(text: Text) returns (septets: seq<Septet>)
    requires Gsm7Length(text).Some?
    ensures Decode(septets) == Some(text) && |septets| == Gsm7Length(text).value
  {
    hide IsBasic, IsExtended, DefaultChar, DefaultSeptet;
    if text == [] {
      septets := [];
    } else {
      var c, rest := text[0], text[1..];
      assert text == [c] + rest;
      GsmLengthAdds([c], rest);
      SingleCharacter(c);
      var tail := CountedTextsAreSpelled(rest);
      if IsBasic(c) {
        BasicIsTheDefaultAlphabet(c);
        DefaultAlphabetIsABijection(c, DefaultSeptet(c).value);
        septets := [DefaultSeptet(c).value] + tail;
        assert septets[1..] == tail;
      } else {
        var s := ExtensionSeptet(c);
        septets := [ESC, s] + tail;
        assert septets[2..] == tail;
      }
    }
  }

  lemma ExtensionSeptet(c: CodeUnit) returns (s: Septet)
    requires IsExtended(c)
    ensures ExtensionChar(s) == Some(c)
  {
    s := match c
      case 0x5E => 0x14 case 0x7B => 0x28 case 0x7D => 0x29 case 0x5B => 0x3C
      case 0x7E => 0x3D case 0x5D => 0x3E case 0x7C => 0x40 case _ => 0x65;
  }

  /** A body travels as GSM-7 if and only if the alphabet can spell it and it has neither a
      backslash nor a form feed. */
  lemma EncodingIsGsm7Iff(text: Text)
    ensures Encode(text).encoding.Gsm7?
       <==> (exists septets :: Decode(septets) == Some(text)) && !HasOverlooked(text)
  {
    hide Decode, IsBasic, IsExtended;
    if Gsm7Length(text).Some? {
      var septets := CountedTextsAreSpelled(text);
      SpelledTextsAreCounted(septets);
    } else if septets :| Decode(septets) == Some(text) {
      SpelledTextsAreCounted(septets);
    }
  }

  /** The length reported is that of the septets that spell the text, or of its code units when none
      are used; and together with what remains it fills the parts. */
  lemma LengthIsMeasured(text: Text)
    ensures var r := Encode(text);
            && (r.encoding.Gsm7? ==> exists septets :: Decode(septets) == Some(text) && |septets| == r.length)
            && (r.encoding.Ucs2? ==> r.length == |text|)
            && r.length + r.remaining
               == if r.segments == 1 then (if r.encoding.Gsm7? then 160 else 70)
                  else r.segments * (if r.encoding.Gsm7? then 153 else 67)
  {
    hide Decode, IsBasic, IsExtended;
    if Gsm7Length(text).Some? {
      var septets := CountedTextsAreSpelled(text);
      SegmentsAreLeast(Gsm7, Gsm7Length(text).value, 1);
    } else {
      SegmentsAreLeast(Ucs2, |text|, 1);
    }
  }
}
