/** The GSM 7-bit default alphabet and its extension table: sections 6.2.1 and 6.2.1.1 of
    3GPP TS 23.038. Characters are UTF-16 code units. */
module GsmAlphabet {
  import opened SmsTypes

  type CodeUnit = c: int | 0 <= c < 0x1_0000
  type Septet = s: int | 0 <= s < 128

  const ESC: Septet := 0x1B
  const FORM_FEED: CodeUnit := 0x0C
  const BACKSLASH: CodeUnit := 0x5C

  /** The character at a position of the default alphabet; the escape has none. */
  function DefaultChar(s: Septet): CodeUnit
    requires s != ESC
  {
    match s
    case 0x00 => 0x0040 case 0x01 => 0x00A3 case 0x02 => 0x0024 case 0x03 => 0x00A5
    case 0x04 => 0x00E8 case 0x05 => 0x00E9 case 0x06 => 0x00F9 case 0x07 => 0x00EC
    case 0x08 => 0x00F2 case 0x09 => 0x00C7 case 0x0B => 0x00D8 case 0x0C => 0x00F8
    case 0x0E => 0x00C5 case 0x0F => 0x00E5 case 0x10 => 0x0394 case 0x11 => 0x005F
    case 0x12 => 0x03A6 case 0x13 => 0x0393 case 0x14 => 0x039B case 0x15 => 0x03A9
    case 0x16 => 0x03A0 case 0x17 => 0x03A8 case 0x18 => 0x03A3 case 0x19 => 0x0398
    case 0x1A => 0x039E case 0x1C => 0x00C6 case 0x1D => 0x00E6 case 0x1E => 0x00DF
    case 0x1F => 0x00C9 case 0x24 => 0x00A4 case 0x40 => 0x00A1 case 0x5B => 0x00C4
    case 0x5C => 0x00D6 case 0x5D => 0x00D1 case 0x5E => 0x00DC case 0x5F => 0x00A7
    case 0x60 => 0x00BF case 0x7B => 0x00E4 case 0x7C => 0x00F6 case 0x7D => 0x00F1
    case 0x7E => 0x00FC case 0x7F => 0x00E0
    case _ => s
  }

  /** The character an escape and this septet stand for. */
  function ExtensionChar(s: Septet): Option<CodeUnit> {
    match s
    case 0x0A => Some(FORM_FEED) case 0x14 => Some(0x5E) case 0x28 => Some(0x7B) case 0x29 => Some(0x7D)
    case 0x2F => Some(BACKSLASH) case 0x3C => Some(0x5B) case 0x3D => Some(0x7E) case 0x3E => Some(0x5D)
    case 0x40 => Some(0x7C) case 0x65 => Some(0x20AC)
    case _ => None
  }

  /** The text a run of septets spells, when it spells one. */
  function Decode(septets: seq<Septet>): Option<seq<CodeUnit>> {
    if septets == [] then Some([])
    else if septets[0] != ESC then Prepend(DefaultChar(septets[0]), Decode(septets[1..]))
    else if |septets| == 1 || ExtensionChar(septets[1]).None? then None
    else Prepend(ExtensionChar(septets[1]).value, Decode(septets[2..]))
  }

  function Prepend(c: CodeUnit, text: Option<seq<CodeUnit>>): Option<seq<CodeUnit>> {
    if text.None? then None else Some([c] + text.value)
  }

  /** Where a character stands in the default alphabet, if it does. */
  function DefaultSeptet(c: CodeUnit): Option<Septet> {
    match c
    case 0x0040 => Some(0x00) case 0x00A3 => Some(0x01) case 0x0024 => Some(0x02) case 0x00A5 => Some(0x03)
    case 0x00E8 => Some(0x04) case 0x00E9 => Some(0x05) case 0x00F9 => Some(0x06) case 0x00EC => Some(0x07)
    case 0x00F2 => Some(0x08) case 0x00C7 => Some(0x09) case 0x00D8 => Some(0x0B) case 0x00F8 => Some(0x0C)
    case 0x00C5 => Some(0x0E) case 0x00E5 => Some(0x0F) case 0x0394 => Some(0x10) case 0x005F => Some(0x11)
    case 0x03A6 => Some(0x12) case 0x0393 => Some(0x13) case 0x039B => Some(0x14) case 0x03A9 => Some(0x15)
    case 0x03A0 => Some(0x16) case 0x03A8 => Some(0x17) case 0x03A3 => Some(0x18) case 0x0398 => Some(0x19)
    case 0x039E => Some(0x1A) case 0x00C6 => Some(0x1C) case 0x00E6 => Some(0x1D) case 0x00DF => Some(0x1E)
    case 0x00C9 => Some(0x1F) case 0x00A4 => Some(0x24) case 0x00A1 => Some(0x40) case 0x00C4 => Some(0x5B)
    case 0x00D6 => Some(0x5C) case 0x00D1 => Some(0x5D) case 0x00DC => Some(0x5E) case 0x00A7 => Some(0x5F)
    case 0x00BF => Some(0x60) case 0x00E4 => Some(0x7B) case 0x00F6 => Some(0x7C) case 0x00F1 => Some(0x7D)
    case 0x00FC => Some(0x7E) case 0x00E0 => Some(0x7F)
    case _ => if IsPlainAscii(c) then Some(c) else None
  }

  /** The characters that stand at their own ASCII code. */
  predicate IsPlainAscii(c: CodeUnit) {
    c == 0x0A || c == 0x0D || (0x20 <= c <= 0x5A && c != 0x24 && c != 0x40) || 0x61 <= c <= 0x7A
  }

  lemma SeptetOfDefaultChar(s: Septet)
    requires s != ESC
    ensures DefaultSeptet(DefaultChar(s)) == Some(s)
  {
  }

  lemma DefaultCharOfSeptet(c: CodeUnit)
    ensures var s := DefaultSeptet(c); s.Some? ==> s.value != ESC && DefaultChar(s.value) == c
  {
  }

  lemma DefaultAlphabetIsABijection(c: CodeUnit, s: Septet)
    ensures DefaultSeptet(c) != Some(ESC)
    ensures s != ESC ==> (DefaultSeptet(c) == Some(s) <==> DefaultChar(s) == c)
  {
    hide DefaultChar, DefaultSeptet;
    DefaultCharOfSeptet(c);
    if s != ESC { SeptetOfDefaultChar(s); }
  }
}
