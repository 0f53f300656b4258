/**
 * `Color::parse` / `parse_color`: CSS hexadecimal notation (`#RGB`, `#RGBA`,
 * `#RRGGBB`, `#RRGGBBAA`, hex digits in either case) or an exact SVG colour
 * name. The result is kept at byte level: the four sRGB bytes that the source
 * hands to `Color::rgba8`.
 */
module ColorParse {
  import opened Wrappers
  import opened Text
  import opened Colors
  import NamedColors

  const HASH: byte := 0x23     // '#'
  const LOWER_F: byte := 0x66  // 'f'

  /** An ASCII hex digit: `0-9`, `A-F` or `a-f`. */
  predicate IsHexByte(b: byte) {
    (0x30 <= b <= 0x39) || (0x41 <= b <= 0x46) || (0x61 <= b <= 0x66)
  }

  /** `hex_from_ascii_byte`: the value of an ASCII hex digit, or the byte itself as the error. */
  function HexFromAsciiByte(b: byte): (r: Result<byte, byte>)
    ensures r.Ok? <==> IsHexByte(b)
    ensures r.Ok? ==> r.value < 16
    ensures r.Err? ==> r.error == b
  {
    if 0x30 <= b <= 0x39 then Ok(b - 0x30)
    else if 0x41 <= b <= 0x46 then Ok(b - 0x41 + 10)
    else if 0x61 <= b <= 0x66 then Ok(b - 0x61 + 10)
    else Err(b)
  }

  /** The lower-case ASCII digit of a nibble. */
  function LowerHexDigit(n: byte): (b: byte)
    requires n < 16
  {
    if n < 10 then 0x30 + n else 0x61 + (n - 10)
  }

  /** The upper-case ASCII digit of a nibble. */
  function UpperHexDigit(n: byte): (b: byte)
    requires n < 16
  {
    if n < 10 then 0x30 + n else 0x41 + (n - 10)
  }

  /** Decoding inverts both spellings of every nibble: digits are case-insensitive. */
  lemma HexDigitRoundTrip(n: byte)
    requires n < 16
    ensures HexFromAsciiByte(LowerHexDigit(n)) == Ok(n)
    ensures HexFromAsciiByte(UpperHexDigit(n)) == Ok(n)
  {
  }

  /** Conversely, every accepted byte is one of the two spellings of its value. */
  lemma HexDigitSpellings(b: byte)
    requires HexFromAsciiByte(b).Ok?
    ensures var n := HexFromAsciiByte(b).value;
      b == LowerHexDigit(n) || b == UpperHexDigit(n)
  {
  }

  /** The `match` of `get_4bit_hex_channels`: the eight ASCII digits, short
      forms widened by duplication and a missing alpha filled with `ff`.
      Arms are tried in source order, so a leading `#` is skipped only when
      the length allows it. */
  function ChannelLayout(h: seq<byte>): (r: Option<seq<byte>>)
    ensures r.Some? ==> |r.value| == 8
  {
    if |h| == 4 && h[0] == HASH then Some([h[1], h[1], h[2], h[2], h[3], h[3], LOWER_F, LOWER_F])
    else if |h| == 3 then Some([h[0], h[0], h[1], h[1], h[2], h[2], LOWER_F, LOWER_F])
    else if |h| == 5 && h[0] == HASH then Some([h[1], h[1], h[2], h[2], h[3], h[3], h[4], h[4]])
    else if |h| == 4 then Some([h[0], h[0], h[1], h[1], h[2], h[2], h[3], h[3]])
    else if |h| == 7 && h[0] == HASH then Some(h[1..] + [LOWER_F, LOWER_F])
    else if |h| == 6 then Some(h + [LOWER_F, LOWER_F])
    else if |h| == 9 && h[0] == HASH then Some(h[1..])
    else if |h| == 8 then Some(h)
    else None
  }

  /** Every byte decoded to its nibble, or `None` at the first non-digit. */
  function DecodeNibbles(cs: seq<byte>): (r: Option<seq<byte>>)
    ensures r.Some? <==> forall i | 0 <= i < |cs| :: IsHexByte(cs[i])
    ensures r.Some? ==> |r.value| == |cs| && forall i | 0 <= i < |cs| :: r.value[i] < 16
  {
    if forall i | 0 <= i < |cs| :: HexFromAsciiByte(cs[i]).Ok? then
      Some(seq(|cs|, i requires 0 <= i < |cs| => HexFromAsciiByte(cs[i]).value))
    else
      None
  }

  /** What `get_4bit_hex_channels` returns. */
  function FourBitHexChannels(h: seq<byte>): (r: Option<seq<byte>>)
    ensures r.Some? ==> |r.value| == 8 && forall i | 0 <= i < 8 :: r.value[i] < 16
  {
    match ChannelLayout(h)
    case None => None
    case Some(cs) => DecodeNibbles(cs)
  }

  /** `get_4bit_hex_channels`: lays the digits out in an eight-byte buffer,
      then rewrites the buffer in place, digit by digit, into nibbles, giving
      up at the first byte that is not a hex digit. */
  method Get4BitHexChannels(h: seq<byte>) returns (r: Option<seq<byte>>)
    ensures r == FourBitHexChannels(h)
  {
    var layout := ChannelLayout(h);
    if layout.None? {
      return None;
    }
    var ascii := layout.value;
    var channels := new byte[8](k requires 0 <= k < 8 => ascii[k]);
    var i := 0;
    while i < channels.Length
      invariant 0 <= i <= channels.Length
      invariant forall k | 0 <= k < i :: HexFromAsciiByte(ascii[k]).Ok? && channels[k] == HexFromAsciiByte(ascii[k]).value
      invariant forall k | i <= k < channels.Length :: channels[k] == ascii[k]
    {
      var asHex := HexFromAsciiByte(channels[i]);
      if asHex.Err? {
        return None;
      }
      channels[i] := asHex.value;
      i := i + 1;
    }
    assert forall k | 0 <= k < 8 :: HexFromAsciiByte(ascii[k]).Ok?;
    assert channels[..] == DecodeNibbles(ascii).value;
    return Some(channels[..]);
  }

  /** `r0 << 4 | r1` on `u8`: the shift drops the bits above the eighth. */
  function Pack(hi: byte, lo: byte): byte {
    (((hi as bv8) << 4) | (lo as bv8)) as int as byte
  }

  /** Shifting a nibble up by four leaves the low four bits free for the other. */
  lemma ShiftOrNibbles(h: bv8, l: bv8)
    requires h < 16 && l < 16
    ensures (h << 4) | l == h * 16 + l
  {
  }

  /** Below 256 the bit-vector sum of a shifted nibble and a nibble does not wrap. */
  lemma NibbleSumNoWrap(h: bv8, l: bv8)
    requires h < 16 && l < 16
    ensures (h * 16 + l) as int == h as int * 16 + l as int
  {
  }

  /** A nibble keeps its value as an eight-bit vector. */
  lemma NibbleAsBits(x: byte)
    requires x < 16
    ensures (x as bv8) as int == x as int
  {
  }

  /** For two nibbles, packing is the two-digit hexadecimal value. */
  lemma PackNibbles(hi: byte, lo: byte)
    requires hi < 16 && lo < 16
    ensures Pack(hi, lo) as int == hi as int * 16 + lo as int
  {
    var h := hi as bv8;
    var l := lo as bv8;
    NibbleAsBits(hi);
    NibbleAsBits(lo);
    ShiftOrNibbles(h, l);
    NibbleSumNoWrap(h, l);
  }

  /** `color_from_4bit_hex`: pairs of nibbles packed into the four channel bytes. */
  function ColorFrom4BitHex(cs: seq<byte>): Srgba8
    requires |cs| == 8
  {
    Srgba8(Pack(cs[0], cs[1]), Pack(cs[2], cs[3]), Pack(cs[4], cs[5]), Pack(cs[6], cs[7]))
  }

  /** Every channel byte is the two-digit hexadecimal value of its nibble pair. */
  lemma ColorFrom4BitHexPacks(cs: seq<byte>)
    requires |cs| == 8 && forall i | 0 <= i < 8 :: cs[i] < 16
    ensures var c := ColorFrom4BitHex(cs);
      && c.r as int == cs[0] as int * 16 + cs[1] as int
      && c.g as int == cs[2] as int * 16 + cs[3] as int
      && c.b as int == cs[4] as int * 16 + cs[5] as int
      && c.a as int == cs[6] as int * 16 + cs[7] as int
  {
    PackNibbles(cs[0], cs[1]);
    PackNibbles(cs[2], cs[3]);
    PackNibbles(cs[4], cs[5]);
    PackNibbles(cs[6], cs[7]);
  }

  /** `parse_color`: trim; after a `#`, the hex notation of the UTF-8 bytes
      that follow; otherwise an exact name from the table. */
  function ParseColor(s: string): (r: Option<Srgba8>)
    ensures r.Some? ==> |Trim(s)| > 0
    ensures r.Some? && Trim(s)[0] != '#' ==>
      NamedColors.IsLowerName(Trim(s)) && !NamedColors.IsHexLetterWord(Trim(s))
  {
    var t := Trim(s);
    if |t| > 0 && t[0] == '#' then ParseHexDigits(t[1..]) else
      NamedColors.NamesAreLowercase(t);
      NamedColors.Lookup(t)
  }

  /** The `#` branch of `parse_color`: the channels of the UTF-8 bytes after the `#`. */
  function ParseHexDigits(d: string): Option<Srgba8> {
    match FourBitHexChannels(Utf8(d))
    case Some(channels) => Some(ColorFrom4BitHex(channels))
    case None => None
  }

  /** `Color::parse`: the parsed bytes through `Color::rgba8`. */
  function Parse(s: string, toLinear: byte -> real): (r: Option<Color>)
    ensures r.Some? <==> ParseColor(s).Some?
    ensures r.Some? ==> r.value == FromSrgba8(ParseColor(s).value, toLinear)
  {
    match ParseColor(s)
    case Some(p) => Some(FromSrgba8(p, toLinear))
    case None => None
  }

  // ---------------------------------------------------------------------------
  // The hex notation, stated independently of the source's match arms.

  /** The digits proper: the bytes after one optional leading `#`. */
  function StripHash(h: seq<byte>): seq<byte> {
    if |h| > 0 && h[0] == HASH then h[1..] else h
  }

  predicate IsNotationLength(n: nat) {
    n == 3 || n == 4 || n == 6 || n == 8
  }

  /** Three, four, six or eight ASCII hex digits. */
  predicate IsHexDigits(e: seq<byte>) {
    IsNotationLength(|e|) && forall i | 0 <= i < |e| :: IsHexByte(e[i])
  }

  /** The digit at position `j` of the eight-digit form: in a short form digit
      `k` stands for the pair at `2k` and `2k + 1`; a missing alpha is `ff`. */
  function WidenedDigit(e: seq<byte>, j: nat): byte
    requires IsNotationLength(|e|) && j < 8
  {
    if |e| <= 4 then (if j / 2 < |e| then e[j / 2] else LOWER_F)
    else (if j < |e| then e[j] else LOWER_F)
  }

  function Widened(e: seq<byte>): (w: seq<byte>)
    requires IsNotationLength(|e|)
    ensures |w| == 8
  {
    seq(8, j requires 0 <= j < 8 => WidenedDigit(e, j))
  }

  /** The nibbles of the widened digits. */
  function Nibbles(e: seq<byte>): (ns: seq<byte>)
    requires IsHexDigits(e)
    ensures |ns| == 8
  {
    seq(8, j requires 0 <= j < 8 => HexFromAsciiByte(WidenedDigit(e, j)).value)
  }

  lemma LayoutOfDigits(h: seq<byte>)
    requires IsNotationLength(|StripHash(h)|)
    ensures ChannelLayout(h) == Some(Widened(StripHash(h)))
  {
    var e := StripHash(h);
    assert ChannelLayout(h).value == Widened(e);
  }

  lemma LayoutOfOthers(h: seq<byte>)
    requires !IsNotationLength(|StripHash(h)|)
    ensures ChannelLayout(h).Some? ==> ChannelLayout(h).value[0] == HASH
  {
  }

  lemma DecodeWidened(e: seq<byte>)
    requires IsNotationLength(|e|)
    ensures DecodeNibbles(Widened(e)).Some? <==> IsHexDigits(e)
    ensures IsHexDigits(e) ==> DecodeNibbles(Widened(e)).value == Nibbles(e)
  {
    var w := Widened(e);
    if DecodeNibbles(w).Some? {
      forall i | 0 <= i < |e|
        ensures IsHexByte(e[i])
      {
        var j := if |e| <= 4 then 2 * i else i;
        assert w[j] == e[i];
      }
    }
  }

  /** `get_4bit_hex_channels` accepts exactly three, four, six or eight hex
      digits after one optional `#`, and yields their nibbles, widened. */
  lemma FourBitHexChannelsSpec(h: seq<byte>)
    ensures FourBitHexChannels(h).Some? <==> IsHexDigits(StripHash(h))
    ensures FourBitHexChannels(h).Some? ==> FourBitHexChannels(h).value == Nibbles(StripHash(h))
  {
    var e := StripHash(h);
    if IsNotationLength(|e|) {
      LayoutOfDigits(h);
      DecodeWidened(e);
    } else {
      LayoutOfOthers(h);
    }
  }

  /** An accepted input holds nothing but hex digits, apart from a leading `#`. */
  lemma FourBitHexChannelsBytes(h: seq<byte>)
    ensures FourBitHexChannels(h).Some? ==>
      forall i | 0 <= i < |h| :: IsHexByte(h[i]) || (i == 0 && h[i] == HASH)
  {
    FourBitHexChannelsSpec(h);
    var e := StripHash(h);
    forall i | 0 <= i < |h| && FourBitHexChannels(h).Some?
      ensures IsHexByte(h[i]) || (i == 0 && h[i] == HASH)
    {
      if |h| > 0 && h[0] == HASH {
        if i > 0 { assert h[i] == e[i - 1]; }
      } else {
        assert h[i] == e[i];
      }
    }
  }

  // ---------------------------------------------------------------------------
  // The same statement on the input string: the hexadecimal notation of
  // section 5.2 of CSS Color Module Level 4, digits in either case.

  predicate IsHexChar(c: char) {
    ('0' <= c <= '9') || ('A' <= c <= 'F') || ('a' <= c <= 'f')
  }

  function NibbleValue(c: char): (n: nat)
    requires IsHexChar(c)
    ensures n < 16
  {
    if '0' <= c <= '9' then c as int - '0' as int
    else if 'A' <= c <= 'F' then c as int - 'A' as int + 10
    else c as int - 'a' as int + 10
  }

  function StripHashChar(d: string): string {
    if |d| > 0 && d[0] == '#' then d[1..] else d
  }

  /** `RGB`, `RGBA`, `RRGGBB` or `RRGGBBAA`. */
  predicate IsHexNotation(e: string) {
    IsNotationLength(|e|) && forall i | 0 <= i < |e| :: IsHexChar(e[i])
  }

  /** A one-digit channel `d` means `dd`, that is 17 times its value. */
  function ShortChannel(e: string, k: nat): byte
    requires IsHexNotation(e) && k < |e|
  {
    (17 * NibbleValue(e[k])) as byte
  }

  /** A two-digit channel is a hexadecimal number, high digit first. */
  function LongChannel(e: string, k: nat): byte
    requires IsHexNotation(e) && 2 * k + 1 < |e|
  {
    (16 * NibbleValue(e[2 * k]) + NibbleValue(e[2 * k + 1])) as byte
  }

  /** The colour a hex notation denotes; without alpha it is opaque. */
  function HexNotationColor(e: string): Srgba8
    requires IsHexNotation(e)
  {
    if |e| == 3 then Srgba8(ShortChannel(e, 0), ShortChannel(e, 1), ShortChannel(e, 2), 255)
    else if |e| == 4 then Srgba8(ShortChannel(e, 0), ShortChannel(e, 1), ShortChannel(e, 2), ShortChannel(e, 3))
    else if |e| == 6 then Srgba8(LongChannel(e, 0), LongChannel(e, 1), LongChannel(e, 2), 255)
    else Srgba8(LongChannel(e, 0), LongChannel(e, 1), LongChannel(e, 2), LongChannel(e, 3))
  }

  lemma HexByteChar(b: byte, c: char)
    requires b as int == c as int
    ensures IsHexByte(b) <==> IsHexChar(c)
    ensures IsHexChar(c) ==> HexFromAsciiByte(b).value as int == NibbleValue(c)
  {
  }

  /** The nibble at position `j` of the eight-digit form, read off the string. */
  function WidenedNibble(e: string, j: nat): nat
    requires IsHexNotation(e) && j < 8
  {
    if |e| <= 4 then (if j / 2 < |e| then NibbleValue(e[j / 2]) else 15)
    else (if j < |e| then NibbleValue(e[j]) else 15)
  }

  lemma NibblesOfAscii(E: seq<byte>, e: string)
    requires |E| == |e| && forall i | 0 <= i < |e| :: E[i] as int == e[i] as int
    ensures IsHexDigits(E) <==> IsHexNotation(e)
    ensures IsHexNotation(e) ==> forall j | 0 <= j < 8 :: Nibbles(E)[j] as int == WidenedNibble(e, j)
  {
    forall i | 0 <= i < |e|
      ensures IsHexByte(E[i]) <==> IsHexChar(e[i])
    {
      HexByteChar(E[i], e[i]);
    }
    if IsHexNotation(e) {
      forall j | 0 <= j < 8
        ensures Nibbles(E)[j] as int == WidenedNibble(e, j)
      {
        var idx := if |e| <= 4 then j / 2 else j;
        if idx < |e| {
          HexByteChar(E[idx], e[idx]);
        }
      }
    }
  }

  /** Channel `k` of the colour a notation denotes; a missing alpha is 255. */
  function NotationChannel(e: string, k: nat): byte
    requires IsHexNotation(e) && k < 4
  {
    if |e| <= 4 then (if k < |e| then ShortChannel(e, k) else 255)
    else (if 2 * k + 1 < |e| then LongChannel(e, k) else 255)
  }

  lemma NotationChannels(e: string)
    requires IsHexNotation(e)
    ensures HexNotationColor(e) ==
      Srgba8(NotationChannel(e, 0), NotationChannel(e, 1), NotationChannel(e, 2), NotationChannel(e, 3))
  {
  }

  /** Packing the widened nibble pair of channel `k` gives that channel. */
  lemma PackWidened(ns: seq<byte>, e: string, k: nat)
    requires IsHexNotation(e) && k < 4 && |ns| == 8
    requires ns[2 * k] as int == WidenedNibble(e, 2 * k)
    requires ns[2 * k + 1] as int == WidenedNibble(e, 2 * k + 1)
    ensures Pack(ns[2 * k], ns[2 * k + 1]) == NotationChannel(e, k)
  {
    var hi, lo := ns[2 * k], ns[2 * k + 1];
    PackNibbles(hi, lo);
    assert (2 * k) / 2 == k && (2 * k + 1) / 2 == k;
    if |e| <= 4 {
      var v := if k < |e| then NibbleValue(e[k]) else 15;
      assert hi as int == v && lo as int == v;
      assert Pack(hi, lo) as int == 17 * v;
    } else if 2 * k + 1 < |e| {
      assert hi as int == NibbleValue(e[2 * k]) && lo as int == NibbleValue(e[2 * k + 1]);
    } else {
      assert hi as int == 15 && lo as int == 15;
    }
  }

  lemma ColorOfAscii(E: seq<byte>, e: string)
    requires |E| == |e| && forall i | 0 <= i < |e| :: E[i] as int == e[i] as int
    requires IsHexNotation(e)
    ensures IsHexDigits(E)
    ensures ColorFrom4BitHex(Nibbles(E)) == HexNotationColor(e)
  {
    NibblesOfAscii(E, e);
    var ns := Nibbles(E);
    PackWidened(ns, e, 0);
    PackWidened(ns, e, 1);
    PackWidened(ns, e, 2);
    PackWidened(ns, e, 3);
    NotationChannels(e);
  }

  lemma ParseHexDigitsAscii(d: string)
    requires AllAscii(d)
    ensures var e := StripHashChar(d);
      ParseHexDigits(d) == if IsHexNotation(e) then Some(HexNotationColor(e)) else None
  {
    var h := Utf8(d);
    var e := StripHashChar(d);
    FourBitHexChannelsSpec(h);
    Utf8Ascii(d);
    var E := StripHash(h);
    assert |E| == |e| && forall i | 0 <= i < |e| :: E[i] as int == e[i] as int by {
      if |d| > 0 && d[0] == '#' {
        assert h[0] == HASH;
        assert forall i | 0 <= i < |e| :: E[i] == h[i + 1] && e[i] == d[i + 1];
      } else {
        assert |h| > 0 ==> h[0] != HASH;
      }
    }
    NibblesOfAscii(E, e);
    if IsHexNotation(e) {
      ColorOfAscii(E, e);
    }
  }

  lemma ParseHexDigitsNonAscii(d: string, k: nat)
    requires k < |d| && !IsAscii(d[k])
    ensures ParseHexDigits(d).None?
    ensures !IsHexNotation(StripHashChar(d))
  {
    var h := Utf8(d);
    var e := StripHashChar(d);
    Utf8NonAscii(d, k);
    FourBitHexChannelsBytes(h);
    var j :| 0 <= j < |h| && h[j] >= 0x80;
    assert !IsHexByte(h[j]) && h[j] != HASH;
    if |d| > 0 && d[0] == '#' {
      assert e[k - 1] == d[k];
    } else {
      assert e[k] == d[k];
    }
  }

  /** The `#` branch accepts exactly a CSS hex notation, itself optionally
      behind a second `#`, and yields the colour it denotes; non-ASCII text is
      rejected. */
  lemma ParseHexDigitsSpec(d: string)
    ensures var e := StripHashChar(d);
      ParseHexDigits(d) == if IsHexNotation(e) then Some(HexNotationColor(e)) else None
  {
    if AllAscii(d) {
      ParseHexDigitsAscii(d);
    } else {
      var k :| 0 <= k < |d| && !IsAscii(d[k]);
      ParseHexDigitsNonAscii(d, k);
    }
  }

  /** After a `#`, `parse_color` accepts exactly a CSS hex notation (itself
      optionally behind a second `#`) and yields the colour it denotes. */
  lemma ParseHexNotation(s: string)
    requires |Trim(s)| > 0 && Trim(s)[0] == '#'
    ensures var e := StripHashChar(Trim(s)[1..]);
      ParseColor(s) == if IsHexNotation(e) then Some(HexNotationColor(e)) else None
  {
    ParseHexDigitsSpec(Trim(s)[1..]);
  }

  // ---------------------------------------------------------------------------
  // Consequences for `parse_color` as a whole.

  /** Whitespace around the text never changes the result. */
  lemma ParseIgnoresSurroundingWhitespace(pre: string, s: string, post: string)
    requires AllWhitespace(pre) && AllWhitespace(post)
    ensures ParseColor(pre + s + post) == ParseColor(s)
  {
    TrimIgnoresSurroundingWhitespace(pre, s, post);
  }

  /** Empty or blank text is not a colour. */
  lemma ParseBlank(s: string)
    requires AllWhitespace(s)
    ensures ParseColor(s).None?
  {
    TrimIgnoresSurroundingWhitespace(s, [], []);
    assert s + [] + [] == s;
  }

  /** Everything accepted is, once trimmed, a `#` and a hex notation, or a
      name spelt in lower-case ASCII letters only. */
  lemma ParseColorAccepts(s: string)
    ensures ParseColor(s).Some? ==>
      var t := Trim(s);
      || (|t| > 0 && t[0] == '#' && IsHexNotation(StripHashChar(t[1..])))
      || (NamedColors.IsLowerName(t) && ParseColor(s) == NamedColors.Lookup(t))
  {
    var t := Trim(s);
    if |t| > 0 && t[0] == '#' {
      ParseHexNotation(s);
    } else {
      NamedColors.NamesAreLowercase(t);
    }
  }

  /** The lower-case digit for a nibble. */
  function LowerHexChar(n: nat): (c: char)
    requires n < 16
    ensures IsHexChar(c) && NibbleValue(c) == n
  {
    if n < 10 then ('0' as int + n) as char else ('a' as int + n - 10) as char
  }

  /** Two lower-case digits, high nibble first. */
  function ByteHex(b: byte): (s: string)
    ensures |s| == 2 && IsHexChar(s[0]) && IsHexChar(s[1])
    ensures 16 * NibbleValue(s[0]) + NibbleValue(s[1]) == b as int
  {
    [LowerHexChar(b as int / 16), LowerHexChar(b as int % 16)]
  }

  /** `#rrggbbaa`. */
  function FormatHex(c: Srgba8): (s: string)
    ensures |s| == 9 && s[0] == '#'
  {
    "#" + ByteHex(c.r) + ByteHex(c.g) + ByteHex(c.b) + ByteHex(c.a)
  }

  /** The digits of `#rrggbbaa` are an eight-digit notation for the colour. */
  lemma FormatHexDigits(c: Srgba8)
    ensures var e := FormatHex(c)[1..];
      IsHexNotation(e) && e[0] != '#' && HexNotationColor(e) == c
  {
    var e := FormatHex(c)[1..];
    var r, g, b, a := ByteHex(c.r), ByteHex(c.g), ByteHex(c.b), ByteHex(c.a);
    assert e == r + g + b + a;
    assert e[0] == r[0] && e[1] == r[1] && e[2] == g[0] && e[3] == g[1];
    assert e[4] == b[0] && e[5] == b[1] && e[6] == a[0] && e[7] == a[1];
  }

  /** Every byte colour is reachable: its `#rrggbbaa` spelling parses back to it. */
  lemma FormatHexRoundTrip(c: Srgba8)
    ensures ParseColor(FormatHex(c)) == Some(c)
  {
    var s := FormatHex(c);
    FormatHexDigits(c);
    TrimNoop(s);
    ParseHexNotation(s);
  }

  /** Text that needs no trimming and has a single `#`: the hex path on what follows. */
  lemma HexBody(s: string)
    requires |s| > 1 && s[0] == '#' && s[1] != '#' && !IsWhitespace(s[|s| - 1])
    ensures ParseColor(s) == if IsHexNotation(s[1..]) then Some(HexNotationColor(s[1..])) else None
  {
    TrimNoop(s);
    ParseHexNotation(s);
  }

  /** `#` followed by a hex notation, with nothing around it, parses to the
      colour the notation denotes. */
  lemma HexNotationBody(s: string)
    requires |s| > 1 && s[0] == '#' && IsHexNotation(s[1..])
    ensures ParseColor(s) == Some(HexNotationColor(s[1..]))
  {
    assert s[1] == s[1..][0] && s[|s| - 1] == s[1..][|s| - 2];
    HexBody(s);
  }

  /** In the reference notation, a short form denotes the same colour as its
      long form with every digit doubled. */
  lemma ShortNotationDoubled(e: string, E: string)
    requires |e| == 3 || |e| == 4
    requires |E| == 2 * |e|
    requires forall k | 0 <= k < |e| :: IsHexChar(e[k]) && E[2 * k] == e[k] && E[2 * k + 1] == e[k]
    ensures IsHexNotation(e) && IsHexNotation(E)
    ensures HexNotationColor(e) == HexNotationColor(E)
  {
    assert forall j | 0 <= j < |E| :: E[j] == e[j / 2] by {
      forall j | 0 <= j < |E|
        ensures E[j] == e[j / 2]
      {
        var k := j / 2;
        assert j == 2 * k || j == 2 * k + 1;
      }
    }
    forall k | 0 <= k < |e|
      ensures ShortChannel(e, k) == LongChannel(E, k)
    {
      assert E[2 * k] == e[k] && E[2 * k + 1] == e[k];
    }
  }

  /** In the reference notation, six digits denote the colour of the same
      digits followed by `ff`. */
  lemma MissingAlphaNotation(e: string, E: string)
    requires |e| == 6 && |E| == 8 && E[..6] == e && E[6] == 'f' && E[7] == 'f'
    requires forall k | 0 <= k < 6 :: IsHexChar(e[k])
    ensures IsHexNotation(e) && IsHexNotation(E)
    ensures HexNotationColor(e) == HexNotationColor(E)
    ensures HexNotationColor(e).a == 255
  {
    assert forall k | 0 <= k < 6 :: E[k] == e[k];
  }

  /** In the reference notation, only digit values matter, not their case. */
  lemma NotationCaseIgnored(e: string, E: string)
    requires IsHexNotation(e) && |E| == |e|
    requires forall k | 0 <= k < |e| :: IsHexChar(E[k]) && NibbleValue(E[k]) == NibbleValue(e[k])
    ensures IsHexNotation(E)
    ensures HexNotationColor(e) == HexNotationColor(E)
  {
  }

  /** A short form parses as its long form, in which every digit is doubled
      (and `#rgb` as `#rrggbb`): a one-digit channel `d` means `dd`. */
  lemma ShortFormDoubled(short: string, long: string)
    requires |short| == 4 || |short| == 5
    requires |long| == 2 * |short| - 1
    requires short[0] == '#' && long[0] == '#'
    requires forall k | 0 <= k < |short| - 1 ::
      IsHexChar(short[k + 1]) && long[2 * k + 1] == short[k + 1] && long[2 * k + 2] == short[k + 1]
    ensures ParseColor(short).Some?
    ensures ParseColor(short) == ParseColor(long)
  {
    var e, E := short[1..], long[1..];
    assert forall k | 0 <= k < |e| :: IsHexChar(e[k]) && E[2 * k] == e[k] && E[2 * k + 1] == e[k] by {
      forall k | 0 <= k < |e|
        ensures IsHexChar(e[k]) && E[2 * k] == e[k] && E[2 * k + 1] == e[k]
      {
        assert e[k] == short[k + 1] && E[2 * k] == long[2 * k + 1] && E[2 * k + 1] == long[2 * k + 2];
      }
    }
    ShortNotationDoubled(e, E);
    HexBody(short);
    HexBody(long);
  }

  /** Without alpha digits the colour is opaque: `#rrggbb` is `#rrggbbff`. */
  lemma MissingAlphaIsOpaque(rgb: string, rgba: string)
    requires |rgb| == 7 && |rgba| == 9 && rgba[..7] == rgb
    requires rgb[0] == '#' && rgba[7] == 'f' && rgba[8] == 'f'
    requires forall k | 1 <= k < 7 :: IsHexChar(rgb[k])
    ensures ParseColor(rgb).Some? && ParseColor(rgb).value.a == 255
    ensures ParseColor(rgb) == ParseColor(rgba)
  {
    var e, E := rgb[1..], rgba[1..];
    assert forall k | 0 <= k < 6 :: E[k] == rgba[k + 1] == rgb[k + 1] == e[k];
    assert E[..6] == e;
    MissingAlphaNotation(e, E);
    HexBody(rgb);
    HexBody(rgba);
  }

  /** Digits are case-insensitive: texts that spell the same digit values,
      in whatever case, parse to the same colour. */
  lemma DigitCaseIgnored(s: string, t: string)
    requires |s| == |t| && |s| > 1 && s[0] == '#' && t[0] == '#'
    requires IsHexNotation(s[1..])
    requires forall k | 1 <= k < |s| :: IsHexChar(t[k]) && NibbleValue(t[k]) == NibbleValue(s[k])
    ensures ParseColor(s) == ParseColor(t)
  {
    var e, E := s[1..], t[1..];
    NotationCaseIgnored(e, E);
    HexNotationBody(s);
    HexNotationBody(t);
  }

  /** Text without `#` that is not a lower-case name is rejected. */
  lemma ParseRejectsNonName(s: string)
    requires |Trim(s)| > 0 && Trim(s)[0] != '#' && !NamedColors.IsLowerName(Trim(s))
    ensures ParseColor(s).None?
  {
    NamedColors.NamesAreLowercase(Trim(s));
  }

  /** Hex digits need the `#`: text with a decimal digit and no `#` in front is rejected. */
  lemma ParseRejectsBareDigits(s: string, k: nat)
    requires k < |Trim(s)| && '0' <= Trim(s)[k] <= '9' && Trim(s)[0] != '#'
    ensures ParseColor(s).None?
  {
    ParseRejectsNonName(s);
  }

  /** Hex digits need the `#` even when they are all letters: text without `#`
      made of hex digits only, such as `ffffff` or `abc`, is rejected. */
  lemma ParseRejectsBareHex(s: string)
    requires |Trim(s)| > 0 && Trim(s)[0] != '#'
    requires forall k | 0 <= k < |Trim(s)| :: IsHexChar(Trim(s)[k])
    ensures ParseColor(s).None?
  {
    var t := Trim(s);
    if NamedColors.IsLowerName(t) {
      LowerHexDigitsAreLetters(t);
    }
  }

  /** Lower-case letters that are hex digits lie between `a` and `f`. */
  lemma LowerHexDigitsAreLetters(t: string)
    requires NamedColors.IsLowerName(t)
    requires forall k | 0 <= k < |t| :: IsHexChar(t[k])
    ensures NamedColors.IsHexLetterWord(t)
  {
    forall k | 0 <= k < |t|
      ensures 'a' <= t[k] <= 'f'
    {
      assert IsHexChar(t[k]) && 'a' <= t[k] <= 'z';
    }
  }

  /** Names are case-sensitive: text without `#` holding an upper-case letter is rejected. */
  lemma ParseRejectsUpperCase(s: string, k: nat)
    requires k < |Trim(s)| && 'A' <= Trim(s)[k] <= 'Z' && Trim(s)[0] != '#'
    ensures ParseColor(s).None?
  {
    ParseRejectsNonName(s);
  }

  /** `F00` denotes opaque red. */
  lemma RedNotation()
    ensures IsHexNotation("F00") && HexNotationColor("F00") == Srgba8(255, 0, 0, 255)
  {
  }

  /** `#F00` is opaque red. */
  lemma ParseShortRed()
    ensures ParseColor("#F00") == Some(Srgba8(255, 0, 0, 255))
  {
    var s := "#F00";
    assert s[1..] == "F00";
    RedNotation();
    HexBody(s);
  }

  /** `f00` denotes opaque red. */
  lemma LowerRedNotation()
    ensures IsHexNotation("f00") && HexNotationColor("f00") == Srgba8(255, 0, 0, 255)
  {
  }

  /** Text that needs no trimming and starts with two `#`: the hex path on
      what follows them. */
  lemma DoubleHashBody(s: string)
    requires |s| > 2 && s[0] == '#' && s[1] == '#' && !IsWhitespace(s[|s| - 1])
    ensures ParseColor(s) == if IsHexNotation(s[2..]) then Some(HexNotationColor(s[2..])) else None
  {
    TrimNoop(s);
    assert StripHashChar(s[1..]) == s[2..];
    ParseHexNotation(s);
  }

  /** A second `#` is skipped by `get_4bit_hex_channels`, so `##f00` is red too. */
  lemma ParseDoubleHash()
    ensures ParseColor("##f00") == Some(Srgba8(255, 0, 0, 255))
  {
    DoubleHashBody("##f00");
    assert "##f00"[2..] == "f00";
    LowerRedNotation();
  }

  /** Five digits are no notation. */
  lemma ParseRejectsFiveDigits()
    ensures ParseColor("#ff000").None?
  {
    HexBody("#ff000");
  }

  /** A name, with nothing to trim. */
  lemma NameBody(s: string)
    requires |s| > 0 && s[0] != '#' && !IsWhitespace(s[0]) && !IsWhitespace(s[|s| - 1])
    ensures ParseColor(s) == NamedColors.Lookup(s)
  {
    TrimNoop(s);
  }

  /** `red` is `Color::RED`. */
  lemma ParseRed()
    ensures ParseColor("red") == Some(Srgba8(255, 0, 0, 255))
  {
    NameBody("red");
    NamedColors.LookupRed();
  }

  /** Names are found after trimming. */
  lemma ParsePaddedRed()
    ensures ParseColor(" red\n") == Some(Srgba8(255, 0, 0, 255))
  {
    var pre, name, post := " ", "red", "\n";
    assert pre + name + post == " red\n";
    assert AllWhitespace(pre) && AllWhitespace(post);
    ParseIgnoresSurroundingWhitespace(pre, name, post);
    ParseRed();
  }

  /** `transparent` is `Color::TRANSPARENT`. */
  lemma ParseTransparent(toLinear: byte -> real)
    requires toLinear(0) == 0.0
    ensures Parse("transparent", toLinear) == Some(Transparent)
  {
    NameBody("transparent");
    NamedColors.LookupTransparent();
    TransparentIsRgba8Zero(toLinear);
  }
}
