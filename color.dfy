/**
 * Colour decoding of the legacy renderer (src/egl_window.c, `parse_color`):
 * three two-character chunks of a colour string, each read by `strtol` in
 * base 16 (C locale) and scaled to a channel in units of 1/255.
 */
module Color {

  predicate IsSpace(c: char) {
    c == ' ' || c == '\t' || c == '\n' || c as int == 0x0B || c as int == 0x0C || c == '\r'
  }

  predicate IsHexDigit(c: char) {
    ('0' <= c <= '9') || ('a' <= c <= 'f') || ('A' <= c <= 'F')
  }

  function HexDigitValue(c: char): (v: nat)
    requires IsHexDigit(c)
    ensures v < 16
  {
    if '0' <= c <= '9' then c as nat - '0' as nat
    else if 'a' <= c <= 'f' then c as nat - 'a' as nat + 10
    else c as nat - 'A' as nat + 10
  }

  /** The digit `HexDigitValue` decodes back to v, in lower case. */
  function HexDigit(v: nat): (c: char)
    requires v < 16
    ensures IsHexDigit(c) && HexDigitValue(c) == v
  {
    if v < 10 then ('0' as nat + v) as char else ('a' as nat + v - 10) as char
  }

  /** Number of leading hexadecimal digits of s. */
  function HexRun(s: seq<char>): (n: nat)
    ensures n <= |s|
    ensures forall k :: 0 <= k < n ==> IsHexDigit(s[k])
    ensures n < |s| ==> !IsHexDigit(s[n])
  {
    if |s| == 0 || !IsHexDigit(s[0]) then 0 else 1 + HexRun(s[1..])
  }

  /** Value of a string of hexadecimal digits, most significant first. */
  function DigitsValue(ds: seq<char>): nat
    requires forall k :: 0 <= k < |ds| ==> IsHexDigit(ds[k])
  {
    if |ds| == 0 then 0 else 16 * DigitsValue(ds[..|ds| - 1]) + HexDigitValue(ds[|ds| - 1])
  }

  function SkipSpace(s: seq<char>): (t: seq<char>)
    ensures |t| <= |s| && t == s[|s| - |t|..]
    ensures |t| > 0 ==> !IsSpace(t[0])
  {
    if |s| > 0 && IsSpace(s[0]) then SkipSpace(s[1..]) else s
  }

  /** `strtol(s, NULL, 16)` in the C locale: leading white space, an optional
      sign, an optional `0x`/`0X` prefix, then the longest run of hex digits;
      0 when there is no digit. (Skipping a `0x` that no digit follows gives
      the same value as reading its `0`.) */
  function Strtol16(s: seq<char>): int {
    var t := SkipSpace(s);
    var negative := |t| > 0 && t[0] == '-';
    var u := if |t| > 0 && (t[0] == '-' || t[0] == '+') then t[1..] else t;
    var v := if |u| >= 2 && u[0] == '0' && (u[1] == 'x' || u[1] == 'X') then u[2..] else u;
    var magnitude: int := DigitsValue(v[..HexRun(v)]);
    if negative then -magnitude else magnitude
  }

  /** Two hexadecimal digits read as one byte, high nibble first. */
  lemma TwoHexDigits(hi: char, lo: char)
    requires IsHexDigit(hi) && IsHexDigit(lo)
    ensures Strtol16([hi, lo]) == 16 * HexDigitValue(hi) + HexDigitValue(lo)
    ensures 0 <= Strtol16([hi, lo]) <= 255
  {
    var s := [hi, lo];
    assert !IsSpace(hi) && !IsSpace(lo);
    assert SkipSpace(s) == s;
    assert HexRun(s[1..]) == 1;
    assert HexRun(s) == 2;
    assert s[..2] == s;
    assert s[..1] == [hi];
    assert DigitsValue([hi]) == HexDigitValue(hi) by {
      assert [hi][..0] == [];
    }
  }

  /** The colour parse result: status and the three channels. */
  datatype Rgb = Rgb(status: int, r: real, g: real, b: real)

  function Channel(color: seq<char>, k: nat): real
    requires 2 * k + 2 <= |color|
  {
    Strtol16(color[2 * k..2 * k + 2]) as real / 255.0
  }

  /** `parse_color`: channel k is chunk `color[2k..2k+2]` read in base 16 and
      divided by 255; the status is always 1. The six characters read are
      what the function demands of its argument. */
  function ParseColor(color: seq<char>): (c: Rgb)
    requires |color| >= 6
    ensures c.status == 1
  {
    Rgb(1, Channel(color, 0), Channel(color, 1), Channel(color, 2))
  }

  /** Every character is a hexadecimal digit. */
  predicate AllHex(color: seq<char>) {
    forall k :: 0 <= k < |color| ==> IsHexDigit(color[k])
  }

  /** For six hex digits, every channel is the byte its two digits spell,
      over 255, and so lies in [0, 1]. */
  lemma ParseHexColor(color: seq<char>)
    requires |color| == 6 && AllHex(color)
    ensures var c := ParseColor(color);
            && c.status == 1
            && c.r == (16 * HexDigitValue(color[0]) + HexDigitValue(color[1])) as real / 255.0
            && c.g == (16 * HexDigitValue(color[2]) + HexDigitValue(color[3])) as real / 255.0
            && c.b == (16 * HexDigitValue(color[4]) + HexDigitValue(color[5])) as real / 255.0
            && 0.0 <= c.r <= 1.0 && 0.0 <= c.g <= 1.0 && 0.0 <= c.b <= 1.0
  {
    assert color[0..2] == [color[0], color[1]];
    assert color[2..4] == [color[2], color[3]];
    assert color[4..6] == [color[4], color[5]];
    TwoHexDigits(color[0], color[1]);
    TwoHexDigits(color[2], color[3]);
    TwoHexDigits(color[4], color[5]);
  }

  /** A byte as two lower-case hex digits. */
  function HexByte(v: nat): (s: seq<char>)
    requires v < 256
    ensures |s| == 2 && IsHexDigit(s[0]) && IsHexDigit(s[1])
  {
    [HexDigit(v / 16), HexDigit(v % 16)]
  }

  /** The `rrggbb` spelling of a colour, as the renderer's colour literals. */
  function FormatColor(r: nat, g: nat, b: nat): (s: seq<char>)
    requires r < 256 && g < 256 && b < 256
    ensures |s| == 6 && AllHex(s)
  {
    HexByte(r) + HexByte(g) + HexByte(b)
  }

  /** `strtol` in base 16 reads a byte's two digits back as the byte. */
  lemma HexByteRoundTrip(v: nat)
    requires v < 256
    ensures Strtol16(HexByte(v)) == v
  {
    var s := HexByte(v);
    TwoHexDigits(s[0], s[1]);
    assert s == [s[0], s[1]];
  }

  /** Decoding inverts the hex spelling: every byte triple round-trips. */
  lemma ParseFormatRoundTrip(r: nat, g: nat, b: nat)
    requires r < 256 && g < 256 && b < 256
    ensures ParseColor(FormatColor(r, g, b)) == Rgb(1, r as real / 255.0, g as real / 255.0, b as real / 255.0)
  {
    var s := FormatColor(r, g, b);
    ConcatChunks(HexByte(r), HexByte(g), HexByte(b));
    HexByteRoundTrip(r);
    HexByteRoundTrip(g);
    HexByteRoundTrip(b);
    ChunkChannel(s, 0, HexByte(r), r);
    ChunkChannel(s, 1, HexByte(g), g);
    ChunkChannel(s, 2, HexByte(b), b);
    ParseOfChannels(s, r, g, b);
  }

  lemma ConcatChunks(hr: seq<char>, hg: seq<char>, hb: seq<char>)
    requires |hr| == 2 && |hg| == 2 && |hb| == 2
    ensures (hr + hg + hb)[0..2] == hr && (hr + hg + hb)[2..4] == hg && (hr + hg + hb)[4..6] == hb
  {
  }

  /** A chunk that reads as v gives the channel v / 255. */
  lemma ChunkChannel(s: seq<char>, k: nat, chunk: seq<char>, v: int)
    requires 2 * k + 2 <= |s| && s[2 * k..2 * k + 2] == chunk && Strtol16(chunk) == v
    ensures Channel(s, k) == v as real / 255.0
  {
  }

  lemma ParseOfChannels(s: seq<char>, r: int, g: int, b: int)
    requires |s| == 6
    requires Channel(s, 0) == r as real / 255.0 && Channel(s, 1) == g as real / 255.0 && Channel(s, 2) == b as real / 255.0
    ensures ParseColor(s) == Rgb(1, r as real / 255.0, g as real / 255.0, b as real / 255.0)
  {
  }
}
