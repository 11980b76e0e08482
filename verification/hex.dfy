/** The two colour codecs of the pipeline: `toHex` (svg2json) prints a colour as
    six upper-case hex digits and `hexToRGB` (video2color/tool.go) reads such a
    string back, tolerating a leading '#'. */
module Hex {
  import opened Wrappers
  import opened Types

  const UpperHexDigits: string := "0123456789ABCDEF"

  /** A base-16 digit as `strconv.ParseUint` reads it: 0-9, a-f or A-F. */
  function HexDigitValue(c: char): (d: Option<nat>)
    ensures d.Some? ==> d.value < 16
  {
    if '0' <= c <= '9' then Some(c as int - '0' as int)
    else if 'a' <= c <= 'f' then Some(c as int - 'a' as int + 10)
    else if 'A' <= c <= 'F' then Some(c as int - 'A' as int + 10)
    else None
  }

  /** `strconv.ParseUint(pair, 16, 8)` with its error discarded. Two hex digits
      never exceed 255, so the only failure is a syntax error, which yields 0. */
  function ParseHexByte(pair: string): int
    requires |pair| == 2
  {
    match (HexDigitValue(pair[0]), HexDigitValue(pair[1]))
    case (Some(hi), Some(lo)) => 16 * hi + lo
    case _ => 0
  }

  /** `strings.TrimPrefix(s, "#")`: removes at most one leading '#'. */
  function TrimHash(s: string): string
  {
    if |s| > 0 && s[0] == '#' then s[1..] else s
  }

  /** `v` is what `strconv.ParseUint` makes of the digits `hi` and `lo` when
      its error is discarded: their base-16 value when both are hex digits, in
      either case, and 0 otherwise. */
  predicate ReadsAsByte(hi: char, lo: char, v: int)
  {
    && (HexDigitValue(hi).Some? && HexDigitValue(lo).Some? ==> v == 16 * HexDigitValue(hi).value + HexDigitValue(lo).value)
    && (HexDigitValue(hi).None? || HexDigitValue(lo).None? ==> v == 0)
  }

  /** `hexToRGB`: the three channels encoded by a six-digit hex colour. After
      one leading '#' is dropped, a string of any other length is black, and
      otherwise each pair of characters is read on its own, a pair with a
      character that is not a hex digit giving 0. */
  function HexToRgb(hex: string): (rgb: (int, int, int))
    ensures 0 <= rgb.0 < 256 && 0 <= rgb.1 < 256 && 0 <= rgb.2 < 256
    ensures |TrimHash(hex)| != 6 ==> rgb == (0, 0, 0)
    ensures var h := TrimHash(hex);
      |h| == 6 ==> ReadsAsByte(h[0], h[1], rgb.0) && ReadsAsByte(h[2], h[3], rgb.1) && ReadsAsByte(h[4], h[5], rgb.2)
  {
    var h := TrimHash(hex);
    if |h| != 6 then (0, 0, 0)
    else (ParseHexByte(h[0..2]), ParseHexByte(h[2..4]), ParseHexByte(h[4..6]))
  }

  /** ASCII lower-casing, character by character. */
  function ToLower(s: string): (t: string)
    ensures |t| == |s|
  {
    seq(|s|, i requires 0 <= i < |s| => if 'A' <= s[i] <= 'Z' then (s[i] as int + 32) as char else s[i])
  }

  lemma HexDigitValueOfLower(c: char)
    ensures HexDigitValue(if 'A' <= c <= 'Z' then (c as int + 32) as char else c) == HexDigitValue(c)
  {
  }

  /** Hex digits are read regardless of case: lower-casing a colour string
      does not change the colour. */
  lemma HexToRgbIgnoresCase(hex: string)
    ensures HexToRgb(ToLower(hex)) == HexToRgb(hex)
  {
    var h, l := TrimHash(hex), TrimHash(ToLower(hex));
    assert |l| == |h|;
    if |h| == 6 {
      forall i | 0 <= i < 6
        ensures HexDigitValue(l[i]) == HexDigitValue(h[i])
      {
        var j := if |hex| > 0 && hex[0] == '#' then i + 1 else i;
        assert h[i] == hex[j] && l[i] == ToLower(hex)[j];
        HexDigitValueOfLower(hex[j]);
      }
    }
  }

  /** Worked cases: lower-case digits, a pair with a character that is not a
      hex digit, a short string, and a second '#' that is not dropped but read
      as a bad digit. */
  lemma HexToRgbExamples()
    ensures HexToRgb("#ff00a0") == (255, 0, 160)
    ensures HexToRgb("#fg00a0") == (0, 0, 160)
    ensures HexToRgb("#fff") == (0, 0, 0)
    ensures HexToRgb("##ff00a") == (0, 240, 10)
  {
  }

  /** The two upper-case hex digits of a channel, as `%02X` prints it. */
  function HexByte(v: Channel): string
  {
    [UpperHexDigits[v / 16], UpperHexDigits[v % 16]]
  }

  /** `toHex`: `%02X%02X%02X` of red, green and blue; alpha is not printed. */
  function ToHex(c: Rgba): (s: string)
    ensures |s| == 6
    ensures forall i | 0 <= i < |s| :: s[i] in UpperHexDigits
  {
    HexByte(c.r) + HexByte(c.g) + HexByte(c.b)
  }

  lemma UpperHexDigitValue(d: nat)
    requires d < 16
    ensures HexDigitValue(UpperHexDigits[d]) == Some(d)
  {
  }

  lemma ParseHexByteOfHexByte(v: Channel)
    ensures ParseHexByte(HexByte(v)) == v
  {
    UpperHexDigitValue(v / 16);
    UpperHexDigitValue(v % 16);
  }

  /** Reading back what `toHex` printed recovers red, green and blue, with or
      without a leading '#'. */
  lemma HexToRgbOfToHex(c: Rgba)
    ensures HexToRgb(ToHex(c)) == (c.r, c.g, c.b)
    ensures HexToRgb("#" + ToHex(c)) == (c.r, c.g, c.b)
  {
    var s := ToHex(c);
    assert s[0..2] == HexByte(c.r) && s[2..4] == HexByte(c.g) && s[4..6] == HexByte(c.b);
    assert TrimHash("#" + s) == s;
    ParseHexByteOfHexByte(c.r);
    ParseHexByteOfHexByte(c.g);
    ParseHexByteOfHexByte(c.b);
  }

  lemma UpperDigitRoundTrip(c: char)
    requires c in UpperHexDigits
    ensures HexDigitValue(c).Some? && UpperHexDigits[HexDigitValue(c).value] == c
  {
    var i :| 0 <= i < 16 && UpperHexDigits[i] == c;
    UpperHexDigitValue(i);
  }

  lemma HexByteOfUpperDigits(pair: string)
    requires |pair| == 2 && pair[0] in UpperHexDigits && pair[1] in UpperHexDigits
    ensures 0 <= ParseHexByte(pair) < 256
    ensures HexByte(ParseHexByte(pair)) == pair
  {
    UpperDigitRoundTrip(pair[0]);
    UpperDigitRoundTrip(pair[1]);
    var hi := HexDigitValue(pair[0]).value;
    var lo := HexDigitValue(pair[1]).value;
    assert ParseHexByte(pair) == 16 * hi + lo;
    assert (16 * hi + lo) / 16 == hi && (16 * hi + lo) % 16 == lo;
  }

  /** Conversely, printing the channels decoded from six upper-case hex digits
      gives the same six digits. */
  lemma ToHexOfHexToRgb(s: string, alpha: Channel)
    requires |s| == 6
    requires forall i | 0 <= i < |s| :: s[i] in UpperHexDigits
    ensures var rgb := HexToRgb(s); ToHex(Rgba(rgb.0, rgb.1, rgb.2, alpha)) == s
  {
    var r, g, b := s[0..2], s[2..4], s[4..6];
    assert r[0] == s[0] && r[1] == s[1] && g[0] == s[2] && g[1] == s[3] && b[0] == s[4] && b[1] == s[5];
    HexByteOfUpperDigits(r);
    HexByteOfUpperDigits(g);
    HexByteOfUpperDigits(b);
    assert HexToRgb(s) == (ParseHexByte(r), ParseHexByte(g), ParseHexByte(b));
    assert s[2..] == g + b;
    assert s == r + s[2..];
  }

  /** `toHex` prints "000000" exactly for a black colour, whatever its alpha. */
  lemma ToHexIsBlack(c: Rgba)
    ensures ToHex(c) == "000000" <==> c.r == 0 && c.g == 0 && c.b == 0
  {
    HexToRgbOfToHex(c);
    if ToHex(c) == "000000" {
      assert ToHex(c)[0..2] == "00";
      assert HexToRgb("000000") == (0, 0, 0);
    }
  }
}
