/** Two tools of the `src/` dashboard's tool panel
    (src/components/dashboard/ToolsPanel.tsx): the colour converter, which
    reads a "#rrggbb" answer with `parseInt(hex.slice(i, j), 16)`, and the
    password generator, a 16-step loop over a 70-character alphabet. The
    prompt answer and the `Math.random()` draws are parameters. */
module ToolsPanel {
  import opened Wrappers
  import opened Text

  // ---- parseInt(s, 16), section 19.2.5 of ECMA-262 --------------------------

  /** A number, or NaN when no digit could be read. */
  datatype Parsed = NaN | Num(value: int)

  /** StrWhiteSpaceChar (section 7.2 of ECMA-262): the white space and line
      terminator code points that `parseInt` skips at the start. */
  predicate IsJsSpace(c: char)
  {
    c == '\t' || c == '\U{000B}' || c == '\U{000C}' || c == ' ' || c == '\U{00A0}' || c == '\U{FEFF}'
    || c == '\n' || c == '\r' || c == '\U{2028}' || c == '\U{2029}'
    || c == '\U{1680}' || ('\U{2000}' <= c <= '\U{200A}') || c == '\U{202F}' || c == '\U{205F}' || c == '\U{3000}'
  }

  function TrimStart(s: string): (t: string)
    ensures |t| <= |s| && t == s[|s| - |t|..]
    ensures forall i :: 0 <= i < |s| - |t| ==> IsJsSpace(s[i])
    ensures t != [] ==> !IsJsSpace(t[0])
  {
    if s != [] && IsJsSpace(s[0]) then TrimStart(s[1..]) else s
  }

  /** Length of the longest prefix made of hexadecimal digits. */
  function HexRun(s: string): (n: nat)
    ensures n <= |s|
    ensures forall i :: 0 <= i < n ==> IsHexDigit(s[i])
    ensures n < |s| ==> !IsHexDigit(s[n])
  {
    if s != [] && IsHexDigit(s[0]) then 1 + HexRun(s[1..]) else 0
  }

  predicate HasHexPrefix(s: string)
  {
    |s| >= 2 && s[0] == '0' && (s[1] == 'x' || s[1] == 'X')
  }

  /** A minus sign right after the leading white space. */
  predicate IsNegative(s: string)
  {
    var t := TrimStart(s);
    |t| > 0 && t[0] == '-'
  }

  /** What is left for the digits once the white space, the sign and a
      "0x"/"0X" prefix are skipped. */
  function DigitsPart(s: string): (w: string)
    ensures |w| <= |s|
  {
    var t := TrimStart(s);
    var u := if |t| > 0 && (t[0] == '-' || t[0] == '+') then t[1..] else t;
    if HasHexPrefix(u) then u[2..] else u
  }

  /** The value of the hexadecimal digits at the start of `w`. */
  function LeadingHexValue(w: string): nat
  {
    HexValue(w[..HexRun(w)])
  }

  /** `parseInt(s, 16)`: the value of the hexadecimal digits that follow the
      white space, sign and prefix, negated after a minus; NaN when there are none. */
  function ParseIntHex(s: string): (p: Parsed)
    ensures p == NaN <==> HexRun(DigitsPart(s)) == 0
    ensures p.Num? && !IsNegative(s) ==> p.value >= 0
    ensures p.Num? && IsNegative(s) ==> p.value <= 0
  {
    var w := DigitsPart(s);
    if HexRun(w) == 0 then NaN
    else
      var v: int := LeadingHexValue(w);
      if IsNegative(s) then Num(-v) else Num(v)
  }

  /** A non-empty string of hexadecimal digits reads as its value. */
  lemma ParseDigits(s: string)
    requires |s| > 0 && forall i :: 0 <= i < |s| ==> IsHexDigit(s[i])
    ensures ParseIntHex(s) == Num(HexValue(s))
  {
    DigitsAreTheirOwnPart(s);
    AllDigitsValue(s);
  }

  lemma DigitsAreTheirOwnPart(s: string)
    requires |s| > 0 && forall i :: 0 <= i < |s| ==> IsHexDigit(s[i])
    ensures DigitsPart(s) == s && !IsNegative(s)
  {
    NoSpaceNoTrim(s);
    assert s[0] != '-' && s[0] != '+';
    assert !HasHexPrefix(s);
  }

  lemma NoSpaceNoTrim(s: string)
    requires |s| > 0 && IsHexDigit(s[0])
    ensures TrimStart(s) == s
  {
  }

  lemma AllDigitsValue(s: string)
    requires |s| > 0 && forall i :: 0 <= i < |s| ==> IsHexDigit(s[i])
    ensures HexRun(s) == |s| && LeadingHexValue(s) == HexValue(s)
  {
    assert s[..|s|] == s;
  }

  /** Nothing to read: the empty string and a lone sign are NaN. */
  lemma NothingIsNaN()
    ensures ParseIntHex("") == NaN && ParseIntHex("-") == NaN && ParseIntHex("0x") == NaN
  {
    assert TrimStart("-") == "-";
    assert DigitsPart("-") == [];
    assert TrimStart("0x") == "0x";
    assert DigitsPart("0x") == [];
  }

  // ---- the colour converter --------------------------------------------------

  /** `s.slice(start, end)` for non-negative bounds: both are clamped to the
      length, and a start past the end gives the empty string. */
  function Slice(s: string, start: nat, end: nat): (r: string)
    ensures |r| <= |s|
    ensures end <= |s| && start <= end ==> r == s[start..end]
    ensures start < |s| < end ==> r == s[start..]
    ensures start >= |s| || end <= start ==> r == []
  {
    var a := if start < |s| then start else |s|;
    var b := if end < |s| then end else |s|;
    if a < b then s[a..b] else []
  }

  datatype Rgb = Rgb(r: Parsed, g: Parsed, b: Parsed)

  /** The colour action: `prompt` may answer null (None) or an empty string,
      and then nothing is converted; otherwise characters 1-2, 3-4 and 5-6
      are each read as a base-16 number. */
  function HexToRgb(answer: Option<string>): (rgb: Option<Rgb>)
    ensures rgb.None? <==> answer.None? || answer.value == ""
    ensures rgb.Some? ==> rgb.value == Rgb(ParseIntHex(Slice(answer.value, 1, 3)),
                                           ParseIntHex(Slice(answer.value, 3, 5)),
                                           ParseIntHex(Slice(answer.value, 5, 7)))
  {
    match answer
    case None => None
    case Some(hex) =>
      if hex == "" then None
      else Some(Rgb(ParseIntHex(Slice(hex, 1, 3)), ParseIntHex(Slice(hex, 3, 5)), ParseIntHex(Slice(hex, 5, 7))))
  }

  /** A "#rrggbb" answer: a leading character and six hexadecimal digits. */
  predicate WellFormedHex(s: string)
  {
    |s| == 7 && forall i :: 1 <= i < 7 ==> IsHexDigit(s[i])
  }

  lemma TwoDigitsBelow256(s: string)
    requires |s| == 2 && IsHexDigit(s[0]) && IsHexDigit(s[1])
    ensures HexValue(s) == HexDigitValue(s[0]) * 16 + HexDigitValue(s[1])
    ensures HexValue(s) <= 255
  {
    assert s[..1][..0] == [];
    assert s[..|s| - 1] == s[..1] && s[..1][..|s[..1]| - 1] == [];
    assert HexValue(s[..1]) == HexDigitValue(s[0]);
  }

  /** Each channel of a well-formed colour is the value of its two digits,
      and so lies in 0..255. */
  lemma WellFormedChannels(s: string)
    requires WellFormedHex(s)
    ensures HexToRgb(Some(s)) == Some(Rgb(Num(HexValue(s[1..3])), Num(HexValue(s[3..5])), Num(HexValue(s[5..7]))))
    ensures HexValue(s[1..3]) <= 255 && HexValue(s[3..5]) <= 255 && HexValue(s[5..7]) <= 255
  {
    ChannelSlices(s);
    ChannelDigits(s, 1);
    ChannelDigits(s, 3);
    ChannelDigits(s, 5);
  }

  lemma ChannelSlices(s: string)
    requires |s| == 7
    ensures HexToRgb(Some(s)) == Some(Rgb(ParseIntHex(s[1..3]), ParseIntHex(s[3..5]), ParseIntHex(s[5..7])))
  {
    assert Slice(s, 1, 3) == s[1..3] && Slice(s, 3, 5) == s[3..5] && Slice(s, 5, 7) == s[5..7];
  }

  lemma ChannelDigits(s: string, i: nat)
    requires WellFormedHex(s) && i in {1, 3, 5}
    ensures ParseIntHex(s[i..i + 2]) == Num(HexValue(s[i..i + 2]))
    ensures HexValue(s[i..i + 2]) <= 255
  {
    var d := s[i..i + 2];
    assert IsHexDigit(d[0]) && IsHexDigit(d[1]);
    ParseDigits(d);
    TwoDigitsBelow256(d);
  }

  /** Two lower-case hexadecimal digits for a byte. */
  function HexByte(n: nat): (s: string)
    requires n < 256
    ensures |s| == 2 && IsHexDigit(s[0]) && IsHexDigit(s[1])
    ensures HexValue(s) == n
  {
    var s := [HexDigitChar(n / 16), HexDigitChar(n % 16)];
    TwoDigitsBelow256(s);
    s
  }

  /** "#rrggbb" for three channel values. */
  function ColorHex(r: nat, g: nat, b: nat): (s: string)
    requires r < 256 && g < 256 && b < 256
    ensures WellFormedHex(s)
  {
    "#" + HexByte(r) + HexByte(g) + HexByte(b)
  }

  /** Round trip: the converter reads back the channels a colour was written with. */
  lemma ColorRoundTrip(r: nat, g: nat, b: nat)
    requires r < 256 && g < 256 && b < 256
    ensures HexToRgb(Some(ColorHex(r, g, b))) == Some(Rgb(Num(r), Num(g), Num(b)))
  {
    var s := ColorHex(r, g, b);
    assert s[1..3] == HexByte(r) && s[3..5] == HexByte(g) && s[5..7] == HexByte(b);
    WellFormedChannels(s);
  }

  /** The prompt's own example. */
  lemma PromptExample()
    ensures HexToRgb(Some("#00f0ff")) == Some(Rgb(Num(0), Num(240), Num(255)))
  {
    assert HexDigitChar(0) == '0' && HexDigitChar(15) == 'f';
    assert 240 / 16 == 15 && 240 % 16 == 0 && 255 / 16 == 15 && 255 % 16 == 15;
    var r, g, b := HexByte(0), HexByte(240), HexByte(255);
    assert r == "00" && g == "f0" && b == "ff";
    assert ColorHex(0, 240, 255) == "#" + r + g + b == "#00f0ff";
    ColorRoundTrip(0, 240, 255);
  }

  /** A three-digit shorthand "#rgb" is not expanded: red reads the first two
      digits, green the last one alone, and blue finds nothing. */
  lemma ShorthandNotExpanded(s: string)
    requires |s| == 4 && forall i :: 1 <= i < 4 ==> IsHexDigit(s[i])
    ensures HexToRgb(Some(s)) == Some(Rgb(Num(HexValue(s[1..3])), Num(HexDigitValue(s[3])), NaN))
  {
    assert Slice(s, 1, 3) == s[1..3] && Slice(s, 3, 5) == s[3..4] && Slice(s, 5, 7) == [];
    ParseDigits(s[1..3]);
    OneDigit(s[3..4]);
    NothingIsNaN();
  }

  lemma OneDigit(d: string)
    requires |d| == 1 && IsHexDigit(d[0])
    ensures ParseIntHex(d) == Num(HexDigitValue(d[0]))
  {
    ParseDigits(d);
    assert d[..0] == [];
  }

  // ---- the password generator ------------------------------------------------

  const Charset := "ABCDEFGHIJKLMNOPQRSTUVWXYZabcdefghijklmnopqrstuvwxyz0123456789!@#$%^&*"

  const PasswordLength := 16

  /** `Math.floor(random * chars.length)` for a draw in [0, 1). */
  function CharIndex(r: real): (k: nat)
    requires 0.0 <= r < 1.0
    ensures k < |Charset|
    ensures k as real <= r * |Charset| as real < k as real + 1.0
  {
    (r * |Charset| as real).Floor
  }

  predicate ValidDraws(draws: seq<real>)
  {
    forall i :: 0 <= i < |draws| ==> 0.0 <= draws[i] < 1.0
  }

  /** The password action: one charset character per draw, sixteen times. */
  method GeneratePassword(draws: seq<real>) returns (password: string)
    requires |draws| == PasswordLength && ValidDraws(draws)
    ensures |password| == PasswordLength
    ensures forall i :: 0 <= i < PasswordLength ==> password[i] == Charset[CharIndex(draws[i])]
    ensures forall i :: 0 <= i < |password| ==> password[i] in Charset
  {
    password := "";
    var i := 0;
    while i < PasswordLength
      invariant 0 <= i <= PasswordLength
      invariant |password| == i
      invariant forall j :: 0 <= j < i ==> password[j] == Charset[CharIndex(draws[j])]
    {
      password := password + [Charset[CharIndex(draws[i])]];
      i := i + 1;
    }
  }
}
