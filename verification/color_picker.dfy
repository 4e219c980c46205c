/** The colour picker popup: hex text codec for RGB colours and the
    picker's editing state (original colour, current colour, open flag). */
module ColorPicker {
  import opened Common

  const HexDigitChars: string := "0123456789abcdef"

  /** The lowercase hex digit of k (`:x`). */
  function HexDigit(k: int): char
    requires 0 <= k < 16
  {
    HexDigitChars[k]
  }

  /** The value of an ASCII hex digit, either case. */
  function HexValue(c: char): (r: Option<int>)
    ensures r.Some? ==> 0 <= r.value < 16
  {
    if '0' <= c <= '9' then Some(c as int - '0' as int)
    else if 'a' <= c <= 'f' then Some(c as int - 'a' as int + 10)
    else if 'A' <= c <= 'F' then Some(c as int - 'A' as int + 10)
    else None
  }

  lemma HexDigitValue(k: int)
    requires 0 <= k < 16
    ensures HexValue(HexDigit(k)) == Some(k)
  {
  }

  /** Hex digits of n, most significant first, without padding. */
  function HexDigits(n: nat): (s: string)
    ensures |s| >= 1
  {
    if n < 16 then [HexDigit(n)] else HexDigits(n / 16) + [HexDigit(n % 16)]
  }

  /** Python's `format(n, '02x')`: zero-padded to two characters for
      n >= 0; a negative number is its sign then its digits. */
  function Format02x(n: int): string
  {
    if n < 0 then "-" + HexDigits(-n)
    else if n < 16 then "0" + HexDigits(n)
    else HexDigits(n)
  }

  /** A component in [0, 255] formats as exactly its two hex digits. */
  lemma Format02xByte(n: int)
    requires 0 <= n <= 255
    ensures Format02x(n) == [HexDigit(n / 16), HexDigit(n % 16)]
  {
    if n < 16 {
      assert HexDigit(0) == '0';
    } else {
      assert HexDigits(n) == HexDigits(n / 16) + [HexDigit(n % 16)];
    }
  }

  /** The two characters of a formatted component read back as it. */
  lemma FormatReadsBack(n: int)
    requires 0 <= n <= 255
    ensures |Format02x(n)| == 2 && ParsePair(Format02x(n)[0], Format02x(n)[1]) == Some(n)
  {
    Format02xByte(n);
    HexDigitValue(n / 16);
    HexDigitValue(n % 16);
  }

  /** `_color_to_hex`. */
  function ColorToHex(color: seq<int>): string
    requires |color| >= 3
  {
    "#" + Format02x(color[0]) + Format02x(color[1]) + Format02x(color[2])
  }

  predicate IsLowerHex(c: char) { c in HexDigitChars }

  /** Components in [0, 255] give "#" and six lowercase hex digits. */
  lemma ColorToHexFormat(color: seq<int>)
    requires |color| >= 3 && forall k :: 0 <= k < 3 ==> 0 <= color[k] <= 255
    ensures var h := ColorToHex(color);
      |h| == 7 && h[0] == '#' && forall k :: 1 <= k < 7 ==> IsLowerHex(h[k])
  {
    Format02xByte(color[0]);
    Format02xByte(color[1]);
    Format02xByte(color[2]);
  }

  /** `str.lstrip('#')`. */
  function LStripHash(s: string): (r: string)
    ensures |r| <= |s| && (r == [] || r[0] != '#')
    ensures r == s[|s| - |r|..]
  {
    if s != [] && s[0] == '#' then LStripHash(s[1..]) else s
  }

  /** Two hex digits, the corrected pair parser: any other character is
      refused. */
  function ParsePair(a: char, b: char): (r: Option<int>)
    ensures r.Some? ==> 0 <= r.value <= 255
  {
    match (HexValue(a), HexValue(b))
    case (Some(x), Some(y)) => Some(16 * x + y)
    case _ => None
  }

  /** Which reading of a two-character pair a parse uses. */
  datatype PairReading = Strict | AsWritten

  function ReadPair(reading: PairReading, a: char, b: char): Option<int>
  {
    match reading
    case Strict => ParsePair(a, b)
    case AsWritten => ParsePairAsWritten(a, b)
  }

  /** The three components when all three pairs parsed. */
  function Triple(r: Option<int>, g: Option<int>, b: Option<int>): (t: Option<seq<int>>)
    ensures t.Some? <==> r.Some? && g.Some? && b.Some?
    ensures t.Some? ==> t.value == [r.value, g.value, b.value]
  {
    if r.Some? && g.Some? && b.Some? then Some([r.value, g.value, b.value]) else None
  }

  /** Parses a stripped body of 6 (pairs) or 3 (doubled digits) characters. */
  function ParseBody(body: string, reading: PairReading): (r: Option<seq<int>>)
    ensures r.Some? ==> |r.value| == 3
    ensures r.Some? && reading == Strict ==> forall k :: 0 <= k < 3 ==> 0 <= r.value[k] <= 255
  {
    if |body| == 6 then
      Triple(ReadPair(reading, body[0], body[1]), ReadPair(reading, body[2], body[3]),
             ReadPair(reading, body[4], body[5]))
    else if |body| == 3 then
      Triple(ReadPair(reading, body[0], body[0]), ReadPair(reading, body[1], body[1]),
             ReadPair(reading, body[2], body[2]))
    else None
  }

  /** `_hex_to_color` with pairs read as hex digits only. */
  function HexToColor(hex: string): (r: Option<seq<int>>)
    ensures r.Some? ==> |r.value| == 3 && forall k :: 0 <= k < 3 ==> 0 <= r.value[k] <= 255
  {
    ParseBody(LStripHash(hex), Strict)
  }

  /** Formatting then parsing gives back the colour. */
  lemma HexRoundTrip(color: seq<int>)
    requires |color| == 3 && forall k :: 0 <= k < 3 ==> 0 <= color[k] <= 255
    ensures HexToColor(ColorToHex(color)) == Some(color)
  {
    var c0, c1, c2 := color[0], color[1], color[2];
    assert color == [c0, c1, c2];
    var f0, f1, f2 := FormatPair(c0), FormatPair(c1), FormatPair(c2);
    assert ColorToHex(color) == "#" + f0 + f1 + f2;
    TextRoundTrip(f0, f1, f2, c0, c1, c2);
  }

  /** The formatted pair of a component in [0, 255], which reads back as it. */
  function FormatPair(n: int): (f: string)
    requires 0 <= n <= 255
    ensures f == Format02x(n)
    ensures |f| == 2 && ParsePair(f[0], f[1]) == Some(n)
  {
    FormatReadsBack(n);
    Format02x(n)
  }

  /** "#" and three pairs that each read back as a component parse as the
      colour. */
  lemma TextRoundTrip(f0: string, f1: string, f2: string, c0: int, c1: int, c2: int)
    requires |f0| == 2 && |f1| == 2 && |f2| == 2
    requires ParsePair(f0[0], f0[1]) == Some(c0) && ParsePair(f1[0], f1[1]) == Some(c1)
    requires ParsePair(f2[0], f2[1]) == Some(c2)
    ensures HexToColor("#" + f0 + f1 + f2) == Some([c0, c1, c2])
  {
    var body := f0 + f1 + f2;
    assert "#" + f0 + f1 + f2 == "#" + body;
    assert body[0] == f0[0] && HexValue(f0[0]).Some?;
    StripOneHash(body);
    ReadsSix(f0, f1, f2, c0, c1, c2);
  }

  /** Three two-character pairs that each read back as a component read
      back as the colour. */
  lemma ReadsSix(f0: string, f1: string, f2: string, c0: int, c1: int, c2: int)
    requires |f0| == 2 && |f1| == 2 && |f2| == 2
    requires ParsePair(f0[0], f0[1]) == Some(c0) && ParsePair(f1[0], f1[1]) == Some(c1)
    requires ParsePair(f2[0], f2[1]) == Some(c2)
    ensures ParseBody(f0 + f1 + f2, Strict) == Some([c0, c1, c2])
  {
    var body := f0 + f1 + f2;
    assert body[0] == f0[0] && body[1] == f0[1] && body[2] == f1[0];
    assert body[3] == f1[1] && body[4] == f2[0] && body[5] == f2[1];
  }

  /** A three-digit body doubles each digit: "abc" reads as aa, bb, cc. */
  lemma ShortForm(a: char, b: char, c: char)
    requires HexValue(a).Some? && HexValue(b).Some? && HexValue(c).Some?
    requires a != '#'
    ensures HexToColor([a, b, c])
      == Some([17 * HexValue(a).value, 17 * HexValue(b).value, 17 * HexValue(c).value])
  {
  }

  /** A text is accepted exactly when, past its leading '#', it is 6 or 3
      characters that are all hex digits. */
  lemma HexToColorAccepts(hex: string)
    ensures var body := LStripHash(hex);
      HexToColor(hex).Some? <==> (|body| == 6 || |body| == 3) && AllHex(body)
  {
    var body := LStripHash(hex);
    assert HexToColor(hex) == ParseBody(body, Strict);
    if |body| == 6 {
      SixAccepts(body);
    } else if |body| == 3 {
      ThreeAccepts(body);
    }
  }

  lemma SixAccepts(body: string)
    requires |body| == 6
    ensures ParseBody(body, Strict).Some? <==> AllHex(body)
  {
    PairDefined(body[0], body[1]);
    PairDefined(body[2], body[3]);
    PairDefined(body[4], body[5]);
    AllHexSix(body);
  }

  lemma ThreeAccepts(body: string)
    requires |body| == 3
    ensures ParseBody(body, Strict).Some? <==> AllHex(body)
  {
    PairDefined(body[0], body[0]);
    PairDefined(body[1], body[1]);
    PairDefined(body[2], body[2]);
    AllHexThree(body);
  }

  predicate IsHexDigit(c: char) { HexValue(c).Some? }

  predicate AllHex(s: string) { forall k :: 0 <= k < |s| ==> IsHexDigit(s[k]) }

  lemma AllHexSix(s: string)
    requires |s| == 6
    ensures AllHex(s) <==> (IsHexDigit(s[0]) && IsHexDigit(s[1]) && IsHexDigit(s[2])
                            && IsHexDigit(s[3]) && IsHexDigit(s[4]) && IsHexDigit(s[5]))
  {
  }

  lemma AllHexThree(s: string)
    requires |s| == 3
    ensures AllHex(s) <==> IsHexDigit(s[0]) && IsHexDigit(s[1]) && IsHexDigit(s[2])
  {
  }

  lemma PairDefined(a: char, b: char)
    ensures ReadPair(Strict, a, b).Some? <==> IsHexDigit(a) && IsHexDigit(b)
  {
  }

  // ---------------------------------------------------------------------
  // The pair parser as written: Python's int(pair, 16)
  // ---------------------------------------------------------------------

  /** Characters Python's `int()` strips (the ASCII and Latin-1 ones). */
  predicate IsSpace(c: char)
  {
    c == ' ' || c == '\t' || c == '\n' || c == '\r' || c == '\U{000B}' || c == '\U{000C}'
    || c == '\U{001C}' || c == '\U{001D}' || c == '\U{001E}' || c == '\U{001F}'
    || c == '\U{0085}' || c == '\U{00A0}'
  }

  /** `int(a + b, 16)` on a two-character string: two digits, a sign and a
      digit, or one digit beside whitespace. */
  function ParsePairAsWritten(a: char, b: char): Option<int>
  {
    match (HexValue(a), HexValue(b))
    case (Some(x), Some(y)) => Some(16 * x + y)
    case (None, Some(y)) =>
      if a == '+' || IsSpace(a) then Some(y) else if a == '-' then Some(-y) else None
    case (Some(x), None) => if IsSpace(b) then Some(x) else None
    case _ => None
  }

  function HexToColorAsWritten(hex: string): Option<seq<int>>
  {
    ParseBody(LStripHash(hex), AsWritten)
  }

  /** As written, a signed pair passes: "#-1-1-1" becomes (-1, -1, -1),
      a colour no slider can show. */
  lemma HexToColorAsWrittenAcceptsNegative()
    ensures HexToColorAsWritten("#-1-1-1") == Some([-1, -1, -1])
  {
    StripSignedText();
    SignedBody();
  }

  lemma StripSignedText()
    ensures LStripHash("#-1-1-1") == "-1-1-1"
  {
    var body := "-1-1-1";
    assert body[0] == '-';
    StripOneHash(body);
    assert "#" + body == "#-1-1-1";
  }

  /** One leading '#' before a body that does not start with '#' is stripped. */
  lemma StripOneHash(body: string)
    requires body == [] || body[0] != '#'
    ensures LStripHash("#" + body) == body
  {
    assert ("#" + body)[1..] == body;
  }

  lemma SignedBody()
    ensures ParseBody("-1-1-1", AsWritten) == Some([-1, -1, -1])
  {
    var body := "-1-1-1";
    var minusOne := ReadPair(AsWritten, '-', '1');
    assert minusOne == Some(-1) by {
      assert HexValue('-').None? && HexValue('1') == Some(1);
    }
    assert body[0] == '-' && body[1] == '1' && body[2] == '-' && body[3] == '1' && body[4] == '-' && body[5] == '1';
    assert ParseBody(body, AsWritten) == Triple(minusOne, minusOne, minusOne);
  }

  /** Where every character is a hex digit the two parsers agree. */
  lemma ParsersAgreeOnDigits(a: char, b: char)
    requires HexValue(a).Some? && HexValue(b).Some?
    ensures ParsePairAsWritten(a, b) == ParsePair(a, b)
  {
  }

  // ---------------------------------------------------------------------
  // The picker state
  // ---------------------------------------------------------------------

  /** `str.strip()`, for the whitespace of `IsSpace` only. */
  function Strip(s: string): (r: string)
    ensures |r| <= |s|
    decreases |s|
  {
    if s != [] && IsSpace(s[0]) then Strip(s[1..])
    else if s != [] && IsSpace(s[|s| - 1]) then Strip(s[..|s| - 1])
    else s
  }

  const WhiteColor: seq<int> := [255, 255, 255]

  class Picker {
    var isOpen: bool
    var original: seq<int>
    var current: seq<int>
    var category: string
    var key: string

    constructor ()
      ensures !isOpen && original == WhiteColor && current == WhiteColor && category == "" && key == ""
    {
      isOpen, original, current, category, key := false, WhiteColor, WhiteColor, "", "";
    }

    /** `open`: the entry being edited and its first three components as
        both the original and the current colour. */
    method Open(cat: string, k: string, color: seq<int>)
      modifies this
      ensures isOpen && category == cat && key == k
      ensures original == color[..if |color| < 3 then |color| else 3] && current == original
    {
      category, key := cat, k;
      original := color[..if |color| < 3 then |color| else 3];
      current := original;
      isOpen := true;
    }

    /** `_on_slider_change`: the three slider values become the colour. */
    method OnSliderChange(r: int, g: int, b: int)
      modifies this
      ensures current == [r, g, b]
      ensures isOpen == old(isOpen) && original == old(original) && category == old(category) && key == old(key)
    {
      current := [r, g, b];
    }

    /** `_on_hex_change`: a readable entry replaces the colour, anything
        else leaves it. It reads the entry with the corrected `HexToColor`. */
    method OnHexChange(text: string)
      modifies this
      ensures current == match HexToColor(Strip(text)) case Some(c) => c case None => old(current)
      ensures isOpen == old(isOpen) && original == old(original) && category == old(category) && key == old(key)
    {
      var parsed := HexToColor(Strip(text));
      if parsed.Some? {
        current := parsed.value;
      }
    }

    /** `_on_reset`: back to the colour the picker was opened with. */
    method OnReset()
      modifies this
      ensures current == original
      ensures isOpen == old(isOpen) && original == old(original) && category == old(category) && key == old(key)
    {
      current := original;
    }

    /** `_on_apply`: hands (category, key, colour) to the apply callback,
        then closes. */
    method OnApply() returns (applied: (string, string, seq<int>))
      modifies this
      ensures applied == (old(category), old(key), old(current)) && !isOpen
      ensures original == old(original) && current == old(current) && category == old(category) && key == old(key)
    {
      applied := (category, key, current);
      isOpen := false;
    }

    /** `_on_cancel` and `close`. */
    method Close()
      modifies this
      ensures !isOpen
      ensures original == old(original) && current == old(current) && category == old(category) && key == old(key)
    {
      isOpen := false;
    }
  }
}
