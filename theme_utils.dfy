/** Reading a theme: hexadecimal colour strings turned into red, green and
    blue channels, the button slot lookup, and the fallbacks used when a
    theme has no look for a button. */
module ThemeUtils {
  import opened Wrappers
  import Model
  import opened Theme

  /** A colour as the views use it. */
  datatype Color =
    | Rgb(red: real, green: real, blue: real)   // each channel in 0.0 ... 1.0
    | Gray
    | White
    | Faded(base: Color, opacity: real)

  /** The unsigned 64-bit range the scanner reads into. */
  const UInt64Max: nat := 0xFFFF_FFFF_FFFF_FFFF

  // ---------------------------------------------------------------------
  // Sanitising

  /** White space and line breaks, as trimmed from both ends of a colour
      string and skipped by the scanner. */
  predicate IsWhitespace(c: char) {
    || ('\U{0009}' <= c <= '\U{000D}') || c == ' ' || c == '\U{0085}' || c == '\U{00A0}'
    || c == '\U{1680}' || ('\U{2000}' <= c <= '\U{200A}') || c == '\U{2028}' || c == '\U{2029}'
    || c == '\U{202F}' || c == '\U{205F}' || c == '\U{3000}'
  }

  predicate AllWhitespace(s: string) {
    forall k :: 0 <= k < |s| ==> IsWhitespace(s[k])
  }

  lemma WhitespaceCons(c: char, t: string)
    requires IsWhitespace(c) && AllWhitespace(t)
    ensures AllWhitespace([c] + t)
  {
    assert forall k :: 1 <= k < |t| + 1 ==> ([c] + t)[k] == t[k - 1];
  }

  /** One more white-space character in front of a string that is white
      space followed by `r`. */
  lemma LeadingStep(s: string, r: string)
    requires s != [] && IsWhitespace(s[0]) && |r| <= |s| - 1
    requires s[1..] == s[1..][..|s| - 1 - |r|] + r && AllWhitespace(s[1..][..|s| - 1 - |r|])
    ensures s == s[..|s| - |r|] + r && AllWhitespace(s[..|s| - |r|])
  {
    assert s[..|s| - |r|] == [s[0]] + s[1..][..|s| - 1 - |r|];
    WhitespaceCons(s[0], s[1..][..|s| - 1 - |r|]);
    assert s == [s[0]] + s[1..];
  }

  lemma WhitespaceSnoc(t: string, c: char)
    requires AllWhitespace(t) && IsWhitespace(c)
    ensures AllWhitespace(t + [c])
  {
    assert forall k :: 0 <= k < |t| ==> (t + [c])[k] == t[k];
  }

  /** `s` without its leading white space: only white space is dropped. */
  function TrimStart(s: string): (r: string)
    ensures |r| <= |s| && s == s[..|s| - |r|] + r && AllWhitespace(s[..|s| - |r|])
    ensures r == [] || !IsWhitespace(r[0])
    decreases |s|
  {
    if s != [] && IsWhitespace(s[0]) then
      var r := TrimStart(s[1..]);
      LeadingStep(s, r);
      r
    else s
  }

  /** `s` without its trailing white space: only white space is dropped. */
  function TrimEnd(s: string): (r: string)
    ensures |r| <= |s| && s == r + s[|r|..] && AllWhitespace(s[|r|..])
    ensures r == [] || !IsWhitespace(r[|r| - 1])
    decreases |s|
  {
    if s != [] && IsWhitespace(s[|s| - 1]) then
      var r := TrimEnd(s[..|s| - 1]);
      assert s[|r|..] == s[..|s| - 1][|r|..] + [s[|s| - 1]];
      WhitespaceSnoc(s[..|s| - 1][|r|..], s[|s| - 1]);
      r
    else s
  }

  /** `s` without white space at either end: `s` is white space, then what
      remains, then white space, and what remains neither starts nor ends
      with white space. */
  function Trim(s: string): (r: string)
    ensures exists p, q :: s == p + r + q && AllWhitespace(p) && AllWhitespace(q)
    ensures r == [] || (!IsWhitespace(r[0]) && !IsWhitespace(r[|r| - 1]))
  {
    var e := TrimEnd(s);
    var r := TrimStart(e);
    TrimParts(s, e, r);
    var p, q := e[..|e| - |r|], s[|e|..];
    assert s == p + r + q && AllWhitespace(p) && AllWhitespace(q);
    r
  }

  lemma TrimParts(s: string, e: string, r: string)
    requires |e| <= |s| && s == e + s[|e|..]
    requires |r| <= |e| && e == e[..|e| - |r|] + r
    ensures s == e[..|e| - |r|] + r + s[|e|..]
  {
  }

  /** `s` with every "#" removed, wherever it stands: every other character
      is kept as often as it occurs (and, by `RemoveHashesAppend`, in its
      order). */
  function RemoveHashes(s: string): (r: string)
    ensures '#' !in r
    ensures multiset(r) == multiset(s)['#' := 0]
    decreases |s|
  {
    if s == [] then []
    else
      assert s == [s[0]] + s[1..];
      if s[0] == '#' then RemoveHashes(s[1..])
      else [s[0]] + RemoveHashes(s[1..])
  }

  /** Removing "#" works piece by piece, so the kept characters stay in
      their order. */
  lemma {:induction false} RemoveHashesAppend(a: string, b: string)
    ensures RemoveHashes(a + b) == RemoveHashes(a) + RemoveHashes(b)
    decreases |a|
  {
    if a == [] {
      assert a + b == b;
    } else {
      assert (a + b)[0] == a[0];
      assert (a + b)[1..] == a[1..] + b;
      RemoveHashesAppend(a[1..], b);
      if a[0] != '#' {
        assert [a[0]] + (RemoveHashes(a[1..]) + RemoveHashes(b)) == ([a[0]] + RemoveHashes(a[1..])) + RemoveHashes(b);
      }
    }
  }

  /** A single character: "#" disappears, anything else stays. */
  lemma RemoveHashesOne(c: char)
    ensures RemoveHashes([c]) == if c == '#' then [] else [c]
  {
    var r := RemoveHashes([c]);
    if c == '#' {
      assert multiset(r) == multiset{};
    } else {
      assert multiset(r) == multiset{c};
      assert |r| == 1 && r[0] in multiset(r);
    }
  }

  /** Trim, then drop every "#": `s` is white space, then a stretch that
      neither starts nor ends with white space, then white space, and the
      result is that stretch with its "#" characters taken out. */
  function Sanitize(s: string): (r: string)
    ensures '#' !in r
    ensures exists p, t, q :: s == p + t + q && AllWhitespace(p) && AllWhitespace(q)
                              && (t == [] || (!IsWhitespace(t[0]) && !IsWhitespace(t[|t| - 1])))
                              && r == RemoveHashes(t)
  {
    var t := Trim(s);
    var p, q :| s == p + t + q && AllWhitespace(p) && AllWhitespace(q);
    assert t == [] || (!IsWhitespace(t[0]) && !IsWhitespace(t[|t| - 1]));
    RemoveHashes(t)
  }

  // ---------------------------------------------------------------------
  // The hexadecimal scanner

  predicate IsHexDigit(c: char) {
    ('0' <= c <= '9') || ('a' <= c <= 'f') || ('A' <= c <= 'F')
  }

  function HexDigitValue(c: char): (v: nat)
    requires IsHexDigit(c)
    ensures v < 16
  {
    if '0' <= c <= '9' then c as int - '0' as int
    else if 'a' <= c <= 'f' then c as int - 'a' as int + 10
    else c as int - 'A' as int + 10
  }

  predicate AllHex(s: string) {
    forall k :: 0 <= k < |s| ==> IsHexDigit(s[k])
  }

  function Pow16(n: nat): (p: nat)
    ensures p >= 1
  {
    if n == 0 then 1 else 16 * Pow16(n - 1)
  }

  /** The number the hexadecimal digits `s` spell, most significant first. */
  function HexValue(s: string): (v: nat)
    requires AllHex(s)
    ensures v < Pow16(|s|)
    decreases |s|
  {
    if s == [] then 0 else HexValue(s[..|s| - 1]) * 16 + HexDigitValue(s[|s| - 1])
  }

  /** The length of the longest run of hexadecimal digits at the start of
      `s`. */
  function HexRun(s: string): (n: nat)
    ensures n <= |s| && AllHex(s[..n])
    ensures n == |s| || !IsHexDigit(s[n])
    decreases |s|
  {
    if s != [] && IsHexDigit(s[0]) then
      var n := 1 + HexRun(s[1..]);
      assert forall k :: 1 <= k < n ==> s[..n][k] == s[1..][..n - 1][k - 1];
      n
    else 0
  }

  /** The longest run of hexadecimal digits at the start of `s`. */
  function HexPrefix(s: string): (r: string)
    ensures AllHex(r) && |r| <= |s| && r == s[..|r|]
    ensures |r| == |s| || !IsHexDigit(s[|r|])
  {
    s[..HexRun(s)]
  }

  /** The digits the scanner reads: after leading white space (the scanner
      skips the same white space that trimming drops, so `TrimStart` is that
      skip), an optional
      "0x" or "0X" that is followed by a digit, then the longest run of
      hexadecimal digits. */
  function ScannedDigits(s: string): (r: string)
    ensures AllHex(r)
  {
    var t := TrimStart(s);
    if |t| >= 3 && t[0] == '0' && (t[1] == 'x' || t[1] == 'X') && IsHexDigit(t[2]) then HexPrefix(t[2..])
    else HexPrefix(t)
  }

  /** Reads an unsigned 64-bit hexadecimal number from the start of `s`:
      none when no digit is there, the largest 64-bit value when the digits
      spell a bigger one. */
  function ScanHexInt64(s: string): (r: Option<nat>)
    ensures r.None? <==> ScannedDigits(s) == []
    ensures r.Some? ==> r.value <= UInt64Max
    ensures r.Some? && HexValue(ScannedDigits(s)) <= UInt64Max ==> r.value == HexValue(ScannedDigits(s))
    ensures r.Some? && HexValue(ScannedDigits(s)) > UInt64Max ==> r.value == UInt64Max
  {
    var digits := ScannedDigits(s);
    if digits == [] then None
    else if HexValue(digits) > UInt64Max then Some(UInt64Max)
    else Some(HexValue(digits))
  }

  // ---------------------------------------------------------------------
  // Colours

  /** Bits 16 to 23, 8 to 15 and 0 to 7 of `rgb`. */
  function RedBits(rgb: nat): nat { (rgb / 0x1_0000) % 0x100 }
  function GreenBits(rgb: nat): nat { (rgb / 0x100) % 0x100 }
  function BlueBits(rgb: nat): nat { rgb % 0x100 }

  /** The colour whose channels are the three low bytes of `rgb`. */
  function ColorOf(rgb: nat): (c: Color)
    ensures c.Rgb?
    ensures 0.0 <= c.red <= 1.0 && 0.0 <= c.green <= 1.0 && 0.0 <= c.blue <= 1.0
  {
    Rgb(RedBits(rgb) as real / 255.0, GreenBits(rgb) as real / 255.0, BlueBits(rgb) as real / 255.0)
  }

  /** The colour a theme string stands for, or `defaultColor` when there is
      no string, when it is "null", or when no hexadecimal digit can be read
      from it. */
  function ColorFrom(hexString: Option<string>, defaultColor: Color): (c: Color)
    ensures hexString.None? || hexString == Some("null") ==> c == defaultColor
    ensures hexString.Some? && hexString.value != "null" && ScanHexInt64(Sanitize(hexString.value)).None?
            ==> c == defaultColor
    ensures hexString.Some? && hexString.value != "null" && ScanHexInt64(Sanitize(hexString.value)).Some?
            ==> c == ColorOf(ScanHexInt64(Sanitize(hexString.value)).value)
  {
    if hexString.None? || hexString.value == "null" then defaultColor
    else
      match ScanHexInt64(Sanitize(hexString.value))
      case None => defaultColor
      case Some(rgb) => ColorOf(rgb)
  }

  /** Shifting right by eight bits past a multiple of 256. */
  lemma DivMod256(k: nat, y: nat)
    ensures (k * 0x100 + y) / 0x100 == k + y / 0x100
    ensures (k * 0x100 + y) % 0x100 == y % 0x100
  {
  }

  /** Shifting right by sixteen bits is shifting right by eight twice. */
  lemma ShiftTwice(x: nat)
    ensures x / 0x1_0000 == (x / 0x100) / 0x100
  {
    var q1, r1 := x / 0x100, x % 0x100;
    var q2, r2 := q1 / 0x100, q1 % 0x100;
    assert x == q2 * 0x1_0000 + (r2 * 0x100 + r1);
    assert 0 <= r2 * 0x100 + r1 < 0x1_0000;
  }

  /** Bits above the low 24 never reach a channel. */
  lemma HighBitsIgnored(rgb: nat, high: nat)
    ensures ColorOf(high * 0x100_0000 + rgb) == ColorOf(rgb)
  {
    var x := high * 0x100_0000 + rgb;
    assert x == (high * 0x1_0000) * 0x100 + rgb;
    DivMod256(high * 0x1_0000, rgb);
    assert x / 0x100 == (high * 0x100) * 0x100 + rgb / 0x100;
    DivMod256(high * 0x100, rgb / 0x100);
    ShiftTwice(x);
    ShiftTwice(rgb);
    assert x / 0x1_0000 == high * 0x100 + rgb / 0x1_0000;
    DivMod256(high, rgb / 0x1_0000);
  }

  // ---------------------------------------------------------------------
  // Six-digit colours

  lemma {:induction false} HexValueAppend(a: string, b: string)
    requires AllHex(a) && AllHex(b)
    ensures AllHex(a + b)
    ensures HexValue(a + b) == HexValue(a) * Pow16(|b|) + HexValue(b)
    decreases |b|
  {
    assert AllHex(a + b) by {
      forall k | 0 <= k < |a + b| ensures IsHexDigit((a + b)[k]) {
        if k < |a| { assert (a + b)[k] == a[k]; } else { assert (a + b)[k] == b[k - |a|]; }
      }
    }
    if b == [] {
      assert a + b == a;
    } else {
      var b' := b[..|b| - 1];
      assert (a + b)[..|a + b| - 1] == a + b';
      assert (a + b)[|a + b| - 1] == b[|b| - 1];
      HexValueAppend(a, b');
      assert HexValue(b) == HexValue(b') * 16 + HexDigitValue(b[|b| - 1]);
      Regroup(HexValue(a), Pow16(|b'|), HexValue(b'), HexDigitValue(b[|b| - 1]));
    }
  }

  lemma Regroup(x: int, p: int, h: int, d: int)
    ensures (x * p + h) * 16 + d == x * (16 * p) + (h * 16 + d)
  {
  }

  /** The byte values of a three-byte number. */
  lemma ThreeBytes(r: nat, g: nat, b: nat)
    requires r < 0x100 && g < 0x100 && b < 0x100
    ensures var rgb := r * 0x1_0000 + g * 0x100 + b;
      RedBits(rgb) == r && GreenBits(rgb) == g && BlueBits(rgb) == b
  {
    var rgb := r * 0x1_0000 + g * 0x100 + b;
    Regroup256(r, g, b);
    DivMod256(r * 0x100 + g, b);
    DivMod256(r, g);
    ShiftTwice(rgb);
  }

  /** A colour written as six hexadecimal digits "RRGGBB", with or without a
      leading "#", has the three digit pairs as its red, green and blue. */
  lemma SixDigitColor(s: string, hash: bool, defaultColor: Color)
    requires |s| == 6 && AllHex(s)
    ensures var written := if hash then "#" + s else s;
      ColorFrom(Some(written), defaultColor) == PairsColor(s)
  {
    var written := if hash then "#" + s else s;
    assert ColorFrom(Some(written), defaultColor) == ColorOf(HexValue(s)) by {
      SanitizeSix(s, hash);
      ScanSix(s);
    }
    SixDigitChannels(s);
  }

  lemma SixDigitChannels(s: string)
    requires |s| == 6 && AllHex(s)
    ensures ColorOf(HexValue(s)) == PairsColor(s)
  {
    SixDigitValue(s);
    var r, g, b := HexValue(s[..2]), HexValue(s[2..4]), HexValue(s[4..]);
    ThreeBytes(r, g, b);
    assert RedBits(HexValue(s)) == r && GreenBits(HexValue(s)) == g && BlueBits(HexValue(s)) == b;
  }

  /** A string that neither starts nor ends with white space is trimmed to
      itself. */
  lemma TrimUnchanged(w: string)
    requires w != [] && !IsWhitespace(w[0]) && !IsWhitespace(w[|w| - 1])
    ensures Trim(w) == w
  {
    assert TrimEnd(w) == w;
  }

  /** Sanitising leaves six hexadecimal digits alone, apart from dropping a
      leading "#". */
  lemma SanitizeSix(s: string, hash: bool)
    requires |s| == 6 && AllHex(s)
    ensures var written := if hash then "#" + s else s;
      written != "null" && Sanitize(written) == s
  {
    var written := if hash then "#" + s else s;
    assert written[|written| - 1] == s[5];
    TrimUnchanged(written);
    NoHashUnchanged(s);
    if hash {
      assert written[1..] == s;
    }
    assert written[|written| - 1] == s[5];
    assert written != "null";
  }

  /** The scanner reads six hexadecimal digits whole. */
  lemma ScanSix(s: string)
    requires |s| == 6 && AllHex(s)
    ensures ScanHexInt64(s) == Some(HexValue(s))
  {
    assert !IsWhitespace(s[0]);
    assert TrimStart(s) == s;
    assert !(s[1] == 'x' || s[1] == 'X');
    assert HexPrefix(s) == s by {
      assert s[..6] == s;
    }
    assert Pow16(6) == 0x100_0000;
  }

  /** The three digit pairs of six hexadecimal digits are hexadecimal. */
  lemma HexPairs(s: string)
    requires |s| == 6 && AllHex(s)
    ensures AllHex(s[..2]) && AllHex(s[2..4]) && AllHex(s[4..])
  {
    forall k | 0 <= k < 2
      ensures IsHexDigit(s[..2][k]) && IsHexDigit(s[2..4][k]) && IsHexDigit(s[4..][k])
    {
      assert s[..2][k] == s[k] && s[2..4][k] == s[k + 2] && s[4..][k] == s[k + 4];
    }
  }

  /** The colour six hexadecimal digits "RRGGBB" name: each digit pair over
      255. */
  function PairsColor(s: string): Color
    requires |s| == 6 && AllHex(s)
  {
    HexPairs(s);
    Rgb(HexValue(s[..2]) as real / 255.0, HexValue(s[2..4]) as real / 255.0, HexValue(s[4..]) as real / 255.0)
  }

  /** Six digits are three bytes, most significant first. */
  lemma SixDigitValue(s: string)
    requires |s| == 6 && AllHex(s)
    ensures AllHex(s[..2]) && AllHex(s[2..4]) && AllHex(s[4..])
    ensures HexValue(s) == HexValue(s[..2]) * 0x1_0000 + HexValue(s[2..4]) * 0x100 + HexValue(s[4..])
    ensures HexValue(s[..2]) < 0x100 && HexValue(s[2..4]) < 0x100 && HexValue(s[4..]) < 0x100
  {
    var rr, gg, bb := s[..2], s[2..4], s[4..];
    HexPairs(s);
    assert s == rr + gg + bb;
    assert Pow16(2) == 0x100;
    HexValueAppend(rr, gg);
    HexValueAppend(rr + gg, bb);
    Regroup256(HexValue(rr), HexValue(gg), HexValue(bb));
  }

  lemma Regroup256(r: int, g: int, b: int)
    ensures (r * 0x100 + g) * 0x100 + b == r * 0x1_0000 + g * 0x100 + b
  {
  }

  lemma {:induction false} NoHashUnchanged(s: string)
    requires AllHex(s)
    ensures RemoveHashes(s) == s
    decreases |s|
  {
    if s != [] {
      assert AllHex(s[1..]) by {
        forall k | 0 <= k < |s[1..]| ensures IsHexDigit(s[1..][k]) { assert s[1..][k] == s[k + 1]; }
      }
      NoHashUnchanged(s[1..]);
      assert s == [s[0]] + s[1..];
    }
  }

  // ---------------------------------------------------------------------
  // Button looks

  /** The first button look of the given slot type. */
  function FirstOfType(buttons: seq<ButtonTheme>, slot: string): (r: Option<ButtonTheme>)
    ensures r.None? <==> forall i :: 0 <= i < |buttons| ==> buttons[i].typeName != slot
    ensures r.Some? ==> exists i :: 0 <= i < |buttons| && buttons[i] == r.value
                                 && r.value.typeName == slot
                                 && forall j :: 0 <= j < i ==> buttons[j].typeName != slot
    decreases |buttons|
  {
    if buttons == [] then None
    else if buttons[0].typeName == slot then Some(buttons[0])
    else
      var r := FirstOfType(buttons[1..], slot);
      assert r.Some? ==> exists i :: 0 <= i < |buttons| && buttons[i] == r.value
                                 && forall j :: 0 <= j < i ==> buttons[j].typeName != slot by {
        if r.Some? {
          var i :| 0 <= i < |buttons[1..]| && buttons[1..][i] == r.value
                   && forall j :: 0 <= j < i ==> buttons[1..][j].typeName != slot;
          assert buttons[i + 1] == r.value;
          forall j | 0 <= j < i + 1 ensures buttons[j].typeName != slot {
            if j > 0 { assert buttons[j] == buttons[1..][j - 1]; }
          }
        }
      }
      assert r.None? ==> forall i :: 0 <= i < |buttons| ==> buttons[i].typeName != slot by {
        if r.None? {
          forall i | 0 <= i < |buttons| ensures buttons[i].typeName != slot {
            if i > 0 { assert buttons[i] == buttons[1..][i - 1]; }
          }
        }
      }
      r
  }

  /** The look of a button: the theme's first look for the button's slot in
      the given mode. */
  function GetButtonTheme(buttonType: Model.ButtonType, theme: ThemeModel, mode: Model.CalculatorMode): (r: Option<ButtonTheme>)
    ensures r.None? <==> forall i :: 0 <= i < |theme.buttons| ==> theme.buttons[i].typeName != Model.ThemeButtonType(buttonType, mode)
    ensures r.Some? ==> exists i :: 0 <= i < |theme.buttons| && theme.buttons[i] == r.value
                                 && r.value.typeName == Model.ThemeButtonType(buttonType, mode)
                                 && forall j :: 0 <= j < i ==> theme.buttons[j].typeName != Model.ThemeButtonType(buttonType, mode)
  {
    FirstOfType(theme.buttons, Model.ThemeButtonType(buttonType, mode))
  }

  /** The text colour: white when the theme has no look for the button or
      its font colour cannot be read. */
  function ForegroundColor(buttonType: Model.ButtonType, theme: ThemeModel, mode: Model.CalculatorMode): (c: Color)
    ensures GetButtonTheme(buttonType, theme, mode).None? ==> c == White
    ensures GetButtonTheme(buttonType, theme, mode).Some? ==>
      c == ColorFrom(Some(GetButtonTheme(buttonType, theme, mode).value.fontColor), White)
  {
    match GetButtonTheme(buttonType, theme, mode)
    case None => White
    case Some(look) => ColorFrom(Some(look.fontColor), White)
  }

  /** The background: gray without a look; otherwise the pressed colour
      while pressed (a faded gray when unreadable) and the released colour
      otherwise (gray when unreadable). */
  function BackgroundColor(buttonType: Model.ButtonType, theme: ThemeModel, isPressed: bool, mode: Model.CalculatorMode): (c: Color)
    ensures GetButtonTheme(buttonType, theme, mode).None? ==> c == Gray
    ensures GetButtonTheme(buttonType, theme, mode).Some? && isPressed ==>
      c == ColorFrom(GetButtonTheme(buttonType, theme, mode).value.pressedColor, Faded(Gray, 0.8))
    ensures GetButtonTheme(buttonType, theme, mode).Some? && !isPressed ==>
      c == ColorFrom(GetButtonTheme(buttonType, theme, mode).value.releasedColor, Gray)
  {
    match GetButtonTheme(buttonType, theme, mode)
    case None => Gray
    case Some(look) =>
      var colorHex := if isPressed then look.pressedColor else look.releasedColor;
      ColorFrom(colorHex, if isPressed then Faded(Gray, 0.8) else Gray)
  }

  /** The font size: 24 without a look, the look's size otherwise. */
  function FontSize(buttonType: Model.ButtonType, theme: ThemeModel, mode: Model.CalculatorMode): (size: real)
    ensures GetButtonTheme(buttonType, theme, mode).None? ==> size == 24.0
    ensures GetButtonTheme(buttonType, theme, mode).Some? ==> size == GetButtonTheme(buttonType, theme, mode).value.fontSize as real
  {
    match GetButtonTheme(buttonType, theme, mode)
    case None => 24.0
    case Some(look) => look.fontSize as real
  }

  /** A theme without any button looks draws every button in white on gray
      at size 24, pressed or not. */
  lemma EmptyThemeFallbacks(buttonType: Model.ButtonType, theme: ThemeModel, isPressed: bool, mode: Model.CalculatorMode)
    requires theme.buttons == []
    ensures ForegroundColor(buttonType, theme, mode) == White
    ensures BackgroundColor(buttonType, theme, isPressed, mode) == Gray
    ensures FontSize(buttonType, theme, mode) == 24.0
  {
  }

  /** With a look for the button: a pressed button shows its pressed colour
      and a released one its released colour, here written "#RRGGBB"; a
      look without those colours falls back to faded gray and gray. */
  lemma ButtonBackgrounds(buttonType: Model.ButtonType, theme: ThemeModel, mode: Model.CalculatorMode,
                          look: ButtonTheme, pressed: string, released: string)
    requires GetButtonTheme(buttonType, theme, mode) == Some(look)
    requires |pressed| == 6 && AllHex(pressed) && |released| == 6 && AllHex(released)
    ensures look.pressedColor == Some("#" + pressed) ==>
      BackgroundColor(buttonType, theme, true, mode) == PairsColor(pressed)
    ensures look.releasedColor == Some("#" + released) ==>
      BackgroundColor(buttonType, theme, false, mode) == PairsColor(released)
    ensures look.pressedColor.None? ==> BackgroundColor(buttonType, theme, true, mode) == Faded(Gray, 0.8)
    ensures look.releasedColor.None? ==> BackgroundColor(buttonType, theme, false, mode) == Gray
  {
    PressedBackground(BackgroundColor(buttonType, theme, true, mode), look.pressedColor, pressed);
    ReleasedBackground(BackgroundColor(buttonType, theme, false, mode), look.releasedColor, released);
  }

  lemma PressedBackground(c: Color, pressedColor: Option<string>, pressed: string)
    requires c == ColorFrom(pressedColor, Faded(Gray, 0.8))
    requires |pressed| == 6 && AllHex(pressed)
    ensures pressedColor == Some("#" + pressed) ==> c == PairsColor(pressed)
    ensures pressedColor.None? ==> c == Faded(Gray, 0.8)
  {
    if pressedColor == Some("#" + pressed) {
      SixDigitColor(pressed, true, Faded(Gray, 0.8));
    }
  }

  lemma ReleasedBackground(c: Color, releasedColor: Option<string>, released: string)
    requires c == ColorFrom(releasedColor, Gray)
    requires |released| == 6 && AllHex(released)
    ensures releasedColor == Some("#" + released) ==> c == PairsColor(released)
    ensures releasedColor.None? ==> c == Gray
  {
    if releasedColor == Some("#" + released) {
      SixDigitColor(released, true, Gray);
    }
  }

  /** Only the first look of a slot is ever used: appending more looks of
      the same slot changes nothing. */
  lemma {:induction false} FirstLookWins(buttons: seq<ButtonTheme>, more: seq<ButtonTheme>, slot: string)
    requires FirstOfType(buttons, slot).Some?
    ensures FirstOfType(buttons + more, slot) == FirstOfType(buttons, slot)
    decreases |buttons|
  {
    assert buttons != [];
    assert (buttons + more)[0] == buttons[0];
    if buttons[0].typeName != slot {
      assert (buttons + more)[1..] == buttons[1..] + more;
      FirstLookWins(buttons[1..], more, slot);
    }
  }
}
