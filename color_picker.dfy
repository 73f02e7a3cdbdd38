/** The colour picker of the widget preferences: the colour it starts from, the
    colours it offers, and the string it stores for the colour picked. */
module ColorPicker {
  import opened Preferences

  /** Kotlin's Int: a picked colour, its 32 bits as alpha, red, green, blue */
  newtype Int32 = x: int | -0x8000_0000 <= x < 0x8000_0000

  // Defaults of the two widget colour preferences. The values are placeholders:
  // the model relies only on their being distinct.
  const DEFAULT_SELECTED_WIDGET_BACKGROUND_COLOR := "#00FFFFFF"
  const DEFAULT_SELECTED_WIDGET_TEXT_COLOR := "#FFFFFFFF"

  const TWO_TO_24 := 0x100_0000
  const TWO_TO_32 := 0x1_0000_0000

  /** The colour the picker starts from: the stored string, else the default of the kind of pick */
  function InitialColor(store: Store, isBackgroundPick: bool, key: string): (r: Result<string>)
    ensures r.Err? <==> key in store && !store[key].Str?
    ensures key in store && store[key].Str? ==> r == Ok(store[key].s)
    ensures key !in store && isBackgroundPick ==> r == Ok(DEFAULT_SELECTED_WIDGET_BACKGROUND_COLOR)
    ensures key !in store && !isBackgroundPick ==> r == Ok(DEFAULT_SELECTED_WIDGET_TEXT_COLOR)
  {
    match GetString(store, key)
    case Err(e) => Err(e)
    case Ok(stored) =>
      Ok(stored.OrElse(if isBackgroundPick then DEFAULT_SELECTED_WIDGET_BACKGROUND_COLOR
                       else DEFAULT_SELECTED_WIDGET_TEXT_COLOR))
  }

  /** The colours offered for picking: shades of black with rising alpha for a
      background, five opaque colours for text */
  function Palette(isBackgroundPick: bool): (colors: seq<int>)
    ensures isBackgroundPick ==> |colors| == 4
    ensures isBackgroundPick ==> forall i :: 0 <= i < |colors| ==> colors[i] % TWO_TO_24 == 0
    ensures !isBackgroundPick ==> |colors| == 5
    ensures !isBackgroundPick ==> forall i :: 0 <= i < |colors| ==> colors[i] / TWO_TO_24 == 0xFF
    ensures forall i :: 0 <= i < |colors| ==> 0 <= colors[i] < TWO_TO_32
    ensures forall i, j :: 0 <= i < j < |colors| ==> colors[i] != colors[j]
  {
    if isBackgroundPick then [0x00000000, 0x20000000, 0x50000000, 0xFF000000]
    else [0xFFFFFFFF, 0xFFE65100, 0xFF00796b, 0xFFFEF200, 0xFF202020]
  }

  // ----- hexadecimal formatting -----

  /** The digits `%X` prints: upper case */
  predicate IsHexDigit(c: char) {
    '0' <= c <= '9' || 'A' <= c <= 'F'
  }

  function Pow16(n: nat): (r: nat)
    ensures r >= 1
  {
    if n == 0 then 1 else 16 * Pow16(n - 1)
  }

  function HexDigit(d: nat): (c: char)
    requires d < 16
    ensures IsHexDigit(c)
  {
    if d < 10 then '0' + d as char else 'A' + (d - 10) as char
  }

  /** The value of an upper-case hexadecimal digit, None for any other character */
  function DigitValue(c: char): (r: Option<nat>)
    ensures r.Some? <==> IsHexDigit(c)
    ensures r.Some? ==> r.value < 16 && HexDigit(r.value) == c
    ensures forall d :: 0 <= d < 16 && HexDigit(d) == c ==> r == Some(d)
  {
    if '0' <= c <= '9' then Some((c - '0') as nat)
    else if 'A' <= c <= 'F' then Some((c - 'A') as nat + 10)
    else None
  }

  /** The n lowest hexadecimal digits of v, most significant first */
  function FixedHex(v: nat, n: nat): (s: string)
    ensures |s| == n
    ensures forall i :: 0 <= i < n ==> IsHexDigit(s[i])
  {
    if n == 0 then "" else FixedHex(v / 16, n - 1) + [HexDigit(v % 16)]
  }

  /** The value of a string of upper-case hexadecimal digits */
  function ParseHex(s: string): Option<nat> {
    if s == [] then Some(0)
    else match ParseHex(s[..|s| - 1])
      case None => None
      case Some(high) =>
        match DigitValue(s[|s| - 1])
        case None => None
        case Some(low) => Some(16 * high + low)
  }

  /** The number of digits `%X` prints for v */
  function HexLength(v: nat): (n: nat)
    ensures n >= 1
  {
    if v < 16 then 1 else 1 + HexLength(v / 16)
  }

  /** `%0<width>X` of a non-negative value: its digits, padded with zeros on the left up to `width` */
  function FormatHex(v: nat, width: nat): (s: string)
    ensures |s| == if HexLength(v) > width then HexLength(v) else width
    ensures forall i :: 0 <= i < |s| ==> IsHexDigit(s[i])
    ensures ParseHex(s) == Some(v)
  {
    var n := if HexLength(v) > width then HexLength(v) else width;
    FitsHexLength(v);
    Pow16Monotone(HexLength(v), n);
    ParseFixedHex(v, n);
    FixedHex(v, n)
  }

  /** v fits in the number of digits `%X` prints for it */
  lemma {:induction false} FitsHexLength(v: nat)
    ensures v < Pow16(HexLength(v))
  {
    if v >= 16 {
      FitsHexLength(v / 16);
      assert v < 16 * (v / 16 + 1);
    }
  }

  lemma {:induction false} Pow16Monotone(a: nat, b: nat)
    requires a <= b
    ensures Pow16(a) <= Pow16(b)
  {
    if a < b {
      Pow16Monotone(a, b - 1);
    }
  }

  /** Parsing the n digits FixedHex prints for a value that fits in n digits gives the value back */
  lemma {:induction false} ParseFixedHex(v: nat, n: nat)
    requires v < Pow16(n)
    ensures ParseHex(FixedHex(v, n)) == Some(v)
  {
    if n == 0 {
      assert FixedHex(v, n) == "";
    } else {
      assert v / 16 < Pow16(n - 1);
      ParseFixedHex(v / 16, n - 1);
      LowestDigit(v, n);
    }
  }

  /** FixedHex ends in v's lowest digit, after the digits of v / 16 */
  lemma LowestDigit(v: nat, n: nat)
    requires n > 0
    ensures FixedHex(v, n)[..n - 1] == FixedHex(v / 16, n - 1)
    ensures DigitValue(FixedHex(v, n)[n - 1]) == Some(v % 16)
    ensures ParseHex(FixedHex(v / 16, n - 1)).Some? ==>
              ParseHex(FixedHex(v, n)) == Some(16 * ParseHex(FixedHex(v / 16, n - 1)).value + v % 16)
  {
  }

  /** A value below 16^w has at most w digits */
  lemma {:induction false} HexLengthAtMost(v: nat, w: nat)
    requires w >= 1 && v < Pow16(w)
    ensures HexLength(v) <= w
  {
    if v >= 16 {
      assert w > 1;
      assert v / 16 < Pow16(w - 1);
      HexLengthAtMost(v / 16, w - 1);
    }
  }

  /** `%0<width>X` of a value that fits in `width` digits prints exactly `width`
      digits, and parsing them gives the value back */
  lemma FormatHexFits(v: nat, width: nat)
    requires width >= 1 && v < Pow16(width)
    ensures FormatHex(v, width) == FixedHex(v, width)
    ensures ParseHex(FormatHex(v, width)) == Some(v)
  {
    HexLengthAtMost(v, width);
    ParseFixedHex(v, width);
  }

  // ----- the stored result -----

  /** `0xFFFFFFFF and color.toLong()`: the colour's 32 bits read as an unsigned number */
  function Unsigned32(color: Int32): (r: nat)
    ensures r < TWO_TO_32
    ensures color >= 0 ==> r == color as int
    ensures color < 0 ==> r == color as int + TWO_TO_32
  {
    (color as int) % TWO_TO_32
  }

  /** `0xFFFFFF and color`: the red, green and blue bytes, the alpha byte dropped */
  function Rgb(color: Int32): (r: nat)
    ensures r < TWO_TO_24
    ensures r == Unsigned32(color) % TWO_TO_24
  {
    (color as int) % TWO_TO_24
  }

  /** The string stored for a picked colour: `#%08X` of all 32 bits for a
      background, `#%06X` of the low 24 bits for text */
  function ColorResult(isBackgroundPick: bool, color: Int32): (s: string)
    ensures |s| == if isBackgroundPick then 9 else 7
    ensures s[0] == '#'
  {
    if isBackgroundPick then
      assert Pow16(8) == TWO_TO_32;
      HexLengthAtMost(Unsigned32(color), 8);
      "#" + FormatHex(Unsigned32(color), 8)
    else
      assert Pow16(6) == TWO_TO_24;
      HexLengthAtMost(Rgb(color), 6);
      "#" + FormatHex(Rgb(color), 6)
  }

  /** A background result is '#' and exactly 8 upper-case hex digits that parse
      back to the colour's 32 bits */
  lemma BackgroundResultFormat(color: Int32)
    ensures |ColorResult(true, color)| == 9 && ColorResult(true, color)[0] == '#'
    ensures forall i :: 1 <= i < 9 ==> IsHexDigit(ColorResult(true, color)[i])
    ensures ParseHex(ColorResult(true, color)[1..]) == Some(Unsigned32(color))
  {
    assert Pow16(8) == TWO_TO_32;
    FormatHexFits(Unsigned32(color), 8);
    assert ColorResult(true, color)[1..] == FormatHex(Unsigned32(color), 8);
  }

  /** A text result is '#' and exactly 6 upper-case hex digits that parse back to
      the colour's low 24 bits */
  lemma TextResultFormat(color: Int32)
    ensures |ColorResult(false, color)| == 7 && ColorResult(false, color)[0] == '#'
    ensures forall i :: 1 <= i < 7 ==> IsHexDigit(ColorResult(false, color)[i])
    ensures ParseHex(ColorResult(false, color)[1..]) == Some(Rgb(color))
  {
    assert Pow16(6) == TWO_TO_24;
    FormatHexFits(Rgb(color), 6);
    assert ColorResult(false, color)[1..] == FormatHex(Rgb(color), 6);
  }

  /** Two text colours give the same string exactly when they agree on red, green
      and blue: the alpha byte is lost */
  lemma TextResultIgnoresAlpha(a: Int32, b: Int32)
    ensures ColorResult(false, a) == ColorResult(false, b) <==> Rgb(a) == Rgb(b)
  {
    if ColorResult(false, a) == ColorResult(false, b) {
      TextResultFormat(a);
      TextResultFormat(b);
    }
  }

  /** Two background colours give the same string only when they are the same colour */
  lemma BackgroundResultIsInjective(a: Int32, b: Int32)
    ensures ColorResult(true, a) == ColorResult(true, b) <==> a == b
  {
    if ColorResult(true, a) == ColorResult(true, b) {
      BackgroundResultFormat(a);
      BackgroundResultFormat(b);
      assert Unsigned32(a) == Unsigned32(b);
    }
  }

  /** The store after the dialog closed: accepting puts the result under the
      preference's own key, cancelling puts nothing */
  function StoreAfterDialog(store: Store, isBackgroundPick: bool, key: string, picked: Option<Int32>): (r: Store)
    ensures picked.None? ==> r == store
    ensures picked.Some? ==> r.Keys == store.Keys + {key}
    ensures picked.Some? ==> r[key] == Str(ColorResult(isBackgroundPick, picked.value))
    ensures forall k :: k in store && k != key ==> r[k] == store[k]
  {
    match picked
    case None => store
    case Some(color) => store[key := Str(ColorResult(isBackgroundPick, color))]
  }

  /** The public showColorPickerDialog: it reads the initial colour (a stored value
      of another kind throws before the dialog opens) and, when the user accepts
      a colour, writes its string back under the same key. */
  method ShowColorPickerDialog(prefs: SharedPreferences, isBackgroundPick: bool, key: string, picked: Option<Int32>)
    returns (initialColor: Result<string>)
    modifies prefs
    ensures initialColor == InitialColor(old(prefs.values), isBackgroundPick, key)
    ensures initialColor.Err? ==> prefs.values == old(prefs.values)
    ensures initialColor.Ok? ==> prefs.values == StoreAfterDialog(old(prefs.values), isBackgroundPick, key, picked)
  {
    initialColor := InitialColor(prefs.values, isBackgroundPick, key);
    if initialColor.Err? {
      return;
    }
    if picked.Some? {
      prefs.Commit(map[key := Str(ColorResult(isBackgroundPick, picked.value))]);
      assert prefs.values == StoreAfterDialog(old(prefs.values), isBackgroundPick, key, picked);
    }
  }
}
