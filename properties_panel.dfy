/** The properties panel's data helpers: the `#rrggbb` colour parser and printer, the axis index
    of a transform edit, and the patches that the transform and material edits send to the
    store. */
module Panel {
  import opened Options
  import opened Ascii
  import Editor

  type Byte = x: int | 0 <= x < 256

  /** A colour with one byte per channel. */
  datatype Rgb = Rgb(r: Byte, g: Byte, b: Byte)

  /** The class `[a-f\d]` under the case-insensitive flag. */
  predicate IsHexDigit(c: char) {
    '0' <= c <= '9' || 'a' <= c <= 'f' || 'A' <= c <= 'F'
  }

  predicate AllHex(s: string) {
    forall i :: 0 <= i < |s| ==> IsHexDigit(s[i])
  }

  function HexValue(c: char): (d: nat)
    requires IsHexDigit(c)
    ensures d < 16
  {
    if '0' <= c <= '9' then c as int - '0' as int
    else if 'a' <= c <= 'f' then c as int - 'a' as int + 10
    else c as int - 'A' as int + 10
  }

  /** The lower-case digit `toString(16)` prints. */
  function HexChar(d: nat): (c: char)
    requires d < 16
    ensures IsHexDigit(c) && HexValue(c) == d && !IsUpper(c)
  {
    if d < 10 then ('0' as int + d) as char else ('a' as int + d - 10) as char
  }

  /** `parseInt(s, 16)` on two hex digits. */
  function ParsePair(s: string): (b: Byte)
    requires |s| == 2 && AllHex(s)
  {
    16 * HexValue(s[0]) + HexValue(s[1])
  }

  /** The six digits the pattern `^#?([a-f\d]{2}){3}$` captures, or nothing when it does not
      match: an optional `#` and then exactly six hex digits. */
  function Digits(hex: string): (r: Option<string>)
    ensures r.Some? ==> |r.value| == 6 && AllHex(r.value)
    ensures r.Some? <==> (|hex| == 7 && hex[0] == '#' && AllHex(hex[1..])) || (|hex| == 6 && AllHex(hex))
  {
    if |hex| == 7 && hex[0] == '#' && AllHex(hex[1..]) then Some(hex[1..])
    else if |hex| == 6 && AllHex(hex) then Some(hex)
    else None
  }

  /** `hexToRgb` at byte level: the three captured pairs parsed base 16, or null. */
  function HexToRgb(hex: string): (r: Option<Rgb>)
    ensures r.Some? <==> Digits(hex).Some?
  {
    match Digits(hex)
    case None => None
    case Some(d) => Some(Rgb(ParsePair(d[0..2]), ParsePair(d[2..4]), ParsePair(d[4..6])))
  }

  /** `n.toString(16)` for a natural number. */
  function ToHex(n: nat): (s: string)
    ensures |s| >= 1
    ensures n < 16 <==> |s| == 1
  {
    if n < 16 then [HexChar(n)] else ToHex(n / 16) + [HexChar(n % 16)]
  }

  /** `padStart(2, '0')`. */
  function PadTwo(s: string): (r: string)
    ensures |s| >= 2 ==> r == s
    ensures |s| < 2 ==> |r| == 2 && r[2 - |s|..] == s
  {
    if |s| >= 2 then s else seq(2 - |s|, _ => '0') + s
  }

  /** One channel as two lower-case hex digits. */
  function ByteHex(b: Byte): (s: string)
    ensures s == [HexChar(b / 16), HexChar(b % 16)]
    ensures |s| == 2 && AllHex(s) && !IsUpper(s[0]) && !IsUpper(s[1])
  {
    assert b >= 16 ==> ToHex(b / 16) == [HexChar(b / 16)];
    PadTwo(ToHex(b))
  }

  /** `rgbToHex` at byte level: `#` and the three channels. */
  function RgbToHex(c: Rgb): (s: string)
    ensures |s| == 7 && s[0] == '#' && AllHex(s[1..])
    ensures forall i :: 1 <= i < 7 ==> !IsUpper(s[i])
  {
    var x, y, z := ByteHex(c.r), ByteHex(c.g), ByteHex(c.b);
    JoinPairs(x, y, z);
    "#" + x + y + z
  }

  /** Joining three pairs of lower-case hex digits behind `#`. */
  lemma JoinPairs(x: string, y: string, z: string)
    requires |x| == 2 && AllHex(x) && !IsUpper(x[0]) && !IsUpper(x[1])
    requires |y| == 2 && AllHex(y) && !IsUpper(y[0]) && !IsUpper(y[1])
    requires |z| == 2 && AllHex(z) && !IsUpper(z[0]) && !IsUpper(z[1])
    ensures var s := "#" + x + y + z;
      |s| == 7 && s[0] == '#' && AllHex(s[1..]) && forall i :: 1 <= i < 7 ==> !IsUpper(s[i])
  {
    assert "#" + x + y + z == ['#', x[0], x[1], y[0], y[1], z[0], z[1]];
  }

  lemma ParseByteHex(b: Byte)
    ensures ParsePair(ByteHex(b)) == b
  {
  }

  /** Printing a colour and parsing it back gives the same colour. */
  lemma RgbRoundTrip(c: Rgb)
    ensures HexToRgb(RgbToHex(c)) == Some(c)
  {
    var s := RgbToHex(c);
    var d := s[1..];
    var a, b, e := ByteHex(c.r), ByteHex(c.g), ByteHex(c.b);
    assert s == "#" + a + b + e;
    assert d == a + b + e;
    assert Digits(s) == Some(d);
    assert d[0..2] == ByteHex(c.r) && d[2..4] == ByteHex(c.g) && d[4..6] == ByteHex(c.b);
    ParseByteHex(c.r);
    ParseByteHex(c.g);
    ParseByteHex(c.b);
  }

  /** Two hex digits printed back after parsing come out lower-cased. */
  lemma PairRoundTrip(s: string)
    requires |s| == 2 && AllHex(s)
    ensures ByteHex(ParsePair(s)) == LowerCase(s)
  {
    var b := ParsePair(s);
    assert b / 16 == HexValue(s[0]) && b % 16 == HexValue(s[1]);
    assert HexChar(HexValue(s[0])) == Lower(s[0]);
    assert HexChar(HexValue(s[1])) == Lower(s[1]);
  }

  /** An accepted string printed back after parsing is `#` and its digits in lower case. */
  lemma HexRoundTrip(hex: string)
    requires HexToRgb(hex).Some?
    ensures RgbToHex(HexToRgb(hex).value) == "#" + LowerCase(Digits(hex).value)
  {
    var d := Digits(hex).value;
    assert d == d[0..2] + d[2..4] + d[4..6];
    PrintParsed(d[0..2], d[2..4], d[4..6]);
  }

  /** Three parsed pairs print back as their six digits in lower case. */
  lemma PrintParsed(a: string, b: string, c: string)
    requires |a| == 2 && AllHex(a) && |b| == 2 && AllHex(b) && |c| == 2 && AllHex(c)
    ensures RgbToHex(Rgb(ParsePair(a), ParsePair(b), ParsePair(c))) == "#" + LowerCase(a + b + c)
  {
    PairRoundTrip(a);
    PairRoundTrip(b);
    PairRoundTrip(c);
    LowerCaseAppend(a, b);
    LowerCaseAppend(a + b, c);
  }

  lemma LowerCaseAppend(a: string, b: string)
    ensures LowerCase(a + b) == LowerCase(a) + LowerCase(b)
  {
  }

  /** The store keeps channels divided by 255. */
  function Normalized(c: Rgb): (r: Editor.Color)
    ensures 0.0 <= r.r <= 1.0 && 0.0 <= r.g <= 1.0 && 0.0 <= r.b <= 1.0
  {
    Editor.Color(c.r as real / 255.0, c.g as real / 255.0, c.b as real / 255.0)
  }

  /** `Math.round(x * 255)`: the nearest integer, halves rounding up. */
  function Channel(x: real): (n: int)
    ensures n as real <= x * 255.0 + 0.5 < n as real + 1.0
  {
    (x * 255.0 + 0.5).Floor
  }

  /** Scaling a normalised channel back by 255 and rounding recovers the byte exactly. */
  lemma ChannelOfNormalized(b: Byte)
    ensures Channel(b as real / 255.0) == b
  {
    assert (b as real / 255.0) * 255.0 == b as real;
  }

  /** The colour a stored colour prints as; its channels must round into a byte. */
  function ColorToHex(c: Editor.Color): (s: string)
    requires 0 <= Channel(c.r) < 256 && 0 <= Channel(c.g) < 256 && 0 <= Channel(c.b) < 256
  {
    RgbToHex(Rgb(Channel(c.r), Channel(c.g), Channel(c.b)))
  }

  /** The colour field's round trip through the store: a typed colour, normalised and printed
      again, reads back as its digits in lower case. */
  lemma StoredColorRoundTrip(hex: string)
    requires HexToRgb(hex).Some?
    ensures var c := Normalized(HexToRgb(hex).value);
      0 <= Channel(c.r) < 256 && 0 <= Channel(c.g) < 256 && 0 <= Channel(c.b) < 256
      && ColorToHex(c) == "#" + LowerCase(Digits(hex).value)
  {
    var rgb := HexToRgb(hex).value;
    NormalizedRoundTrip(rgb);
    HexRoundTrip(hex);
  }

  /** Rounding the normalised channels back gives the colour that was normalised. */
  lemma NormalizedRoundTrip(rgb: Rgb)
    ensures var c := Normalized(rgb);
      Channel(c.r) == rgb.r && Channel(c.g) == rgb.g && Channel(c.b) == rgb.b
  {
    ChannelOfNormalized(rgb.r);
    ChannelOfNormalized(rgb.g);
    ChannelOfNormalized(rgb.b);
  }

  /** The vector component an axis name edits: `x` is 0, `y` is 1, anything else 2. */
  function AxisIndex(axis: string): (i: nat)
    ensures i < 3
    ensures axis == "x" <==> i == 0
    ensures axis == "y" <==> i == 1
  {
    if axis == "x" then 0 else if axis == "y" then 1 else 2
  }

  datatype Component = Position | Rotation | Scale

  /** The patch a transform edit sends: the edited vector with one component replaced. */
  function TransformPatch(o: Editor.SceneObject, axis: string, component: Component, value: real): (p: Editor.Patch)
  {
    var i := AxisIndex(axis);
    match component
    case Position => Editor.NoChange.(position := Some(o.position.With(i, value)))
    case Rotation => Editor.NoChange.(rotation := Some(o.rotation.With(i, value)))
    case Scale => Editor.NoChange.(scale := Some(o.scale.With(i, value)))
  }

  /** A transform edit changes one component of one vector of the object and nothing else. */
  lemma TransformEdit(o: Editor.SceneObject, axis: string, component: Component, value: real)
    ensures var r := Editor.Apply(o, TransformPatch(o, axis, component, value));
      r.(position := o.position, rotation := o.rotation, scale := o.scale) == o
    ensures var r := Editor.Apply(o, TransformPatch(o, axis, component, value));
      component == Position ==>
        (r.position == o.position.With(AxisIndex(axis), value) && r.rotation == o.rotation && r.scale == o.scale)
    ensures var r := Editor.Apply(o, TransformPatch(o, axis, component, value));
      component == Rotation ==>
        (r.rotation == o.rotation.With(AxisIndex(axis), value) && r.position == o.position && r.scale == o.scale)
    ensures var r := Editor.Apply(o, TransformPatch(o, axis, component, value));
      component == Scale ==>
        (r.scale == o.scale.With(AxisIndex(axis), value) && r.position == o.position && r.rotation == o.rotation)
  {
  }

  /** A material edit names one field of the material. */
  datatype MaterialEdit = SetColor(color: Editor.Color) | SetOpacity(opacity: real)

  /** The patch a material edit sends: the current material with the one field replaced. */
  function MaterialPatch(o: Editor.SceneObject, edit: MaterialEdit): (p: Editor.Patch)
  {
    var m := match edit
      case SetColor(c) => o.material.(color := c)
      case SetOpacity(x) => o.material.(opacity := x);
    Editor.NoChange.(material := Some(m))
  }

  /** A material edit replaces only the named field and keeps the rest of the object. */
  lemma MaterialEditKeepsRest(o: Editor.SceneObject, edit: MaterialEdit)
    ensures var r := Editor.Apply(o, MaterialPatch(o, edit));
      && r.(material := o.material) == o
      && (edit.SetColor? ==> r.material.color == edit.color && r.material.opacity == o.material.opacity)
      && (edit.SetOpacity? ==> r.material.opacity == edit.opacity && r.material.color == o.material.color)
  {
  }
}
