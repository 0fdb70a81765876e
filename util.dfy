/**
 * Colour helpers: `colorLerp` clamps its parameter into [0, 1] and mixes two
 * RGB colours channel by channel; `toCSSColor` writes the comma form of the
 * `rgb()` function of section 5.1 of CSS Color Module Level 4.
 */
module Util {
  import opened Wrappers
  import opened Strings

  /** `Color = [number, number, number]`. */
  datatype Color = Color(r: real, g: real, b: real)

  const LowColor: Color := Color(50.0, 200.0, 50.0)
  const HighColor: Color := Color(255.0, 100.0, 100.0)

  /** `if (v < 0.0) v = 0.0; else if (v > 1) v = 1.0;`. */
  function Clamp(v: real): (t: real)
    ensures 0.0 <= t <= 1.0
    ensures v < 0.0 ==> t == 0.0
    ensures v > 1.0 ==> t == 1.0
    ensures 0.0 <= v <= 1.0 ==> t == v
  {
    if v < 0.0 then 0.0 else if v > 1.0 then 1.0 else v
  }

  /** The formula every channel uses: `c1[i] * (1.0 - v) + c2[i] * v`. */
  function Channel(a: real, b: real, t: real): real {
    a * (1.0 - t) + b * t
  }

  predicate Between(x: real, a: real, b: real) {
    (a <= x <= b) || (b <= x <= a)
  }

  lemma ChannelBetween(a: real, b: real, t: real)
    requires 0.0 <= t <= 1.0
    ensures Between(Channel(a, b, t), a, b)
  {
    assert Channel(a, b, t) == a + (b - a) * t;
    if a <= b {
      ScaledBetween(b - a, t);
    } else {
      ScaledBetween(a - b, t);
      assert (b - a) * t == -((a - b) * t);
    }
  }

  lemma ScaledBetween(d: real, t: real)
    requires d >= 0.0 && 0.0 <= t <= 1.0
    ensures 0.0 <= d * t <= d
  {
    assert d - d * t == d * (1.0 - t);
  }

  /** `colorLerp(c1, c2, v)`. */
  function ColorLerp(c1: Color, c2: Color, v: real): (c: Color)
    ensures v <= 0.0 ==> c == c1
    ensures v >= 1.0 ==> c == c2
    ensures Between(c.r, c1.r, c2.r) && Between(c.g, c1.g, c2.g) && Between(c.b, c1.b, c2.b)
  {
    var t := Clamp(v);
    ChannelBetween(c1.r, c2.r, t);
    ChannelBetween(c1.g, c2.g, t);
    ChannelBetween(c1.b, c2.b, t);
    Color(Channel(c1.r, c2.r, t), Channel(c1.g, c2.g, t), Channel(c1.b, c2.b, t))
  }

  /** Interpolating a colour with itself gives that colour, whatever the parameter. */
  lemma LerpSameColor(c: Color, v: real)
    ensures ColorLerp(c, c, v) == c
  {
    var t := Clamp(v);
    assert Channel(c.r, c.r, t) == c.r * ((1.0 - t) + t);
    assert Channel(c.g, c.g, t) == c.g * ((1.0 - t) + t);
    assert Channel(c.b, c.b, t) == c.b * ((1.0 - t) + t);
  }

  /**
   * From LowColor to HighColor red rises from 50 to 255, green falls from 200
   * to 100 and blue rises from 50 to 100, each monotonically in `v`.
   */
  lemma LowToHighIsMonotone(v: real, w: real)
    requires v <= w
    ensures ColorLerp(LowColor, HighColor, v).r <= ColorLerp(LowColor, HighColor, w).r
    ensures ColorLerp(LowColor, HighColor, v).g >= ColorLerp(LowColor, HighColor, w).g
    ensures ColorLerp(LowColor, HighColor, v).b <= ColorLerp(LowColor, HighColor, w).b
  {
    var s, t := Clamp(v), Clamp(w);
    assert s <= t;
    assert Channel(50.0, 255.0, s) == 50.0 + 205.0 * s;
    assert Channel(50.0, 255.0, t) == 50.0 + 205.0 * t;
    assert Channel(200.0, 100.0, s) == 200.0 - 100.0 * s;
    assert Channel(200.0, 100.0, t) == 200.0 - 100.0 * t;
    assert Channel(50.0, 100.0, s) == 50.0 + 50.0 * s;
    assert Channel(50.0, 100.0, t) == 50.0 + 50.0 * t;
  }

  /** Each channel of the result depends only on that channel of the two inputs. */
  lemma ChannelsAreIndependent(c1: Color, c2: Color, d1: Color, d2: Color, v: real)
    ensures c1.r == d1.r && c2.r == d2.r ==> ColorLerp(c1, c2, v).r == ColorLerp(d1, d2, v).r
    ensures c1.g == d1.g && c2.g == d2.g ==> ColorLerp(c1, c2, v).g == ColorLerp(d1, d2, v).g
    ensures c1.b == d1.b && c2.b == d2.b ==> ColorLerp(c1, c2, v).b == ColorLerp(d1, d2, v).b
  {
  }

  const CssPrefix: string := "rgb("

  /** `` `rgb(${c[0]},${c[1]},${c[2]})` ``; `show` is JavaScript's number-to-string conversion. */
  function ToCssColor(c: Color, show: real -> string): string {
    CssPrefix + show(c.r) + "," + show(c.g) + "," + show(c.b) + ")"
  }

  /** Reads back the three channel texts of an `rgb(r,g,b)` string: the partner of ToCssColor. */
  function ParseCssColor(s: string): Option<seq<string>> {
    if |s| >= |CssPrefix| + 1 && s[..|CssPrefix|] == CssPrefix && s[|s| - 1] == ')' then
      var parts := Split(s[|CssPrefix|..|s| - 1], ',');
      if |parts| == 3 then Some(parts) else None
    else None
  }

  /**
   * The CSS text lists the three channels in order, separated by single commas
   * with no spaces, so it can be read back as long as the number texts hold no
   * comma of their own.
   */
  lemma CssColorRoundTrip(c: Color, show: real -> string)
    requires ',' !in show(c.r) && ',' !in show(c.g) && ',' !in show(c.b)
    ensures ParseCssColor(ToCssColor(c, show)) == Some([show(c.r), show(c.g), show(c.b)])
  {
    var r, g, b := show(c.r), show(c.g), show(c.b);
    var s := ToCssColor(c, show);
    var inner := (r + [','] + g) + [','] + b;
    assert s == CssPrefix + inner + ")";
    assert s[..|CssPrefix|] == CssPrefix;
    assert s[|CssPrefix|..|s| - 1] == inner;
    SplitWithoutSeparator(r, ',');
    SplitWithoutSeparator(g, ',');
    SplitWithoutSeparator(b, ',');
    SplitAppend(r, g, ',');
    SplitAppend(r + [','] + g, b, ',');
    assert Split(inner, ',') == [r, g, b];
  }
}
