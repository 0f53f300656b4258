/**
 * The four-channel colour value: red, green, blue and alpha in linear light,
 * alpha not premultiplied. Channels are an abstract number (`real`), not
 * IEEE-754 `f32`; nothing is clamped.
 */
module Colors {
  import opened Text

  datatype Color = Color(red: real, green: real, blue: real, alpha: real)

  /** Four 8-bit sRGB-encoded channels, the input of `Color::rgba8`. */
  datatype Srgba8 = Srgba8(r: byte, g: byte, b: byte, a: byte)

  /** `Color::default()`, which is `Color::BLACK`: opaque black. */
  const DefaultColor: Color := Color(0.0, 0.0, 0.0, 1.0)

  /** `Color::TRANSPARENT`, written out as linear channels. */
  const Transparent: Color := Color(0.0, 0.0, 0.0, 0.0)

  /** `Color::rgb8`: each byte goes through the sRGB transfer function
      `toLinear` (foreign code, a parameter here); alpha is 1. */
  function Rgb8(r: byte, g: byte, b: byte, toLinear: byte -> real): (c: Color)
    ensures c.alpha == 1.0
    ensures c.red == toLinear(r) && c.green == toLinear(g) && c.blue == toLinear(b)
  {
    Color(toLinear(r), toLinear(g), toLinear(b), 1.0)
  }

  /** `Color::rgba8`: as `rgb8`, with alpha scaled linearly from 0..255 to 0..1
      and never gamma-decoded. */
  function Rgba8(r: byte, g: byte, b: byte, a: byte, toLinear: byte -> real): (c: Color)
    ensures 0.0 <= c.alpha <= 1.0
    ensures c.alpha * 255.0 == a as real
    ensures c.(alpha := 1.0) == Rgb8(r, g, b, toLinear)
  {
    Rgb8(r, g, b, toLinear).(alpha := a as real / 255.0)
  }

  /** The colour a byte quadruple denotes: the fourth byte is the alpha,
      scaled to `[0, 1]`, and the others go through the transfer function. */
  function FromSrgba8(p: Srgba8, toLinear: byte -> real): (c: Color)
    ensures 0.0 <= c.alpha <= 1.0 && c.alpha * 255.0 == p.a as real
    ensures c.(alpha := 1.0) == Rgb8(p.r, p.g, p.b, toLinear)
  {
    Rgba8(p.r, p.g, p.b, p.a, toLinear)
  }

  /** Full alpha through `rgba8` is the same colour as `rgb8`. */
  lemma Rgba8Opaque(r: byte, g: byte, b: byte, toLinear: byte -> real)
    ensures Rgba8(r, g, b, 255, toLinear) == Rgb8(r, g, b, toLinear)
  {
  }

  /** `BLACK` is `rgb8(0, 0, 0)`; it is the default colour because the sRGB
      transfer function maps 0 to 0. */
  lemma DefaultIsBlack(toLinear: byte -> real)
    requires toLinear(0) == 0.0
    ensures Rgb8(0, 0, 0, toLinear) == DefaultColor
  {
  }

  /** `TRANSPARENT` equals `rgba8(0, 0, 0, 0)` for the same reason. */
  lemma TransparentIsRgba8Zero(toLinear: byte -> real)
    requires toLinear(0) == 0.0
    ensures Rgba8(0, 0, 0, 0, toLinear) == Transparent
  {
  }

  /** `From<[u8; 3]>`: opaque. */
  function FromBytes3(v: seq<byte>, toLinear: byte -> real): (c: Color)
    requires |v| == 3
    ensures c.alpha == 1.0
  {
    Rgb8(v[0], v[1], v[2], toLinear)
  }

  /** `From<[u8; 4]>`: the fourth byte is the alpha, scaled to `[0, 1]`. */
  function FromBytes4(v: seq<byte>, toLinear: byte -> real): (c: Color)
    requires |v| == 4
    ensures 0.0 <= c.alpha <= 1.0 && c.alpha * 255.0 == v[3] as real
    ensures c.(alpha := 1.0) == Rgb8(v[0], v[1], v[2], toLinear)
  {
    Rgba8(v[0], v[1], v[2], v[3], toLinear)
  }

  /** Three bytes are the four bytes with a full alpha byte appended; both
      conversions agree with the parser's byte quadruples. */
  lemma FromBytesAgree(v: seq<byte>, toLinear: byte -> real)
    requires |v| == 3
    ensures FromBytes3(v, toLinear) == FromBytes4(v + [255], toLinear)
    ensures FromBytes4(v + [255], toLinear) == FromSrgba8(Srgba8(v[0], v[1], v[2], 255), toLinear)
  {
    Rgba8Opaque(v[0], v[1], v[2], toLinear);
  }

  /** `with_alpha_factor`: alpha is multiplied by `k`; no other channel changes. */
  function WithAlphaFactor(c: Color, k: real): (r: Color)
    ensures r.alpha == c.alpha * k
    ensures r.red == c.red && r.green == c.green && r.blue == c.blue
  {
    c.(alpha := c.alpha * k)
  }

  lemma WithAlphaFactorOne(c: Color)
    ensures WithAlphaFactor(c, 1.0) == c
  {
  }

  /** A factor of zero makes the colour fully transparent and keeps its hue. */
  lemma WithAlphaFactorZero(c: Color)
    ensures WithAlphaFactor(c, 0.0) == c.(alpha := 0.0)
  {
  }

  /** Two scalings compose into one by the product of the factors. */
  lemma WithAlphaFactorCompose(c: Color, j: real, k: real)
    ensures WithAlphaFactor(WithAlphaFactor(c, j), k) == WithAlphaFactor(c, j * k)
  {
    assert c.alpha * j * k == c.alpha * (j * k);
  }

  /** `premultiply`: red, green and blue are scaled by alpha; alpha is kept. */
  function Premultiply(c: Color): (r: Color)
    ensures r.alpha == c.alpha
    ensures r.red == c.red * c.alpha && r.green == c.green * c.alpha && r.blue == c.blue * c.alpha
  {
    Color(c.red * c.alpha, c.green * c.alpha, c.blue * c.alpha, c.alpha)
  }

  /** Premultiplying an opaque colour changes nothing. */
  lemma PremultiplyOpaque(c: Color)
    requires c.alpha == 1.0
    ensures Premultiply(c) == c
  {
  }

  /** Premultiplying a transparent colour loses its hue. */
  lemma PremultiplyTransparent(c: Color)
    requires c.alpha == 0.0
    ensures Premultiply(c) == Transparent
  {
  }

  /** Premultiplying twice equals premultiplying once exactly when alpha is
      0 or 1, or the colour's other channels are all zero. */
  lemma PremultiplyIdempotent(c: Color)
    ensures Premultiply(Premultiply(c)) == Premultiply(c) <==>
      c.alpha == 0.0 || c.alpha == 1.0 || (c.red == 0.0 && c.green == 0.0 && c.blue == 0.0)
  {
    var a := c.alpha;
    if Premultiply(Premultiply(c)) == Premultiply(c) && a != 0.0 && a != 1.0 {
      assert c.red * a * a == c.red * a;
      assert c.red * a * (a - 1.0) == 0.0;
      assert c.green * a * (a - 1.0) == 0.0;
      assert c.blue * a * (a - 1.0) == 0.0;
    }
  }

  /** The scalar `lerp(a, b, t) = a * (1 - t) + b * t`: `a` at `t = 0`, `b` at
      `t = 1`, and moving by `b - a` per unit of `t`. */
  function LerpScalar(a: real, b: real, t: real): (r: real)
    ensures t == 0.0 ==> r == a
    ensures t == 1.0 ==> r == b
    ensures r == a + (b - a) * t
  {
    a * (1.0 - t) + b * t
  }

  /** `Color::lerp`: each of the four channels, alpha included, is
      interpolated on its own, with no premultiplication. */
  function Lerp(a: Color, b: Color, t: real): (r: Color)
    ensures r.red == LerpScalar(a.red, b.red, t)
    ensures r.green == LerpScalar(a.green, b.green, t)
    ensures r.blue == LerpScalar(a.blue, b.blue, t)
    ensures r.alpha == LerpScalar(a.alpha, b.alpha, t)
  {
    Color(LerpScalar(a.red, b.red, t), LerpScalar(a.green, b.green, t),
          LerpScalar(a.blue, b.blue, t), LerpScalar(a.alpha, b.alpha, t))
  }

  /** Interpolation starts at `a` and ends at `b`. */
  lemma LerpEndpoints(a: Color, b: Color)
    ensures Lerp(a, b, 0.0) == a && Lerp(a, b, 1.0) == b
  {
  }

  /** For `t` in `[0, 1]` the scalar interpolation stays between its endpoints. */
  lemma LerpScalarBetween(a: real, b: real, t: real)
    requires 0.0 <= t <= 1.0
    ensures a <= b ==> a <= LerpScalar(a, b, t) <= b
    ensures b <= a ==> b <= LerpScalar(a, b, t) <= a
  {
    var d := b - a;
    assert a * (1.0 - t) == a - a * t;
    assert d * t == b * t - a * t;
    assert LerpScalar(a, b, t) == a + d * t;
    assert d * t + d * (1.0 - t) == d;
    if a <= b {
      assert 0.0 <= d * t && 0.0 <= d * (1.0 - t);
    } else {
      assert d * t <= 0.0 && d * (1.0 - t) <= 0.0;
    }
  }

  /** For `t` in `[0, 1]`, every channel of the result lies between the
      endpoints' channels; in particular two alphas in `[0, 1]` give an alpha
      in `[0, 1]`. */
  lemma LerpBetween(a: Color, b: Color, t: real)
    requires 0.0 <= t <= 1.0
    ensures var r := Lerp(a, b, t);
      && (a.red <= b.red ==> a.red <= r.red <= b.red)
      && (b.red <= a.red ==> b.red <= r.red <= a.red)
      && (a.green <= b.green ==> a.green <= r.green <= b.green)
      && (b.green <= a.green ==> b.green <= r.green <= a.green)
      && (a.blue <= b.blue ==> a.blue <= r.blue <= b.blue)
      && (b.blue <= a.blue ==> b.blue <= r.blue <= a.blue)
      && (a.alpha <= b.alpha ==> a.alpha <= r.alpha <= b.alpha)
      && (b.alpha <= a.alpha ==> b.alpha <= r.alpha <= a.alpha)
    ensures 0.0 <= a.alpha <= 1.0 && 0.0 <= b.alpha <= 1.0 ==> 0.0 <= Lerp(a, b, t).alpha <= 1.0
  {
    LerpScalarBetween(a.red, b.red, t);
    LerpScalarBetween(a.green, b.green, t);
    LerpScalarBetween(a.blue, b.blue, t);
    LerpScalarBetween(a.alpha, b.alpha, t);
  }

  /** Interpolating a colour with itself gives that colour at every `t`. */
  lemma LerpSame(a: Color, t: real)
    ensures Lerp(a, a, t) == a
  {
  }

  /** `From<Color> for [f32; 4]`: channel order R, G, B, A. */
  function ToArray(c: Color): (v: seq<real>)
    ensures |v| == 4
    ensures v[0] == c.red && v[1] == c.green && v[2] == c.blue && v[3] == c.alpha
  {
    [c.red, c.green, c.blue, c.alpha]
  }

  /** `From<[f32; 4]> for Color`: channel order R, G, B, A. */
  function FromArray(v: seq<real>): (c: Color)
    requires |v| == 4
    ensures c.red == v[0] && c.green == v[1] && c.blue == v[2] && c.alpha == v[3]
  {
    Color(v[0], v[1], v[2], v[3])
  }

  /** The array conversions are inverse to each other, in both directions. */
  lemma ArrayRoundTrip(c: Color, v: seq<real>)
    requires |v| == 4
    ensures FromArray(ToArray(c)) == c
    ensures ToArray(FromArray(v)) == v
  {
  }
}
