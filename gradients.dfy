/**
 * Gradients: colour stops, the three gradient kinds, the constructors and
 * builders of `Gradient`, and the `ColorStopsSource` implementations that fill
 * a gradient's stop buffer.
 *
 * Offsets are `F32` values so that bit-pattern equality and `partial_cmp` can
 * differ as they do in the source; points, radii and angles are reals.
 */
module Gradients {
  import opened Wrappers
  import opened Float
  import opened Colors
  import opened ExtendMode

  // ---------------------------------------------------------------------------
  // Colour stops

  /** `ColorStop`: a normalized offset and the colour at it. */
  datatype ColorStop = ColorStop(offset: F32, color: Color)

  /** `#[derive(Default)]`: offset `0.0` and the default colour. */
  const DefaultStop: ColorStop := ColorStop(PosZero, DefaultColor)

  /** `PartialEq for ColorStop`: offsets compared by `to_bits`, colours by `==`. */
  predicate StopEq(a: ColorStop, b: ColorStop) {
    SameBits(a.offset, b.offset) && a.color == b.color
  }

  /** Comparing offsets by bit pattern makes stop equality structural
      equality of the model's stops, so it is reflexive even for a NaN offset.
      The colours' real channels are compared exactly. */
  lemma StopEqIsIdentity(a: ColorStop, b: ColorStop)
    ensures StopEq(a, b) <==> a == b
  {
  }

  /** Stops at `0.0` and `-0.0` differ, although their offsets are IEEE-equal;
      a stop with a NaN offset equals itself. */
  lemma StopEqByBits(c: Color, p: nat)
    ensures !StopEq(ColorStop(PosZero, c), ColorStop(NegZero, c))
    ensures FloatEq(PosZero, NegZero)
    ensures StopEq(ColorStop(NaN(p), c), ColorStop(NaN(p), c)) && !FloatEq(NaN(p), NaN(p))
  {
  }

  /** `PartialOrd for ColorStop`: the offsets' `partial_cmp`. */
  function StopPartialCmp(a: ColorStop, b: ColorStop): (r: Option<Ordering>)
    ensures r.None? <==> a.offset.NaN? || b.offset.NaN?
  {
    PartialCmp(a.offset, b.offset)
  }

  /** The ordering ignores colours entirely. */
  lemma StopPartialCmpIgnoresColor(a: ColorStop, b: ColorStop, c: Color, d: Color)
    ensures StopPartialCmp(a, b) == StopPartialCmp(a.(color := c), b.(color := d))
  {
  }

  /** `partial_cmp` may say `Equal` of stops that are not `==`: the ordering
      and the equality disagree at signed zeros and at different colours. */
  lemma StopOrderNotEquality(c: Color, d: Color)
    requires c != d
    ensures StopPartialCmp(ColorStop(PosZero, c), ColorStop(NegZero, c)) == Some(Equal)
    ensures !StopEq(ColorStop(PosZero, c), ColorStop(NegZero, c))
    ensures StopPartialCmp(ColorStop(One, c), ColorStop(One, d)) == Some(Equal)
    ensures !StopEq(ColorStop(One, c), ColorStop(One, d))
  {
  }

  /** `ColorStop::with_alpha_factor`: `color.alpha *= alpha` on a copy. */
  function StopWithAlphaFactor(s: ColorStop, k: real): (r: ColorStop)
    ensures SameBits(r.offset, s.offset)
    ensures r.color == WithAlphaFactor(s.color, k)
  {
    var color := s.color.(alpha := s.color.alpha * k);
    ColorStop(s.offset, color)
  }

  /** Only alpha changes; a factor of one changes nothing; factors compose. */
  lemma StopWithAlphaFactorProperties(s: ColorStop, j: real, k: real)
    ensures var r := StopWithAlphaFactor(s, k);
      && r.color.red == s.color.red && r.color.green == s.color.green && r.color.blue == s.color.blue
      && r.color.alpha == s.color.alpha * k
    ensures StopWithAlphaFactor(s, 1.0) == s
    ensures StopWithAlphaFactor(StopWithAlphaFactor(s, j), k) == StopWithAlphaFactor(s, j * k)
  {
    WithAlphaFactorCompose(s.color, j, k);
  }

  /** `From<(f32, Color)> for ColorStop`. */
  function StopFromPair(offset: F32, color: Color): (r: ColorStop)
    ensures StopEq(r, ColorStop(offset, color))
  {
    ColorStop(offset, color)
  }

  // ---------------------------------------------------------------------------
  // Gradients

  /** `kurbo::Point`; its default is the origin. */
  datatype Point = Point(x: real, y: real)

  const Origin: Point := Point(0.0, 0.0)

  /** `GradientKind`. */
  datatype GradientKind =
    | Linear(start: Point, end: Point)
    | Radial(startCenter: Point, startRadius: real, endCenter: Point, endRadius: real)
    | Sweep(center: Point, startAngle: real, endAngle: real)

  /** `Gradient`; the `SmallVec` of stops is a sequence. */
  datatype Gradient = Gradient(kind: GradientKind, extend: Extend, stops: seq<ColorStop>)

  /** What every constructor leaves besides the kind: extend `Pad`, no stops. */
  predicate IsBare(g: Gradient) {
    g.extend == Pad && g.stops == []
  }

  /** `Gradient::default`: a linear gradient from the origin to the origin. */
  function DefaultGradient(): (g: Gradient)
    ensures IsBare(g) && g.kind.Linear?
  {
    Gradient(Linear(Origin, Origin), DefaultExtend, [])
  }

  /** `Gradient::new_linear`. */
  function NewLinear(start: Point, end: Point): (g: Gradient)
    ensures IsBare(g) && g.kind.Linear?
  {
    Gradient(Linear(start, end), DefaultExtend, [])
  }

  /** `Gradient::new_radial`: one centre, growing from radius zero. */
  function NewRadial(center: Point, radius: real): (g: Gradient)
    ensures IsBare(g) && g.kind.Radial?
  {
    Gradient(Radial(center, 0.0, center, radius), DefaultExtend, [])
  }

  /** `Gradient::new_two_point_radial`. */
  function NewTwoPointRadial(startCenter: Point, startRadius: real, endCenter: Point, endRadius: real): (g: Gradient)
    ensures IsBare(g) && g.kind.Radial?
  {
    Gradient(Radial(startCenter, startRadius, endCenter, endRadius), DefaultExtend, [])
  }

  /** `Gradient::new_sweep`. */
  function NewSweep(center: Point, startAngle: real, endAngle: real): (g: Gradient)
    ensures IsBare(g) && g.kind.Sweep?
  {
    Gradient(Sweep(center, startAngle, endAngle), DefaultExtend, [])
  }

  /** The default gradient is the linear one between two default points, and
      a radial gradient is the two-point one with equal centres and a zero
      start radius. */
  lemma ConstructorRelations(center: Point, radius: real)
    ensures DefaultGradient() == NewLinear(Origin, Origin)
    ensures NewRadial(center, radius) == NewTwoPointRadial(center, 0.0, center, radius)
    ensures NewRadial(center, radius).kind.startCenter == NewRadial(center, radius).kind.endCenter
  {
  }

  /** Each constructor keeps its arguments in the kind it builds. */
  lemma ConstructorsKeepArguments(p: Point, q: Point, r1: real, r2: real)
    ensures NewLinear(p, q).kind == Linear(p, q)
    ensures NewTwoPointRadial(p, r1, q, r2).kind == Radial(p, r1, q, r2)
    ensures NewSweep(p, r1, r2).kind == Sweep(p, r1, r2)
  {
  }

  /** `Gradient::with_extend`. */
  function WithExtend(g: Gradient, mode: Extend): (r: Gradient)
    ensures r.extend == mode && r.kind == g.kind && r.stops == g.stops
  {
    g.(extend := mode)
  }

  /** The last mode set wins, and setting the current mode changes nothing. */
  lemma WithExtendOverrides(g: Gradient, a: Extend, b: Extend)
    ensures WithExtend(WithExtend(g, a), b) == WithExtend(g, b)
    ensures WithExtend(g, g.extend) == g
  {
  }

  // ---------------------------------------------------------------------------
  // Stop sources

  /** A value that is `Into<ColorStop>`: a stop, or an `(f32, Color)` pair. */
  datatype StopLike = Stop(stop: ColorStop) | Pair(offset: F32, color: Color)

  function IntoStop(x: StopLike): ColorStop {
    match x
    case Stop(s) => s
    case Pair(o, c) => StopFromPair(o, c)
  }

  /** The `ColorStopsSource` implementations. */
  datatype ColorStopsSource =
    | StopSlice(items: seq<StopLike>)     // `&[T]` with `T: Into<ColorStop>`
    | StopArray(items: seq<StopLike>)     // `[T; N]` with `T: Into<ColorStop>`
    | ColorSlice(colors: seq<Color>)      // `&[Color]`
    | ColorArray(colors: seq<Color>)      // `[Color; N]`

  /** Every item converted, in order. */
  function IntoStops(items: seq<StopLike>): (r: seq<ColorStop>)
    ensures |r| == |items|
  {
    seq(|items|, i requires 0 <= i < |items| => IntoStop(items[i]))
  }

  /** `(len - 1).max(1)`, taken only for a non-empty slice. */
  function Denominator(n: nat): (d: nat)
    requires n > 0
    ensures d >= 1 && d >= n - 1 && (d == 1 || d == n - 1)
  {
    if n - 1 > 1 then n - 1 else 1
  }

  /** The offset given to colour `i` of `n`: `i as f32 / denom`. */
  function SynthesizedOffset(i: nat, n: nat): (f: F32)
    requires i < n
    ensures f.Finite? && Value(f) * Denominator(n) as real == i as real
  {
    FromReal(i as real / Denominator(n) as real)
  }

  /** The stops made from bare colours: evenly spaced over `[0, 1]`. */
  function SynthesizedStops(colors: seq<Color>): (r: seq<ColorStop>)
    ensures |r| == |colors|
  {
    if |colors| == 0 then []
    else seq(|colors|, i requires 0 <= i < |colors| => ColorStop(SynthesizedOffset(i, |colors|), colors[i]))
  }

  /** What `collect_stops` appends for a source. */
  function SourceStops(src: ColorStopsSource): (r: seq<ColorStop>)
    ensures src.StopSlice? || src.StopArray? ==> |r| == |src.items|
    ensures src.ColorSlice? || src.ColorArray? ==> |r| == |src.colors|
  {
    match src
    case StopSlice(items) => IntoStops(items)
    case StopArray(items) => IntoStops(items)
    case ColorSlice(colors) => SynthesizedStops(colors)
    case ColorArray(colors) => SynthesizedStops(colors)
  }

  /** The stop buffer a gradient owns while `with_stops` refills it. */
  class StopVec {
    var stops: seq<ColorStop>

    constructor (initial: seq<ColorStop>)
      ensures stops == initial
    {
      stops := initial;
    }

    /** `SmallVec::clear`. */
    method Clear()
      modifies this
      ensures stops == []
    {
      stops := [];
    }

    /** `SmallVec::push`. */
    method Push(s: ColorStop)
      modifies this
      ensures stops == old(stops) + [s]
    {
      stops := stops + [s];
    }
  }

  /** `collect_stops` for `&[T]` and `[T; N]`: push each item, converted. */
  method CollectStopLikes(items: seq<StopLike>, vec: StopVec)
    modifies vec
    ensures vec.stops == old(vec.stops) + IntoStops(items)
  {
    for i := 0 to |items|
      invariant vec.stops == old(vec.stops) + IntoStops(items[..i])
    {
      vec.Push(IntoStop(items[i]));
      assert IntoStops(items[..i + 1]) == IntoStops(items[..i]) + [IntoStop(items[i])];
    }
    assert items[..|items|] == items;
  }

  /** `collect_stops` for `&[Color]` (and `[Color; N]`, which defers to it):
      nothing for an empty slice, otherwise colour `i` at `i / denom`. */
  method CollectColors(colors: seq<Color>, vec: StopVec)
    modifies vec
    ensures vec.stops == old(vec.stops) + SynthesizedStops(colors)
  {
    if |colors| != 0 {
      var n := |colors|;
      var denom := Denominator(n) as real;
      for i := 0 to n
        invariant vec.stops == old(vec.stops) + SynthesizedStops(colors)[..i]
      {
        vec.Push(ColorStop(FromReal(i as real / denom), colors[i]));
        assert SynthesizedStops(colors)[..i + 1] == SynthesizedStops(colors)[..i] + [SynthesizedStops(colors)[i]];
      }
      assert SynthesizedStops(colors)[..n] == SynthesizedStops(colors);
    }
  }

  /** `ColorStopsSource::collect_stops`: append the source's stops. */
  method CollectStops(src: ColorStopsSource, vec: StopVec)
    modifies vec
    ensures vec.stops == old(vec.stops) + SourceStops(src)
  {
    match src
    case StopSlice(items) => CollectStopLikes(items, vec);
    case StopArray(items) => CollectStopLikes(items, vec);
    case ColorSlice(colors) => CollectColors(colors, vec);
    case ColorArray(colors) => CollectColors(colors, vec);
  }

  /** `Gradient::with_stops`: clear the gradient's buffer, then collect into
      it. The old stops are gone; nothing but the stops changes. */
  method WithStops(g: Gradient, src: ColorStopsSource) returns (r: Gradient)
    ensures r.kind == g.kind && r.extend == g.extend
    ensures r.stops == SourceStops(src)
  {
    var vec := new StopVec(g.stops);
    vec.Clear();
    CollectStops(src, vec);
    r := g.(stops := vec.stops);
  }

  // ---------------------------------------------------------------------------
  // Properties of the stop sources

  /** Converted items keep their order, and each is the stop the item denotes. */
  lemma IntoStopsPreserves(items: seq<StopLike>)
    ensures forall i | 0 <= i < |items| :: StopEq(IntoStops(items)[i], IntoStop(items[i]))
    ensures forall i | 0 <= i < |items| :: items[i].Pair? ==>
      IntoStops(items)[i].offset == items[i].offset && IntoStops(items)[i].color == items[i].color
    ensures forall i | 0 <= i < |items| :: items[i].Stop? ==> IntoStops(items)[i] == items[i].stop
  {
  }

  /** Stops given as stops are copied unchanged. */
  lemma IntoStopsOfStops(stops: seq<ColorStop>)
    ensures IntoStops(seq(|stops|, i requires 0 <= i < |stops| => Stop(stops[i]))) == stops
  {
  }

  /** Synthesized stops keep the colours and their order. */
  lemma SynthesizedColors(colors: seq<Color>)
    ensures forall i | 0 <= i < |colors| :: SynthesizedStops(colors)[i].color == colors[i]
  {
  }

  /** Every synthesized offset is finite and lies in `[0, 1]`; the first is `+0.0`. */
  lemma SynthesizedOffsetRange(colors: seq<Color>)
    ensures forall i | 0 <= i < |colors| ::
      SynthesizedStops(colors)[i].offset.Finite? && 0.0 <= Value(SynthesizedStops(colors)[i].offset) <= 1.0
    ensures |colors| > 0 ==> SynthesizedStops(colors)[0].offset == PosZero
  {
    var n := |colors|;
    forall i | 0 <= i < n
      ensures 0.0 <= Value(SynthesizedStops(colors)[i].offset) <= 1.0
    {
      var d := Denominator(n) as real;
      assert i as real <= d;
      assert i as real / d <= 1.0;
    }
  }

  /** With two colours or more, the last stop is at `1.0`. */
  lemma SynthesizedLastOffset(colors: seq<Color>)
    requires |colors| >= 2
    ensures SynthesizedStops(colors)[|colors| - 1].offset == One
  {
    var n := |colors|;
    assert Denominator(n) == n - 1;
    assert (n - 1) as real / (n - 1) as real == 1.0;
  }

  /** A single colour sits at offset `0.0`. */
  lemma SynthesizedSingle(c: Color)
    ensures SynthesizedStops([c]) == [ColorStop(PosZero, c)]
  {
  }

  /** Three colours sit at `0`, `0.5` and `1`. */
  lemma SynthesizedThree(a: Color, b: Color, c: Color)
    ensures SynthesizedStops([a, b, c]) ==
      [ColorStop(PosZero, a), ColorStop(FromReal(0.5), b), ColorStop(One, c)]
  {
    assert 1.0 / 2.0 == 0.5;
    assert 2.0 / 2.0 == 1.0;
  }

  /** The synthesized offsets strictly increase, so the stops are sorted
      under the stops' `partial_cmp`. */
  lemma SynthesizedSorted(colors: seq<Color>, i: nat, j: nat)
    requires i < j < |colors|
    ensures Value(SynthesizedStops(colors)[i].offset) < Value(SynthesizedStops(colors)[j].offset)
    ensures StopPartialCmp(SynthesizedStops(colors)[i], SynthesizedStops(colors)[j]) == Some(Less)
  {
    DivStrictlyMonotone(i as real, j as real, Denominator(|colors|) as real);
  }

  /** Dividing by a positive number keeps a strict order. */
  lemma DivStrictlyMonotone(x: real, y: real, d: real)
    requires x < y && 0.0 < d
    ensures x / d < y / d
  {
    assert x / d * d == x && y / d * d == y;
  }

  /** An empty source of either kind gives no stops, so `with_stops` empties the gradient. */
  lemma EmptySources()
    ensures SourceStops(StopSlice([])) == [] && SourceStops(StopArray([])) == []
    ensures SourceStops(ColorSlice([])) == [] && SourceStops(ColorArray([])) == []
  {
  }

  /** Slice and array sources of the same items give the same stops. */
  lemma SliceAndArrayAgree(items: seq<StopLike>, colors: seq<Color>)
    ensures SourceStops(StopSlice(items)) == SourceStops(StopArray(items))
    ensures SourceStops(ColorSlice(colors)) == SourceStops(ColorArray(colors))
  {
  }

  // ---------------------------------------------------------------------------
  // Scaling the alpha of every stop (used by `Brush::with_alpha_factor`)

  /** Every stop through `ColorStop::with_alpha_factor`. */
  function ScaleStopsAlpha(stops: seq<ColorStop>, k: real): (r: seq<ColorStop>)
    ensures |r| == |stops|
  {
    seq(|stops|, i requires 0 <= i < |stops| => StopWithAlphaFactor(stops[i], k))
  }

  /** Scaling keeps the count, every offset (bit for bit) and the order of the
      stops, and every colour channel but alpha. */
  lemma ScaleStopsAlphaKeeps(stops: seq<ColorStop>, k: real)
    ensures |ScaleStopsAlpha(stops, k)| == |stops|
    ensures forall i | 0 <= i < |stops| :: ScaleStopsAlpha(stops, k)[i].offset == stops[i].offset
    ensures forall i | 0 <= i < |stops| ::
      ScaleStopsAlpha(stops, k)[i].color == stops[i].color.(alpha := stops[i].color.alpha * k)
  {
  }

  /** A factor of one is the identity on stops. */
  lemma ScaleStopsAlphaOne(stops: seq<ColorStop>)
    ensures ScaleStopsAlpha(stops, 1.0) == stops
  {
    forall i | 0 <= i < |stops|
      ensures ScaleStopsAlpha(stops, 1.0)[i] == stops[i]
    {
      StopWithAlphaFactorProperties(stops[i], 1.0, 1.0);
    }
  }

  /** Scaling twice is scaling once by the product. */
  lemma ScaleStopsAlphaCompose(stops: seq<ColorStop>, j: real, k: real)
    ensures ScaleStopsAlpha(ScaleStopsAlpha(stops, j), k) == ScaleStopsAlpha(stops, j * k)
  {
    forall i | 0 <= i < |stops|
      ensures ScaleStopsAlpha(ScaleStopsAlpha(stops, j), k)[i] == ScaleStopsAlpha(stops, j * k)[i]
    {
      StopWithAlphaFactorProperties(stops[i], j, k);
    }
  }
}
