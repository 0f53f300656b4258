/**
 * Brushes: the colour content of a filled or stroked shape, and its borrowed
 * mirror `BrushRef`. `Image` is not part of this model: it is the type
 * parameter `Img`, and `Image::with_alpha_factor` is the function parameter
 * `scaleImage`.
 */
module Brushes {
  import opened Text
  import opened Colors
  import Gradients

  /** `Brush`. */
  datatype Brush<Img> =
    | Solid(color: Color)
    | Gradient(gradient: Gradients.Gradient)
    | Image(image: Img)

  /** `BrushRef`: the same alternatives, gradient and image borrowed. The
      borrow is a copy of the value here; lifetimes are not modelled. */
  datatype BrushRef<Img> =
    | SolidRef(color: Color)
    | GradientRef(gradient: Gradients.Gradient)
    | ImageRef(image: Img)

  /** `From<T: Into<Color>> for Brush`. */
  function BrushFromColor<Img>(c: Color): (b: Brush<Img>)
    ensures b.Solid? && b.color == c
  {
    Solid(c)
  }

  /** `From<Gradient> for Brush`. */
  function BrushFromGradient<Img>(g: Gradients.Gradient): (b: Brush<Img>)
    ensures b.Gradient? && b.gradient == g
  {
    Gradient(g)
  }

  /** `From<Image> for Brush`. */
  function BrushFromImage<Img>(i: Img): (b: Brush<Img>)
    ensures b.Image? && b.image == i
  {
    Image(i)
  }

  /** `Default for Brush`: a solid brush of the default colour, opaque black. */
  function DefaultBrush<Img>(): (b: Brush<Img>)
    ensures b.Solid? && b.color == DefaultColor
    ensures b.color.alpha == 1.0
  {
    Solid(DefaultColor)
  }

  /** `BrushRef::to_owned`. */
  function ToOwned<Img>(r: BrushRef<Img>): (b: Brush<Img>)
    ensures b.Solid? <==> r.SolidRef?
    ensures b.Gradient? <==> r.GradientRef?
    ensures b.Image? <==> r.ImageRef?
  {
    match r
    case SolidRef(c) => Solid(c)
    case GradientRef(g) => Gradient(g)
    case ImageRef(i) => Image(i)
  }

  /** `From<&Brush> for BrushRef`. */
  function Borrow<Img>(b: Brush<Img>): (r: BrushRef<Img>)
    ensures r.SolidRef? <==> b.Solid?
    ensures r.GradientRef? <==> b.Gradient?
    ensures r.ImageRef? <==> b.Image?
  {
    match b
    case Solid(c) => SolidRef(c)
    case Gradient(g) => GradientRef(g)
    case Image(i) => ImageRef(i)
  }

  /** `From<T: Into<Color>> for BrushRef`. */
  function RefFromColor<Img>(c: Color): (r: BrushRef<Img>)
    ensures r.SolidRef? && r.color == c
  {
    SolidRef(c)
  }

  /** `From<&Gradient> for BrushRef`. */
  function RefFromGradient<Img>(g: Gradients.Gradient): (r: BrushRef<Img>)
    ensures r.GradientRef? && r.gradient == g
  {
    GradientRef(g)
  }

  /** `From<&Image> for BrushRef`. */
  function RefFromImage<Img>(i: Img): (r: BrushRef<Img>)
    ensures r.ImageRef? && r.image == i
  {
    ImageRef(i)
  }

  /** Borrowing and then taking ownership gives back an equal brush, and the
      other way round. */
  lemma BorrowRoundTrip<Img>(b: Brush<Img>, r: BrushRef<Img>)
    ensures ToOwned(Borrow(b)) == b
    ensures Borrow(ToOwned(r)) == r
  {
  }

  /** The `From` conversions of `BrushRef` and of `Brush` agree after `to_owned`. */
  lemma RefConversionsAgree<Img>(c: Color, g: Gradients.Gradient, i: Img)
    ensures ToOwned(RefFromColor<Img>(c)) == BrushFromColor(c)
    ensures ToOwned(RefFromGradient<Img>(g)) == BrushFromGradient(g)
    ensures ToOwned(RefFromImage(i)) == BrushFromImage(i)
  {
  }

  /** `Brush::with_alpha_factor`. A factor of exactly one returns the brush as
      it is; otherwise a solid colour has its alpha scaled in place, every
      stop of a gradient is rewritten in place, and an image scales itself. */
  method WithAlphaFactor<Img>(b: Brush<Img>, k: real, scaleImage: (Img, real) -> Img) returns (r: Brush<Img>)
    ensures k == 1.0 ==> r == b
    ensures r.Solid? <==> b.Solid?
    ensures r.Gradient? <==> b.Gradient?
    ensures r.Image? <==> b.Image?
    ensures b.Solid? ==> r.color == Colors.WithAlphaFactor(b.color, k)
    ensures b.Gradient? ==>
      && r.gradient.kind == b.gradient.kind
      && r.gradient.extend == b.gradient.extend
      && r.gradient.stops == Gradients.ScaleStopsAlpha(b.gradient.stops, k)
    ensures b.Image? && k != 1.0 ==> r.image == scaleImage(b.image, k)
  {
    if k == 1.0 {
      if b.Solid? {
        WithAlphaFactorOne(b.color);
      } else if b.Gradient? {
        Gradients.ScaleStopsAlphaOne(b.gradient.stops);
      }
      return b;
    }
    match b
    case Solid(color) =>
      var c := color;
      c := c.(alpha := c.alpha * k);
      r := BrushFromColor(c);
    case Gradient(gradient) =>
      var g := gradient;
      var i := 0;
      while i < |g.stops|
        invariant 0 <= i <= |g.stops| == |gradient.stops|
        invariant g.kind == gradient.kind && g.extend == gradient.extend
        invariant forall j | 0 <= j < i :: g.stops[j] == Gradients.StopWithAlphaFactor(gradient.stops[j], k)
        invariant forall j | i <= j < |g.stops| :: g.stops[j] == gradient.stops[j]
      {
        g := g.(stops := g.stops[i := Gradients.StopWithAlphaFactor(g.stops[i], k)]);
        i := i + 1;
      }
      r := BrushFromGradient(g);
    case Image(image) =>
      r := BrushFromImage(scaleImage(image, k));
  }

  /** The default brush is solid `rgb8(0, 0, 0)`, given that the transfer
      function maps byte 0 to 0. */
  lemma DefaultBrushIsBlack<Img>(toLinear: byte -> real)
    requires toLinear(0) == 0.0
    ensures DefaultBrush<Img>() == BrushFromColor(Rgb8(0, 0, 0, toLinear))
  {
    DefaultIsBlack(toLinear);
  }
}
