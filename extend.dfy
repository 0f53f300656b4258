/** `Extend`: how a brush is continued where its content does not cover a shape. */
module ExtendMode {
  datatype Extend =
    | Pad      // repeat the edge colour
    | Repeat   // tile the content
    | Reflect  // tile the content, mirrored

  /** `#[default]` is on `Pad`. */
  const DefaultExtend: Extend := Pad

  /** The default is to repeat the edge colour, neither tiling mode. */
  lemma DefaultExtendIsPad()
    ensures DefaultExtend.Pad? && !DefaultExtend.Repeat? && !DefaultExtend.Reflect?
  {
  }
}
