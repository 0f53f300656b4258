# peniko colours, gradients and brushes in Dafny

A model of the value-type core of the `peniko` 2D paint library. It covers three source files:

- **`src/color.rs`** — colour-string parsing. The parser trims the text. After a `#` it reads CSS hexadecimal notation: `#RGB`, `#RGBA`, `#RRGGBB` or `#RRGGBBAA`, with digits in either case. Otherwise it looks the text up, exactly, in the SVG colour-name table. The file also has the channel-wise colour helpers (`with_alpha_factor`, `premultiply`, `lerp`) and the array conversions.
- **`src/gradient.rs`** — colour stops and their odd equality: offsets are compared by bit pattern, but ordered by `partial_cmp`. Also the gradient kinds, constructors and builders, and the four `ColorStopsSource` implementations that fill a gradient's stop buffer.
- **`src/brush.rs`** — the `Brush` sum type, its borrowed mirror `BrushRef`, `Brush::with_alpha_factor`, and the `Extend` mode.

Modules:

| file | module | what it holds |
|---|---|---|
| `wrappers.dfy` | `Wrappers` | `Option` and `Result` |
| `float.dfy` | `Float` | `F32`: a finite value with its sign (so `-0.0` is kept), an infinity, or a NaN with a payload. It gives `to_bits` equality and `f32::partial_cmp` |
| `text.dfy` | `Text` | bytes; `str::trim` over Unicode White_Space; UTF-8 encoding of a string (what `str::as_bytes` sees) |
| `colors.dfy` | `Colors` | the four-channel `Color`, the byte quadruple `Srgba8`, `rgb8`/`rgba8`, the channel helpers and conversions |
| `named_colors.dfy` | `NamedColors` | the 142 arms of the name `match` in `parse_color`, in source order, grouped by initial letter |
| `color_parse.dfy` | `ColorParse` | `hex_from_ascii_byte`, `get_4bit_hex_channels` (an in-place loop over an 8-byte array), `color_from_4bit_hex`, `parse_color`. Also the CSS hex notation as an independent reference, and the proofs that the parser matches it |
| `extend.dfy` | `ExtendMode` | `Extend` and its default |
| `gradients.dfy` | `Gradients` | `ColorStop`, `GradientKind`, `Gradient`, the stop buffer as a class, and the `collect_stops` loops |
| `brushes.dfy` | `Brushes` | `Brush`, `BrushRef`, `with_alpha_factor` |

Channels are an abstract number (`real`). The sRGB transfer function that `rgb8` applies is foreign code, so it is the parameter `toLinear: byte -> real`. The parser's result is kept at byte level (`Srgba8`), and `Color::parse` is that result passed through `rgba8`.

In this snapshot the library's `Color` is `palette::LinSrgba` (`src/lib.rs:45`), and `src/color.rs` is not declared as a module. The model uses one colour record throughout. Its default is opaque black, which is both `Color::default()` of `src/color.rs` and palette's default with full alpha.

`Color::TRANSPARENT` is written with alpha `0.0` in `src/color.rs:432-437`, and the model follows that code. A variant with an opaque "transparent" exists elsewhere and is not what this source does.

## Model

| member | source | states |
|---|---|---|
| Colors.Rgb8 | src/color.rs:28-36 | alpha is 1; red, green and blue are the transfer function of the bytes |
| Colors.Rgba8 | src/color.rs:39-44 | alpha is `a / 255`, so it lies in `[0, 1]`; the other channels are those of `rgb8` |
| Colors.Rgba8Opaque | src/color.rs:39-44 | `rgba8` with alpha byte 255 is `rgb8` |
| Colors.FromSrgba8 | src/color.rs:637-640 | the colour of a parsed byte quadruple is `rgba8` of it: alpha is the fourth byte over 255, and the other channels are those of `rgb8` |
| Colors.DefaultIsBlack | src/color.rs:20-24 | the default colour is `BLACK = rgb8(0, 0, 0)`, that is opaque black, when the transfer function maps 0 to 0 |
| Colors.TransparentIsRgba8Zero | src/color.rs:432-437 | `TRANSPARENT` is all zeros and equals `rgba8(0, 0, 0, 0)` |
| Colors.FromBytes3 | src/color.rs:149-153 | a colour from three bytes is opaque |
| Colors.FromBytes4 | src/color.rs:155-159 | the fourth byte becomes the alpha, scaled into `[0, 1]`; red, green and blue are those of `rgb8` of the first three bytes |
| Colors.FromBytesAgree | src/color.rs:149-159 | three bytes give the same colour as the same bytes plus an alpha byte of 255, and as the parser's byte quadruple |
| Colors.WithAlphaFactor | src/color.rs:46-53 | alpha is multiplied by the factor; red, green and blue are untouched |
| Colors.WithAlphaFactorOne | src/color.rs:46-53 | factor 1 is the identity |
| Colors.WithAlphaFactorZero | src/color.rs:46-53 | factor 0 gives alpha 0 and keeps the hue |
| Colors.WithAlphaFactorCompose | src/color.rs:46-53 | two factors compose into their product |
| Colors.Premultiply | src/color.rs:55-64 | alpha is kept; red, green and blue are each multiplied by alpha |
| Colors.PremultiplyOpaque | src/color.rs:55-64 | an opaque colour is unchanged |
| Colors.PremultiplyTransparent | src/color.rs:55-64 | a colour with alpha 0 becomes `TRANSPARENT` |
| Colors.PremultiplyIdempotent | src/color.rs:55-64 | premultiplying twice equals premultiplying once if and only if alpha is 0 or 1 or the colour is black |
| Colors.Lerp | src/color.rs:66-75 | each of the four channels, alpha included, is interpolated on its own |
| Colors.LerpScalar | src/color.rs:87-89 | the scalar `lerp` is the first value at `t = 0` and the second at `t = 1`, and moves by their difference per unit of `t` |
| Colors.LerpEndpoints | src/color.rs:66-75 | `t = 0` gives the first colour, `t = 1` the second |
| Colors.LerpSame | src/color.rs:66-75 | interpolating a colour with itself gives that colour |
| Colors.LerpScalarBetween | src/color.rs:87-89 | for `t` in `[0, 1]` the scalar `lerp` lies between its endpoints |
| Colors.LerpBetween | src/color.rs:66-75 | for `t` in `[0, 1]` every channel lies between the endpoints' channels; valid alphas give a valid alpha |
| Colors.ToArray | src/color.rs:143-147 | the array is R, G, B, A in that order |
| Colors.FromArray | src/color.rs:132-141 | element 0 is red, 1 green, 2 blue, 3 alpha |
| Colors.ArrayRoundTrip | src/color.rs:132-147 | colour to array to colour, and array to colour to array, are both the identity |
| NamedColors.Lookup | src/color.rs:459-602 | the exact, case-sensitive `match` of the 142 names, tried in source order; text whose first character begins no name is rejected. Stated by `NamesAreLowercase` and the `Lookup*` lemmas |
| NamedColors.Find | src/color.rs:459-602 | the arms of one group tried in order, the first equal name deciding. Stated by `FindSound` and `FindFirst` |
| NamedColors.FindSound | src/color.rs:459-602 | a found colour belongs to an arm carrying exactly the looked-up name |
| NamedColors.FindFirst | src/color.rs:459-602 | the first arm carrying the name decides the result |
| NamedColors.NamesAreLowercase | src/color.rs:459-602 | every name the table accepts is non-empty lower-case ASCII letters, so the lookup is case-sensitive; and none is spelt with the letters `a` to `f` alone, so no hex digits without `#` are a name |
| NamedColors.LookupRed | src/color.rs:574 | `"red"` names the bytes `(255, 0, 0, 255)` |
| NamedColors.LookupTransparent | src/color.rs:594 | `"transparent"` names the bytes `(0, 0, 0, 0)`, alpha included |
| NamedColors.LookupCornflowerBlue | src/color.rs:477 | `"cornflowerblue"` names the bytes `(100, 149, 237, 255)` |
| ColorParse.HexFromAsciiByte | src/color.rs:642-649 | `Ok` exactly for `0-9`, `A-F` and `a-f`, with a value below 16; otherwise `Err` carrying the byte |
| ColorParse.HexDigitRoundTrip | src/color.rs:642-649 | both the upper- and the lower-case digit of every nibble decode to it |
| ColorParse.HexDigitSpellings | src/color.rs:642-649 | every accepted byte is one of the two spellings of its value |
| ColorParse.ChannelLayout | src/color.rs:610-620 | an accepted length is laid out as exactly eight digit bytes, one per channel nibble |
| ColorParse.DecodeNibbles | src/color.rs:624-633 | succeeds if and only if every byte is a hex digit; then all results are below 16 |
| ColorParse.FourBitHexChannels | src/color.rs:609-635 | on success, eight nibbles, each below 16 |
| ColorParse.Get4BitHexChannels | src/color.rs:609-635 | the in-place loop over the 8-byte array, with early exit, returns exactly the layout's digits decoded, or `None` at a non-digit |
| ColorParse.FourBitHexChannelsSpec | src/color.rs:610-633 | accepts exactly 3, 4, 6 or 8 hex digits after one optional `#`; the result is the digits widened (short digits doubled, missing alpha `ff`) and decoded |
| ColorParse.FourBitHexChannelsBytes | src/color.rs:610-633 | an accepted input holds only hex digits, apart from a leading `#` |
| ColorParse.PackNibbles | src/color.rs:637-640 | `hi << 4 \| lo` on `u8` is `hi * 16 + lo` for nibbles |
| ColorParse.Pack | src/color.rs:639 | `hi << 4 \| lo` on `u8`, the high bits shifted out. Stated by `PackNibbles` |
| ColorParse.ColorFrom4BitHexPacks | src/color.rs:637-640 | each channel byte is the two-digit hexadecimal value of its nibble pair |
| ColorParse.ColorFrom4BitHex | src/color.rs:637-640 | the nibble pairs packed into red, green, blue and alpha, in that order. Stated by `ColorFrom4BitHexPacks` |
| ColorParse.Parse | src/color.rs:82-84 | `Color::parse` succeeds exactly when the byte-level parse does, and gives `rgba8` of its bytes |
| ColorParse.ParseColor | src/color.rs:454-605 | an accepted text is non-blank once trimmed; without a leading `#` only a lower-case name that is not spelt in hex letters alone can be accepted. The full statement is `ParseColorAccepts` and `ParseHexNotation` |
| ColorParse.ParseHexDigits | src/color.rs:456-457 | the `#` branch: the channels of the UTF-8 bytes after the `#`, packed. Stated by `ParseHexDigitsSpec` |
| ColorParse.ParseHexDigitsSpec | src/color.rs:456-457 | the `#` branch accepts exactly a CSS hex notation, behind one optional further `#`, and yields the colour it denotes; non-ASCII text is rejected |
| ColorParse.ParseHexDigitsAscii | src/color.rs:456-457 | on ASCII text after `#`, the hex path equals the CSS hex-notation reference |
| ColorParse.ParseHexDigitsNonAscii | src/color.rs:456-457 | text after `#` with a non-ASCII character is rejected, and is no hex notation |
| ColorParse.ParseHexNotation | src/color.rs:454-457 | after trimming and a `#`, the result is `Some` of the colour the CSS hex notation denotes exactly when the rest (past one optional further `#`) is such a notation, and `None` otherwise |
| ColorParse.ParseIgnoresSurroundingWhitespace | src/color.rs:455 | whitespace around the text never changes the result |
| ColorParse.ParseBlank | src/color.rs:455-459 | empty or blank text is rejected |
| ColorParse.ParseColorAccepts | src/color.rs:454-605 | everything accepted is, once trimmed, `#` plus a hex notation (after one optional further `#`), or a lower-case name whose table entry is the result |
| ColorParse.FormatHexRoundTrip | src/color.rs:454-457 | every byte colour's `#rrggbbaa` spelling parses back to it, so parsing reaches every colour |
| ColorParse.FormatHexDigits | src/color.rs:609-640 | the digits of `#rrggbbaa` form an eight-digit notation that denotes the colour |
| ColorParse.ShortNotationDoubled | src/color.rs:611-612 | in the reference notation, a short form denotes the colour of its long form with every digit doubled |
| ColorParse.MissingAlphaNotation | src/color.rs:613-615 | in the reference notation, six digits denote the colour of the same digits followed by `ff`; alpha is 255 |
| ColorParse.NotationCaseIgnored | src/color.rs:642-649 | in the reference notation, only digit values count, not their case |
| ColorParse.ShortFormDoubled | src/color.rs:611-612 | `#rgb` parses as `#rrggbb`, and `#rgba` as `#rrggbbaa` |
| ColorParse.MissingAlphaIsOpaque | src/color.rs:613-615 | `#rrggbb` parses as `#rrggbbff`, an opaque colour |
| ColorParse.DigitCaseIgnored | src/color.rs:642-649 | texts that spell the same digit values in any case parse to the same colour |
| ColorParse.ParseRejectsNonName | src/color.rs:459-602 | text without `#` that is not a lower-case name is rejected |
| ColorParse.ParseRejectsBareDigits | src/color.rs:456-459 | text without `#` holding a decimal digit (such as `ff0000` or `red1`) is rejected |
| ColorParse.ParseRejectsBareHex | src/color.rs:456-602 | text without `#` made of hex digits only, letters included (such as `ffffff` or `abc`), is rejected |
| ColorParse.ParseRejectsUpperCase | src/color.rs:459-602 | a name with an upper-case letter (such as `Red`) is rejected |
| ColorParse.ParseShortRed | src/color.rs:611 | `#F00` is opaque red |
| ColorParse.DoubleHashBody | src/color.rs:456-457 | text with nothing to trim that starts with `##` takes the hex path on what follows both `#` |
| ColorParse.ParseDoubleHash | src/color.rs:456-457 | `##f00` is opaque red, because the hex helper skips a second `#` |
| ColorParse.ParseRejectsFiveDigits | src/color.rs:619 | `#ff000` is rejected |
| ColorParse.ParseRed | src/color.rs:574 | `red` is opaque red |
| ColorParse.ParsePaddedRed | src/color.rs:455 | `" red\n"` is opaque red |
| ColorParse.ParseTransparent | src/color.rs:594 | `Color::parse("transparent")` is `TRANSPARENT` |
| Text.Trim | src/color.rs:455 | the result starts and ends with non-whitespace |
| Text.TrimRemovesOnlyWhitespace | src/color.rs:455 | the result is a contiguous part of the input, and everything cut off is whitespace |
| Text.TrimIgnoresSurroundingWhitespace | src/color.rs:455 | whitespace added around the text is trimmed away |
| Text.Utf8Ascii | src/color.rs:610 | on ASCII text the bytes are the characters' codes |
| Text.Utf8NonAscii | src/color.rs:610 | a non-ASCII character yields a byte of at least `0x80` |
| Float.SignedZeros | src/gradient.rs:43-47 | `0.0` and `-0.0` are IEEE-equal but have different bits |
| Float.NaNSelf | src/gradient.rs:43-47 | a NaN has its own bits but is not IEEE-equal to itself and is unordered |
| Float.SameBitsRefinesFloatEq | src/gradient.rs:43-47 | away from NaN, equal bits imply IEEE equality; the converse fails only at zero |
| Float.PartialCmp | src/gradient.rs:22-26 | `None` exactly when a NaN is involved |
| Float.PartialCmpEqual | src/gradient.rs:22-26 | `partial_cmp` says `Equal` exactly when IEEE `==` holds |
| Float.PartialCmpAntisymmetric | src/gradient.rs:22-26 | swapping the operands reverses the ordering |
| Float.FromReal | src/gradient.rs:248 | the offset `i as f32 / denom` is a finite float of that value, and a zero quotient is the positive zero |
| Gradients.StopEqIsIdentity | src/gradient.rs:43-49 | stop equality is structural identity of the model's stops (offset bits and real colour channels), so it is reflexive even for a NaN offset |
| Gradients.StopEq | src/gradient.rs:43-47 | offsets compared by bit pattern, colours by equality. Stated by `StopEqIsIdentity` and `StopEqByBits` |
| Gradients.StopEqByBits | src/gradient.rs:43-47 | stops at `0.0` and `-0.0` differ though their offsets are IEEE-equal; a NaN-offset stop equals itself |
| Gradients.StopPartialCmp | src/gradient.rs:22-26 | unordered exactly when an offset is NaN |
| Gradients.StopPartialCmpIgnoresColor | src/gradient.rs:22-26 | the ordering depends only on the offsets |
| Gradients.StopOrderNotEquality | src/gradient.rs:22-47 | `partial_cmp` may say `Equal` of unequal stops (signed zeros, different colours) |
| Gradients.StopWithAlphaFactor | src/gradient.rs:55-64 | the offset keeps its bits; the colour is the colour helper's `with_alpha_factor` |
| Gradients.StopWithAlphaFactorProperties | src/gradient.rs:55-64 | only alpha changes; factor 1 is the identity; factors compose |
| Gradients.StopFromPair | src/gradient.rs:67-74 | the stop from `(o, c)` equals the literal with offset `o` and colour `c` |
| Gradients.DefaultGradient | src/gradient.rs:125-136 | linear, extend `Pad`, no stops |
| Gradients.NewLinear | src/gradient.rs:140-149 | linear, extend `Pad`, no stops |
| Gradients.NewRadial | src/gradient.rs:152-164 | radial, extend `Pad`, no stops |
| Gradients.NewTwoPointRadial | src/gradient.rs:167-183 | radial, extend `Pad`, no stops |
| Gradients.NewSweep | src/gradient.rs:187-197 | sweep, extend `Pad`, no stops |
| Gradients.ConstructorRelations | src/gradient.rs:125-183 | the default is the linear gradient between two origins; `new_radial(c, r)` is the two-point radial with both centres `c`, start radius 0 and end radius `r` |
| Gradients.ConstructorsKeepArguments | src/gradient.rs:140-197 | each constructor stores its arguments in the kind it builds |
| Gradients.WithExtend | src/gradient.rs:201-204 | only `extend` is replaced; kind and stops are unchanged |
| Gradients.WithExtendOverrides | src/gradient.rs:201-204 | the last mode set wins; setting the current mode changes nothing |
| ExtendMode.DefaultExtendIsPad | src/brush.rs:133-138 | the default extend mode is `Pad`, neither tiling mode; every gradient constructor starts from it |
| Gradients.StopVec.constructor | src/gradient.rs:77 | the buffer holds the given stops |
| Gradients.IntoStop | src/gradient.rs:67-74 | a stop converts to itself and a pair `(o, c)` to the stop with offset `o` and colour `c`. Stated by `IntoStopsPreserves` |
| Gradients.IntoStops | src/gradient.rs:221-241 | one stop per item, each the item converted. Stated with `IntoStopsPreserves` |
| Gradients.Denominator | src/gradient.rs:246 | `(len - 1).max(1)`: at least 1 and at least `len - 1`, and one of the two |
| Gradients.SynthesizedOffset | src/gradient.rs:248 | the offset of colour `i` is finite and, times the denominator, gives back `i` |
| Gradients.SynthesizedStops | src/gradient.rs:243-252 | one stop per colour. Stated with the `Synthesized*` lemmas |
| Gradients.SourceStops | src/gradient.rs:216-258 | what `collect_stops` appends: one stop per item or colour of the source |
| Gradients.StopVec.Clear | src/gradient.rs:209 | the buffer becomes empty |
| Gradients.StopVec.Push | src/gradient.rs:227 | the stop is appended at the end |
| Gradients.CollectStopLikes | src/gradient.rs:221-241 | the loop appends every item, converted into a stop, in order |
| Gradients.CollectColors | src/gradient.rs:243-252 | nothing is appended for an empty slice; otherwise colour `i` is appended at offset `i / max(n - 1, 1)`, in order |
| Gradients.CollectStops | src/gradient.rs:216-258 | each source appends its stops after what the buffer held |
| Gradients.WithStops | src/gradient.rs:208-212 | the old stops are discarded and replaced by the source's stops; kind and extend are unchanged |
| Gradients.IntoStopsPreserves | src/gradient.rs:221-241 | item `i` becomes stop `i`: a stop is copied, a pair `(o, c)` becomes offset `o` and colour `c` |
| Gradients.IntoStopsOfStops | src/gradient.rs:221-230 | a slice of stops is copied unchanged |
| Gradients.SynthesizedColors | src/gradient.rs:243-252 | colours are kept, in order |
| Gradients.SynthesizedOffsetRange | src/gradient.rs:243-252 | every synthesized offset is finite and in `[0, 1]`; the first is `+0.0` |
| Gradients.SynthesizedLastOffset | src/gradient.rs:243-252 | with two colours or more the last offset is `1.0` |
| Gradients.SynthesizedSingle | src/gradient.rs:243-252 | a single colour sits at offset `0.0` |
| Gradients.SynthesizedThree | src/gradient.rs:243-252 | three colours sit at `0`, `0.5` and `1` |
| Gradients.SynthesizedSorted | src/gradient.rs:243-252 | the offsets strictly increase, so the stops are in `partial_cmp` order |
| Gradients.EmptySources | src/gradient.rs:208-258 | an empty source of any kind gives no stops |
| Gradients.SliceAndArrayAgree | src/gradient.rs:221-258 | a slice and an array of the same items give the same stops |
| Gradients.ScaleStopsAlpha | src/brush.rs:60-65 | every stop through `ColorStop::with_alpha_factor`, one result per stop. Stated by the `ScaleStopsAlpha*` lemmas |
| Gradients.ScaleStopsAlphaKeeps | src/brush.rs:60-65 | scaling every stop keeps the count, every offset and the order, and changes only alpha |
| Gradients.ScaleStopsAlphaOne | src/brush.rs:60-65 | factor 1 leaves the stops unchanged |
| Gradients.ScaleStopsAlphaCompose | src/brush.rs:60-65 | two scalings compose into their product |
| Brushes.BrushFromColor | src/brush.rs:20-27 | a colour becomes the `Solid` brush of that colour |
| Brushes.BrushFromGradient | src/brush.rs:29-33 | a gradient becomes the `Gradient` brush holding it |
| Brushes.BrushFromImage | src/brush.rs:35-39 | an image becomes the `Image` brush holding it |
| Brushes.DefaultBrush | src/brush.rs:41-45 | the default brush is `Solid` of the default colour, which is opaque |
| Brushes.DefaultBrushIsBlack | src/brush.rs:41-45 | the default brush is solid `rgb8(0, 0, 0)` when the transfer function maps 0 to 0 |
| Brushes.ToOwned | src/brush.rs:91-97 | the variant is kept |
| Brushes.Borrow | src/brush.rs:121-129 | the variant is kept |
| Brushes.RefFromColor | src/brush.rs:100-107 | a colour becomes `BrushRef::Solid` of it |
| Brushes.RefFromGradient | src/brush.rs:109-113 | a gradient becomes `BrushRef::Gradient` of it |
| Brushes.RefFromImage | src/brush.rs:115-119 | an image becomes `BrushRef::Image` of it |
| Brushes.BorrowRoundTrip | src/brush.rs:91-129 | borrowing a brush and taking ownership gives it back, and the other way round |
| Brushes.RefConversionsAgree | src/brush.rs:20-119 | `BrushRef::from(x).to_owned()` is `Brush::from(x)` for colours, gradients and images |
| Brushes.WithAlphaFactor | src/brush.rs:51-70 | factor 1 returns the brush unchanged; the variant is kept; a solid colour gets its alpha scaled; a gradient keeps kind and extend, and its stops are rewritten one by one in place to the scaled stops; an image scales itself |

## Left out

- The sRGB transfer function (`fast_srgb8::srgb8_to_f32`) and the palette conversions (`src/color.rs:91-130`) are foreign float code. The transfer function is the parameter `toLinear`, and the conversions are not part of this model.
- IEEE-754 arithmetic: channels, factors, radii, angles and the values of `lerp`, `premultiply` and alpha products are reals. Stop offsets keep the sign and NaN structure that equality and ordering observe, but not rounding to 24 bits. So `i as f32 / denom` is exact here, while the source rounds it to the nearest `f32`; there it is exact only when `i / denom` is representable, as 0, 1 and 0.5 are.
- Colors.Lerp: channels are reals, so a NaN channel, where `==` on colours is not reflexive in the source, is not represented. Colour equality in the model is always reflexive.
- Brushes.WithAlphaFactor: the factor is a real, so a NaN factor, for which `alpha == 1.0` is false, is not represented.
- The `Hash` implementation of `ColorStop` (`src/gradient.rs:28-40`): hashing is library plumbing and is not modelled. It hashes the bit patterns of the offset and of the four colour channels, while `eq` compares only the offset by bits.
- Gradients.StopEqIsIdentity: the source compares the colours of two stops with IEEE `==` on `f32` channels (`src/gradient.rs:45`). A stop with a NaN colour channel is therefore unequal to itself, and channels `0.0` and `-0.0` are equal although `hash_color` hashes them apart. The model's channels are reals compared structurally, so neither case exists here and the lemma holds only of the model.
- The named colour constants (`src/color.rs:162-452`) appear only as the bytes of the name table. Three entries are checked individually.
- `Image`, `Image::with_alpha_factor` and `Image::clone` are not part of this model: `Image` is a type parameter, and its alpha scaling is the function parameter `scaleImage`.
- `BrushRef` lifetimes and borrowing: a reference is a copy of the value.
- `SmallVec` inline capacity: the stop buffer is a sequence.
- The `[T; N]` and `&[T]` sources share one loop, since their code is identical.
- serde and bytemuck derives, `Debug`, `src/font.rs`, `src/lib.rs` wiring, and `kurbo::Point` beyond a coordinate pair are not modelled.
- `ColorStop`'s derived `Default` is the constant `DefaultStop`, with no contract of its own.
