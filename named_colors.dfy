/**
 * The SVG / CSS named colours accepted by `parse_color`, as the sRGB bytes of
 * the constants they select. Every constant is `Color::rgb8(r, g, b)` (alpha
 * byte 255) except `TRANSPARENT`, whose bytes are all zero.
 *
 * The arms of the source's `match` are kept in their order, grouped by the
 * first letter of the name: `NamesA` holds the arms for the names beginning
 * with `a`, and so on. `Lookup` tries only the group of the text's first
 * character; since every name in a group begins with the group's letter
 * (`ArmsShaped`), no arm outside that group could match. The grouping, and the
 * proof of each group's shape in slices of a few short names, keep every proof
 * obligation small: one obligation over all 142 literal names at once is far
 * beyond what the solver handles cheaply.
 */
module NamedColors {
  import opened Wrappers
  import opened Colors

  /** One arm of the `match`: a name and the bytes of the constant it selects. */
  datatype Entry = Entry(name: string, color: Srgba8)

  const NamesA: seq<Entry> := [
    Entry("aliceblue", Srgba8(240, 248, 255, 255)),
    Entry("antiquewhite", Srgba8(250, 235, 215, 255)),
    Entry("aqua", Srgba8(0, 255, 255, 255)),
    Entry("aquamarine", Srgba8(127, 255, 212, 255)),
    Entry("azure", Srgba8(240, 255, 255, 255))
  ]

  const NamesB: seq<Entry> := [
    Entry("beige", Srgba8(245, 245, 220, 255)),
    Entry("bisque", Srgba8(255, 228, 196, 255)),
    Entry("black", Srgba8(0, 0, 0, 255)),
    Entry("blanchedalmond", Srgba8(255, 235, 205, 255)),
    Entry("blue", Srgba8(0, 0, 255, 255)),
    Entry("blueviolet", Srgba8(138, 43, 226, 255)),
    Entry("brown", Srgba8(165, 42, 42, 255)),
    Entry("burlywood", Srgba8(222, 184, 135, 255))
  ]

  const NamesC: seq<Entry> := [
    Entry("cadetblue", Srgba8(95, 158, 160, 255)),
    Entry("chartreuse", Srgba8(127, 255, 0, 255)),
    Entry("chocolate", Srgba8(210, 105, 30, 255)),
    Entry("coral", Srgba8(255, 127, 80, 255)),
    Entry("cornflowerblue", Srgba8(100, 149, 237, 255)),
    Entry("cornsilk", Srgba8(255, 248, 220, 255)),
    Entry("crimson", Srgba8(220, 20, 60, 255)),
    Entry("cyan", Srgba8(0, 255, 255, 255))
  ]

  const NamesD: seq<Entry> := [
    Entry("darkblue", Srgba8(0, 0, 139, 255)),
    Entry("darkcyan", Srgba8(0, 139, 139, 255)),
    Entry("darkgoldenrod", Srgba8(184, 134, 11, 255)),
    Entry("darkgray", Srgba8(169, 169, 169, 255)),
    Entry("darkgreen", Srgba8(0, 100, 0, 255)),
    Entry("darkkhaki", Srgba8(189, 183, 107, 255)),
    Entry("darkmagenta", Srgba8(139, 0, 139, 255)),
    Entry("darkolivegreen", Srgba8(85, 107, 47, 255)),
    Entry("darkorange", Srgba8(255, 140, 0, 255)),
    Entry("darkorchid", Srgba8(153, 50, 204, 255)),
    Entry("darkred", Srgba8(139, 0, 0, 255)),
    Entry("darksalmon", Srgba8(233, 150, 122, 255)),
    Entry("darkseagreen", Srgba8(143, 188, 143, 255)),
    Entry("darkslateblue", Srgba8(72, 61, 139, 255)),
    Entry("darkslategray", Srgba8(47, 79, 79, 255)),
    Entry("darkturquoise", Srgba8(0, 206, 209, 255)),
    Entry("darkviolet", Srgba8(148, 0, 211, 255)),
    Entry("deeppink", Srgba8(255, 20, 147, 255)),
    Entry("deepskyblue", Srgba8(0, 191, 255, 255)),
    Entry("dimgray", Srgba8(105, 105, 105, 255)),
    Entry("dodgerblue", Srgba8(30, 144, 255, 255))
  ]

  const NamesF: seq<Entry> := [
    Entry("firebrick", Srgba8(178, 34, 34, 255)),
    Entry("floralwhite", Srgba8(255, 250, 240, 255)),
    Entry("forestgreen", Srgba8(34, 139, 34, 255)),
    Entry("fuchsia", Srgba8(255, 0, 255, 255))
  ]

  const NamesG: seq<Entry> := [
    Entry("gainsboro", Srgba8(220, 220, 220, 255)),
    Entry("ghostwhite", Srgba8(248, 248, 255, 255)),
    Entry("gold", Srgba8(255, 215, 0, 255)),
    Entry("goldenrod", Srgba8(218, 165, 32, 255)),
    Entry("gray", Srgba8(128, 128, 128, 255)),
    Entry("green", Srgba8(0, 128, 0, 255)),
    Entry("greenyellow", Srgba8(173, 255, 47, 255))
  ]

  const NamesH: seq<Entry> := [
    Entry("honeydew", Srgba8(240, 255, 240, 255)),
    Entry("hotpink", Srgba8(255, 105, 180, 255))
  ]

  const NamesI: seq<Entry> := [
    Entry("indianred", Srgba8(205, 92, 92, 255)),
    Entry("indigo", Srgba8(75, 0, 130, 255)),
    Entry("ivory", Srgba8(255, 255, 240, 255))
  ]

  const NamesK: seq<Entry> := [
    Entry("khaki", Srgba8(240, 230, 140, 255))
  ]

  const NamesL: seq<Entry> := [
    Entry("lavender", Srgba8(230, 230, 250, 255)),
    Entry("lavenderblush", Srgba8(255, 240, 245, 255)),
    Entry("lawngreen", Srgba8(124, 252, 0, 255)),
    Entry("lemonchiffon", Srgba8(255, 250, 205, 255)),
    Entry("lightblue", Srgba8(173, 216, 230, 255)),
    Entry("lightcoral", Srgba8(240, 128, 128, 255)),
    Entry("lightcyan", Srgba8(224, 255, 255, 255)),
    Entry("lightgoldenrodyellow", Srgba8(250, 250, 210, 255)),
    Entry("lightgray", Srgba8(211, 211, 211, 255)),
    Entry("lightgreen", Srgba8(144, 238, 144, 255)),
    Entry("lightpink", Srgba8(255, 182, 193, 255)),
    Entry("lightsalmon", Srgba8(255, 160, 122, 255)),
    Entry("lightseagreen", Srgba8(32, 178, 170, 255)),
    Entry("lightskyblue", Srgba8(135, 206, 250, 255)),
    Entry("lightslategray", Srgba8(119, 136, 153, 255)),
    Entry("lightsteelblue", Srgba8(176, 196, 222, 255)),
    Entry("lightyellow", Srgba8(255, 255, 224, 255)),
    Entry("lime", Srgba8(0, 255, 0, 255)),
    Entry("limegreen", Srgba8(50, 205, 50, 255)),
    Entry("linen", Srgba8(250, 240, 230, 255))
  ]

  const NamesM: seq<Entry> := [
    Entry("magenta", Srgba8(255, 0, 255, 255)),
    Entry("maroon", Srgba8(128, 0, 0, 255)),
    Entry("mediumaquamarine", Srgba8(102, 205, 170, 255)),
    Entry("mediumblue", Srgba8(0, 0, 205, 255)),
    Entry("mediumorchid", Srgba8(186, 85, 211, 255)),
    Entry("mediumpurple", Srgba8(147, 112, 219, 255)),
    Entry("mediumseagreen", Srgba8(60, 179, 113, 255)),
    Entry("mediumslateblue", Srgba8(123, 104, 238, 255)),
    Entry("mediumspringgreen", Srgba8(0, 250, 154, 255)),
    Entry("mediumturquoise", Srgba8(72, 209, 204, 255)),
    Entry("mediumvioletred", Srgba8(199, 21, 133, 255)),
    Entry("midnightblue", Srgba8(25, 25, 112, 255)),
    Entry("mintcream", Srgba8(245, 255, 250, 255)),
    Entry("mistyrose", Srgba8(255, 228, 225, 255)),
    Entry("moccasin", Srgba8(255, 228, 181, 255))
  ]

  const NamesN: seq<Entry> := [
    Entry("navajowhite", Srgba8(255, 222, 173, 255)),
    Entry("navy", Srgba8(0, 0, 128, 255))
  ]

  const NamesO: seq<Entry> := [
    Entry("oldlace", Srgba8(253, 245, 230, 255)),
    Entry("olive", Srgba8(128, 128, 0, 255)),
    Entry("olivedrab", Srgba8(107, 142, 35, 255)),
    Entry("orange", Srgba8(255, 165, 0, 255)),
    Entry("orangered", Srgba8(255, 69, 0, 255)),
    Entry("orchid", Srgba8(218, 112, 214, 255))
  ]

  const NamesP: seq<Entry> := [
    Entry("palegoldenrod", Srgba8(238, 232, 170, 255)),
    Entry("palegreen", Srgba8(152, 251, 152, 255)),
    Entry("paleturquoise", Srgba8(175, 238, 238, 255)),
    Entry("palevioletred", Srgba8(219, 112, 147, 255)),
    Entry("papayawhip", Srgba8(255, 239, 213, 255)),
    Entry("peachpuff", Srgba8(255, 218, 185, 255)),
    Entry("peru", Srgba8(205, 133, 63, 255)),
    Entry("pink", Srgba8(255, 192, 203, 255)),
    Entry("plum", Srgba8(221, 160, 221, 255)),
    Entry("powderblue", Srgba8(176, 224, 230, 255)),
    Entry("purple", Srgba8(128, 0, 128, 255))
  ]

  const NamesR: seq<Entry> := [
    Entry("rebeccapurple", Srgba8(102, 51, 153, 255)),
    Entry("red", Srgba8(255, 0, 0, 255)),
    Entry("rosybrown", Srgba8(188, 143, 143, 255)),
    Entry("royalblue", Srgba8(65, 105, 225, 255))
  ]

  const NamesS: seq<Entry> := [
    Entry("saddlebrown", Srgba8(139, 69, 19, 255)),
    Entry("salmon", Srgba8(250, 128, 114, 255)),
    Entry("sandybrown", Srgba8(244, 164, 96, 255)),
    Entry("seagreen", Srgba8(46, 139, 87, 255)),
    Entry("seashell", Srgba8(255, 245, 238, 255)),
    Entry("sienna", Srgba8(160, 82, 45, 255)),
    Entry("silver", Srgba8(192, 192, 192, 255)),
    Entry("skyblue", Srgba8(135, 206, 235, 255)),
    Entry("slateblue", Srgba8(106, 90, 205, 255)),
    Entry("slategray", Srgba8(112, 128, 144, 255)),
    Entry("snow", Srgba8(255, 250, 250, 255)),
    Entry("springgreen", Srgba8(0, 255, 127, 255)),
    Entry("steelblue", Srgba8(70, 130, 180, 255))
  ]

  const NamesT: seq<Entry> := [
    Entry("tan", Srgba8(210, 180, 140, 255)),
    Entry("teal", Srgba8(0, 128, 128, 255)),
    Entry("thistle", Srgba8(216, 191, 216, 255)),
    Entry("tomato", Srgba8(255, 99, 71, 255)),
    Entry("transparent", Srgba8(0, 0, 0, 0)),
    Entry("turquoise", Srgba8(64, 224, 208, 255))
  ]

  const NamesV: seq<Entry> := [
    Entry("violet", Srgba8(238, 130, 238, 255))
  ]

  const NamesW: seq<Entry> := [
    Entry("wheat", Srgba8(245, 222, 179, 255)),
    Entry("white", Srgba8(255, 255, 255, 255)),
    Entry("whitesmoke", Srgba8(245, 245, 245, 255))
  ]

  const NamesY: seq<Entry> := [
    Entry("yellow", Srgba8(255, 255, 0, 255)),
    Entry("yellowgreen", Srgba8(154, 205, 50, 255))
  ]

  /** The arms tried in order: the first whose name equals `name` decides. */
  function Find(arms: seq<Entry>, name: string): Option<Srgba8>
    decreases |arms|
  {
    if |arms| == 0 then None
    else if arms[0].name == name then Some(arms[0].color)
    else Find(arms[1..], name)
  }

  /** The arms for the names beginning with `c`; none when no name begins with it. */
  function Group(c: char): seq<Entry> {
    match c
    case 'a' => NamesA
    case 'b' => NamesB
    case 'c' => NamesC
    case 'd' => NamesD
    case 'f' => NamesF
    case 'g' => NamesG
    case 'h' => NamesH
    case 'i' => NamesI
    case 'k' => NamesK
    case 'l' => NamesL
    case 'm' => NamesM
    case 'n' => NamesN
    case 'o' => NamesO
    case 'p' => NamesP
    case 'r' => NamesR
    case 's' => NamesS
    case 't' => NamesT
    case 'v' => NamesV
    case 'w' => NamesW
    case 'y' => NamesY
    case _ => []
  }

  /** The exact, case-sensitive lookup of a colour name: the group of the
      name's first character decides. */
  function Lookup(name: string): Option<Srgba8> {
    if |name| == 0 then None else Find(Group(name[0]), name)
  }

  /** A found colour is the colour of an arm carrying exactly that name. */
  lemma {:induction false} FindSound(arms: seq<Entry>, name: string)
    ensures Find(arms, name).Some? ==>
      exists i | 0 <= i < |arms| :: arms[i].name == name && arms[i].color == Find(arms, name).value
  {
    if |arms| > 0 && arms[0].name != name {
      FindSound(arms[1..], name);
      if Find(arms, name).Some? {
        var i :| 0 <= i < |arms| - 1 && arms[1..][i].name == name && arms[1..][i].color == Find(arms, name).value;
        assert arms[i + 1] == arms[1..][i];
      }
    }
  }

  /** The first arm carrying the name decides the result. */
  lemma {:induction false} FindFirst(arms: seq<Entry>, i: nat, name: string)
    requires i < |arms| && arms[i].name == name
    requires forall j | 0 <= j < i :: arms[j].name != name
    ensures Find(arms, name) == Some(arms[i].color)
  {
    if i > 0 {
      assert arms[0].name != name;
      assert arms[1..][i - 1] == arms[i];
      forall j | 0 <= j < i - 1
        ensures arms[1..][j].name != name
      {
        assert arms[1..][j] == arms[j + 1];
      }
      FindFirst(arms[1..], i - 1, name);
    }
  }

  /** A non-empty name spelled with lower-case ASCII letters only. */
  predicate IsLowerName(name: string) {
    |name| > 0 && forall i | 0 <= i < |name| :: 'a' <= name[i] <= 'z'
  }

  /** Text made of the letters `a` to `f` only, which could be read as
      hexadecimal digits. */
  predicate IsHexLetterWord(name: string) {
    forall i | 0 <= i < |name| :: 'a' <= name[i] <= 'f'
  }

  /** The shape of an arm of the group for `c`: a lower-case name beginning
      with `c`. */
  predicate ArmShaped(e: Entry, c: char) {
    IsLowerName(e.name) && e.name[0] == c
  }

  /** One of the second to fifth letters of `name` comes after `f`. */
  predicate LetterPastFEarly(name: string) {
    || (|name| > 1 && name[1] > 'f')
    || (|name| > 2 && name[2] > 'f')
    || (|name| > 3 && name[3] > 'f')
    || (|name| > 4 && name[4] > 'f')
  }

  /** Every arm of `arms` has a letter after `f` among its second to fifth. */
  predicate ArmsPastF(arms: seq<Entry>) {
    forall i | 0 <= i < |arms| :: LetterPastFEarly(arms[i].name)
  }

  /** Arms `lo` up to `hi` (exclusive) of `arms` have the shape of group `c`. */
  predicate ArmsShaped(arms: seq<Entry>, c: char, lo: nat, hi: nat) {
    forall i | lo <= i < hi && i < |arms| :: ArmShaped(arms[i], c)
  }

  lemma NamesAShaped1()
    ensures ArmsShaped(NamesA, 'a', 0, 1)
  {
  }

  lemma NamesAShaped2()
    ensures ArmsShaped(NamesA, 'a', 1, 3)
  {
  }

  lemma NamesAShaped3()
    ensures ArmsShaped(NamesA, 'a', 3, 5)
  {
  }

  lemma NamesAShaped()
    ensures ArmsShaped(NamesA, 'a', 0, 5)
  {
    NamesAShaped1();
    NamesAShaped2();
    NamesAShaped3();
  }

  lemma NamesBShaped1()
    ensures ArmsShaped(NamesB, 'b', 0, 3)
  {
  }

  lemma NamesBShaped2()
    ensures ArmsShaped(NamesB, 'b', 3, 5)
  {
  }

  lemma NamesBShaped3()
    ensures ArmsShaped(NamesB, 'b', 5, 7)
  {
  }

  lemma NamesBShaped4()
    ensures ArmsShaped(NamesB, 'b', 7, 8)
  {
  }

  lemma NamesBShaped()
    ensures ArmsShaped(NamesB, 'b', 0, 8)
  {
    NamesBShaped1();
    NamesBShaped2();
    NamesBShaped3();
    NamesBShaped4();
  }

  lemma NamesCShaped1()
    ensures ArmsShaped(NamesC, 'c', 0, 1)
  {
  }

  lemma NamesCShaped2()
    ensures ArmsShaped(NamesC, 'c', 1, 2)
  {
  }

  lemma NamesCShaped3()
    ensures ArmsShaped(NamesC, 'c', 2, 4)
  {
  }

  lemma NamesCShaped4()
    ensures ArmsShaped(NamesC, 'c', 4, 5)
  {
  }

  lemma NamesCShaped5()
    ensures ArmsShaped(NamesC, 'c', 5, 7)
  {
  }

  lemma NamesCShaped6()
    ensures ArmsShaped(NamesC, 'c', 7, 8)
  {
  }

  lemma NamesCShaped()
    ensures ArmsShaped(NamesC, 'c', 0, 8)
  {
    NamesCShaped1();
    NamesCShaped2();
    NamesCShaped3();
    NamesCShaped4();
    NamesCShaped5();
    NamesCShaped6();
  }

  lemma NamesDShaped1()
    ensures ArmsShaped(NamesD, 'd', 0, 2)
  {
  }

  lemma NamesDShaped2()
    ensures ArmsShaped(NamesD, 'd', 2, 3)
  {
  }

  lemma NamesDShaped3()
    ensures ArmsShaped(NamesD, 'd', 3, 5)
  {
  }

  lemma NamesDShaped4()
    ensures ArmsShaped(NamesD, 'd', 5, 6)
  {
  }

  lemma NamesDShaped5()
    ensures ArmsShaped(NamesD, 'd', 6, 7)
  {
  }

  lemma NamesDShaped6()
    ensures ArmsShaped(NamesD, 'd', 7, 8)
  {
  }

  lemma NamesDShaped7()
    ensures ArmsShaped(NamesD, 'd', 8, 9)
  {
  }

  lemma NamesDShaped8()
    ensures ArmsShaped(NamesD, 'd', 9, 11)
  {
  }

  lemma NamesDShaped9()
    ensures ArmsShaped(NamesD, 'd', 11, 12)
  {
  }

  lemma NamesDShaped10()
    ensures ArmsShaped(NamesD, 'd', 12, 13)
  {
  }

  lemma NamesDShaped11()
    ensures ArmsShaped(NamesD, 'd', 13, 14)
  {
  }

  lemma NamesDShaped12()
    ensures ArmsShaped(NamesD, 'd', 14, 15)
  {
  }

  lemma NamesDShaped13()
    ensures ArmsShaped(NamesD, 'd', 15, 16)
  {
  }

  lemma NamesDShaped14()
    ensures ArmsShaped(NamesD, 'd', 16, 18)
  {
  }

  lemma NamesDShaped15()
    ensures ArmsShaped(NamesD, 'd', 18, 20)
  {
  }

  lemma NamesDShaped16()
    ensures ArmsShaped(NamesD, 'd', 20, 21)
  {
  }

  lemma NamesDShaped()
    ensures ArmsShaped(NamesD, 'd', 0, 21)
  {
    NamesDShaped1();
    NamesDShaped2();
    NamesDShaped3();
    NamesDShaped4();
    NamesDShaped5();
    NamesDShaped6();
    NamesDShaped7();
    NamesDShaped8();
    NamesDShaped9();
    NamesDShaped10();
    NamesDShaped11();
    NamesDShaped12();
    NamesDShaped13();
    NamesDShaped14();
    NamesDShaped15();
    NamesDShaped16();
  }

  lemma NamesFShaped1()
    ensures ArmsShaped(NamesF, 'f', 0, 1)
  {
  }

  lemma NamesFShaped2()
    ensures ArmsShaped(NamesF, 'f', 1, 2)
  {
  }

  lemma NamesFShaped3()
    ensures ArmsShaped(NamesF, 'f', 2, 4)
  {
  }

  lemma NamesFShaped()
    ensures ArmsShaped(NamesF, 'f', 0, 4)
  {
    NamesFShaped1();
    NamesFShaped2();
    NamesFShaped3();
  }

  lemma NamesGShaped1()
    ensures ArmsShaped(NamesG, 'g', 0, 1)
  {
  }

  lemma NamesGShaped2()
    ensures ArmsShaped(NamesG, 'g', 1, 3)
  {
  }

  lemma NamesGShaped3()
    ensures ArmsShaped(NamesG, 'g', 3, 6)
  {
  }

  lemma NamesGShaped4()
    ensures ArmsShaped(NamesG, 'g', 6, 7)
  {
  }

  lemma NamesGShaped()
    ensures ArmsShaped(NamesG, 'g', 0, 7)
  {
    NamesGShaped1();
    NamesGShaped2();
    NamesGShaped3();
    NamesGShaped4();
  }

  lemma NamesHShaped()
    ensures ArmsShaped(NamesH, 'h', 0, 2)
  {
  }

  lemma NamesIShaped1()
    ensures ArmsShaped(NamesI, 'i', 0, 2)
  {
  }

  lemma NamesIShaped2()
    ensures ArmsShaped(NamesI, 'i', 2, 3)
  {
  }

  lemma NamesIShaped()
    ensures ArmsShaped(NamesI, 'i', 0, 3)
  {
    NamesIShaped1();
    NamesIShaped2();
  }

  lemma NamesKShaped()
    ensures ArmsShaped(NamesK, 'k', 0, 1)
  {
  }

  lemma NamesLShaped1()
    ensures ArmsShaped(NamesL, 'l', 0, 1)
  {
  }

  lemma NamesLShaped2()
    ensures ArmsShaped(NamesL, 'l', 1, 2)
  {
  }

  lemma NamesLShaped3()
    ensures ArmsShaped(NamesL, 'l', 2, 3)
  {
  }

  lemma NamesLShaped4()
    ensures ArmsShaped(NamesL, 'l', 3, 4)
  {
  }

  lemma NamesLShaped5()
    ensures ArmsShaped(NamesL, 'l', 4, 5)
  {
  }

  lemma NamesLShaped6()
    ensures ArmsShaped(NamesL, 'l', 5, 6)
  {
  }

  lemma NamesLShaped7()
    ensures ArmsShaped(NamesL, 'l', 6, 7)
  {
  }

  lemma NamesLShaped8()
    ensures ArmsShaped(NamesL, 'l', 7, 8)
  {
  }

  lemma NamesLShaped9()
    ensures ArmsShaped(NamesL, 'l', 8, 9)
  {
  }

  lemma NamesLShaped10()
    ensures ArmsShaped(NamesL, 'l', 9, 10)
  {
  }

  lemma NamesLShaped11()
    ensures ArmsShaped(NamesL, 'l', 10, 11)
  {
  }

  lemma NamesLShaped12()
    ensures ArmsShaped(NamesL, 'l', 11, 12)
  {
  }

  lemma NamesLShaped13()
    ensures ArmsShaped(NamesL, 'l', 12, 13)
  {
  }

  lemma NamesLShaped14()
    ensures ArmsShaped(NamesL, 'l', 13, 14)
  {
  }

  lemma NamesLShaped15()
    ensures ArmsShaped(NamesL, 'l', 14, 15)
  {
  }

  lemma NamesLShaped16()
    ensures ArmsShaped(NamesL, 'l', 15, 16)
  {
  }

  lemma NamesLShaped17()
    ensures ArmsShaped(NamesL, 'l', 16, 18)
  {
  }

  lemma NamesLShaped18()
    ensures ArmsShaped(NamesL, 'l', 18, 20)
  {
  }

  lemma NamesLShaped()
    ensures ArmsShaped(NamesL, 'l', 0, 20)
  {
    NamesLShaped1();
    NamesLShaped2();
    NamesLShaped3();
    NamesLShaped4();
    NamesLShaped5();
    NamesLShaped6();
    NamesLShaped7();
    NamesLShaped8();
    NamesLShaped9();
    NamesLShaped10();
    NamesLShaped11();
    NamesLShaped12();
    NamesLShaped13();
    NamesLShaped14();
    NamesLShaped15();
    NamesLShaped16();
    NamesLShaped17();
    NamesLShaped18();
  }

  lemma NamesMShaped1()
    ensures ArmsShaped(NamesM, 'm', 0, 2)
  {
  }

  lemma NamesMShaped2()
    ensures ArmsShaped(NamesM, 'm', 2, 3)
  {
  }

  lemma NamesMShaped3()
    ensures ArmsShaped(NamesM, 'm', 3, 4)
  {
  }

  lemma NamesMShaped4()
    ensures ArmsShaped(NamesM, 'm', 4, 5)
  {
  }

  lemma NamesMShaped5()
    ensures ArmsShaped(NamesM, 'm', 5, 6)
  {
  }

  lemma NamesMShaped6()
    ensures ArmsShaped(NamesM, 'm', 6, 7)
  {
  }

  lemma NamesMShaped7()
    ensures ArmsShaped(NamesM, 'm', 7, 8)
  {
  }

  lemma NamesMShaped8()
    ensures ArmsShaped(NamesM, 'm', 8, 9)
  {
  }

  lemma NamesMShaped9()
    ensures ArmsShaped(NamesM, 'm', 9, 10)
  {
  }

  lemma NamesMShaped10()
    ensures ArmsShaped(NamesM, 'm', 10, 11)
  {
  }

  lemma NamesMShaped11()
    ensures ArmsShaped(NamesM, 'm', 11, 12)
  {
  }

  lemma NamesMShaped12()
    ensures ArmsShaped(NamesM, 'm', 12, 14)
  {
  }

  lemma NamesMShaped13()
    ensures ArmsShaped(NamesM, 'm', 14, 15)
  {
  }

  lemma NamesMShaped()
    ensures ArmsShaped(NamesM, 'm', 0, 15)
  {
    NamesMShaped1();
    NamesMShaped2();
    NamesMShaped3();
    NamesMShaped4();
    NamesMShaped5();
    NamesMShaped6();
    NamesMShaped7();
    NamesMShaped8();
    NamesMShaped9();
    NamesMShaped10();
    NamesMShaped11();
    NamesMShaped12();
    NamesMShaped13();
  }

  lemma NamesNShaped()
    ensures ArmsShaped(NamesN, 'n', 0, 2)
  {
  }

  lemma NamesOShaped1()
    ensures ArmsShaped(NamesO, 'o', 0, 2)
  {
  }

  lemma NamesOShaped2()
    ensures ArmsShaped(NamesO, 'o', 2, 4)
  {
  }

  lemma NamesOShaped3()
    ensures ArmsShaped(NamesO, 'o', 4, 6)
  {
  }

  lemma NamesOShaped()
    ensures ArmsShaped(NamesO, 'o', 0, 6)
  {
    NamesOShaped1();
    NamesOShaped2();
    NamesOShaped3();
  }

  lemma NamesPShaped1()
    ensures ArmsShaped(NamesP, 'p', 0, 1)
  {
  }

  lemma NamesPShaped2()
    ensures ArmsShaped(NamesP, 'p', 1, 2)
  {
  }

  lemma NamesPShaped3()
    ensures ArmsShaped(NamesP, 'p', 2, 3)
  {
  }

  lemma NamesPShaped4()
    ensures ArmsShaped(NamesP, 'p', 3, 4)
  {
  }

  lemma NamesPShaped5()
    ensures ArmsShaped(NamesP, 'p', 4, 5)
  {
  }

  lemma NamesPShaped6()
    ensures ArmsShaped(NamesP, 'p', 5, 8)
  {
  }

  lemma NamesPShaped7()
    ensures ArmsShaped(NamesP, 'p', 8, 10)
  {
  }

  lemma NamesPShaped8()
    ensures ArmsShaped(NamesP, 'p', 10, 11)
  {
  }

  lemma NamesPShaped()
    ensures ArmsShaped(NamesP, 'p', 0, 11)
  {
    NamesPShaped1();
    NamesPShaped2();
    NamesPShaped3();
    NamesPShaped4();
    NamesPShaped5();
    NamesPShaped6();
    NamesPShaped7();
    NamesPShaped8();
  }

  lemma NamesRShaped1()
    ensures ArmsShaped(NamesR, 'r', 0, 2)
  {
  }

  lemma NamesRShaped2()
    ensures ArmsShaped(NamesR, 'r', 2, 4)
  {
  }

  lemma NamesRShaped()
    ensures ArmsShaped(NamesR, 'r', 0, 4)
  {
    NamesRShaped1();
    NamesRShaped2();
  }

  lemma NamesSShaped1()
    ensures ArmsShaped(NamesS, 's', 0, 2)
  {
  }

  lemma NamesSShaped2()
    ensures ArmsShaped(NamesS, 's', 2, 4)
  {
  }

  lemma NamesSShaped3()
    ensures ArmsShaped(NamesS, 's', 4, 6)
  {
  }

  lemma NamesSShaped4()
    ensures ArmsShaped(NamesS, 's', 6, 8)
  {
  }

  lemma NamesSShaped5()
    ensures ArmsShaped(NamesS, 's', 8, 10)
  {
  }

  lemma NamesSShaped6()
    ensures ArmsShaped(NamesS, 's', 10, 12)
  {
  }

  lemma NamesSShaped7()
    ensures ArmsShaped(NamesS, 's', 12, 13)
  {
  }

  lemma NamesSShaped()
    ensures ArmsShaped(NamesS, 's', 0, 13)
  {
    NamesSShaped1();
    NamesSShaped2();
    NamesSShaped3();
    NamesSShaped4();
    NamesSShaped5();
    NamesSShaped6();
    NamesSShaped7();
  }

  lemma NamesTShaped1()
    ensures ArmsShaped(NamesT, 't', 0, 3)
  {
  }

  lemma NamesTShaped2()
    ensures ArmsShaped(NamesT, 't', 3, 5)
  {
  }

  lemma NamesTShaped3()
    ensures ArmsShaped(NamesT, 't', 5, 6)
  {
  }

  lemma NamesTShaped()
    ensures ArmsShaped(NamesT, 't', 0, 6)
  {
    NamesTShaped1();
    NamesTShaped2();
    NamesTShaped3();
  }

  lemma NamesVShaped()
    ensures ArmsShaped(NamesV, 'v', 0, 1)
  {
  }

  lemma NamesWShaped1()
    ensures ArmsShaped(NamesW, 'w', 0, 2)
  {
  }

  lemma NamesWShaped2()
    ensures ArmsShaped(NamesW, 'w', 2, 3)
  {
  }

  lemma NamesWShaped()
    ensures ArmsShaped(NamesW, 'w', 0, 3)
  {
    NamesWShaped1();
    NamesWShaped2();
  }

  lemma NamesYShaped()
    ensures ArmsShaped(NamesY, 'y', 0, 2)
  {
  }

  /** No name beginning with `a` is spelt with `a` to `f` alone. */
  lemma NamesAPastF()
    ensures ArmsPastF(NamesA)
  {
  }

  /** No name beginning with `b` is spelt with `a` to `f` alone. */
  lemma NamesBPastF()
    ensures ArmsPastF(NamesB)
  {
  }

  /** No name beginning with `c` is spelt with `a` to `f` alone. */
  lemma NamesCPastF()
    ensures ArmsPastF(NamesC)
  {
  }

  /** No name beginning with `d` is spelt with `a` to `f` alone. */
  lemma NamesDPastF()
    ensures ArmsPastF(NamesD)
  {
  }

  /** No name beginning with `f` is spelt with `a` to `f` alone. */
  lemma NamesFPastF()
    ensures ArmsPastF(NamesF)
  {
  }

  /** What a fully shaped group finds has the group's shape; a group for a
      letter after `f`, or one whose names all have a letter past `f` early,
      finds no text spelt with hexadecimal letters alone. */
  lemma FoundShaped(arms: seq<Entry>, c: char, name: string)
    requires ArmsShaped(arms, c, 0, |arms|)
    requires c > 'f' || ArmsPastF(arms)
    ensures Find(arms, name).Some? ==> IsLowerName(name) && name[0] == c && !IsHexLetterWord(name)
  {
    FindSound(arms, name);
  }

  /** Every name in the table is spelled with lower-case ASCII letters only,
      so the lookup is case-sensitive and rejects digits and punctuation; and
      no name is spelt with the letters `a` to `f` alone, so text that could be
      hexadecimal digits is never a name. */
  lemma NamesAreLowercase(name: string)
    ensures Lookup(name).Some? ==> IsLowerName(name) && !IsHexLetterWord(name)
  {
    if |name| > 0 {
      match name[0]
      case 'a' => NamesAShaped(); NamesAPastF(); FoundShaped(NamesA, 'a', name);
      case 'b' => NamesBShaped(); NamesBPastF(); FoundShaped(NamesB, 'b', name);
      case 'c' => NamesCShaped(); NamesCPastF(); FoundShaped(NamesC, 'c', name);
      case 'd' => NamesDShaped(); NamesDPastF(); FoundShaped(NamesD, 'd', name);
      case 'f' => NamesFShaped(); NamesFPastF(); FoundShaped(NamesF, 'f', name);
      case 'g' => NamesGShaped(); FoundShaped(NamesG, 'g', name);
      case 'h' => NamesHShaped(); FoundShaped(NamesH, 'h', name);
      case 'i' => NamesIShaped(); FoundShaped(NamesI, 'i', name);
      case 'k' => NamesKShaped(); FoundShaped(NamesK, 'k', name);
      case 'l' => NamesLShaped(); FoundShaped(NamesL, 'l', name);
      case 'm' => NamesMShaped(); FoundShaped(NamesM, 'm', name);
      case 'n' => NamesNShaped(); FoundShaped(NamesN, 'n', name);
      case 'o' => NamesOShaped(); FoundShaped(NamesO, 'o', name);
      case 'p' => NamesPShaped(); FoundShaped(NamesP, 'p', name);
      case 'r' => NamesRShaped(); FoundShaped(NamesR, 'r', name);
      case 's' => NamesSShaped(); FoundShaped(NamesS, 's', name);
      case 't' => NamesTShaped(); FoundShaped(NamesT, 't', name);
      case 'v' => NamesVShaped(); FoundShaped(NamesV, 'v', name);
      case 'w' => NamesWShaped(); FoundShaped(NamesW, 'w', name);
      case 'y' => NamesYShaped(); FoundShaped(NamesY, 'y', name);
      case _ =>
    }
  }

  /** `"red"` selects `RED`, `rgb8(255, 0, 0)`. */
  lemma LookupRed()
    ensures Lookup("red") == Some(Srgba8(255, 0, 0, 255))
  {
    FindFirst(NamesR, 1, "red");
  }

  /** `"transparent"` selects `TRANSPARENT`, whose bytes are all zero. */
  lemma LookupTransparent()
    ensures Lookup("transparent") == Some(Srgba8(0, 0, 0, 0))
  {
    FindFirst(NamesT, 4, "transparent");
  }

  /** `"cornflowerblue"` selects `CORNFLOWER_BLUE`, `rgb8(100, 149, 237)`. */
  lemma LookupCornflowerBlue()
    ensures Lookup("cornflowerblue") == Some(Srgba8(100, 149, 237, 255))
  {
    FindFirst(NamesC, 4, "cornflowerblue");
  }
}
