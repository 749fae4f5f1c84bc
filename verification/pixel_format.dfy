/** Pixel-format metadata of crnlib: the table of known uncompressed and
    compressed pixel formats, their display names, the component flags of
    each format, and the conversions between the library-internal
    `pixel_format` enumeration and the public `crn_format` enumeration. */
module PixelFormat {

  import opened Options

  /** The `pixel_format` enumeration. Constructor names drop the `PIXEL_FMT_`
      prefix; `ThreeDC` is `PIXEL_FMT_3DC`. `Unlisted` stands for every value
      of the enumeration type that none of the switches below names: they all
      treat such values alike. */
  datatype PixelFormat =
    | Invalid
    | DXT1 | DXT1A | DXT2 | DXT3 | DXT4 | DXT5
    | ThreeDC | DXN | DXT5A
    | DXT5_CCxY | DXT5_xGxR | DXT5_xGBR | DXT5_AGBR
    | ETC1 | ETC2 | ETC2A | ETC1S | ETC2AS
    | R8G8B8 | L8 | A8 | A8L8 | A8R8G8B8
    | Unlisted

  /** The public `crn_format` enumeration (`cCRNFmt` prefix written `Crn`).
      `CrnUnlisted` stands for every other value of the type, such as the
      invalid and total-count markers. */
  datatype CrnFormat =
    | CrnDXT1 | CrnDXT3 | CrnDXT5
    | CrnDXT5_CCxY | CrnDXT5_xGxR | CrnDXT5_xGBR | CrnDXT5_AGBR
    | CrnDXN_XY | CrnDXN_YX | CrnDXT5A
    | CrnETC1 | CrnETC2 | CrnETC2A | CrnETC1S | CrnETC2AS
    | CrnUnlisted

  /** One bit of `component_flags`; a flag word is modelled as the set of its
      bits (the numeric bit values do not matter to any caller). */
  datatype CompFlag = RValid | GValid | BValid | AValid | Grayscale | NormalMap | LumaChroma

  /** The table `g_all_pixel_formats`, in source order. */
  const AllPixelFormats: seq<PixelFormat> :=
    [ DXT1, DXT2, DXT3, DXT4, DXT5, ThreeDC, DXN, DXT5A,
      DXT5_CCxY, DXT5_xGxR, DXT5_xGBR, DXT5_AGBR, DXT1A,
      ETC1, ETC2, ETC2A, ETC1S, ETC2AS,
      R8G8B8, L8, A8, A8L8, A8R8G8B8 ]

  /** A real format: neither the invalid marker nor an unnamed value. These
      are exactly the formats of the table (`TableIsComplete`). */
  predicate InTable(f: PixelFormat) {
    f != Invalid && f != Unlisted
  }

  /** The normal-map formats: two-channel and swizzled DXT5 encodings. */
  predicate IsNormalMapFormat(f: PixelFormat) {
    f == ThreeDC || f == DXN || f == DXT5_xGBR || f == DXT5_AGBR || f == DXT5_xGxR
  }

  // ---------------------------------------------------------------------------
  // The table and index lookup

  /** `get_num_formats`: the number of entries of the table. */
  function NumFormats(): (n: nat)
    ensures n == 23
    ensures n == |AllPixelFormats|
  {
    |AllPixelFormats|
  }

  /** The position of a table format: the inverse of `PixelFormatByIndex`. */
  function IndexOf(f: PixelFormat): (i: nat)
    requires InTable(f)
    ensures i < |AllPixelFormats| && AllPixelFormats[i] == f
  {
    match f
    case DXT1 => 0
    case DXT2 => 1
    case DXT3 => 2
    case DXT4 => 3
    case DXT5 => 4
    case ThreeDC => 5
    case DXN => 6
    case DXT5A => 7
    case DXT5_CCxY => 8
    case DXT5_xGxR => 9
    case DXT5_xGBR => 10
    case DXT5_AGBR => 11
    case DXT1A => 12
    case ETC1 => 13
    case ETC2 => 14
    case ETC2A => 15
    case ETC1S => 16
    case ETC2AS => 17
    case R8G8B8 => 18
    case L8 => 19
    case A8 => 20
    case A8L8 => 21
    case A8R8G8B8 => 22
  }

  /** `get_pixel_format_by_index`: the index must be below the format count
      (a debug assertion in the source; an out-of-range read otherwise). */
  function PixelFormatByIndex(index: nat): (f: PixelFormat)
    requires index < NumFormats()
    ensures InTable(f)
    ensures IndexOf(f) == index
  {
    AllPixelFormats[index]
  }

  /** Every named format other than `INVALID` is in the table, and nothing
      else is. */
  lemma TableIsComplete(f: PixelFormat)
    ensures f in AllPixelFormats <==> f != Invalid && f != Unlisted
  {
    if f != Invalid && f != Unlisted {
      assert AllPixelFormats[IndexOf(f)] == f;
    }
  }

  /** The table lists no format twice. */
  lemma TableEntriesDistinct()
    ensures forall i, j :: 0 <= i < j < |AllPixelFormats| ==> AllPixelFormats[i] != AllPixelFormats[j]
  {
    forall i, j | 0 <= i < j < |AllPixelFormats|
      ensures AllPixelFormats[i] != AllPixelFormats[j]
    {
      var fi := PixelFormatByIndex(i);
      var fj := PixelFormatByIndex(j);
      assert IndexOf(fi) == i && IndexOf(fj) == j;
    }
  }

  /** Index lookup and `IndexOf` are mutually inverse: the table is a
      bijection between 0 .. 22 and the real formats. */
  lemma IndexRoundTrip(f: PixelFormat)
    requires InTable(f)
    ensures PixelFormatByIndex(IndexOf(f)) == f
  {
  }

  // ---------------------------------------------------------------------------
  // Names

  /** `get_pixel_format_string`: the display name of a format, `"?"` for a
      value that names no format. */
  function PixelFormatString(f: PixelFormat): (s: string)
    ensures s == "?" <==> f == Unlisted
    ensures f == Invalid <==> s == "INVALID"
  {
    match f
    case Invalid => "INVALID"
    case DXT1 => "DXT1"
    case DXT1A => "DXT1A"
    case DXT2 => "DXT2"
    case DXT3 => "DXT3"
    case DXT4 => "DXT4"
    case DXT5 => "DXT5"
    case ThreeDC => "3DC"
    case DXN => "DXN"
    case DXT5A => "DXT5A"
    case DXT5_CCxY => "DXT5_CCxY"
    case DXT5_xGxR => "DXT5_xGxR"
    case DXT5_xGBR => "DXT5_xGBR"
    case DXT5_AGBR => "DXT5_AGBR"
    case ETC1 => "ETC1"
    case ETC2 => "ETC2"
    case ETC2A => "ETC2A"
    case ETC1S => "ETC1S"
    case ETC2AS => "ETC2AS"
    case R8G8B8 => "R8G8B8"
    case A8R8G8B8 => "A8R8G8B8"
    case A8 => "A8"
    case L8 => "L8"
    case A8L8 => "A8L8"
    case Unlisted => "?"
  }

  /** Reads a display name back: the reference inverse of
      `PixelFormatString`, used to show that the names are distinct. The
      names are tried family by family. */
  function ParsePixelFormatString(s: string): (r: Option<PixelFormat>)
    ensures r.Some? ==> r.value != Unlisted && PixelFormatString(r.value) == s
  {
    var block := ParseBlockName(s);
    if block.Some? then block
    else
      var swizzled := ParseSwizzledOrEtcName(s);
      if swizzled.Some? then swizzled else ParseUncompressedName(s)
  }

  /** The invalid marker and the plain block formats. */
  function ParseBlockName(s: string): (r: Option<PixelFormat>)
    ensures r.Some? ==> r.value != Unlisted && PixelFormatString(r.value) == s
  {
    if s == "INVALID" then Some(Invalid)
    else if s == "DXT1" then Some(DXT1)
    else if s == "DXT1A" then Some(DXT1A)
    else if s == "DXT2" then Some(DXT2)
    else if s == "DXT3" then Some(DXT3)
    else if s == "DXT4" then Some(DXT4)
    else if s == "DXT5" then Some(DXT5)
    else if s == "3DC" then Some(ThreeDC)
    else if s == "DXN" then Some(DXN)
    else if s == "DXT5A" then Some(DXT5A)
    else None
  }

  /** The swizzled DXT5 layouts and the ETC formats. */
  function ParseSwizzledOrEtcName(s: string): (r: Option<PixelFormat>)
    ensures r.Some? ==> r.value != Unlisted && PixelFormatString(r.value) == s
  {
    if s == "DXT5_CCxY" then Some(DXT5_CCxY)
    else if s == "DXT5_xGxR" then Some(DXT5_xGxR)
    else if s == "DXT5_xGBR" then Some(DXT5_xGBR)
    else if s == "DXT5_AGBR" then Some(DXT5_AGBR)
    else if s == "ETC1" then Some(ETC1)
    else if s == "ETC2" then Some(ETC2)
    else if s == "ETC2A" then Some(ETC2A)
    else if s == "ETC1S" then Some(ETC1S)
    else if s == "ETC2AS" then Some(ETC2AS)
    else None
  }

  /** The uncompressed formats. */
  function ParseUncompressedName(s: string): (r: Option<PixelFormat>)
    ensures r.Some? ==> r.value != Unlisted && PixelFormatString(r.value) == s
  {
    if s == "R8G8B8" then Some(R8G8B8)
    else if s == "A8R8G8B8" then Some(A8R8G8B8)
    else if s == "A8" then Some(A8)
    else if s == "L8" then Some(L8)
    else if s == "A8L8" then Some(A8L8)
    else None
  }

  /** Every format other than an unlisted value reads back from its name. */
  lemma PixelFormatStringRoundTrip(f: PixelFormat)
    requires f != Unlisted
    ensures ParsePixelFormatString(PixelFormatString(f)) == Some(f)
  {
    // Split by constructor so that each name is read back on its own.
    match f
    case Invalid => case DXT1 => case DXT1A => case DXT2 => case DXT3 =>
    case DXT4 => case DXT5 => case ThreeDC => case DXN => case DXT5A =>
    case DXT5_CCxY => case DXT5_xGxR => case DXT5_xGBR => case DXT5_AGBR => case ETC1 =>
    case ETC2 => case ETC2A => case ETC1S => case ETC2AS => case R8G8B8 =>
    case A8R8G8B8 => case A8 => case L8 => case A8L8 => case Unlisted =>
  }

  /** Distinct formats have distinct names, and a named format never prints
      as `"?"`. */
  lemma PixelFormatStringInjective(f: PixelFormat, g: PixelFormat)
    requires f != Unlisted && g != Unlisted
    requires PixelFormatString(f) == PixelFormatString(g)
    ensures f == g
  {
    PixelFormatStringRoundTrip(f);
    PixelFormatStringRoundTrip(g);
  }

  /** `get_crn_format_string`: the display name of a `crn_format`, `"?"` for
      an unlisted value. */
  function CrnFormatString(c: CrnFormat): (s: string)
    ensures s == "?" <==> c == CrnUnlisted
  {
    match c
    case CrnDXT1 => "DXT1"
    case CrnDXT3 => "DXT3"
    case CrnDXT5 => "DXT5"
    case CrnDXT5_CCxY => "DXT5_CCxY"
    case CrnDXT5_xGBR => "DXT5_xGBR"
    case CrnDXT5_AGBR => "DXT5_AGBR"
    case CrnDXT5_xGxR => "DXT5_xGxR"
    case CrnDXN_XY => "DXN_XY"
    case CrnDXN_YX => "DXN_YX"
    case CrnDXT5A => "DXT5A"
    case CrnETC1 => "ETC1"
    case CrnETC2 => "ETC2"
    case CrnETC2A => "ETC2A"
    case CrnETC1S => "ETC1S"
    case CrnETC2AS => "ETC2AS"
    case CrnUnlisted => "?"
  }

  /** Reads a `crn_format` display name back: the reference inverse of
      `CrnFormatString`. */
  function ParseCrnFormatString(s: string): (r: Option<CrnFormat>)
    ensures r.Some? ==> r.value != CrnUnlisted && CrnFormatString(r.value) == s
  {
    if s == "DXT1" then Some(CrnDXT1)
    else if s == "DXT3" then Some(CrnDXT3)
    else if s == "DXT5" then Some(CrnDXT5)
    else if s == "DXT5_CCxY" then Some(CrnDXT5_CCxY)
    else if s == "DXT5_xGBR" then Some(CrnDXT5_xGBR)
    else if s == "DXT5_AGBR" then Some(CrnDXT5_AGBR)
    else if s == "DXT5_xGxR" then Some(CrnDXT5_xGxR)
    else if s == "DXN_XY" then Some(CrnDXN_XY)
    else if s == "DXN_YX" then Some(CrnDXN_YX)
    else if s == "DXT5A" then Some(CrnDXT5A)
    else if s == "ETC1" then Some(CrnETC1)
    else if s == "ETC2" then Some(CrnETC2)
    else if s == "ETC2A" then Some(CrnETC2A)
    else if s == "ETC1S" then Some(CrnETC1S)
    else if s == "ETC2AS" then Some(CrnETC2AS)
    else None
  }

  /** Every listed `crn_format` reads back from its name. */
  lemma CrnFormatStringRoundTrip(c: CrnFormat)
    requires c != CrnUnlisted
    ensures ParseCrnFormatString(CrnFormatString(c)) == Some(c)
  {
  }

  /** The fifteen listed `crn_format` values have pairwise distinct names. */
  lemma CrnFormatStringInjective(c: CrnFormat, d: CrnFormat)
    requires c != CrnUnlisted && d != CrnUnlisted
    requires CrnFormatString(c) == CrnFormatString(d)
    ensures c == d
  {
    CrnFormatStringRoundTrip(c);
    CrnFormatStringRoundTrip(d);
  }

  // ---------------------------------------------------------------------------
  // Component flags

  /** `get_component_flags`: which components a decoded pixel of the format
      carries. An unlisted value keeps the initial all-components word. */
  function ComponentFlags(f: PixelFormat): (flags: set<CompFlag>)
    ensures NormalMap in flags <==> IsNormalMapFormat(f)
    ensures LumaChroma in flags <==> f == DXT5_CCxY
    ensures InTable(f) ==> (Grayscale in flags <==> f == L8 || f == A8L8)
    ensures RValid in flags <==> f != DXT5A && f != A8
  {
    var rgb := {RValid, GValid, BValid};
    var rgba := {RValid, GValid, BValid, AValid};
    match f
    case DXT1 | ETC1 | ETC2 | ETC1S => rgb
    case DXT1A => rgba
    case DXT2 | DXT3 => rgba
    case DXT4 | DXT5 | ETC2A | ETC2AS => rgba
    case DXT5A => {AValid}
    case DXT5_CCxY => rgb + {LumaChroma}
    case DXT5_xGBR => rgb + {NormalMap}
    case DXT5_AGBR => rgba + {NormalMap}
    case DXT5_xGxR => rgb + {NormalMap}
    case ThreeDC => rgb + {NormalMap}
    case DXN => rgb + {NormalMap}
    case R8G8B8 => rgb
    case A8R8G8B8 => rgba
    case A8 => {AValid}
    case L8 => rgb + {Grayscale}
    case A8L8 => rgba + {Grayscale}
    case Invalid | Unlisted => rgba + {Grayscale}
  }

  /** Only the two alpha-only formats carry nothing but an alpha channel. */
  lemma AlphaOnlyFormats(f: PixelFormat)
    ensures ComponentFlags(f) == {AValid} <==> f == DXT5A || f == A8
  {
  }

  /** A value without a case keeps every component plus grayscale. */
  lemma UnlistedFlags(f: PixelFormat)
    requires !InTable(f)
    ensures ComponentFlags(f) == {RValid, GValid, BValid, AValid, Grayscale}
  {
  }

  /** Red, green and blue validity always come together. */
  lemma ColourFlagsTogether(f: PixelFormat)
    ensures RValid in ComponentFlags(f) <==> GValid in ComponentFlags(f)
    ensures GValid in ComponentFlags(f) <==> BValid in ComponentFlags(f)
  {
  }

  // ---------------------------------------------------------------------------
  // Conversions

  /** `convert_pixel_format_to_best_crn_format`: the `crn_format` a pixel
      format is best compressed to; anything without a case keeps the
      initial DXT1. */
  function BestCrnFormat(f: PixelFormat): (c: CrnFormat)
    ensures c != CrnUnlisted
    ensures c != CrnDXT3
    ensures !InTable(f) ==> c == CrnDXT1
    ensures f == R8G8B8 || f == L8 ==> c == CrnDXT1
    ensures f == A8R8G8B8 || f == A8 || f == A8L8 ==> c == CrnDXT5
    ensures f == DXT1A ==> c == CrnDXT1
    ensures f == DXT2 || f == DXT4 ==> c == CrnDXT5
  {
    match f
    case DXT1 | DXT1A => CrnDXT1
    case DXT2 | DXT3 | DXT4 | DXT5 => CrnDXT5
    case ThreeDC => CrnDXN_YX
    case DXN => CrnDXN_XY
    case DXT5A => CrnDXT5A
    case R8G8B8 | L8 => CrnDXT1
    case A8R8G8B8 | A8 | A8L8 => CrnDXT5
    case DXT5_CCxY => CrnDXT5_CCxY
    case DXT5_xGBR => CrnDXT5_xGBR
    case DXT5_AGBR => CrnDXT5_AGBR
    case DXT5_xGxR => CrnDXT5_xGxR
    case ETC1 => CrnETC1
    case ETC2 => CrnETC2
    case ETC2A => CrnETC2A
    case ETC1S => CrnETC1S
    case ETC2AS => CrnETC2AS
    case Invalid | Unlisted => CrnDXT1
  }

  /** `convert_crn_format_to_pixel_format`: the pixel format a `crn_format`
      decodes to, `INVALID` for an unlisted value. */
  function CrnToPixelFormat(c: CrnFormat): (f: PixelFormat)
    ensures f == Invalid <==> c == CrnUnlisted
    ensures c != CrnUnlisted ==> InTable(f)
  {
    match c
    case CrnDXT1 => DXT1
    case CrnDXT3 => DXT3
    case CrnDXT5 => DXT5
    case CrnDXT5_CCxY => DXT5_CCxY
    case CrnDXT5_xGxR => DXT5_xGxR
    case CrnDXT5_xGBR => DXT5_xGBR
    case CrnDXT5_AGBR => DXT5_AGBR
    case CrnDXN_XY => DXN
    case CrnDXN_YX => ThreeDC
    case CrnDXT5A => DXT5A
    case CrnETC1 => ETC1
    case CrnETC2 => ETC2
    case CrnETC2A => ETC2A
    case CrnETC1S => ETC1S
    case CrnETC2AS => ETC2AS
    case CrnUnlisted => Invalid
  }

  /** Decoding keeps the name: every listed `crn_format` except the two DXN
      layouts decodes to the pixel format printed with the same name; DXN_XY
      decodes to DXN and DXN_YX to 3DC. */
  lemma DecodeKeepsName(c: CrnFormat)
    requires c != CrnUnlisted
    ensures c != CrnDXN_XY && c != CrnDXN_YX ==> PixelFormatString(CrnToPixelFormat(c)) == CrnFormatString(c)
    ensures c == CrnDXN_XY ==> CrnToPixelFormat(c) == DXN
    ensures c == CrnDXN_YX ==> CrnToPixelFormat(c) == ThreeDC
  {
    // Split by constructor so that each name comparison is proved on its own.
    match c
    case CrnDXT1 => case CrnDXT3 => case CrnDXT5 => case CrnDXT5_CCxY =>
    case CrnDXT5_xGxR => case CrnDXT5_xGBR => case CrnDXT5_AGBR => case CrnDXN_XY =>
    case CrnDXN_YX => case CrnDXT5A => case CrnETC1 => case CrnETC2 =>
    case CrnETC2A => case CrnETC1S => case CrnETC2AS => case CrnUnlisted =>
  }

  /** Distinct listed `crn_format` values decode to distinct pixel formats. */
  lemma CrnToPixelFormatInjective(c: CrnFormat, d: CrnFormat)
    requires c != CrnUnlisted && d != CrnUnlisted
    requires CrnToPixelFormat(c) == CrnToPixelFormat(d)
    ensures c == d
  {
  }

  /** Near round trip: decoding a listed `crn_format` and asking for the best
      `crn_format` gives it back, except DXT3, which comes back as DXT5. */
  lemma CrnFormatNearRoundTrip(c: CrnFormat)
    requires c != CrnUnlisted
    ensures BestCrnFormat(CrnToPixelFormat(c)) == (if c == CrnDXT3 then CrnDXT5 else c)
  {
  }

  /** The other direction: a pixel format survives the trip through its best
      `crn_format` exactly when it is one of the fourteen formats some
      `crn_format` other than DXT3 decodes to. */
  lemma PixelFormatRoundTrip(f: PixelFormat)
    ensures CrnToPixelFormat(BestCrnFormat(f)) == f
        <==> (exists c :: c != CrnUnlisted && c != CrnDXT3 && CrnToPixelFormat(c) == f)
  {
    if CrnToPixelFormat(BestCrnFormat(f)) == f {
      assert BestCrnFormat(f) != CrnUnlisted && BestCrnFormat(f) != CrnDXT3;
    }
  }

  /** Alpha validity agrees with the choice of compressed format: a table
      format carries alpha exactly when its best `crn_format` is one with an
      alpha block, except DXT1A, whose one-bit alpha DXT1 also encodes. */
  lemma AlphaMatchesBestFormat(f: PixelFormat)
    requires InTable(f)
    ensures f != DXT1A ==>
      (AValid in ComponentFlags(f) <==> BestCrnFormat(f) in {CrnDXT5, CrnDXT5_AGBR, CrnDXT5A, CrnETC2A, CrnETC2AS})
    ensures f == DXT1A ==> AValid in ComponentFlags(f) && BestCrnFormat(f) == CrnDXT1
  {
  }

  /** The best `crn_format` is a fixed point: converting it back to a pixel
      format and choosing again does not change it. */
  lemma BestCrnFormatStable(f: PixelFormat)
    ensures BestCrnFormat(CrnToPixelFormat(BestCrnFormat(f))) == BestCrnFormat(f)
  {
  }
}
