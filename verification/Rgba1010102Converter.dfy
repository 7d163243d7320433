/**
 * 16-bit YUV 4:2:0 to packed RGBA1010102, two columns of two rows at a time, in 32-bit integer arithmetic.
 * The coefficients are those of the code.
 */
module Rgba1010102Converter {
  import opened Planes
  import opened Planar420

  type word = w: int | 0 <= w < 0x1_0000
  type Pixel = p: int | 0 <= p < 0x1_0000_0000

  /** int32_t: every intermediate value has to fit. */
  newtype int32 = i: int | -0x8000_0000 <= i < 0x8000_0000

  // ---------------------------------------------------------------- color aspects

  datatype Range = RangeUnspecified | Full | Limited | OtherRange
  datatype Primaries = PrimariesUnspecified | P709 | P601_625 | P601_525 | P2020 | OtherPrimaries
  datatype Transfer = St2084 | Hlg | OtherTransfer
  datatype Matrix = MatrixUnspecified | M601 | M709 | M2020 | OtherMatrix

  datatype Aspects = Aspects(range: Range, primaries: Primaries, transfer: Transfer, matrix: Matrix)

  /** Deduced from the transfer, then from the picture size. */
  function DeducedPrimaries(transfer: Transfer, width: nat, height: nat): Primaries {
    if transfer.St2084? || transfer.Hlg? then P2020
    else if width >= 3840 || height >= 3840 || width * height >= 3840 * 1634 then P2020
    else if (width <= 720 && height <= 576) || (height <= 720 && width <= 576) then P601_625
    else P709
  }

  function MatrixFor(primaries: Primaries): Matrix {
    match primaries
    case P601_525 => M601
    case P601_625 => M601
    case P709 => M709
    case _ => M2020
  }

  /** `FillMissingColorAspects`. */
  function FillMissingColorAspects(a: Aspects, width: nat, height: nat): Aspects {
    if !a.matrix.MatrixUnspecified? then a
    else
      var primaries := if a.primaries.PrimariesUnspecified? then DeducedPrimaries(a.transfer, width, height) else a.primaries;
      a.(primaries := primaries, matrix := MatrixFor(primaries))
  }

  /** The matrix is known afterwards, what was known is kept, and nothing is left to fill in. */
  lemma AspectsFilled(a: Aspects, width: nat, height: nat, width': nat, height': nat)
    ensures var b := FillMissingColorAspects(a, width, height);
      && !b.matrix.MatrixUnspecified? && b.range == a.range && b.transfer == a.transfer
      && (!a.matrix.MatrixUnspecified? ==> b == a)
      && (!a.primaries.PrimariesUnspecified? ==> b.primaries == a.primaries)
      && FillMissingColorAspects(b, width', height') == b
      && FillMissingColorAspects(a, height, width) == b
  {
    assert width * height == height * width;
  }

  datatype Coeffs = Coeffs(y: int32, bU: int32, gU: int32, gV: int32, rV: int32, c16: int32)

  /** `GetCoeffsForAspects`. */
  function GetCoeffsForAspects(a: Aspects): Coeffs {
    match a.matrix
    case M601 => if a.range.Full? then Coeffs(1024, 1436, 352, 731, 1815, 0) else Coeffs(1196, 1639, 402, 835, 2072, 64)
    case M709 => if a.range.Full? then Coeffs(1024, 1613, 192, 479, 1900, 0) else Coeffs(1196, 1841, 219, 547, 2169, 64)
    case _ => if a.range.Full? then Coeffs(1024, 1510, 169, 585, 1927, 0) else Coeffs(1196, 1724, 192, 668, 2200, 64)
  }

  /** All six sets of coefficients are small. */
  predicate Small(c: Coeffs) {
    && 0 <= c.y <= 1196 && 0 <= c.bU <= 2200 && 0 <= c.gU <= 2200 && 0 <= c.gV <= 2200 && 0 <= c.rV <= 2200 && 0 <= c.c16 <= 64
  }

  lemma CoeffsAreSmall(a: Aspects)
    ensures Small(GetCoeffsForAspects(a))
  {
  }

  // ---------------------------------------------------------------- one pixel, on unbounded integers

  function Clip(lo: int, v: int, hi: int): int {
    if v < lo then lo else if hi > v then v else hi
  }

  /** C's division truncates toward zero. */
  function TruncDiv(a: int, b: int): int
    requires b > 0
  {
    if a >= 0 then a / b else -(-a / b)
  }

  datatype Rgb = Rgb(r: int, g: int, b: int)

  /** A sum of products, in units of 1/1024 and rounded, clipped to ten bits. */
  function Channel(sum: int): (c: int)
    ensures 0 <= c < 1024
  {
    Clip(0, TruncDiv(sum + 512, 1024), 1023)
  }

  /** The formula: what a pixel with samples `y`, `u`, `v` becomes. */
  function RgbOf(c: Coeffs, y: word, u: word, v: word): Rgb {
    var l, cb, cr := (y - c.c16 as int) * c.y as int, u - 512, v - 512;
    Rgb(Channel(l + cr * c.rV as int), Channel(l - cr * c.gV as int - cb * c.gU as int), Channel(l + cb * c.bU as int))
  }

  /** Two bits alpha, then blue, green and red; by `FieldsDoNotOverlap` the `|` of the code is `+`. */
  function Word(p: Rgb): Pixel
    requires 0 <= p.r < 1024 && 0 <= p.g < 1024 && 0 <= p.b < 1024
  {
    3 * 0x4000_0000 + p.b * 0x10_0000 + p.g * 0x400 + p.r
  }

  /** Shifted into place, no two fields share a bit: or-ing them is adding them, with the weights of `Word`. */
  lemma FieldsDoNotOverlap(r: bv32, g: bv32, b: bv32)
    requires r < 0x400 && g < 0x400 && b < 0x400
    ensures (3 << 30) | (b << 20) | (g << 10) | r == 3 * 0x4000_0000 + b * 0x10_0000 + g * 0x400 + r
    ensures (3 << 30) & (b << 20) == 0 && (b << 20) & (g << 10) == 0 && (g << 10) & r == 0
  {
  }

  /** Unpacking recovers the formula, with alpha 3. */
  lemma WordUnpacks(p: Rgb)
    requires 0 <= p.r < 1024 && 0 <= p.g < 1024 && 0 <= p.b < 1024
    ensures Word(p) % 0x400 == p.r && Word(p) / 0x400 % 0x400 == p.g && Word(p) / 0x10_0000 % 0x400 == p.b
    ensures Word(p) / 0x4000_0000 == 3
  {
    assert Word(p) == (p.g + 0x400 * (p.b + 0x400 * 3)) * 0x400 + p.r;
    assert Word(p) == (p.b + 0x400 * 3) * 0x10_0000 + (p.g * 0x400 + p.r);
  }

  /** Truncation and rounding down agree once the result is clipped at zero. */
  lemma ChannelRounds(sum: int)
    ensures Channel(sum) == Clip(0, (sum + 512) / 1024, 1023)
  {
  }

  /** Full range and neutral chroma: gray, with the value of Y. */
  lemma NeutralChromaIsGray(a: Aspects, y: word)
    requires a.range.Full? && y < 1024
    ensures RgbOf(GetCoeffsForAspects(a), y, 512, 512) == Rgb(y, y, y)
  {
    assert (y * 1024 + 512) / 1024 == y;
  }

  // ---------------------------------------------------------------- the code

  function Clip32(v: int32): int32 {
    if v < 0 then 0 else if 1023 > v then v else 1023
  }

  /** `/ 1024` on int32_t. */
  function Div1024(a: int32): (q: int32)
    requires a > -0x8000_0000
    ensures q as int == TruncDiv(a as int, 1024)
  {
    if a >= 0 then a / 1024 else -(-a / 1024)
  }

  /** Dividing and clipping on int32_t is the channel of the formula; `a` is rounded already. */
  lemma ChannelOf(a: int32)
    requires a > -0x8000_0000
    ensures Clip32(Div1024(a)) as int == Channel(a as int - 512)
  {
  }

  /** One pixel of the loop; no intermediate value leaves int32_t. */
  method PutPixel(y: int32, uB: int32, uG: int32, vG: int32, vR: int32, yCoeff: int32) returns (p: Pixel)
    requires -64 <= y < 0x1_0000 && 0 <= yCoeff <= 1196
    requires -150_000_000 <= uB <= 150_000_000 && -150_000_000 <= uG <= 150_000_000
    requires -150_000_000 <= vG <= 150_000_000 && -150_000_000 <= vR <= 150_000_000
    ensures var l := y as int * yCoeff as int;
      p == Word(Rgb(Channel(l + vR as int), Channel(l + vG as int + uG as int), Channel(l + uB as int)))
  {
    ProductBound(y as int, yCoeff as int);
    var yMult := y * yCoeff + 512;
    var b := Div1024(yMult + uB);
    var g := Div1024(yMult + vG + uG);
    var r := Div1024(yMult + vR);
    ChannelOf(yMult + uB);
    ChannelOf(yMult + vG + uG);
    ChannelOf(yMult + vR);
    b := Clip32(b);
    g := Clip32(g);
    r := Clip32(r);
    p := 3 * 0x4000_0000 + b as int * 0x10_0000 + g as int * 0x400 + r as int;
  }

  lemma ProductBound(y: int, c: int)
    requires -64 <= y < 0x1_0000 && 0 <= c <= 1196
    ensures -76544 <= y * c <= 78_381_056
  {
    if y >= 0 {
      assert 0 <= y * c <= y * 1196;
    } else {
      assert 0 <= (-y) * c <= 64 * 1196;
    }
  }

  lemma NatProduct(a: nat, b: nat, c: nat, d: nat)
    requires a <= c && b <= d
    ensures 0 <= a * b <= c * d
  {
    assert a * b <= c * b;
    assert c * b <= c * d;
  }

  lemma ChromaBound(s: int, c: nat)
    requires -512 <= s < 0x1_0000 - 512 && c <= 2200
    ensures -150_000_000 <= s * c <= 150_000_000
  {
    if s >= 0 {
      NatProduct(s, c, 65023, 2200);
    } else {
      NatProduct(-s, c, 65023, 2200);
      assert s * c == -(-s * c);
    }
  }

  /** What becomes of one luma and two chroma samples. */
  function Formula(c: Coeffs): (word, word, word) -> Pixel {
    (y: word, u: word, v: word) => Word(RgbOf(c, y, u, v))
  }

  /** `g` is the formula; stated for those samples only whose colors are spoken of. */
  ghost predicate Computes(g: (word, word, word) -> Pixel, c: Coeffs) {
    forall y: word, u: word, v: word {:trigger RgbOf(c, y, u, v)} :: g(y, u, v) == Word(RgbOf(c, y, u, v))
  }

  /** Every 2x2 block of pixels shares one U and one V. */
  function Packed(src: Source<word>, g: (word, word, word) -> Pixel): (nat, nat) -> Pixel {
    (r: nat, x: nat) => g(At(src.y, src.yStride, r, x, 0), At(src.u, src.uStride, r / 2, x / 2, 0),
                          At(src.v, src.vStride, r / 2, x / 2, 0))
  }

  /** The pixels of one 2x2 block, from its four luma samples and its U and V. */
  method BlockPixels(c: Coeffs, u: word, v: word, y00: word, y01: word, y10: word, y11: word)
      returns (p00: Pixel, p01: Pixel, p10: Pixel, p11: Pixel)
    requires Small(c)
    ensures p00 == Word(RgbOf(c, y00, u, v)) && p01 == Word(RgbOf(c, y01, u, v))
    ensures p10 == Word(RgbOf(c, y10, u, v)) && p11 == Word(RgbOf(c, y11, u, v))
  {
    var uB, uG, vG, vR := ChromaTerms(c, u, v);
    p00 := LumaPixel(c, y00, u, v, uB, uG, vG, vR);
    p01 := LumaPixel(c, y01, u, v, uB, uG, vG, vR);
    p10 := LumaPixel(c, y10, u, v, uB, uG, vG, vR);
    p11 := LumaPixel(c, y11, u, v, uB, uG, vG, vR);
  }

  /** The products the four pixels of a block share. */
  predicate SharedTerms(c: Coeffs, u: word, v: word, uB: int32, uG: int32, vG: int32, vR: int32) {
    && uB as int == (u - 512) * c.bU as int && uG as int == -((u - 512) * c.gU as int)
    && vG as int == -((v - 512) * c.gV as int) && vR as int == (v - 512) * c.rV as int
    && -150_000_000 <= uB <= 150_000_000 && -150_000_000 <= uG <= 150_000_000
    && -150_000_000 <= vG <= 150_000_000 && -150_000_000 <= vR <= 150_000_000
  }

  method ChromaTerms(c: Coeffs, u: word, v: word) returns (uB: int32, uG: int32, vG: int32, vR: int32)
    requires Small(c)
    ensures SharedTerms(c, u, v, uB, uG, vG, vR)
  {
    var cb, cr := u as int32 - 512, v as int32 - 512;
    var negGU, negGV := -c.gU, -c.gV;
    ChromaBound(cb as int, c.bU as int);
    ChromaBound(cb as int, c.gU as int);
    ChromaBound(cr as int, c.gV as int);
    ChromaBound(cr as int, c.rV as int);
    Negated(cb as int, c.gU as int);
    Negated(cr as int, c.gV as int);
    uB := cb * c.bU;
    uG := cb * negGU;
    vG := cr * negGV;
    vR := cr * c.rV;
  }

  method LumaPixel(c: Coeffs, y: word, ghost u: word, ghost v: word, uB: int32, uG: int32, vG: int32, vR: int32)
      returns (p: Pixel)
    requires Small(c) && SharedTerms(c, u, v, uB, uG, vG, vR)
    ensures p == Word(RgbOf(c, y, u, v))
  {
    p := PutPixel(y as int32 - c.c16, uB, uG, vG, vR, c.y);
  }

  lemma Negated(a: int, b: int)
    ensures a * -b == -(a * b)
  {
  }

  /** The body of the loop over the columns: a 2x2 block. */
  method ConvertBlock(c: Coeffs, src: Source<word>, yTop: nat, yBot: nat, u: nat, v: nat, ghost r: nat, ghost x: nat,
                      ghost f: (nat, nat) -> Pixel, ghost g: (word, word, word) -> Pixel)
      returns (p00: Pixel, p01: Pixel, p10: Pixel, p11: Pixel)
    requires Small(c) && r % 2 == 0 && x % 2 == 0 && Computes(g, c) && f == Packed(src, g)
    requires Pointers(src, r, x, 2, yTop, u, v) && Pointers(src, r + 1, x, 2, yBot, u, v)
    ensures p00 == f(r, x) && p01 == f(r, x + 1) && p10 == f(r + 1, x) && p11 == f(r + 1, x + 1)
  {
    p00, p01, p10, p11 := BlockPixels(c, src.u[u], src.v[v], src.y[yTop], src.y[yTop + 1], src.y[yBot], src.y[yBot + 1]);
    SamplesAt(src, g, r, x, yTop, u, v);
    SamplesAt(src, g, r, x + 1, yTop + 1, u, v);
    SamplesAt(src, g, r + 1, x, yBot, u, v);
    SamplesAt(src, g, r + 1, x + 1, yBot + 1, u, v);
  }

  lemma SamplesAt(src: Source<word>, g: (word, word, word) -> Pixel, r: nat, x: nat, y: nat, u: nat, v: nat)
    requires y == r * src.yStride + x && y < |src.y|
    requires u == r / 2 * src.uStride + x / 2 && u < |src.u| && v == r / 2 * src.vStride + x / 2 && v < |src.v|
    ensures Packed(src, g)(r, x) == g(src.y[y], src.u[u], src.v[v])
  {
    AtRow(src.y, src.yStride, r, x, 0);
    AtRow(src.u, src.uStride, r / 2, x / 2, 0);
    AtRow(src.v, src.vStride, r / 2, x / 2, 0);
  }

  method PutBlock(dst: array<Pixel>, top: nat, bot: nat, x: nat, p00: Pixel, p01: Pixel, p10: Pixel, p11: Pixel,
                  ghost r: nat, ghost f: (nat, nat) -> Pixel)
    requires top + x + 2 <= bot && bot + x + 2 <= dst.Length
    requires p00 == f(r, x) && p01 == f(r, x + 1) && p10 == f(r + 1, x) && p11 == f(r + 1, x + 1)
    modifies dst
    ensures RowsPainted(old(dst[..]), dst[..], top, bot, x, x + 2, r, f)
  {
    dst[top + x], dst[top + x + 1] := p00, p01;
    dst[bot + x], dst[bot + x + 1] := p10, p11;
  }

  /** The body of the loop over the columns, in the rows that start at `top` and `bot`. */
  method ConvertColumns(dst: array<Pixel>, c: Coeffs, top: nat, bot: nat, src: Source<word>, width: nat,
                        yTop: nat, yBot: nat, u: nat, v: nat, x: nat, ghost r: nat,
                     ghost f: (nat, nat) -> Pixel, ghost g: (word, word, word) -> Pixel)
    requires Small(c) && Computes(g, c) && f == Packed(src, g) && r % 2 == 0 && width % 2 == 0 && x % 2 == 0 && x < width
    requires Pointers(src, r, 0, width, yTop, u, v) && Pointers(src, r + 1, 0, width, yBot, u, v)
    requires top + width <= bot && bot + width <= dst.Length
    modifies dst
    ensures RowsPainted(old(dst[..]), dst[..], top, bot, x, x + 2, r, f)
  {
    PointersAdvance(src, r, width, yTop, u, v, x, 2);
    PointersAdvance(src, r + 1, width, yBot, u, v, x, 2);
    var p00, p01, p10, p11 := ConvertBlock(c, src, yTop + x, yBot + x, u + x / 2, v + x / 2, r, x, f, g);
    PutBlock(dst, top, bot, x, p00, p01, p10, p11, r, f);
  }

  /** One round of the loop over the rows. */
  method ConvertRows(dst: array<Pixel>, c: Coeffs, top: nat, bot: nat, src: Source<word>, width: nat,
                     yTop: nat, yBot: nat, u: nat, v: nat, ghost r: nat,
                     ghost f: (nat, nat) -> Pixel, ghost g: (word, word, word) -> Pixel)
    requires Small(c) && Computes(g, c) && f == Packed(src, g) && r % 2 == 0 && width % 2 == 0
    requires Pointers(src, r, 0, width, yTop, u, v) && Pointers(src, r + 1, 0, width, yBot, u, v)
    requires top + width <= bot && bot + width <= dst.Length
    modifies dst
    ensures RowsPainted(old(dst[..]), dst[..], top, bot, 0, width, r, f)
  {
    var x := 0;
    while x < width
      invariant x % 2 == 0 && x <= width
      invariant RowsPainted(old(dst[..]), dst[..], top, bot, 0, x, r, f)
    {
      ghost var before := dst[..];
      ConvertColumns(dst, c, top, bot, src, width, yTop, yBot, u, v, x, r, f, g);
      MoreColumns(old(dst[..]), before, dst[..], top, bot, x, x + 2, r, f);
      x := x + 2;
    }
  }

  /** `convertYUV420Planar16ToRGBA1010102`. */
  method ConvertPlanar16ToRGBA1010102(dst: array<Pixel>, src: Source<word>, dstStride: nat, width: nat, height: nat, aspects: Aspects)
    requires width % 2 == 0 && height % 2 == 0 && 0 < dstStride
    requires Fits(dst.Length, dstStride, width, height) && Fits(|src.y|, src.yStride, width, height)
    requires Fits(|src.u|, src.uStride, width / 2, height / 2) && Fits(|src.v|, src.vStride, width / 2, height / 2)
    modifies dst
    ensures dst[..] == Painted(old(dst[..]), dstStride, width, height,
                               Packed(src, Formula(GetCoeffsForAspects(FillMissingColorAspects(aspects, width, height)))))
  {
    var filled := FillMissingColorAspects(aspects, width, height);
    var c := GetCoeffsForAspects(filled);
    CoeffsAreSmall(filled);
    assert Computes(Formula(c), c);
    ConvertAllRows(dst, c, src, dstStride, width, height, Formula(c));
  }

  /** The body of the loop over the rows. */
  method ConvertRowPair(dst: array<Pixel>, c: Coeffs, src: Source<word>, dstStride: nat, width: nat, height: nat, y: nat, d: nat,
                        srcY: nat, srcU: nat, srcV: nat, ghost was: seq<Pixel>,
                        ghost f: (nat, nat) -> Pixel, ghost g: (word, word, word) -> Pixel)
    requires Small(c) && Computes(g, c) && f == Packed(src, g) && width % 2 == 0 && height % 2 == 0 && y % 2 == 0 && y < height
    requires 0 < dstStride && Fits(dst.Length, dstStride, width, height) && Fits(|src.y|, src.yStride, width, height)
    requires Fits(|src.u|, src.uStride, width / 2, height / 2) && Fits(|src.v|, src.vStride, width / 2, height / 2)
    requires AtRows(src, dstStride, y, d, srcY, srcU, srcV) && dst[..] == Painted(was, dstStride, width, y, f)
    modifies dst
    ensures dst[..] == Painted(was, dstStride, width, y + 2, f)
  {
    RowPairFits(dst.Length, dstStride, width, height, y);
    RowPointers(src, dstStride, width, height, y, d, srcY, srcU, srcV);
    ConvertRows(dst, c, d, d + dstStride, src, width, srcY, srcY + src.yStride, srcU, srcV, y, f, g);
    NextTwoRows(was, dst[..], dstStride, width, y, f);
  }

  /** The loop over the rows. */
  method ConvertAllRows(dst: array<Pixel>, c: Coeffs, src: Source<word>, dstStride: nat, width: nat, height: nat,
                        ghost g: (word, word, word) -> Pixel)
    requires Small(c) && Computes(g, c) && width % 2 == 0 && height % 2 == 0 && 0 < dstStride
    requires Fits(dst.Length, dstStride, width, height) && Fits(|src.y|, src.yStride, width, height)
    requires Fits(|src.u|, src.uStride, width / 2, height / 2) && Fits(|src.v|, src.vStride, width / 2, height / 2)
    modifies dst
    ensures dst[..] == Painted(old(dst[..]), dstStride, width, height, Packed(src, g))
  {
    var y: nat, d: nat, srcY: nat, srcU: nat, srcV: nat := 0, 0, 0, 0, 0;
    ghost var was, f := dst[..], Packed(src, g);
    NoRow(was, dstStride, width, f);
    while y < height
      invariant y % 2 == 0 && y <= height
      invariant AtRows(src, dstStride, y, d, srcY, srcU, srcV)
      invariant dst[..] == Painted(was, dstStride, width, y, f)
    {
      ConvertRowPair(dst, c, src, dstStride, width, height, y, d, srcY, srcU, srcV, was, f, g);
      NextRows(src, dstStride, y, d, srcY, srcU, srcV);
      srcY := srcY + src.yStride * 2;
      srcU := srcU + src.uStride;
      srcV := srcV + src.vStride;
      d := d + dstStride * 2;
      y := y + 2;
    }
  }

  /**
   * For all 16-bit samples, every pixel of the converted picture unpacks to alpha 3 and the three channels of
   * the formula, for its own Y and the U and V of its 2x2 block; each channel has ten bits.
   */
  lemma PixelsUnpack(was: seq<Pixel>, src: Source<word>, c: Coeffs, dstStride: nat, width: nat, height: nat, r: nat, x: nat)
    requires 0 < dstStride && Fits(|was|, dstStride, width, height) && r < height && x < width
    ensures r * dstStride + x < |was|
    ensures var w := Painted(was, dstStride, width, height, Packed(src, Formula(c)))[r * dstStride + x];
      var p := RgbOf(c, At(src.y, src.yStride, r, x, 0), At(src.u, src.uStride, r / 2, x / 2, 0), At(src.v, src.vStride, r / 2, x / 2, 0));
      && 0 <= p.r < 1024 && 0 <= p.g < 1024 && 0 <= p.b < 1024
      && w % 0x400 == p.r && w / 0x400 % 0x400 == p.g && w / 0x10_0000 % 0x400 == p.b && w / 0x4000_0000 == 3
  {
    PaintedAt(was, dstStride, width, height, Packed(src, Formula(c)), r, x);
    WordUnpacks(RgbOf(c, At(src.y, src.yStride, r, x, 0), At(src.u, src.uStride, r / 2, x / 2, 0),
                      At(src.v, src.vStride, r / 2, x / 2, 0)));
  }
}
