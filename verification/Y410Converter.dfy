/**
 * 16-bit YUV 4:2:0 to packed Y410: four columns of two rows at a time, read as little-endian 32-bit words,
 * with a tail of two columns.
 */
module Y410Converter {
  import opened Planes
  import opened Planar420

  /** The word read at two adjacent samples. */
  function Word(lo: bv16, hi: bv16): bv32 {
    (lo as bv32) | ((hi as bv32) << 16)
  }

  /** What the code takes of a word for one sample: ten bits of the lower half, or all of the upper one. */
  function HalfOf(word: bv32, upper: bool): bv32 {
    if upper then word >> 16 else word & 0x3FF
  }

  /** What of a sample gets into a pixel. */
  function Lane(s: bv16, upper: bool): bv32 {
    if upper then s as bv32 else (s as bv32) & 0x3FF
  }

  /** Two bits alpha, then V, Y and U. */
  function Assemble(alpha: bv32, y: bv32, u: bv32, v: bv32): bv32 {
    (alpha << 30) | (v << 20) | (y << 10) | u
  }

  /** The last two columns, if the width is no multiple of four. */
  predicate InTail(x: nat, width: nat) {
    x >= width / 4 * 4
  }

  /** The pixel in column `x`. */
  function Pixel(y: bv16, u: bv16, v: bv16, x: nat, width: nat): bv32 {
    Assemble(if InTail(x, width) then 0 else 3, Lane(y, x % 2 == 1), Lane(u, x / 2 % 2 == 1), Lane(v, x / 2 % 2 == 1))
  }

  /** Every 2x2 block of pixels shares one U and one V. */
  function Packed(src: Source<bv16>, width: nat): (nat, nat) -> bv32 {
    (r: nat, x: nat) => Pixel(At(src.y, src.yStride, r, x, 0), At(src.u, src.uStride, r / 2, x / 2, 0),
                              At(src.v, src.vStride, r / 2, x / 2, 0), x, width)
  }

  lemma WordHalves(lo: bv16, hi: bv16)
    ensures HalfOf(Word(lo, hi), false) == Lane(lo, false) && HalfOf(Word(lo, hi), true) == Lane(hi, true)
  {
  }

  /** U and V of a 2x2 block, in their places. */
  function Chroma(u: bv32, v: bv32): bv32 {
    u | (v << 20)
  }

  lemma AssembleInOrder(y: bv32, u: bv32, v: bv32)
    ensures (3 << 30) | (y << 10) | Chroma(u, v) == Assemble(3, y, u, v)
    ensures (y << 10) | Chroma(u, v) == Assemble(0, y, u, v)
  {
  }

  /** A pixel of a word that is not in the tail, or is. */
  lemma PixelFrom(y: bv16, u: bv16, v: bv16, x: nat, width: nat, yUpper: bool, cUpper: bool, yw: bv32, uw: bv32, vw: bv32)
    requires yUpper == (x % 2 == 1) && cUpper == (x / 2 % 2 == 1)
    requires yw == Lane(y, yUpper) && uw == Lane(u, cUpper) && vw == Lane(v, cUpper)
    ensures Pixel(y, u, v, x, width) == Assemble(if InTail(x, width) then 0 else 3, yw, uw, vw)
  {
  }

  lemma BlockColumns(x: nat, width: nat)
    requires x % 4 == 0 && x + 4 <= width
    ensures x % 2 == 0 && (x + 1) % 2 == 1 && (x + 2) % 2 == 0 && (x + 3) % 2 == 1
    ensures x / 2 % 2 == 0 && (x + 1) / 2 % 2 == 0 && (x + 2) / 2 % 2 == 1 && (x + 3) / 2 % 2 == 1
    ensures (x + 1) / 2 == x / 2 && (x + 2) / 2 == x / 2 + 1 && (x + 3) / 2 == x / 2 + 1
    ensures !InTail(x, width) && !InTail(x + 1, width) && !InTail(x + 2, width) && !InTail(x + 3, width)
  {
    var q := x / 4;
    assert x == 4 * q;
    assert x / 2 == 2 * q && (x + 1) / 2 == 2 * q && (x + 2) / 2 == 2 * q + 1 && (x + 3) / 2 == 2 * q + 1;
    assert width / 4 >= q + 1;
  }

  lemma TailColumns(x: nat, width: nat)
    requires x % 4 == 0 && x + 2 == width
    ensures x % 2 == 0 && (x + 1) % 2 == 1 && x / 2 % 2 == 0 && (x + 1) / 2 % 2 == 0 && (x + 1) / 2 == x / 2
    ensures InTail(x, width) && InTail(x + 1, width)
  {
    var q := x / 4;
    assert x == 4 * q;
    assert x / 2 == 2 * q && (x + 1) / 2 == 2 * q && width / 4 == q;
  }

  /** The samples behind column `x` of row `r`, where the source pointers stand. */
  lemma SamplesAt(src: Source<bv16>, width: nat, r: nat, x: nat, y: nat, u: nat, v: nat)
    requires y == r * src.yStride + x && y < |src.y|
    requires u == r / 2 * src.uStride + x / 2 && u < |src.u| && v == r / 2 * src.vStride + x / 2 && v < |src.v|
    ensures Packed(src, width)(r, x) == Pixel(src.y[y], src.u[u], src.v[v], x, width)
  {
    AtRow(src.y, src.yStride, r, x, 0);
    AtRow(src.u, src.uStride, r / 2, x / 2, 0);
    AtRow(src.v, src.vStride, r / 2, x / 2, 0);
  }

  /** Column `i` of the block, from the words the loop reads. */
  lemma BlockPixel(src: Source<bv16>, width: nat, r: nat, x: nat, y: nat, u: nat, v: nat, i: nat)
    requires x % 4 == 0 && x + 4 <= width && Pointers(src, r, x, 4, y, u, v) && i < 4
    ensures Packed(src, width)(r, x + i)
         == Assemble(3, HalfOf(if i < 2 then Word(src.y[y], src.y[y + 1]) else Word(src.y[y + 2], src.y[y + 3]), i % 2 == 1),
                     HalfOf(Word(src.u[u], src.u[u + 1]), i >= 2), HalfOf(Word(src.v[v], src.v[v + 1]), i >= 2))
  {
    WordHalves(src.u[u], src.u[u + 1]);
    WordHalves(src.v[v], src.v[v + 1]);
    if i < 2 {
      WordHalves(src.y[y], src.y[y + 1]);
      BlockLanes(src, width, r, x, y, u, v, i, 0);
    } else {
      WordHalves(src.y[y + 2], src.y[y + 3]);
      BlockLanes(src, width, r, x, y, u, v, i, 1);
    }
  }

  /** The same from the samples; `c` is the chroma sample of the column. */
  lemma BlockLanes(src: Source<bv16>, width: nat, r: nat, x: nat, y: nat, u: nat, v: nat, i: nat, c: nat)
    requires x % 4 == 0 && x + 4 <= width && Pointers(src, r, x, 4, y, u, v) && i < 4 && c == if i < 2 then 0 else 1
    ensures Packed(src, width)(r, x + i)
         == Assemble(3, Lane(src.y[y + i], i % 2 == 1), Lane(src.u[u + c], i >= 2), Lane(src.v[v + c], i >= 2))
  {
    BlockColumns(x, width);
    SamplesAt(src, width, r, x + i, y + i, u + c, v + c);
    PixelFrom(src.y[y + i], src.u[u + c], src.v[v + c], x + i, width, i % 2 == 1, i >= 2,
              Lane(src.y[y + i], i % 2 == 1), Lane(src.u[u + c], i >= 2), Lane(src.v[v + c], i >= 2));
  }

  lemma TailPixel(src: Source<bv16>, width: nat, r: nat, x: nat, y: nat, u: nat, v: nat, i: nat)
    requires x % 4 == 0 && x + 2 == width && Pointers(src, r, x, 2, y, u, v) && i < 2
    ensures Packed(src, width)(r, x + i)
         == Assemble(0, HalfOf(Word(src.y[y], src.y[y + 1]), i == 1), Lane(src.u[u], false), Lane(src.v[v], false))
  {
    TailColumns(x, width);
    SamplesAt(src, width, r, x + i, y + i, u, v);
    WordHalves(src.y[y], src.y[y + 1]);
    PixelFrom(src.y[y + i], src.u[u], src.v[v], x + i, width, i == 1, false,
              Lane(src.y[y + i], i == 1), Lane(src.u[u], false), Lane(src.v[v], false));
  }

  /** One pixel, from ten or more bits of Y and the shared chroma bits. */
  method PixelWord(y: bv32, uv: bv32, ghost u: bv32, ghost v: bv32) returns (w: bv32)
    requires uv == Chroma(u, v)
    ensures w == Assemble(3, y, u, v)
  {
    AssembleInOrder(y, u, v);
    w := (3 << 30) | (y << 10) | uv;
  }

  /** A pixel of the tail: no alpha bits are set. */
  method TailWord(y: bv32, uv: bv32, ghost u: bv32, ghost v: bv32) returns (w: bv32)
    requires uv == Chroma(u, v)
    ensures w == Assemble(0, y, u, v)
  {
    AssembleInOrder(y, u, v);
    w := (y << 10) | uv;
  }

  /** The pixels of a block in one row, from the words read. */
  method BlockWords(u01: bv32, v01: bv32, y01: bv32, y23: bv32) returns (w0: bv32, w1: bv32, w2: bv32, w3: bv32)
    ensures w0 == Assemble(3, HalfOf(y01, false), HalfOf(u01, false), HalfOf(v01, false))
    ensures w1 == Assemble(3, HalfOf(y01, true), HalfOf(u01, false), HalfOf(v01, false))
    ensures w2 == Assemble(3, HalfOf(y23, false), HalfOf(u01, true), HalfOf(v01, true))
    ensures w3 == Assemble(3, HalfOf(y23, true), HalfOf(u01, true), HalfOf(v01, true))
  {
    var uv0 := Chroma(HalfOf(u01, false), HalfOf(v01, false));
    var uv1 := Chroma(HalfOf(u01, true), HalfOf(v01, true));
    w0 := PixelWord(HalfOf(y01, false), uv0, HalfOf(u01, false), HalfOf(v01, false));
    w1 := PixelWord(HalfOf(y01, true), uv0, HalfOf(u01, false), HalfOf(v01, false));
    w2 := PixelWord(HalfOf(y23, false), uv1, HalfOf(u01, true), HalfOf(v01, true));
    w3 := PixelWord(HalfOf(y23, true), uv1, HalfOf(u01, true), HalfOf(v01, true));
  }

  method TailWords(u: bv16, v: bv16, y01: bv32) returns (w0: bv32, w1: bv32)
    ensures w0 == Assemble(0, HalfOf(y01, false), Lane(u, false), Lane(v, false))
    ensures w1 == Assemble(0, HalfOf(y01, true), Lane(u, false), Lane(v, false))
  {
    var uv0 := Chroma(Lane(u, false), Lane(v, false));
    w0 := TailWord(HalfOf(y01, false), uv0, Lane(u, false), Lane(v, false));
    w1 := TailWord(HalfOf(y01, true), uv0, Lane(u, false), Lane(v, false));
  }

  /** The words a block reads, and the pixels they make. */
  method ReadBlock(src: Source<bv16>, width: nat, y: nat, u: nat, v: nat, x: nat, ghost r: nat, ghost f: (nat, nat) -> bv32)
      returns (w0: bv32, w1: bv32, w2: bv32, w3: bv32)
    requires x % 4 == 0 && x + 4 <= width && width % 2 == 0 && Pointers(src, r, 0, width, y, u, v) && f == Packed(src, width)
    ensures w0 == f(r, x) && w1 == f(r, x + 1) && w2 == f(r, x + 2) && w3 == f(r, x + 3)
  {
    PointersAdvance(src, r, width, y, u, v, x, 4);
    w0, w1, w2, w3 := ReadWords(src, width, y + x, u + x / 2, v + x / 2, x, r, f);
  }

  method ReadWords(src: Source<bv16>, width: nat, y: nat, u: nat, v: nat, ghost x: nat, ghost r: nat, ghost f: (nat, nat) -> bv32)
      returns (w0: bv32, w1: bv32, w2: bv32, w3: bv32)
    requires x % 4 == 0 && x + 4 <= width && Pointers(src, r, x, 4, y, u, v) && f == Packed(src, width)
    ensures w0 == f(r, x) && w1 == f(r, x + 1) && w2 == f(r, x + 2) && w3 == f(r, x + 3)
  {
    var u01, v01 := Word(src.u[u], src.u[u + 1]), Word(src.v[v], src.v[v + 1]);
    var y01, y23 := Word(src.y[y], src.y[y + 1]), Word(src.y[y + 2], src.y[y + 3]);
    w0, w1, w2, w3 := BlockWords(u01, v01, y01, y23);
    BlockPixel(src, width, r, x, y, u, v, 0);
    BlockPixel(src, width, r, x, y, u, v, 1);
    BlockPixel(src, width, r, x, y, u, v, 2);
    BlockPixel(src, width, r, x, y, u, v, 3);
  }

  method ReadTail(src: Source<bv16>, width: nat, y: nat, u: nat, v: nat, ghost x: nat, ghost r: nat, ghost f: (nat, nat) -> bv32)
      returns (w0: bv32, w1: bv32)
    requires x % 4 == 0 && x + 2 == width && Pointers(src, r, x, 2, y, u, v) && f == Packed(src, width)
    ensures w0 == f(r, x) && w1 == f(r, x + 1)
  {
    w0, w1 := TailWords(src.u[u], src.v[v], Word(src.y[y], src.y[y + 1]));
    TailPixel(src, width, r, x, y, u, v, 0);
    TailPixel(src, width, r, x, y, u, v, 1);
  }

  /** The body of the loop over the columns: four pixels in each of two rows. */
  method PackBlock(dst: array<bv32>, top: nat, bot: nat, src: Source<bv16>, width: nat, yTop: nat, yBot: nat, u: nat, v: nat,
                   x: nat, ghost r: nat, ghost f: (nat, nat) -> bv32)
    requires f == Packed(src, width) && r % 2 == 0 && x % 4 == 0 && x + 4 <= width && width % 2 == 0
    requires Pointers(src, r, 0, width, yTop, u, v) && Pointers(src, r + 1, 0, width, yBot, u, v)
    requires top + x + 4 <= bot && bot + x + 4 <= dst.Length
    modifies dst
    ensures RowsPainted(old(dst[..]), dst[..], top, bot, x, x + 4, r, f)
  {
    var t0, t1, t2, t3 := ReadBlock(src, width, yTop, u, v, x, r, f);
    var b0, b1, b2, b3 := ReadBlock(src, width, yBot, u, v, x, r + 1, f);
    ghost var before := dst[..];
    PutFour(dst, top, x, t0, t1, t2, t3, r, f);
    ghost var middle := dst[..];
    PutFour(dst, bot, x, b0, b1, b2, b3, r + 1, f);
    RowByRow(before, middle, dst[..], top, bot, x, x + 4, r, f);
  }

  method PutFour(dst: array<bv32>, start: nat, x: nat, w0: bv32, w1: bv32, w2: bv32, w3: bv32,
                 ghost r: nat, ghost f: (nat, nat) -> bv32)
    requires start + x + 4 <= dst.Length
    requires w0 == f(r, x) && w1 == f(r, x + 1) && w2 == f(r, x + 2) && w3 == f(r, x + 3)
    modifies dst
    ensures ColumnsPainted(old(dst[..]), dst[..], start, x, x + 4, r, f)
  {
    var d := start + x;
    dst[d], dst[d + 1], dst[d + 2], dst[d + 3] := w0, w1, w2, w3;
  }

  /** The pixels of the tail in two rows. */
  method ReadTails(src: Source<bv16>, width: nat, yTop: nat, yBot: nat, u: nat, v: nat, x: nat, ghost r: nat,
                   ghost f: (nat, nat) -> bv32) returns (t0: bv32, t1: bv32, b0: bv32, b1: bv32)
    requires f == Packed(src, width) && r % 2 == 0 && x % 4 == 0 && x + 2 == width
    requires Pointers(src, r, 0, width, yTop, u, v) && Pointers(src, r + 1, 0, width, yBot, u, v)
    ensures t0 == f(r, x) && t1 == f(r, x + 1) && b0 == f(r + 1, x) && b1 == f(r + 1, x + 1)
  {
    PointersAdvance(src, r, width, yTop, u, v, x, 2);
    PointersAdvance(src, r + 1, width, yBot, u, v, x, 2);
    t0, t1 := ReadTail(src, width, yTop + x, u + x / 2, v + x / 2, x, r, f);
    b0, b1 := ReadTail(src, width, yBot + x, u + x / 2, v + x / 2, x, r + 1, f);
  }

  /** The tail: two pixels in each of two rows. */
  method PutTail(dst: array<bv32>, top: nat, bot: nat, x: nat, t0: bv32, t1: bv32, b0: bv32, b1: bv32,
                 ghost r: nat, ghost f: (nat, nat) -> bv32)
    requires top + x + 2 <= bot && bot + x + 2 <= dst.Length
    requires t0 == f(r, x) && t1 == f(r, x + 1) && b0 == f(r + 1, x) && b1 == f(r + 1, x + 1)
    modifies dst
    ensures RowsPainted(old(dst[..]), dst[..], top, bot, x, x + 2, r, f)
  {
    ghost var before := dst[..];
    PutTwo(dst, top, x, t0, t1, r, f);
    ghost var middle := dst[..];
    PutTwo(dst, bot, x, b0, b1, r + 1, f);
    RowByRow(before, middle, dst[..], top, bot, x, x + 2, r, f);
  }

  method PutTwo(dst: array<bv32>, start: nat, x: nat, w0: bv32, w1: bv32, ghost r: nat, ghost f: (nat, nat) -> bv32)
    requires start + x + 2 <= dst.Length && w0 == f(r, x) && w1 == f(r, x + 1)
    modifies dst
    ensures ColumnsPainted(old(dst[..]), dst[..], start, x, x + 2, r, f)
  {
    var d := start + x;
    dst[d], dst[d + 1] := w0, w1;
  }

  /** One round of the loop over the rows. */
  method PackRows(dst: array<bv32>, top: nat, bot: nat, src: Source<bv16>, width: nat, yTop: nat, yBot: nat, u: nat, v: nat,
                  ghost r: nat, ghost f: (nat, nat) -> bv32)
    requires f == Packed(src, width) && r % 2 == 0 && width % 2 == 0 && width >= 4
    requires Pointers(src, r, 0, width, yTop, u, v) && Pointers(src, r + 1, 0, width, yBot, u, v)
    requires top + width <= bot && bot + width <= dst.Length
    modifies dst
    ensures RowsPainted(old(dst[..]), dst[..], top, bot, 0, width, r, f)
  {
    var x := 0;
    while x < width - 3
      invariant x % 4 == 0 && x <= width
      invariant RowsPainted(old(dst[..]), dst[..], top, bot, 0, x, r, f)
    {
      ghost var before := dst[..];
      PackBlock(dst, top, bot, src, width, yTop, yBot, u, v, x, r, f);
      MoreColumns(old(dst[..]), before, dst[..], top, bot, x, x + 4, r, f);
      x := x + 4;
    }
    if x < width {
      ghost var before := dst[..];
      var t0, t1, b0, b1 := ReadTails(src, width, yTop, yBot, u, v, x, r, f);
      PutTail(dst, top, bot, x, t0, t1, b0, b1, r, f);
      MoreColumns(old(dst[..]), before, dst[..], top, bot, x, width, r, f);
    }
  }

  /** The body of the loop over the rows. */
  method PackRowPair(dst: array<bv32>, src: Source<bv16>, dstStride: nat, width: nat, height: nat, y: nat, d: nat,
                     srcY: nat, srcU: nat, srcV: nat, ghost was: seq<bv32>, ghost f: (nat, nat) -> bv32)
    requires f == Packed(src, width) && width % 2 == 0 && width >= 4 && height % 2 == 0 && y % 2 == 0 && y < height
    requires Fits(dst.Length, dstStride, width, height) && Fits(|src.y|, src.yStride, width, height)
    requires Fits(|src.u|, src.uStride, width / 2, height / 2) && Fits(|src.v|, src.vStride, width / 2, height / 2)
    requires AtRows(src, dstStride, y, d, srcY, srcU, srcV) && dst[..] == Painted(was, dstStride, width, y, f)
    modifies dst
    ensures dst[..] == Painted(was, dstStride, width, y + 2, f)
  {
    RowPairFits(dst.Length, dstStride, width, height, y);
    RowPointers(src, dstStride, width, height, y, d, srcY, srcU, srcV);
    PackRows(dst, d, d + dstStride, src, width, srcY, srcY + src.yStride, srcU, srcV, y, f);
    NextTwoRows(was, dst[..], dstStride, width, y, f);
  }

  /** `convertYUV420Planar16ToY410`. */
  method ConvertPlanar16ToY410(dst: array<bv32>, src: Source<bv16>, dstStride: nat, width: nat, height: nat)
    requires width % 2 == 0 && width >= 4 && height % 2 == 0
    requires Fits(dst.Length, dstStride, width, height) && Fits(|src.y|, src.yStride, width, height)
    requires Fits(|src.u|, src.uStride, width / 2, height / 2) && Fits(|src.v|, src.vStride, width / 2, height / 2)
    modifies dst
    ensures dst[..] == Painted(old(dst[..]), dstStride, width, height, Packed(src, width))
  {
    var y: nat, d: nat, srcY: nat, srcU: nat, srcV: nat := 0, 0, 0, 0, 0;
    ghost var was, f := dst[..], Packed(src, width);
    NoRow(was, dstStride, width, f);
    while y < height
      invariant y % 2 == 0 && y <= height
      invariant AtRows(src, dstStride, y, d, srcY, srcU, srcV)
      invariant dst[..] == Painted(was, dstStride, width, y, f)
    {
      PackRowPair(dst, src, dstStride, width, height, y, d, srcY, srcU, srcV, was, f);
      NextRows(src, dstStride, y, d, srcY, srcU, srcV);
      srcY := srcY + src.yStride * 2;
      srcU := srcU + src.uStride;
      srcV := srcV + src.vStride;
      d := d + dstStride * 2;
      y := y + 2;
    }
  }

  // ---------------------------------------------------------------- what a reader of the pixels finds

  lemma Unassemble(alpha: bv32, y: bv32, u: bv32, v: bv32)
    requires alpha < 4 && y < 0x400 && u < 0x400 && v < 0x400
    ensures var w := Assemble(alpha, y, u, v);
      w & 0x3FF == u && (w >> 10) & 0x3FF == y && (w >> 20) & 0x3FF == v && w >> 30 == alpha
  {
  }

  lemma TenBits(s: bv16, upper: bool)
    requires s < 0x400
    ensures Lane(s, upper) == s as bv32 && Lane(s, upper) < 0x400
  {
  }

  /**
   * From 10-bit samples, every pixel of the converted picture unpacks to its own Y and the U and V of its 2x2
   * block; alpha is 3, except in the tail, where the code leaves it 0.
   */
  lemma PixelsUnpack(was: seq<bv32>, src: Source<bv16>, dstStride: nat, width: nat, height: nat, r: nat, x: nat)
    requires width % 2 == 0 && height % 2 == 0 && r < height && x < width
    requires Fits(|was|, dstStride, width, height)
    requires At(src.y, src.yStride, r, x, 0) < 0x400
    requires At(src.u, src.uStride, r / 2, x / 2, 0) < 0x400 && At(src.v, src.vStride, r / 2, x / 2, 0) < 0x400
    ensures r * dstStride + x < |was|
    ensures var w := Painted(was, dstStride, width, height, Packed(src, width))[r * dstStride + x];
      && w & 0x3FF == At(src.u, src.uStride, r / 2, x / 2, 0) as bv32
      && (w >> 10) & 0x3FF == At(src.y, src.yStride, r, x, 0) as bv32
      && (w >> 20) & 0x3FF == At(src.v, src.vStride, r / 2, x / 2, 0) as bv32
      && w >> 30 == if x >= width / 4 * 4 then 0 else 3
  {
    PaintedAt(was, dstStride, width, height, Packed(src, width), r, x);
    var y, u, v := At(src.y, src.yStride, r, x, 0), At(src.u, src.uStride, r / 2, x / 2, 0), At(src.v, src.vStride, r / 2, x / 2, 0);
    PixelUnpacks(y, u, v, x, width);
  }

  lemma PixelUnpacks(y: bv16, u: bv16, v: bv16, x: nat, width: nat)
    requires y < 0x400 && u < 0x400 && v < 0x400
    ensures var w := Pixel(y, u, v, x, width);
      w & 0x3FF == u as bv32 && (w >> 10) & 0x3FF == y as bv32 && (w >> 20) & 0x3FF == v as bv32
      && w >> 30 == if InTail(x, width) then 0 else 3
  {
    var yUpper, cUpper := x % 2 == 1, x / 2 % 2 == 1;
    TenBits(y, yUpper);
    TenBits(u, cUpper);
    TenBits(v, cUpper);
    PixelFrom(y, u, v, x, width, yUpper, cUpper, Lane(y, yUpper), Lane(u, cUpper), Lane(v, cUpper));
    Unassemble(if InTail(x, width) then 0 else 3, Lane(y, yUpper), Lane(u, cUpper), Lane(v, cUpper));
  }
}
