/**
 * The converters with planar or half-planar output: 8-bit and 16-bit YUV 4:2:0 to YV12, and 16-bit to P010.
 * Each writes exactly its rectangles, and the three agree with each other.
 */
module PlanarConverters {
  import opened Planes

  type byte = b: int | 0 <= b < 0x100
  type word = w: int | 0 <= w < 0x1_0000

  const NEUTRAL_UV_BIT_DEPTH_8: byte := 128
  const NEUTRAL_UV_BIT_DEPTH_10: word := 512

  /** Chroma planes of an odd-sized picture are rounded up. */
  function Half(n: nat): nat {
    (n + 1) / 2
  }

  /** `(uint8_t)(s >> 2)`. */
  function Narrow(s: word): byte {
    s / 4 % 0x100
  }

  /** `s << 6` in a uint16_t. */
  function Widen(s: word): word {
    s * 64 % 0x1_0000
  }

  function Constant<T>(c: T): (nat, nat) -> T {
    (r, x) => c
  }

  function Copied(src: seq<byte>, stride: nat): (nat, nat) -> byte {
    (r, x) => At(src, stride, r, x, 0)
  }

  function Narrowed(src: seq<word>, stride: nat): (nat, nat) -> byte {
    (r, x) => Narrow(At(src, stride, r, x, 0))
  }

  function Widened(src: seq<word>, stride: nat): (nat, nat) -> word {
    (r, x) => Widen(At(src, stride, r, x, 0))
  }

  /** U in the even columns, V in the odd ones. */
  function Interleaved(srcU: seq<word>, strideU: nat, srcV: seq<word>, strideV: nat): (nat, nat) -> word {
    (r, x) => if x % 2 == 0 then Widen(At(srcU, strideU, r, x / 2, 0)) else Widen(At(srcV, strideV, r, x / 2, 0))
  }

  /** `memcpy` of row `r`. */
  method CopyRow(dst: array<byte>, d: nat, src: seq<byte>, s: nat, w: nat, ghost stride: nat, ghost r: nat)
    requires d + w <= dst.Length && s + w <= |src| && s == r * stride
    modifies dst
    ensures RowPainted(old(dst[..]), dst[..], d, w, r, Copied(src, stride))
  {
    forall k | d <= k < d + w {
      dst[k] := src[s + (k - d)];
    }
    assert forall k: nat :: d <= k < d + w ==> dst[k] == At(src, stride, r, k - d, 0);
  }

  /** `memset` of row `r`. */
  method FillRow(dst: array<byte>, d: nat, value: byte, w: nat, ghost r: nat)
    requires d + w <= dst.Length
    modifies dst
    ensures RowPainted(old(dst[..]), dst[..], d, w, r, Constant(value))
  {
    forall k | d <= k < d + w {
      dst[k] := value;
    }
  }

  method CopyPlane(dst: array<byte>, dstStride: nat, src: seq<byte>, srcStride: nat, w: nat, h: nat)
    requires 0 < dstStride && Fits(dst.Length, dstStride, w, h) && Fits(|src|, srcStride, w, h)
    modifies dst
    ensures dst[..] == Painted(old(dst[..]), dstStride, w, h, Copied(src, srcStride))
  {
    var s, d := 0, 0;
    ghost var was, f := dst[..], Copied(src, srcStride);
    NoRow(was, dstStride, w, f);
    for i := 0 to h
      invariant s == i * srcStride && d == i * dstStride
      invariant dst[..] == Painted(was, dstStride, w, i, f)
    {
      RowFits(dst.Length, dstStride, w, h, i);
      RowFits(|src|, srcStride, w, h, i);
      CopyRow(dst, d, src, s, w, srcStride, i);
      NextRow(was, dst[..], dstStride, w, i, f);
      s := s + srcStride;
      d := d + dstStride;
    }
  }

  /** Monochrome pictures get neutral chroma. */
  method FillNeutral(dstU: array<byte>, dstV: array<byte>, stride: nat, w: nat, h: nat)
    requires dstU != dstV && 0 < stride && Fits(dstU.Length, stride, w, h) && Fits(dstV.Length, stride, w, h)
    modifies dstU, dstV
    ensures dstU[..] == Painted(old(dstU[..]), stride, w, h, Constant(NEUTRAL_UV_BIT_DEPTH_8))
    ensures dstV[..] == Painted(old(dstV[..]), stride, w, h, Constant(NEUTRAL_UV_BIT_DEPTH_8))
  {
    var d := 0;
    ghost var wasU, wasV, f := dstU[..], dstV[..], Constant(NEUTRAL_UV_BIT_DEPTH_8);
    NoRow(wasU, stride, w, f);
    NoRow(wasV, stride, w, f);
    for i := 0 to h
      invariant d == i * stride
      invariant dstU[..] == Painted(wasU, stride, w, i, f) && dstV[..] == Painted(wasV, stride, w, i, f)
    {
      RowFits(dstU.Length, stride, w, h, i);
      RowFits(dstV.Length, stride, w, h, i);
      FillRow(dstV, d, NEUTRAL_UV_BIT_DEPTH_8, w, i);
      FillRow(dstU, d, NEUTRAL_UV_BIT_DEPTH_8, w, i);
      NextRow(wasU, dstU[..], stride, w, i, f);
      NextRow(wasV, dstV[..], stride, w, i, f);
      d := d + stride;
    }
  }

  /** `convertYUV420Planar8ToYV12`. */
  method ConvertPlanar8ToYV12(
      dstY: array<byte>, dstU: array<byte>, dstV: array<byte>,
      srcY: seq<byte>, srcU: seq<byte>, srcV: seq<byte>,
      srcYStride: nat, srcUStride: nat, srcVStride: nat, dstYStride: nat, dstUVStride: nat,
      width: nat, height: nat, isMonochrome: bool)
    requires dstY != dstU && dstY != dstV && dstU != dstV && 0 < dstYStride && 0 < dstUVStride
    requires Fits(dstY.Length, dstYStride, width, height) && Fits(|srcY|, srcYStride, width, height)
    requires Fits(dstU.Length, dstUVStride, Half(width), Half(height)) && Fits(dstV.Length, dstUVStride, Half(width), Half(height))
    requires !isMonochrome ==> Fits(|srcU|, srcUStride, Half(width), Half(height)) && Fits(|srcV|, srcVStride, Half(width), Half(height))
    modifies dstY, dstU, dstV
    ensures dstY[..] == Painted(old(dstY[..]), dstYStride, width, height, Copied(srcY, srcYStride))
    ensures dstU[..] == Painted(old(dstU[..]), dstUVStride, Half(width), Half(height),
                                if isMonochrome then Constant(NEUTRAL_UV_BIT_DEPTH_8) else Copied(srcU, srcUStride))
    ensures dstV[..] == Painted(old(dstV[..]), dstUVStride, Half(width), Half(height),
                                if isMonochrome then Constant(NEUTRAL_UV_BIT_DEPTH_8) else Copied(srcV, srcVStride))
  {
    CopyPlane(dstY, dstYStride, srcY, srcYStride, width, height);
    if isMonochrome {
      FillNeutral(dstU, dstV, dstUVStride, (width + 1) / 2, (height + 1) / 2);
      return;
    }
    CopyPlane(dstV, dstUVStride, srcV, srcVStride, (width + 1) / 2, (height + 1) / 2);
    CopyPlane(dstU, dstUVStride, srcU, srcUStride, (width + 1) / 2, (height + 1) / 2);
  }

  method NarrowRow(dst: array<byte>, d: nat, src: seq<word>, s: nat, w: nat, ghost stride: nat, ghost r: nat)
    requires d + w <= dst.Length && s + w <= |src| && s == r * stride
    modifies dst
    ensures RowPainted(old(dst[..]), dst[..], d, w, r, Narrowed(src, stride))
  {
    for x := 0 to w
      invariant RowPainted(old(dst[..]), dst[..], d, x, r, Narrowed(src, stride))
    {
      AtRow(src, stride, r, x, 0);
      dst[d + x] := Narrow(src[s + x]);
    }
  }

  /** The luma loop of `convertYUV420Planar16ToYV12`. */
  method NarrowLuma(dst: array<byte>, dstStride: nat, src: seq<word>, srcStride: nat, w: nat, h: nat)
    requires 0 < dstStride && Fits(dst.Length, dstStride, w, h) && Fits(|src|, srcStride, w, h)
    modifies dst
    ensures dst[..] == Painted(old(dst[..]), dstStride, w, h, Narrowed(src, srcStride))
  {
    var s, d := 0, 0;
    ghost var was, f := dst[..], Narrowed(src, srcStride);
    NoRow(was, dstStride, w, f);
    for y := 0 to h
      invariant s == y * srcStride && d == y * dstStride
      invariant dst[..] == Painted(was, dstStride, w, y, f)
    {
      RowFits(dst.Length, dstStride, w, h, y);
      RowFits(|src|, srcStride, w, h, y);
      NarrowRow(dst, d, src, s, w, srcStride, y);
      NextRow(was, dst[..], dstStride, w, y, f);
      s := s + srcStride;
      d := d + dstStride;
    }
  }

  /** One row of both chroma planes, sample by sample. */
  method NarrowRows(dstU: array<byte>, dstV: array<byte>, d: nat, srcU: seq<word>, u: nat, srcV: seq<word>, v: nat, w: nat,
                    ghost strideU: nat, ghost strideV: nat, ghost r: nat)
    requires dstU != dstV && d + w <= dstU.Length && d + w <= dstV.Length && u + w <= |srcU| && v + w <= |srcV|
    requires u == r * strideU && v == r * strideV
    modifies dstU, dstV
    ensures RowPainted(old(dstU[..]), dstU[..], d, w, r, Narrowed(srcU, strideU))
    ensures RowPainted(old(dstV[..]), dstV[..], d, w, r, Narrowed(srcV, strideV))
  {
    for x := 0 to w
      invariant RowPainted(old(dstU[..]), dstU[..], d, x, r, Narrowed(srcU, strideU))
      invariant RowPainted(old(dstV[..]), dstV[..], d, x, r, Narrowed(srcV, strideV))
    {
      AtRow(srcU, strideU, r, x, 0);
      AtRow(srcV, strideV, r, x, 0);
      dstU[d + x] := Narrow(srcU[u + x]);
      dstV[d + x] := Narrow(srcV[v + x]);
    }
  }

  /** The chroma loop of `convertYUV420Planar16ToYV12`. */
  method NarrowChroma(dstU: array<byte>, dstV: array<byte>, stride: nat, srcU: seq<word>, srcUStride: nat,
                      srcV: seq<word>, srcVStride: nat, w: nat, h: nat)
    requires dstU != dstV && 0 < stride && Fits(dstU.Length, stride, w, h) && Fits(dstV.Length, stride, w, h)
    requires Fits(|srcU|, srcUStride, w, h) && Fits(|srcV|, srcVStride, w, h)
    modifies dstU, dstV
    ensures dstU[..] == Painted(old(dstU[..]), stride, w, h, Narrowed(srcU, srcUStride))
    ensures dstV[..] == Painted(old(dstV[..]), stride, w, h, Narrowed(srcV, srcVStride))
  {
    var u, v, d := 0, 0, 0;
    ghost var wasU, wasV, f, g := dstU[..], dstV[..], Narrowed(srcU, srcUStride), Narrowed(srcV, srcVStride);
    NoRow(wasU, stride, w, f);
    NoRow(wasV, stride, w, g);
    for y := 0 to h
      invariant u == y * srcUStride && v == y * srcVStride && d == y * stride
      invariant dstU[..] == Painted(wasU, stride, w, y, f) && dstV[..] == Painted(wasV, stride, w, y, g)
    {
      RowFits(dstU.Length, stride, w, h, y);
      RowFits(dstV.Length, stride, w, h, y);
      RowFits(|srcU|, srcUStride, w, h, y);
      RowFits(|srcV|, srcVStride, w, h, y);
      NarrowRows(dstU, dstV, d, srcU, u, srcV, v, w, srcUStride, srcVStride, y);
      NextRow(wasU, dstU[..], stride, w, y, f);
      NextRow(wasV, dstV[..], stride, w, y, g);
      u := u + srcUStride;
      v := v + srcVStride;
      d := d + stride;
    }
  }

  /** `convertYUV420Planar16ToYV12`. */
  method ConvertPlanar16ToYV12(
      dstY: array<byte>, dstU: array<byte>, dstV: array<byte>,
      srcY: seq<word>, srcU: seq<word>, srcV: seq<word>,
      srcYStride: nat, srcUStride: nat, srcVStride: nat, dstYStride: nat, dstUVStride: nat,
      width: nat, height: nat, isMonochrome: bool)
    requires dstY != dstU && dstY != dstV && dstU != dstV && 0 < dstYStride && 0 < dstUVStride
    requires Fits(dstY.Length, dstYStride, width, height) && Fits(|srcY|, srcYStride, width, height)
    requires Fits(dstU.Length, dstUVStride, Half(width), Half(height)) && Fits(dstV.Length, dstUVStride, Half(width), Half(height))
    requires !isMonochrome ==> Fits(|srcU|, srcUStride, Half(width), Half(height)) && Fits(|srcV|, srcVStride, Half(width), Half(height))
    modifies dstY, dstU, dstV
    ensures dstY[..] == Painted(old(dstY[..]), dstYStride, width, height, Narrowed(srcY, srcYStride))
    ensures dstU[..] == Painted(old(dstU[..]), dstUVStride, Half(width), Half(height),
                                if isMonochrome then Constant(NEUTRAL_UV_BIT_DEPTH_8) else Narrowed(srcU, srcUStride))
    ensures dstV[..] == Painted(old(dstV[..]), dstUVStride, Half(width), Half(height),
                                if isMonochrome then Constant(NEUTRAL_UV_BIT_DEPTH_8) else Narrowed(srcV, srcVStride))
  {
    NarrowLuma(dstY, dstYStride, srcY, srcYStride, width, height);
    if isMonochrome {
      FillNeutral(dstU, dstV, dstUVStride, (width + 1) / 2, (height + 1) / 2);
      return;
    }
    NarrowChroma(dstU, dstV, dstUVStride, srcU, srcUStride, srcV, srcVStride, (width + 1) / 2, (height + 1) / 2);
  }

  /** The luma loop of `convertYUV420Planar16ToP010`. */
  method WidenLuma(dst: array<word>, dstStride: nat, src: seq<word>, srcStride: nat, w: nat, h: nat)
    requires 0 < dstStride && Fits(dst.Length, dstStride, w, h) && Fits(|src|, srcStride, w, h)
    modifies dst
    ensures dst[..] == Painted(old(dst[..]), dstStride, w, h, Widened(src, srcStride))
  {
    var s, d := 0, 0;
    ghost var was, f := dst[..], Widened(src, srcStride);
    NoRow(was, dstStride, w, f);
    for y := 0 to h
      invariant s == y * srcStride && d == y * dstStride
      invariant dst[..] == Painted(was, dstStride, w, y, f)
    {
      RowFits(dst.Length, dstStride, w, h, y);
      RowFits(|src|, srcStride, w, h, y);
      WidenRow(dst, d, src, s, w, srcStride, y);
      NextRow(was, dst[..], dstStride, w, y, f);
      s := s + srcStride;
      d := d + dstStride;
    }
  }

  method WidenRow(dst: array<word>, d: nat, src: seq<word>, s: nat, w: nat, ghost stride: nat, ghost r: nat)
    requires d + w <= dst.Length && s + w <= |src| && s == r * stride
    modifies dst
    ensures RowPainted(old(dst[..]), dst[..], d, w, r, Widened(src, stride))
  {
    for x := 0 to w
      invariant RowPainted(old(dst[..]), dst[..], d, x, r, Widened(src, stride))
    {
      AtRow(src, stride, r, x, 0);
      dst[d + x] := Widen(src[s + x]);
    }
  }

  /** One row of the interleaved chroma plane of a monochrome picture. */
  method NeutralRow(dst: array<word>, d: nat, w: nat, ghost r: nat)
    requires d + 2 * w <= dst.Length
    modifies dst
    ensures RowPainted(old(dst[..]), dst[..], d, 2 * w, r, Constant(Widen(NEUTRAL_UV_BIT_DEPTH_10)))
  {
    for x := 0 to w
      invariant RowPainted(old(dst[..]), dst[..], d, 2 * x, r, Constant(Widen(NEUTRAL_UV_BIT_DEPTH_10)))
    {
      dst[d + 2 * x] := Widen(NEUTRAL_UV_BIT_DEPTH_10);
      dst[d + (2 * x + 1)] := Widen(NEUTRAL_UV_BIT_DEPTH_10);
    }
  }

  method InterleaveRow(dst: array<word>, d: nat, srcU: seq<word>, u: nat, srcV: seq<word>, v: nat, w: nat,
                       ghost strideU: nat, ghost strideV: nat, ghost r: nat)
    requires d + 2 * w <= dst.Length && u + w <= |srcU| && v + w <= |srcV| && u == r * strideU && v == r * strideV
    modifies dst
    ensures RowPainted(old(dst[..]), dst[..], d, 2 * w, r, Interleaved(srcU, strideU, srcV, strideV))
  {
    for x := 0 to w
      invariant RowPainted(old(dst[..]), dst[..], d, 2 * x, r, Interleaved(srcU, strideU, srcV, strideV))
    {
      AtRow(srcU, strideU, r, x, 0);
      AtRow(srcV, strideV, r, x, 0);
      dst[d + 2 * x] := Widen(srcU[u + x]);
      dst[d + (2 * x + 1)] := Widen(srcV[v + x]);
    }
  }

  /** The chroma loop of `convertYUV420Planar16ToP010` for a monochrome picture. */
  method FillNeutralPairs(dst: array<word>, stride: nat, w: nat, h: nat)
    requires 0 < stride && Fits(dst.Length, stride, 2 * w, h)
    modifies dst
    ensures dst[..] == Painted(old(dst[..]), stride, 2 * w, h, Constant(Widen(NEUTRAL_UV_BIT_DEPTH_10)))
  {
    var d := 0;
    ghost var was, f := dst[..], Constant(Widen(NEUTRAL_UV_BIT_DEPTH_10));
    NoRow(was, stride, 2 * w, f);
    for y := 0 to h
      invariant d == y * stride
      invariant dst[..] == Painted(was, stride, 2 * w, y, f)
    {
      RowFits(dst.Length, stride, 2 * w, h, y);
      NeutralRow(dst, d, w, y);
      NextRow(was, dst[..], stride, 2 * w, y, f);
      d := d + stride;
    }
  }

  /** The chroma loop of `convertYUV420Planar16ToP010`. */
  method InterleaveChroma(dst: array<word>, stride: nat, srcU: seq<word>, srcUStride: nat,
                          srcV: seq<word>, srcVStride: nat, w: nat, h: nat)
    requires 0 < stride && Fits(dst.Length, stride, 2 * w, h)
    requires Fits(|srcU|, srcUStride, w, h) && Fits(|srcV|, srcVStride, w, h)
    modifies dst
    ensures dst[..] == Painted(old(dst[..]), stride, 2 * w, h, Interleaved(srcU, srcUStride, srcV, srcVStride))
  {
    var u, v, d := 0, 0, 0;
    ghost var was, f := dst[..], Interleaved(srcU, srcUStride, srcV, srcVStride);
    NoRow(was, stride, 2 * w, f);
    for y := 0 to h
      invariant u == y * srcUStride && v == y * srcVStride && d == y * stride
      invariant dst[..] == Painted(was, stride, 2 * w, y, f)
    {
      RowFits(dst.Length, stride, 2 * w, h, y);
      RowFits(|srcU|, srcUStride, w, h, y);
      RowFits(|srcV|, srcVStride, w, h, y);
      InterleaveRow(dst, d, srcU, u, srcV, v, w, srcUStride, srcVStride, y);
      NextRow(was, dst[..], stride, 2 * w, y, f);
      u := u + srcUStride;
      v := v + srcVStride;
      d := d + stride;
    }
  }

  /** `convertYUV420Planar16ToP010`. */
  method ConvertPlanar16ToP010(
      dstY: array<word>, dstUV: array<word>, srcY: seq<word>, srcU: seq<word>, srcV: seq<word>,
      srcYStride: nat, srcUStride: nat, srcVStride: nat, dstYStride: nat, dstUVStride: nat,
      width: nat, height: nat, isMonochrome: bool)
    requires dstY != dstUV && 0 < dstYStride && 0 < dstUVStride
    requires Fits(dstY.Length, dstYStride, width, height) && Fits(|srcY|, srcYStride, width, height)
    requires Fits(dstUV.Length, dstUVStride, 2 * Half(width), Half(height))
    requires !isMonochrome ==> Fits(|srcU|, srcUStride, Half(width), Half(height)) && Fits(|srcV|, srcVStride, Half(width), Half(height))
    modifies dstY, dstUV
    ensures dstY[..] == Painted(old(dstY[..]), dstYStride, width, height, Widened(srcY, srcYStride))
    ensures dstUV[..] == Painted(old(dstUV[..]), dstUVStride, 2 * Half(width), Half(height),
                                 if isMonochrome then Constant(Widen(NEUTRAL_UV_BIT_DEPTH_10))
                                 else Interleaved(srcU, srcUStride, srcV, srcVStride))
  {
    WidenLuma(dstY, dstYStride, srcY, srcYStride, width, height);
    if isMonochrome {
      FillNeutralPairs(dstUV, dstUVStride, (width + 1) / 2, (height + 1) / 2);
      return;
    }
    InterleaveChroma(dstUV, dstUVStride, srcU, srcUStride, srcV, srcVStride, (width + 1) / 2, (height + 1) / 2);
  }

  // ---------------------------------------------------------------- agreement

  /**
   * A plane of 16-bit samples whose upper eight of ten bits are the samples of an 8-bit plane gives, in YV12,
   * the same buffer, whatever the strides and the two low bits.
   */
  lemma NarrowAgreesWithCopy(was: seq<byte>, stride: nat, w: nat, h: nat,
                             src16: seq<word>, stride16: nat, src8: seq<byte>, stride8: nat)
    requires 0 < stride && w <= stride && Fits(|src16|, stride16, w, h) && Fits(|src8|, stride8, w, h)
    requires forall r: nat, x: nat :: r < h && x < w ==> At(src16, stride16, r, x, 0) / 4 == At(src8, stride8, r, x, 0)
    ensures Painted(was, stride, w, h, Narrowed(src16, stride16)) == Painted(was, stride, w, h, Copied(src8, stride8))
  {
    SamePaint(was, stride, w, h, Narrowed(src16, stride16), Copied(src8, stride8));
  }

  /** The top eight bits of a P010 sample are the YV12 sample, for every 16-bit sample. */
  lemma P010AgreesWithYV12(wasP: seq<word>, strideP: nat, wasN: seq<byte>, strideN: nat, w: nat, h: nat,
                           src: seq<word>, srcStride: nat, r: nat, x: nat)
    requires 0 < strideP && 0 < strideN && Fits(|wasP|, strideP, w, h) && Fits(|wasN|, strideN, w, h) && r < h && x < w
    ensures r * strideP + x < |wasP| && r * strideN + x < |wasN|
    ensures Painted(wasP, strideP, w, h, Widened(src, srcStride))[r * strideP + x] / 0x100
         == Painted(wasN, strideN, w, h, Narrowed(src, srcStride))[r * strideN + x]
  {
    PaintedAt(wasP, strideP, w, h, Widened(src, srcStride), r, x);
    PaintedAt(wasN, strideN, w, h, Narrowed(src, srcStride), r, x);
    TopBits(At(src, srcStride, r, x, 0));
  }

  lemma TopBits(s: word)
    ensures Widen(s) / 0x100 == Narrow(s)
    ensures s < 0x400 ==> Widen(s) / 64 == s
  {
    TenBitsWiden(s);
    TenBitsNarrow(s);
  }

  /** Only the lower ten bits count. */
  lemma TenBitsWiden(s: word)
    ensures Widen(s) == s % 0x400 * 64
  {
    assert s * 64 == s / 0x400 * 0x1_0000 + s % 0x400 * 64;
  }

  lemma TenBitsNarrow(s: word)
    ensures Narrow(s) == s % 0x400 / 4
  {
    assert s / 4 == s / 0x400 * 0x100 + s % 0x400 / 4;
  }

  /** The same for chroma: U and V side by side in P010, in a plane each in YV12. */
  lemma P010ChromaAgreesWithYV12(wasP: seq<word>, strideP: nat, wasU: seq<byte>, wasV: seq<byte>, strideN: nat,
                                 w: nat, h: nat, srcU: seq<word>, strideU: nat, srcV: seq<word>, strideV: nat,
                                 r: nat, x: nat)
    requires 0 < strideP && 0 < strideN && Fits(|wasP|, strideP, 2 * w, h) && r < h && x < w
    requires Fits(|wasU|, strideN, w, h) && Fits(|wasV|, strideN, w, h)
    ensures r * strideP + 2 * x + 1 < |wasP| && r * strideN + x < |wasU| && r * strideN + x < |wasV|
    ensures var p := Painted(wasP, strideP, 2 * w, h, Interleaved(srcU, strideU, srcV, strideV));
      && p[r * strideP + 2 * x] / 0x100 == Painted(wasU, strideN, w, h, Narrowed(srcU, strideU))[r * strideN + x]
      && p[r * strideP + 2 * x + 1] / 0x100 == Painted(wasV, strideN, w, h, Narrowed(srcV, strideV))[r * strideN + x]
  {
    InterleavedAt(wasP, strideP, w, h, srcU, strideU, srcV, strideV, r, x);
    PaintedAt(wasU, strideN, w, h, Narrowed(srcU, strideU), r, x);
    PaintedAt(wasV, strideN, w, h, Narrowed(srcV, strideV), r, x);
    TopBits(At(srcU, strideU, r, x, 0));
    TopBits(At(srcV, strideV, r, x, 0));
  }

  lemma InterleavedAt(wasP: seq<word>, strideP: nat, w: nat, h: nat,
                      srcU: seq<word>, strideU: nat, srcV: seq<word>, strideV: nat, r: nat, x: nat)
    requires 0 < strideP && Fits(|wasP|, strideP, 2 * w, h) && r < h && x < w
    ensures r * strideP + 2 * x + 1 < |wasP|
    ensures var p := Painted(wasP, strideP, 2 * w, h, Interleaved(srcU, strideU, srcV, strideV));
      p[r * strideP + 2 * x] == Widen(At(srcU, strideU, r, x, 0)) && p[r * strideP + 2 * x + 1] == Widen(At(srcV, strideV, r, x, 0))
  {
    PaintedAt(wasP, strideP, 2 * w, h, Interleaved(srcU, strideU, srcV, strideV), r, 2 * x);
    PaintedAt(wasP, strideP, 2 * w, h, Interleaved(srcU, strideU, srcV, strideV), r, 2 * x + 1);
  }

  /** A P010 plane of 10-bit samples is undone by a shift of six. */
  lemma P010ShiftsBack(was: seq<word>, stride: nat, w: nat, h: nat, src: seq<word>, srcStride: nat, r: nat, x: nat)
    requires 0 < stride && Fits(|was|, stride, w, h) && Fits(|src|, srcStride, w, h) && r < h && x < w
    requires forall k :: 0 <= k < |src| ==> src[k] < 0x400
    ensures r * stride + x < |was| && r * srcStride + x < |src|
    ensures Painted(was, stride, w, h, Widened(src, srcStride))[r * stride + x] / 64 == src[r * srcStride + x]
  {
    PaintedAt(was, stride, w, h, Widened(src, srcStride), r, x);
    RowFits(|src|, srcStride, w, h, r);
    TopBits(src[r * srcStride + x]);
  }
}
