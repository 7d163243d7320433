/** Picture planes in flat buffers: rows of `w` samples, `stride` apart. */
module Planes {

  /** The last row ends inside a buffer of `length` samples, and rows do not overlap. */
  predicate Fits(length: nat, stride: nat, w: nat, h: nat) {
    w <= stride && (h == 0 || (h - 1) * stride + w <= length)
  }

  /** The sample in row `r`, column `x`. */
  function At<T>(src: seq<T>, stride: nat, r: nat, x: nat, missing: T): T {
    if r * stride + x < |src| then src[r * stride + x] else missing
  }

  lemma AtRow<T>(src: seq<T>, stride: nat, r: nat, x: nat, missing: T)
    requires r * stride + x < |src|
    ensures At(src, stride, r, x, missing) == src[r * stride + x]
  {
  }

  /** Position `k` of the buffer lies in the rectangle of the first `h` rows. */
  predicate Inside(k: nat, stride: nat, w: nat, h: nat)
    requires stride > 0
  {
    k / stride < h && k % stride < w
  }

  /** The buffer `was` with the rectangle of `h` rows painted with `f`, and nothing else changed. */
  function Painted<T>(was: seq<T>, stride: nat, w: nat, h: nat, f: (nat, nat) -> T): (p: seq<T>)
    requires stride > 0
    ensures |p| == |was|
  {
    seq(|was|, k requires 0 <= k < |was| => if Inside(k, stride, w, h) then f(k / stride, k % stride) else was[k])
  }

  /** Of `now`, the row `r` holds `f`; elsewhere `now` is `was`. */
  ghost predicate RowPainted<T(!new)>(was: seq<T>, now: seq<T>, start: nat, w: nat, r: nat, f: (nat, nat) -> T) {
    && |now| == |was| && start + w <= |was|
    && (forall k: nat :: k < |was| ==> now[k] == if start <= k < start + w then f(r, k - start) else was[k])
  }

  lemma RowAndColumn(k: nat, stride: nat, r: nat, x: nat)
    requires x < stride && k == r * stride + x
    ensures k / stride == r && k % stride == x
  {
    var q := k / stride;
    assert k == q * stride + k % stride;
    if q < r {
      RowsAfter(q, r, stride);
    } else if r < q {
      RowsAfter(r, q, stride);
    }
  }

  lemma Euclid(k: nat, stride: nat)
    requires stride > 0
    ensures k == k / stride * stride + k % stride && 0 <= k % stride < stride && 0 <= k / stride
  {
  }

  lemma RowsAfter(q: nat, r: nat, stride: nat)
    requires q < r
    ensures q * stride + stride <= r * stride
  {
    assert r * stride == q * stride + (r - q) * stride;
    assert (r - q) * stride == stride + (r - q - 1) * stride;
  }

  /** Where row `r` of at most `h` begins and ends. */
  lemma RowFits(length: nat, stride: nat, w: nat, h: nat, r: nat)
    requires Fits(length, stride, w, h) && r < h
    ensures r * stride + w <= length && (r + 1) * stride == r * stride + stride
  {
    if r < h - 1 {
      RowsAfter(r, h - 1, stride);
    }
  }

  lemma RowPairFits(length: nat, stride: nat, w: nat, h: nat, r: nat)
    requires Fits(length, stride, w, h) && r + 1 < h
    ensures r * stride + w <= length && r * stride + stride + w <= length
    ensures (r + 1) * stride == r * stride + stride && (r + 2) * stride == r * stride + stride * 2
  {
    RowFits(length, stride, w, h, r);
    RowFits(length, stride, w, h, r + 1);
  }

  /** One more row. */
  lemma NextRow<T(!new)>(was: seq<T>, now: seq<T>, stride: nat, w: nat, r: nat, f: (nat, nat) -> T)
    requires 0 < stride && w <= stride
    requires RowPainted(Painted(was, stride, w, r, f), now, r * stride, w, r, f)
    ensures now == Painted(was, stride, w, r + 1, f)
  {
    var after := Painted(was, stride, w, r + 1, f);
    forall k: nat | k < |was| ensures now[k] == after[k] {
      NextRowAt(was, now, stride, w, r, f, k);
    }
  }

  lemma NextRowAt<T(!new)>(was: seq<T>, now: seq<T>, stride: nat, w: nat, r: nat, f: (nat, nat) -> T, k: nat)
    requires 0 < stride && w <= stride && k < |was|
    requires RowPainted(Painted(was, stride, w, r, f), now, r * stride, w, r, f)
    ensures now[k] == if Inside(k, stride, w, r + 1) then f(k / stride, k % stride) else was[k]
  {
    var start := r * stride;
    if start <= k < start + w {
      RowAndColumn(k, stride, r, k - start);
    } else {
      Euclid(k, stride);
      assert Inside(k, stride, w, r + 1) == Inside(k, stride, w, r);
      assert now[k] == Painted(was, stride, w, r, f)[k];
    }
  }

  lemma NoRow<T>(was: seq<T>, stride: nat, w: nat, f: (nat, nat) -> T)
    requires stride > 0
    ensures Painted(was, stride, w, 0, f) == was
  {
    var p := Painted(was, stride, w, 0, f);
    forall k: nat | k < |was| ensures p[k] == was[k] {
      Euclid(k, stride);
      assert !Inside(k, stride, w, 0);
    }
  }

  /** What a painted buffer shows inside its rectangle. */
  lemma PaintedAt<T>(was: seq<T>, stride: nat, w: nat, h: nat, f: (nat, nat) -> T, r: nat, x: nat)
    requires 0 < stride && Fits(|was|, stride, w, h) && r < h && x < w
    ensures r * stride + x < |was| && Painted(was, stride, w, h, f)[r * stride + x] == f(r, x)
  {
    RowFits(|was|, stride, w, h, r);
    RowAndColumn(r * stride + x, stride, r, x);
  }

  /** Painting with equal samples gives equal buffers. */
  lemma SamePaint<T(!new)>(was: seq<T>, stride: nat, w: nat, h: nat, f: (nat, nat) -> T, g: (nat, nat) -> T)
    requires stride > 0
    requires forall r: nat, x: nat :: r < h && x < w ==> f(r, x) == g(r, x)
    ensures Painted(was, stride, w, h, f) == Painted(was, stride, w, h, g)
  {
    var p, q := Painted(was, stride, w, h, f), Painted(was, stride, w, h, g);
    forall k: nat | k < |was| ensures p[k] == q[k] {
      Euclid(k, stride);
      if Inside(k, stride, w, h) {
        var r: nat, x: nat := k / stride, k % stride;
        assert f(r, x) == g(r, x);
      }
    }
  }

  /** Of `now`, the rows `r` and `r + 1` hold `f` in the columns from `x` to `w`; elsewhere `now` is `was`. */
  ghost predicate RowsPainted<T(!new)>(was: seq<T>, now: seq<T>, top: nat, bot: nat, x: nat, w: nat, r: nat, f: (nat, nat) -> T) {
    && |now| == |was| && x <= w && top + w <= bot && bot + w <= |was|
    && (forall k: nat :: k < |was| ==>
          now[k] == if top + x <= k < top + w then f(r, k - top) else if bot + x <= k < bot + w then f(r + 1, k - bot) else was[k])
  }

  /** The same for a single row, which starts at `start`. */
  ghost predicate ColumnsPainted<T(!new)>(was: seq<T>, now: seq<T>, start: nat, x: nat, w: nat, r: nat, f: (nat, nat) -> T) {
    && |now| == |was| && x <= w && start + w <= |was|
    && (forall k: nat :: k < |was| ==> now[k] == if start + x <= k < start + w then f(r, k - start) else was[k])
  }

  lemma RowByRow<T(!new)>(was: seq<T>, mid: seq<T>, now: seq<T>, top: nat, bot: nat, x: nat, w: nat, r: nat, f: (nat, nat) -> T)
    requires top + w <= bot
    requires ColumnsPainted(was, mid, top, x, w, r, f) && ColumnsPainted(mid, now, bot, x, w, r + 1, f)
    ensures RowsPainted(was, now, top, bot, x, w, r, f)
  {
  }

  /** More columns of the same rows. */
  lemma MoreColumns<T(!new)>(was: seq<T>, mid: seq<T>, now: seq<T>, top: nat, bot: nat, x: nat, w: nat, r: nat, f: (nat, nat) -> T)
    requires RowsPainted(was, mid, top, bot, 0, x, r, f) && RowsPainted(mid, now, top, bot, x, w, r, f)
    ensures RowsPainted(was, now, top, bot, 0, w, r, f)
  {
  }

  /** Two more rows. */
  lemma NextTwoRows<T(!new)>(was: seq<T>, now: seq<T>, stride: nat, w: nat, r: nat, f: (nat, nat) -> T)
    requires 0 < stride && w <= stride
    requires RowsPainted(Painted(was, stride, w, r, f), now, r * stride, (r + 1) * stride, 0, w, r, f)
    ensures now == Painted(was, stride, w, r + 2, f)
  {
    var before, top := Painted(was, stride, w, r, f), r * stride;
    var mid := seq(|was|, k requires 0 <= k < |was| => if top <= k < top + w then f(r, k - top) else before[k]);
    assert RowPainted(before, mid, top, w, r, f);
    NextRow(was, mid, stride, w, r, f);
    assert RowPainted(mid, now, (r + 1) * stride, w, r + 1, f);
    NextRow(was, now, stride, w, r + 1, f);
  }
}

/** Planar 4:2:0 sources, and where the pointers of a loop over pairs of rows stand in them. */
module Planar420 {
  import opened Planes

  datatype Source<T> = Source(y: seq<T>, u: seq<T>, v: seq<T>, yStride: nat, uStride: nat, vStride: nat)

  /** Where the source pointers stand for the block at column `x` of row `r`, `n` columns wide. */
  predicate Pointers<T>(src: Source<T>, r: nat, x: nat, n: nat, y: nat, u: nat, v: nat) {
    && y == r * src.yStride + x && y + n <= |src.y|
    && u == r / 2 * src.uStride + x / 2 && u + n / 2 <= |src.u|
    && v == r / 2 * src.vStride + x / 2 && v + n / 2 <= |src.v|
  }

  lemma PointersAdvance<T>(src: Source<T>, r: nat, width: nat, y: nat, u: nat, v: nat, x: nat, n: nat)
    requires Pointers(src, r, 0, width, y, u, v) && width % 2 == 0 && x % 2 == 0 && n % 2 == 0 && x + n <= width
    ensures Pointers(src, r, x, n, y + x, u + x / 2, v + x / 2)
  {
  }

  /** Where the pointers stand before row `y`. */
  predicate AtRows<T>(src: Source<T>, dstStride: nat, y: nat, d: nat, srcY: nat, srcU: nat, srcV: nat) {
    d == y * dstStride && srcY == y * src.yStride && srcU == y / 2 * src.uStride && srcV == y / 2 * src.vStride
  }

  lemma NextRows<T>(src: Source<T>, dstStride: nat, y: nat, d: nat, srcY: nat, srcU: nat, srcV: nat)
    requires AtRows(src, dstStride, y, d, srcY, srcU, srcV) && y % 2 == 0
    ensures AtRows(src, dstStride, y + 2, d + dstStride * 2, srcY + src.yStride * 2, srcU + src.uStride, srcV + src.vStride)
  {
    assert (y + 2) / 2 == y / 2 + 1;
    Distribute(y / 2, src.uStride);
    Distribute(y / 2, src.vStride);
  }

  lemma Distribute(n: nat, stride: nat)
    ensures (n + 1) * stride == n * stride + stride
  {
  }

  lemma RowPointers<T>(src: Source<T>, dstStride: nat, width: nat, height: nat, y: nat, d: nat, srcY: nat, srcU: nat, srcV: nat)
    requires width % 2 == 0 && height % 2 == 0 && y % 2 == 0 && y < height && Fits(|src.y|, src.yStride, width, height)
    requires Fits(|src.u|, src.uStride, width / 2, height / 2) && Fits(|src.v|, src.vStride, width / 2, height / 2)
    requires AtRows(src, dstStride, y, d, srcY, srcU, srcV)
    ensures Pointers(src, y, 0, width, srcY, srcU, srcV) && Pointers(src, y + 1, 0, width, srcY + src.yStride, srcU, srcV)
  {
    RowPairFits(|src.y|, src.yStride, width, height, y);
    RowFits(|src.u|, src.uStride, width / 2, height / 2, y / 2);
    RowFits(|src.v|, src.vStride, width / 2, height / 2, y / 2);
    assert (y + 1) / 2 == y / 2;
  }
}
