/**
 * The shape masks of backend/utils/wordcloud_processor.py: `create_mask` and
 * `get_shape_preview` fill a `height × width` grid of `uint8` pixels (0 or
 * 255, except the preview cloud, which adds with wrap-around). The float
 * factors 0.8, 0.3 … 0.2 of the source are cleared so that every shape is an
 * exact integer inequality on the pixel (row `i`, column `j`). The star and
 * heart shapes (trigonometry and polygon drawing) are not part of this model.
 */
module Masks {

  function Abs(x: int): nat {
    if x < 0 then -x else x
  }

  function Min(a: int, b: int): int {
    if a < b then a else b
  }

  /** `min(center_x, center_y)` with `center_x, center_y = width // 2, height // 2`. */
  function HalfExtent(h: nat, w: nat): nat {
    Min(w / 2, h / 2)
  }

  /** The circle: squared distance to the centre below `(0.8 · m)²`, i.e. `25 d² < 16 m²`. */
  predicate InCircle(h: nat, w: nat, i: int, j: int) {
    var m := HalfExtent(h, w);
    25 * ((i - h / 2) * (i - h / 2) + (j - w / 2) * (j - w / 2)) < 16 * m * m
  }

  /**
   * The diamond: Manhattan distance to the centre below `0.8 · m` in
   * `create_mask` (`scaled`), below `m` in `get_shape_preview`.
   */
  predicate InDiamond(h: nat, w: nat, i: int, j: int, scaled: bool) {
    var d := Abs(i - h / 2) + Abs(j - w / 2);
    var m := HalfExtent(h, w);
    if scaled then 5 * d < 4 * m else d < m
  }

  /**
   * The five cloud centres `(width·b/10, height·a/10)` as `(b, a)`; each
   * circle has radius `0.2 · min(width, height)`.
   */
  const CLOUD_CENTRES: seq<(int, int)> := [(3, 4), (5, 3), (7, 4), (4, 5), (6, 5)]

  /** Pixel `(i, j)` lies in cloud circle `k`, with every length multiplied by 10. */
  predicate InCloudCircle(h: nat, w: nat, i: int, j: int, k: nat)
    requires k < |CLOUD_CENTRES|
  {
    var b := CLOUD_CENTRES[k].0;
    var a := CLOUD_CENTRES[k].1;
    var r := Min(w, h);
    (10 * i - a * h) * (10 * i - a * h) + (10 * j - b * w) * (10 * j - b * w) < 4 * r * r
  }

  /** How many of the first `n` cloud circles contain the pixel. */
  function Covered(h: nat, w: nat, i: int, j: int, n: nat): (c: nat)
    requires n <= |CLOUD_CENTRES|
    ensures c <= n
  {
    if n == 0 then 0 else Covered(h, w, i, j, n - 1) + (if InCloudCircle(h, w, i, j, n - 1) then 1 else 0)
  }

  /**
   * One cloud circle applied to a pixel holding `v`: `np.where(circle, 255, mask)`
   * in `create_mask`, `mask += 255 * circle` on `uint8` in the preview.
   */
  function Painted(v: int, covered: bool, accumulate: bool): int {
    if !covered then v else if accumulate then (v + 255) % 256 else 255
  }

  /** The pixel after the first `n` cloud circles, starting from 0. */
  function CloudValue(h: nat, w: nat, i: int, j: int, n: nat, accumulate: bool): int
    requires n <= |CLOUD_CENTRES|
  {
    if n == 0 then 0
    else Painted(CloudValue(h, w, i, j, n - 1, accumulate), InCloudCircle(h, w, i, j, n - 1), accumulate)
  }

  /** Python's `int()` of a quotient: division truncating toward zero. */
  function TruncDiv(a: int, b: int): int
    requires b > 0
  {
    if a >= 0 then a / b else -((-a) / b)
  }

  /** `int(w * (i / h))` with `w = width - 1`, `h = height - 1`; only meaningful for `height >= 2`. */
  function LineWidth(w: nat, h: nat, i: int): int {
    if h <= 1 then 0 else TruncDiv((w - 1) * i, h - 1)
  }

  /** `(width - line_width) // 2`. */
  function LineStart(w: nat, h: nat, i: int): int {
    (w - LineWidth(w, h, i)) / 2
  }

  predicate InTriangle(h: nat, w: nat, i: int, j: int) {
    LineStart(w, h, i) <= j < LineStart(w, h, i) + LineWidth(w, h, i)
  }

  /** The shapes the model renders. */
  datatype Shape =
    | Full                // every pixel 255
    | Circle
    | Diamond(scaled: bool)
    | Triangle
    | CloudUnion          // `create_mask`: 255 inside any circle
    | CloudSum            // `get_shape_preview`: 255 per circle, wrapping modulo 256

  /** The value of pixel `(i, j)` of shape `s` on a `h × w` grid. */
  function Pixel(s: Shape, h: nat, w: nat, i: int, j: int): int {
    match s
    case Full => 255
    case Circle => if InCircle(h, w, i, j) then 255 else 0
    case Diamond(scaled) => if InDiamond(h, w, i, j, scaled) then 255 else 0
    case Triangle => if InTriangle(h, w, i, j) then 255 else 0
    case CloudUnion => CloudValue(h, w, i, j, |CLOUD_CENTRES|, false)
    case CloudSum => CloudValue(h, w, i, j, |CLOUD_CENTRES|, true)
  }

  /** `rows` is the `h × w` picture of shape `s`. */
  predicate Shows(rows: seq<seq<int>>, s: Shape, h: nat, w: nat) {
    |rows| == h &&
    forall i :: 0 <= i < h ==>
      |rows[i]| == w && forall j :: 0 <= j < w ==> rows[i][j] == Pixel(s, h, w, i, j)
  }

  /** A grid computed elementwise by numpy, as for the full, circle and diamond shapes. */
  function Render(s: Shape, h: nat, w: nat): (rows: seq<seq<int>>)
    ensures Shows(rows, s, h, w)
  {
    seq(h, i requires 0 <= i < h => seq(w, j requires 0 <= j < w => Pixel(s, h, w, i, j)))
  }

  /** The rows of a 2-D array, as the image it becomes. */
  function RowsOf(a: array2<int>): (rows: seq<seq<int>>)
    reads a
    ensures |rows| == a.Length0
    ensures forall i :: 0 <= i < a.Length0 ==>
      |rows[i]| == a.Length1 && forall j :: 0 <= j < a.Length1 ==> rows[i][j] == a[i, j]
  {
    seq(a.Length0, i requires 0 <= i < a.Length0 reads a =>
      seq(a.Length1, j requires 0 <= j < a.Length1 reads a => a[i, j]))
  }

  // ---------------------------------------------------------------------
  // Triangle

  /** Every row's run of cells lies inside the grid. */
  lemma {:induction false} TriangleRowInBounds(w: nat, h: nat, i: int)
    requires h >= 2 && 0 <= i < h
    ensures LineWidth(w, h, i) > 0 ==> 0 <= LineStart(w, h, i) && LineStart(w, h, i) + LineWidth(w, h, i) <= w
  {
    if w >= 1 {
      LineWidthRange(w, h, i);
    }
  }

  lemma {:induction false} LineWidthRange(w: nat, h: nat, i: int)
    requires h >= 2 && w >= 1 && 0 <= i < h
    ensures 0 <= LineWidth(w, h, i) <= w - 1
  {
    var a: nat, d: nat := w - 1, h - 1;
    var n := a * i;
    MulNonneg(a, i);
    MulMonotone(a, i, d);
    DivBelow(n, a, d);
    assert LineWidth(w, h, i) == n / d;
  }

  lemma {:induction false} MulNonneg(a: nat, x: nat)
    ensures a * x >= 0
  {
  }

  lemma {:induction false} MulMonotone(a: nat, x: int, y: int)
    requires x <= y
    ensures a * x <= a * y
  {
  }

  lemma {:induction false} DivBelow(n: nat, b: nat, d: int)
    requires d > 0 && n <= b * d
    ensures n / d <= b
  {
  }

  /** A wider quotient for a later row: `int(w * (i/h))` never decreases as `i` grows. */
  lemma {:induction false} LineWidthMonotone(w: nat, h: nat, i1: int, i2: int)
    requires h >= 2 && w >= 1 && 0 <= i1 <= i2
    ensures LineWidth(w, h, i1) <= LineWidth(w, h, i2)
  {
    MulMonotone(w - 1, i1, i2);
    DivMonotone((w - 1) * i1, (w - 1) * i2, h - 1);
  }

  lemma {:induction false} DivMonotone(x: int, y: int, d: int)
    requires d > 0 && x <= y
    ensures x / d <= y / d
  {
    var qx, qy := x / d, y / d;
    assert qx * d <= x;
    assert y < (qy + 1) * d;
    MulCancel(qx, qy + 1, d);
  }

  lemma {:induction false} MulCancel(a: int, b: int, d: int)
    requires d > 0 && a * d < b * d
    ensures a < b
  {
    if a >= b {
      MulLe(b, a, d);
    }
  }

  lemma {:induction false} MulLe(a: int, b: int, d: int)
    requires d > 0 && a <= b
    ensures a * d <= b * d
  {
  }

  lemma {:induction false} DivExact(a: int, d: int)
    requires d > 0
    ensures (a * d) / d == a
  {
    var q := (a * d) / d;
    assert q * d <= a * d < (q + 1) * d;
    MulCancel(q, a + 1, d);
    MulCancel(a, q + 1, d);
  }

  /**
   * The triangle for `height >= 2`, `width >= 1`: row 0 is empty; row `i`
   * holds one run of `LineWidth` cells inside the grid, centred with the
   * odd cell (if any) on the right; rows widen downwards; the last row has
   * `width - 1` cells starting at column 0, so its last pixel stays 0.
   */
  lemma {:induction false} TriangleShape(w: nat, h: nat)
    requires h >= 2 && w >= 1
    ensures forall j :: !InTriangle(h, w, 0, j)
    ensures forall i :: 0 <= i < h ==>
      && 0 <= LineStart(w, h, i)
      && LineStart(w, h, i) + LineWidth(w, h, i) <= w
      && 0 <= (w - LineStart(w, h, i) - LineWidth(w, h, i)) - LineStart(w, h, i) <= 1
    ensures forall i1, i2 :: 0 <= i1 <= i2 < h ==> LineWidth(w, h, i1) <= LineWidth(w, h, i2)
    ensures LineWidth(w, h, h - 1) == w - 1 && LineStart(w, h, h - 1) == 0
    ensures !InTriangle(h, w, h - 1, w - 1)
  {
    forall i | 0 <= i < h
      ensures 0 <= LineWidth(w, h, i) <= w - 1
    {
      LineWidthRange(w, h, i);
    }
    forall i1, i2 | 0 <= i1 <= i2 < h ensures LineWidth(w, h, i1) <= LineWidth(w, h, i2) {
      LineWidthMonotone(w, h, i1, i2);
    }
    DivExact(w - 1, h - 1);
  }

  /** `mask[i, start_x:start_x + line_width] = 255` (or the same, cell by cell) for every row. */
  method TriangleMask(width: nat, height: nat) returns (mask: array2<int>)
    requires height != 1
    ensures fresh(mask) && mask.Length0 == height && mask.Length1 == width
    ensures forall i, j :: 0 <= i < height && 0 <= j < width ==> mask[i, j] == Pixel(Triangle, height, width, i, j)
  {
    mask := new int[height, width]((i, j) => 0);
    var i := 0;
    while i < height
      invariant 0 <= i <= height
      invariant forall r, c :: 0 <= r < height && 0 <= c < width ==>
        mask[r, c] == if r < i && InTriangle(height, width, r, c) then 255 else 0
    {
      var lw := LineWidth(width, height, i);
      var start := (width - lw) / 2;
      TriangleRowInBounds(width, height, i);
      var j := start;
      while j < start + lw
        invariant start <= j && (j <= start + lw || j == start)
        invariant forall r, c :: 0 <= r < height && 0 <= c < width ==>
          mask[r, c] == if (r < i && InTriangle(height, width, r, c)) || (r == i && start <= c < j) then 255 else 0
      {
        mask[i, j] := 255;
        j := j + 1;
      }
      i := i + 1;
    }
  }

  // ---------------------------------------------------------------------
  // Cloud

  /** Applies cloud circle `k` to every pixel. */
  method PaintCircle(mask: array2<int>, k: nat, accumulate: bool)
    requires k < |CLOUD_CENTRES|
    modifies mask
    ensures forall i, j :: 0 <= i < mask.Length0 && 0 <= j < mask.Length1 ==>
      mask[i, j] == Painted(old(mask[i, j]), InCloudCircle(mask.Length0, mask.Length1, i, j, k), accumulate)
  {
    var h, w := mask.Length0, mask.Length1;
    var i := 0;
    while i < h
      invariant 0 <= i <= h
      invariant forall r, c :: 0 <= r < h && 0 <= c < w ==>
        mask[r, c] == if r < i then Painted(old(mask[r, c]), InCloudCircle(h, w, r, c, k), accumulate) else old(mask[r, c])
    {
      var j := 0;
      while j < w
        invariant 0 <= j <= w
        invariant forall r, c :: 0 <= r < h && 0 <= c < w ==>
          mask[r, c] == if r < i || (r == i && c < j)
                        then Painted(old(mask[r, c]), InCloudCircle(h, w, r, c, k), accumulate)
                        else old(mask[r, c])
      {
        mask[i, j] := Painted(mask[i, j], InCloudCircle(h, w, i, j, k), accumulate);
        j := j + 1;
      }
      i := i + 1;
    }
  }

  /** A zeroed grid with the five cloud circles applied in order. */
  method CloudMask(width: nat, height: nat, accumulate: bool) returns (mask: array2<int>)
    ensures fresh(mask) && mask.Length0 == height && mask.Length1 == width
    ensures forall i, j :: 0 <= i < height && 0 <= j < width ==>
      mask[i, j] == CloudValue(height, width, i, j, |CLOUD_CENTRES|, accumulate)
  {
    mask := new int[height, width]((i, j) => 0);
    var k := 0;
    while k < |CLOUD_CENTRES|
      invariant 0 <= k <= |CLOUD_CENTRES|
      invariant fresh(mask) && mask.Length0 == height && mask.Length1 == width
      invariant forall i, j :: 0 <= i < height && 0 <= j < width ==>
        mask[i, j] == CloudValue(height, width, i, j, k, accumulate)
    {
      PaintCircle(mask, k, accumulate);
      k := k + 1;
    }
  }

  /** `create_mask`'s cloud: 255 exactly on the pixels some circle covers. */
  lemma {:induction false} CloudUnionMeaning(h: nat, w: nat, i: int, j: int, n: nat)
    requires n <= |CLOUD_CENTRES|
    ensures CloudValue(h, w, i, j, n, false) == if Covered(h, w, i, j, n) > 0 then 255 else 0
  {
    if n > 0 {
      CloudUnionMeaning(h, w, i, j, n - 1);
    }
  }

  /**
   * The preview's cloud adds 255 per covering circle modulo 256, so a pixel
   * covered `c` times holds `256 - c`: never 0, but no longer 255 where
   * circles overlap.
   */
  lemma {:induction false} CloudSumMeaning(h: nat, w: nat, i: int, j: int, n: nat)
    requires n <= |CLOUD_CENTRES|
    ensures CloudValue(h, w, i, j, n, true) == (255 * Covered(h, w, i, j, n)) % 256
    ensures CloudValue(h, w, i, j, n, true) == if Covered(h, w, i, j, n) == 0 then 0 else 256 - Covered(h, w, i, j, n)
  {
    if n > 0 {
      CloudSumMeaning(h, w, i, j, n - 1);
    }
  }

  /** Both cloud masks mark the same pixels; they differ only in the shade of overlaps. */
  lemma {:induction false} CloudMasksAgreeOnSupport(h: nat, w: nat, i: int, j: int)
    ensures Pixel(CloudSum, h, w, i, j) != 0 <==> Pixel(CloudUnion, h, w, i, j) != 0
    ensures Covered(h, w, i, j, |CLOUD_CENTRES|) == 1 ==> Pixel(CloudSum, h, w, i, j) == 255
    ensures Covered(h, w, i, j, |CLOUD_CENTRES|) >= 2 ==> Pixel(CloudSum, h, w, i, j) < 255
  {
    CloudUnionMeaning(h, w, i, j, |CLOUD_CENTRES|);
    CloudSumMeaning(h, w, i, j, |CLOUD_CENTRES|);
  }

  // ---------------------------------------------------------------------
  // Circle and diamond

  /** The scaled diamond lies inside the circle. */
  lemma {:induction false} DiamondInsideCircle(h: nat, w: nat, i: int, j: int)
    ensures InDiamond(h, w, i, j, true) ==> InCircle(h, w, i, j)
  {
    AbsSquare(i - h / 2);
    AbsSquare(j - w / 2);
    if InDiamond(h, w, i, j, true) {
      DiamondCircleCore(Abs(i - h / 2), Abs(j - w / 2), HalfExtent(h, w));
    }
  }

  /** The circle lies strictly inside the square of half-side `m` around the centre. */
  lemma {:induction false} CircleInsideSquare(h: nat, w: nat, i: int, j: int)
    ensures InCircle(h, w, i, j) ==> Abs(i - h / 2) < HalfExtent(h, w) && Abs(j - w / 2) < HalfExtent(h, w)
  {
    var a, b := Abs(i - h / 2), Abs(j - w / 2);
    var m := HalfExtent(h, w);
    AbsSquare(i - h / 2);
    AbsSquare(j - w / 2);
    if InCircle(h, w, i, j) {
      assert a * a >= 0 && b * b >= 0 && m * m >= 0;
      assert 16 * m * m == 16 * (m * m);
      SquareBelow(a, m);
      SquareBelow(b, m);
    }
  }

  lemma {:induction false} DiamondCircleCore(a: nat, b: nat, m: nat)
    requires 5 * (a + b) < 4 * m
    ensures 25 * (a * a + b * b) < 16 * m * m
  {
    SquareLess(5 * (a + b), 4 * m);
    var s := a + b;
    assert 5 * s * (5 * s) == 25 * (s * s);
    assert 4 * m * (4 * m) == 16 * m * m;
    assert s * s == a * a + 2 * (a * b) + b * b;
    assert a * b >= 0;
  }

  lemma {:induction false} AbsSquare(x: int)
    ensures Abs(x) * Abs(x) == x * x
  {
  }

  lemma {:induction false} SquareLess(x: nat, y: nat)
    requires x < y
    ensures x * x < y * y
  {
  }

  lemma {:induction false} SquareLeq(x: nat, y: nat)
    requires x <= y
    ensures x * x <= y * y
  {
  }

  lemma {:induction false} SquareBelow(x: nat, y: nat)
    requires x * x < y * y
    ensures x < y
  {
    if x >= y {
      SquareLeq(y, x);
    }
  }

  /**
   * The preview diamond reaches the full half-extent, `create_mask`'s only
   * 0.8 of it: every pixel of the second is one of the first, and on a
   * 100 × 100 grid the pixel 45 columns right of the centre is in the
   * preview only.
   */
  lemma {:induction false} PreviewDiamondIsLarger(h: nat, w: nat, i: int, j: int)
    ensures InDiamond(h, w, i, j, true) ==> InDiamond(h, w, i, j, false)
    ensures InDiamond(100, 100, 50, 95, false) && !InDiamond(100, 100, 50, 95, true)
  {
  }

  // ---------------------------------------------------------------------
  // create_mask and get_shape_preview

  /** What `create_mask` returns; `Raised` is the `ZeroDivisionError` of a one-row triangle. */
  datatype MaskResult = NoMask | Pixels(rows: seq<seq<int>>) | Raised

  predicate Supported(shape: string) {
    shape != "star" && shape != "heart"
  }

  /**
   * `create_mask(mask_shape, width, height, preview)`. With `preview` the
   * source returns the PNG encoding of the same grid; the model returns the
   * grid. `'none'` is no mask unless a preview is asked for; an unknown name
   * is no mask either way.
   */
  method CreateMask(shape: string, width: nat, height: nat, preview: bool) returns (r: MaskResult)
    requires Supported(shape)
    ensures shape == "none" ==> if preview then r.Pixels? && Shows(r.rows, Full, height, width) else r == NoMask
    ensures shape == "circle" ==> r.Pixels? && Shows(r.rows, Circle, height, width)
    ensures shape == "diamond" ==> r.Pixels? && Shows(r.rows, Diamond(true), height, width)
    ensures shape == "triangle" ==>
      if height == 1 then r == Raised else r.Pixels? && Shows(r.rows, Triangle, height, width)
    ensures shape == "cloud" ==> r.Pixels? && Shows(r.rows, CloudUnion, height, width)
    ensures shape !in {"none", "circle", "diamond", "triangle", "cloud"} ==> r == NoMask
  {
    if shape == "none" {
      r := if preview then Pixels(Render(Full, height, width)) else NoMask;
    } else if shape == "circle" {
      r := Pixels(Render(Circle, height, width));
    } else if shape == "diamond" {
      r := Pixels(Render(Diamond(true), height, width));
    } else if shape == "triangle" {
      if height == 1 {
        r := Raised;
      } else {
        var mask := TriangleMask(width, height);
        r := Pixels(RowsOf(mask));
      }
    } else if shape == "cloud" {
      var mask := CloudMask(width, height, false);
      r := Pixels(RowsOf(mask));
    } else {
      r := NoMask;
    }
  }

  /** What `get_shape_preview` encodes: a grey-scale grid, or the transparent image of its error path. */
  datatype Preview = Gray(rows: seq<seq<int>>) | Transparent

  /**
   * `get_shape_preview(shape_name, width, height)`: `'none'` and unknown
   * names draw the full white rectangle; the diamond is unscaled; the cloud
   * adds on `uint8`; a one-row triangle divides by zero and the handler
   * answers with the transparent image.
   */
  method ShapePreview(shape: string, width: nat, height: nat) returns (p: Preview)
    requires Supported(shape)
    ensures shape == "circle" ==> p.Gray? && Shows(p.rows, Circle, height, width)
    ensures shape == "diamond" ==> p.Gray? && Shows(p.rows, Diamond(false), height, width)
    ensures shape == "triangle" ==>
      if height == 1 then p == Transparent else p.Gray? && Shows(p.rows, Triangle, height, width)
    ensures shape == "cloud" ==> p.Gray? && Shows(p.rows, CloudSum, height, width)
    ensures shape !in {"circle", "diamond", "triangle", "cloud"} ==> p.Gray? && Shows(p.rows, Full, height, width)
  {
    if shape == "circle" {
      p := Gray(Render(Circle, height, width));
    } else if shape == "diamond" {
      p := Gray(Render(Diamond(false), height, width));
    } else if shape == "triangle" {
      if height == 1 {
        p := Transparent;
      } else {
        var mask := TriangleMask(width, height);
        p := Gray(RowsOf(mask));
      }
    } else if shape == "cloud" {
      var mask := CloudMask(width, height, true);
      p := Gray(RowsOf(mask));
    } else {
      p := Gray(Render(Full, height, width));
    }
  }

  /** Every pixel either function produces is a `uint8` value; all but the preview cloud's are 0 or 255. */
  lemma {:induction false} PixelsAreBytes(s: Shape, h: nat, w: nat, i: int, j: int)
    ensures 0 <= Pixel(s, h, w, i, j) <= 255
    ensures s != CloudSum ==> Pixel(s, h, w, i, j) == 0 || Pixel(s, h, w, i, j) == 255
  {
    CloudUnionMeaning(h, w, i, j, |CLOUD_CENTRES|);
    CloudSumMeaning(h, w, i, j, |CLOUD_CENTRES|);
  }
}
