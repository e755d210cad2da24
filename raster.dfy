/**
 * The framebuffer contract shared by the two Device classes of the software
 * rasterizer (SoftEngine.cs and Device.cs): a BGRA back buffer of width*height*4
 * bytes, a depth buffer of width*height cells, and what writing a pixel, drawing a
 * clipped point, a scan line and a whole triangle do to them.
 * Coordinates and depths are reals, an idealisation of float.
 */
module Raster {

  /** One byte of the back buffer. */
  type byte = b: int | 0 <= b < 256

  /** A colour as the four bytes written to the back buffer. */
  datatype Bgra = Bgra(blue: byte, green: byte, red: byte, alpha: byte)

  /** new Color4(1.0f, 1.0f, 1.0f, 1.0f), each channel scaled by 255. */
  const White: Bgra := Bgra(255, 255, 255, 255)

  /** float.MaxValue, the depth of a cleared cell. */
  const FloatMax: real := 340282346638528859811704183484516925440.0

  datatype Vec2 = Vec2(x: real, y: real)
  datatype Vec3 = Vec3(x: real, y: real, z: real)

  /** Byte k of a pixel, in the B, G, R, A order Windows uses. */
  function Channel(c: Bgra, k: int): byte
    requires 0 <= k < 4
  {
    if k == 0 then c.blue else if k == 1 then c.green else if k == 2 then c.red else c.alpha
  }

  /** Byte k of a four-byte block that starts at a multiple of 4 is channel k. */
  lemma BlockOffsets(index: int)
    requires index % 4 == 0
    ensures (index + 1) % 4 == 1 && (index + 2) % 4 == 2 && (index + 3) % 4 == 3 && (index + 4) % 4 == 0
  {
  }

  /** The pixel whose four bytes start at index*4. */
  function PixelAt(back: seq<byte>, index: int): Bgra
    requires 0 <= index && index * 4 + 3 < |back|
  {
    Bgra(back[index * 4], back[index * 4 + 1], back[index * 4 + 2], back[index * 4 + 3])
  }

  /** A buffer whose every byte is the channel of c its position calls for shows c in
      every pixel. */
  lemma FilledPixels(back: seq<byte>, c: Bgra)
    requires forall i | 0 <= i < |back| :: back[i] == Channel(c, i % 4)
    ensures forall k | 0 <= k && k * 4 + 3 < |back| :: PixelAt(back, k) == c
  {
    forall k | 0 <= k && k * 4 + 3 < |back|
      ensures PixelAt(back, k) == c
    {
      assert (k * 4) % 4 == 0 && (k * 4 + 1) % 4 == 1 && (k * 4 + 2) % 4 == 2 && (k * 4 + 3) % 4 == 3;
    }
  }

  // ---------------------------------------------------------------------------
  // Arithmetic

  /** C#'s (int) conversion of a float: truncation toward zero. */
  function Trunc(r: real): (t: int)
    ensures 0.0 <= r ==> 0 <= t && t as real <= r < t as real + 1.0
    ensures r < 0.0 ==> t <= 0 && t as real - 1.0 < r <= t as real
  {
    if r >= 0.0 then r.Floor else -((-r).Floor)
  }

  function Min(a: real, b: real): real {
    if a <= b then a else b
  }

  function Max(a: real, b: real): real {
    if a <= b then b else a
  }

  /** Math.Max(min, Math.Min(value, max)). */
  function Clamp(value: real, min: real, max: real): (r: real)
    ensures min <= max ==> min <= r <= max
    ensures min <= value <= max ==> r == value
    ensures value <= min ==> r == min
    ensures min <= max <= value ==> r == max
  {
    Max(min, Min(value, max))
  }

  /** A fraction g in [0, 1] of a difference d lies between 0 and d. */
  lemma ScaledDifference(d: real, g: real)
    requires 0.0 <= g <= 1.0
    ensures Min(0.0, d) <= d * g <= Max(0.0, d)
  {
    if d >= 0.0 {
      assert d * g <= d * 1.0;
    } else {
      assert d * 1.0 <= d * g;
    }
  }

  /** min + (max - min) * Clamp(gradient, 0, 1): the point a fraction gradient of the
      way from min to max, which never leaves the two. */
  function Interpolate(min: real, max: real, gradient: real): (r: real)
    ensures Min(min, max) <= r <= Max(min, max)
    ensures gradient <= 0.0 ==> r == min
    ensures 1.0 <= gradient ==> r == max
  {
    var g := Clamp(gradient, 0.0, 1.0);
    ScaledDifference(max - min, g);
    min + (max - min) * g
  }

  /** How far `current` lies along an edge from y = a to y = b; forced to 1 for a
      horizontal edge, so that nothing is divided by zero. */
  function Gradient(current: real, a: real, b: real): real {
    if a != b then (current - a) / (b - a) else 1.0
  }

  /** The inverse slope dx/dy from p to q; 0 unless q lies strictly below p. */
  function InverseSlope(p: Vec3, q: Vec3): real {
    if q.y - p.y > 0.0 then (q.x - p.x) / (q.y - p.y) else 0.0
  }

  /** Three compare-and-swaps ordering three items by the key y. */
  function SortByY<T>(v1: T, v2: T, v3: T, y: T -> real): (T, T, T) {
    var (a, b) := if y(v1) > y(v2) then (v2, v1) else (v1, v2);
    var (m, c) := if y(b) > y(v3) then (v3, b) else (b, v3);
    if y(a) > y(m) then (m, a, c) else (a, m, c)
  }

  /** The swaps leave the items in order of y, and they are the items given. */
  lemma SortByYSorts<T>(v1: T, v2: T, v3: T, y: T -> real)
    ensures var r := SortByY(v1, v2, v3, y);
            y(r.0) <= y(r.1) <= y(r.2) && multiset{r.0, r.1, r.2} == multiset{v1, v2, v3}
  {
    SortByYOrders(v1, v2, v3, y);
    SortByYPermutes(v1, v2, v3, y);
  }

  lemma SortByYOrders<T>(v1: T, v2: T, v3: T, y: T -> real)
    ensures var r := SortByY(v1, v2, v3, y);
            y(r.0) <= y(r.1) <= y(r.2)
  {
  }

  lemma SortByYPermutes<T>(v1: T, v2: T, v3: T, y: T -> real)
    ensures var r := SortByY(v1, v2, v3, y);
            multiset{r.0, r.1, r.2} == multiset{v1, v2, v3}
  {
  }

  function YOf(p: Vec3): real {
    p.y
  }

  // ---------------------------------------------------------------------------
  // The buffers

  /** The back buffer, the depth buffer and the bitmap's size. */
  datatype Frame = Frame(width: int, height: int, back: seq<byte>, depth: seq<real>)

  /** width*height*4 bytes and width*height depth cells. */
  predicate Sized(f: Frame) {
    0 <= f.width && 0 <= f.height && |f.depth| == f.width * f.height && |f.back| == |f.depth| * 4
  }

  predicate SameSize(f: Frame, r: Frame) {
    r.width == f.width && r.height == f.height && |r.back| == |f.back| && |r.depth| == |f.depth|
  }

  /** The back buffer with the pixel at `index` set to c: bytes index*4 to index*4+3
      change and no other. */
  function WritePixel(back: seq<byte>, index: int, c: Bgra): (r: seq<byte>)
    requires 0 <= index && index * 4 + 3 < |back|
    ensures |r| == |back| && PixelAt(r, index) == c
    ensures forall j | 0 <= j < |back| && j / 4 != index :: r[j] == back[j]
  {
    back[index * 4 := c.blue][index * 4 + 1 := c.green][index * 4 + 2 := c.red][index * 4 + 3 := c.alpha]
  }

  /** The depth-tested write at index x + y*width: discarded when the stored depth is
      smaller than z; otherwise, ties included, depth z and colour c at that index. */
  function WithDepthPixel(f: Frame, x: int, y: int, z: real, c: Bgra): (r: Frame)
    requires Sized(f) && 0 <= x + y * f.width < |f.depth|
    ensures SameSize(f, r)
    ensures f.depth[x + y * f.width] < z ==> r == f
    ensures z <= f.depth[x + y * f.width] ==>
              r.width == f.width && r.height == f.height &&
              r.depth == f.depth[x + y * f.width := z] && PixelAt(r.back, x + y * f.width) == c &&
              forall j | 0 <= j < |f.back| && j / 4 != x + y * f.width :: r.back[j] == f.back[j]
  {
    var index := x + y * f.width;
    if f.depth[index] < z then f
    else f.(depth := f.depth[index := z], back := WritePixel(f.back, index, c))
  }

  /** The clipping test of DrawPoint. */
  predicate Visible(f: Frame, x: real, y: real) {
    0.0 <= x && 0.0 <= y && x < f.width as real && y < f.height as real
  }

  lemma MulMonotone(a: int, b: int, w: nat)
    requires a <= b
    ensures a * w <= b * w
  {
  }

  /** A point that passes the clipping test truncates to a pixel of the bitmap, so the
      index written is inside both buffers. */
  lemma ClippedIndexInBounds(f: Frame, x: real, y: real)
    requires Sized(f) && Visible(f, x, y)
    ensures 0 <= Trunc(x) < f.width && 0 <= Trunc(y) < f.height
    ensures 0 <= Trunc(x) + Trunc(y) * f.width < |f.depth|
    ensures (Trunc(x) + Trunc(y) * f.width) * 4 + 3 < |f.back|
  {
    var tx, ty := Trunc(x), Trunc(y);
    assert tx < f.width && ty < f.height;
    MulMonotone(ty, f.height - 1, f.width);
    MulMonotone(0, ty, f.width);
    assert (f.height - 1) * f.width == f.width * f.height - f.width;
  }

  /** Position a of row b, for 0 <= a < w, has quotient b and remainder a by w. */
  lemma RowAndColumn(a: int, b: int, w: int)
    requires 0 <= a < w
    ensures (a + b * w) / w == b && (a + b * w) % w == a
  {
    var n := a + b * w;
    var q, r := n / w, n % w;
    assert q * w + r == n && 0 <= r < w;
    assert (q - b) * w == a - r;
    if q > b {
      MulMonotone(1, q - b, w);
    } else if q < b {
      MulMonotone(1, b - q, w);
    }
  }

  /** The pixel index of a visible point. */
  function PointIndex(f: Frame, x: real, y: real): (k: int)
    requires Sized(f) && Visible(f, x, y)
    ensures 0 <= k < |f.depth| && k * 4 + 3 < |f.back|
    ensures k / f.width == Trunc(y) && k % f.width == Trunc(x)
  {
    ClippedIndexInBounds(f, x, y);
    RowAndColumn(Trunc(x), Trunc(y), f.width);
    Trunc(x) + Trunc(y) * f.width
  }

  /** DrawPoint(Vector3, Color4): the depth-tested write of a point that passes the
      clipping test; a point off the bitmap changes nothing. */
  function WithPoint(f: Frame, p: Vec3, c: Bgra): (r: Frame)
    requires Sized(f)
    ensures SameSize(f, r) && r.width == f.width && r.height == f.height
    ensures !Visible(f, p.x, p.y) ==> r == f
  {
    if Visible(f, p.x, p.y) then
      ClippedIndexInBounds(f, p.x, p.y);
      WithDepthPixel(f, Trunc(p.x), Trunc(p.y), p.z, c)
    else f
  }

  /** DrawPoint(Vector2, Color4): the unconditional 3-argument PutPixel of a point
      that passes the clipping test. */
  function WithPoint2(f: Frame, p: Vec2, c: Bgra): (r: Frame)
    requires Sized(f)
    ensures SameSize(f, r) && r.width == f.width && r.height == f.height && r.depth == f.depth
    ensures !Visible(f, p.x, p.y) ==> r == f
    ensures Visible(f, p.x, p.y) ==>
              PixelAt(r.back, PointIndex(f, p.x, p.y)) == c &&
              forall j | 0 <= j < |f.back| && j / 4 != PointIndex(f, p.x, p.y) :: r.back[j] == f.back[j]
  {
    if Visible(f, p.x, p.y) then f.(back := WritePixel(f.back, PointIndex(f, p.x, p.y), c))
    else f
  }

  // ---------------------------------------------------------------------------
  // Which pixels an operation may change

  /** Pixel k has the same depth and colour in r as in f. */
  predicate Untouched(f: Frame, r: Frame, k: int)
    requires Sized(f) && SameSize(f, r) && 0 <= k < |f.depth|
  {
    r.depth[k] == f.depth[k] && PixelAt(r.back, k) == PixelAt(f.back, k)
  }

  /** Every pixel r changed relative to f lies in rows rowLo to rowHi and has a depth
      between zLo and zHi. */
  predicate Confined(f: Frame, r: Frame, rowLo: int, rowHi: int, zLo: real, zHi: real)
    requires Sized(f) && SameSize(f, r)
  {
    forall k | 0 <= k < |f.depth| ::
      Untouched(f, r, k) || (0 < f.width && rowLo <= k / f.width <= rowHi && zLo <= r.depth[k] <= zHi)
  }

  /** A point changes at most its own pixel, and leaves its depth there. */
  lemma PointFootprint(f: Frame, p: Vec3, c: Bgra)
    requires Sized(f)
    ensures var r := WithPoint(f, p, c);
            forall k | 0 <= k < |f.depth| ::
              Untouched(f, r, k) ||
              (Visible(f, p.x, p.y) && k == PointIndex(f, p.x, p.y) && r.depth[k] == p.z)
  {
    var r := WithPoint(f, p, c);
    if Visible(f, p.x, p.y) {
      var i := PointIndex(f, p.x, p.y);
      forall k | 0 <= k < |f.depth| && k != i
        ensures Untouched(f, r, k)
      {
        if p.z <= f.depth[i] {
          assert (k * 4) / 4 == k && (k * 4 + 1) / 4 == k && (k * 4 + 2) / 4 == k && (k * 4 + 3) / 4 == k;
        }
      }
    }
  }

  lemma ConfinedTransitive(f: Frame, g: Frame, r: Frame, rowLo: int, rowHi: int, zLo: real, zHi: real)
    requires Sized(f) && SameSize(f, g) && SameSize(g, r)
    requires Confined(f, g, rowLo, rowHi, zLo, zHi) && Confined(g, r, rowLo, rowHi, zLo, zHi)
    ensures Confined(f, r, rowLo, rowHi, zLo, zHi)
  {
    forall k | 0 <= k < |f.depth|
      ensures Untouched(f, r, k) || (0 < f.width && rowLo <= k / f.width <= rowHi && zLo <= r.depth[k] <= zHi)
    {
      assert Untouched(f, g, k) || (0 < f.width && rowLo <= k / f.width <= rowHi && zLo <= g.depth[k] <= zHi);
      assert Untouched(g, r, k) || (0 < f.width && rowLo <= k / f.width <= rowHi && zLo <= r.depth[k] <= zHi);
    }
  }

  lemma ConfinedWiden(f: Frame, r: Frame, rowLo: int, rowHi: int, zLo: real, zHi: real,
                      rowLo': int, rowHi': int, zLo': real, zHi': real)
    requires Sized(f) && SameSize(f, r) && Confined(f, r, rowLo, rowHi, zLo, zHi)
    requires rowLo' <= rowLo && rowHi <= rowHi' && zLo' <= zLo && zHi <= zHi'
    ensures Confined(f, r, rowLo', rowHi', zLo', zHi')
  {
  }

  // ---------------------------------------------------------------------------
  // Scan lines

  /** The loop of ProcessScanLine from x on: points x .. ex-1 of row y, the depth
      interpolated from z1 at sx towards z2 at ex. The division runs only when
      ex - sx > 0. */
  function WithSpan(f: Frame, y: real, sx: int, ex: int, z1: real, z2: real, c: Bgra, x: int): (r: Frame)
    requires Sized(f) && sx <= x
    ensures SameSize(f, r) && r.width == f.width && r.height == f.height
    decreases ex - x
  {
    if x >= ex then f
    else
      var gradient := (x - sx) as real / (ex - sx) as real;
      WithSpan(WithPoint(f, Vec3(x as real, y, Interpolate(z1, z2, gradient)), c), y, sx, ex, z1, z2, c, x + 1)
  }

  /** Every pixel r changed relative to f lies in columns x to ex-1 of row `row`, with
      a depth between zLo and zHi. */
  predicate SpanConfined(f: Frame, r: Frame, row: int, x: int, ex: int, zLo: real, zHi: real)
    requires Sized(f) && SameSize(f, r)
  {
    forall k | 0 <= k < |f.depth| ::
      Untouched(f, r, k) || (0 < f.width && k / f.width == row && x <= k % f.width < ex && zLo <= r.depth[k] <= zHi)
  }

  /** Drawing point x of the row, then the rest of the row, stays in the row from x on. */
  lemma SpanStep(f: Frame, g: Frame, r: Frame, p: Vec3, c: Bgra, x: int, ex: int, zLo: real, zHi: real)
    requires Sized(f) && g == WithPoint(f, p, c) && SameSize(g, r)
    requires p.x == x as real && x < ex && zLo <= p.z <= zHi
    requires SpanConfined(g, r, Trunc(p.y), x + 1, ex, zLo, zHi)
    ensures SpanConfined(f, r, Trunc(p.y), x, ex, zLo, zHi)
  {
    PointFootprint(f, p, c);
    assert Trunc(x as real) == x;
    forall k | 0 <= k < |f.depth|
      ensures Untouched(f, r, k) ||
              (0 < f.width && k / f.width == Trunc(p.y) && x <= k % f.width < ex && zLo <= r.depth[k] <= zHi)
    {
      if Untouched(g, r, k) && !Untouched(f, g, k) {
        assert Visible(f, p.x, p.y) && k == PointIndex(f, p.x, p.y);
      }
    }
  }

  /** A span changes only pixels x .. ex-1 of row Trunc(y), none at all when x >= ex,
      and what it leaves there has a depth between z1 and z2. */
  lemma {:induction false} SpanFootprint(f: Frame, y: real, sx: int, ex: int, z1: real, z2: real, c: Bgra, x: int)
    requires Sized(f) && sx <= x
    ensures SpanConfined(f, WithSpan(f, y, sx, ex, z1, z2, c, x), Trunc(y), x, ex, Min(z1, z2), Max(z1, z2))
    decreases ex - x
  {
    if x < ex {
      var gradient := (x - sx) as real / (ex - sx) as real;
      var p := Vec3(x as real, y, Interpolate(z1, z2, gradient));
      var g := WithPoint(f, p, c);
      var r := WithSpan(g, y, sx, ex, z1, z2, c, x + 1);
      assert r == WithSpan(f, y, sx, ex, z1, z2, c, x);
      SpanFootprint(g, y, sx, ex, z1, z2, c, x + 1);
      SpanStep(f, g, r, p, c, x, ex, Min(z1, z2), Max(z1, z2));
    }
  }

  lemma SpanIsConfined(f: Frame, r: Frame, row: int, x: int, ex: int, zLo: real, zHi: real)
    requires Sized(f) && SameSize(f, r) && SpanConfined(f, r, row, x, ex, zLo, zHi)
    ensures Confined(f, r, row, row, zLo, zHi)
  {
  }

  /** ProcessScanLine: the ends sx and ex and their depths interpolated along the
      edges pa-pb and pc-pd at height y, then the span [sx, ex) of row y. */
  function WithScanLine(f: Frame, y: real, pa: Vec3, pb: Vec3, pc: Vec3, pd: Vec3, c: Bgra): (r: Frame)
    requires Sized(f)
    ensures SameSize(f, r) && r.width == f.width && r.height == f.height
  {
    var gradient1 := Gradient(y, pa.y, pb.y);
    var gradient2 := Gradient(y, pc.y, pd.y);
    var sx := Trunc(Interpolate(pa.x, pb.x, gradient1));
    var ex := Trunc(Interpolate(pc.x, pd.x, gradient2));
    var z1 := Interpolate(pa.z, pb.z, gradient1);
    var z2 := Interpolate(pc.z, pd.z, gradient2);
    WithSpan(f, y, sx, ex, z1, z2, c, sx)
  }

  function Min4(a: real, b: real, c: real, d: real): real {
    Min(Min(a, b), Min(c, d))
  }

  function Max4(a: real, b: real, c: real, d: real): real {
    Max(Max(a, b), Max(c, d))
  }

  /** A scan line changes only row Trunc(y), between its ends, and leaves there depths
      between those of its four edge points. */
  lemma ScanLineFootprint(f: Frame, y: real, pa: Vec3, pb: Vec3, pc: Vec3, pd: Vec3, c: Bgra)
    requires Sized(f)
    ensures Confined(f, WithScanLine(f, y, pa, pb, pc, pd, c), Trunc(y), Trunc(y),
                     Min4(pa.z, pb.z, pc.z, pd.z), Max4(pa.z, pb.z, pc.z, pd.z))
  {
    var gradient1 := Gradient(y, pa.y, pb.y);
    var gradient2 := Gradient(y, pc.y, pd.y);
    var sx := Trunc(Interpolate(pa.x, pb.x, gradient1));
    var ex := Trunc(Interpolate(pc.x, pd.x, gradient2));
    var z1 := Interpolate(pa.z, pb.z, gradient1);
    var z2 := Interpolate(pc.z, pd.z, gradient2);
    var r := WithSpan(f, y, sx, ex, z1, z2, c, sx);
    SpanFootprint(f, y, sx, ex, z1, z2, c, sx);
    SpanIsConfined(f, r, Trunc(y), sx, ex, Min(z1, z2), Max(z1, z2));
    assert Min4(pa.z, pb.z, pc.z, pd.z) <= Min(z1, z2) && Max(z1, z2) <= Max4(pa.z, pb.z, pc.z, pd.z);
    ConfinedWiden(f, r, Trunc(y), Trunc(y), Min(z1, z2), Max(z1, z2),
                  Trunc(y), Trunc(y), Min4(pa.z, pb.z, pc.z, pd.z), Max4(pa.z, pb.z, pc.z, pd.z));
  }

  // ---------------------------------------------------------------------------
  // Triangles

  /** One row of DrawTriangle: above p2 the scan line runs between the long edge p1-p3
      and p1-p2, from p2 on between p1-p3 and p2-p3, on the side `rightBend` says.
      The loop row y picks the edges; the scan line is drawn at height currentY. */
  function WithTriangleRow(f: Frame, y: int, currentY: real, p1: Vec3, p2: Vec3, p3: Vec3, c: Bgra,
                           rightBend: bool): (r: Frame)
    requires Sized(f)
    ensures SameSize(f, r) && r.width == f.width && r.height == f.height
  {
    if rightBend then
      if (y as real) < p2.y then WithScanLine(f, currentY, p1, p3, p1, p2, c)
      else WithScanLine(f, currentY, p1, p3, p2, p3, c)
    else
      if (y as real) < p2.y then WithScanLine(f, currentY, p1, p2, p1, p3, c)
      else WithScanLine(f, currentY, p2, p3, p1, p3, c)
  }

  function Min3(a: real, b: real, c: real): real {
    Min(Min(a, b), c)
  }

  function Max3(a: real, b: real, c: real): real {
    Max(Max(a, b), c)
  }

  lemma TriangleRowFootprint(f: Frame, y: int, currentY: real, p1: Vec3, p2: Vec3, p3: Vec3, c: Bgra,
                             rightBend: bool)
    requires Sized(f)
    ensures Confined(f, WithTriangleRow(f, y, currentY, p1, p2, p3, c, rightBend), Trunc(currentY), Trunc(currentY),
                     Min3(p1.z, p2.z, p3.z), Max3(p1.z, p2.z, p3.z))
  {
    var r := WithTriangleRow(f, y, currentY, p1, p2, p3, c, rightBend);
    var lo, hi := Min3(p1.z, p2.z, p3.z), Max3(p1.z, p2.z, p3.z);
    if rightBend {
      if (y as real) < p2.y {
        ScanLineFootprint(f, currentY, p1, p3, p1, p2, c);
        ConfinedWiden(f, r, Trunc(currentY), Trunc(currentY), Min4(p1.z, p3.z, p1.z, p2.z), Max4(p1.z, p3.z, p1.z, p2.z),
                      Trunc(currentY), Trunc(currentY), lo, hi);
      } else {
        ScanLineFootprint(f, currentY, p1, p3, p2, p3, c);
        ConfinedWiden(f, r, Trunc(currentY), Trunc(currentY), Min4(p1.z, p3.z, p2.z, p3.z), Max4(p1.z, p3.z, p2.z, p3.z),
                      Trunc(currentY), Trunc(currentY), lo, hi);
      }
    } else {
      if (y as real) < p2.y {
        ScanLineFootprint(f, currentY, p1, p2, p1, p3, c);
        ConfinedWiden(f, r, Trunc(currentY), Trunc(currentY), Min4(p1.z, p2.z, p1.z, p3.z), Max4(p1.z, p2.z, p1.z, p3.z),
                      Trunc(currentY), Trunc(currentY), lo, hi);
      } else {
        ScanLineFootprint(f, currentY, p2, p3, p1, p3, c);
        ConfinedWiden(f, r, Trunc(currentY), Trunc(currentY), Min4(p2.z, p3.z, p1.z, p3.z), Max4(p2.z, p3.z, p1.z, p3.z),
                      Trunc(currentY), Trunc(currentY), lo, hi);
      }
    }
  }

  /** The height a row is drawn at: the loop row when ScanLineData.currentY is
      assigned from it, and the field's initial 0 when it is not. */
  function CurrentY(y: int, assignsCurrentY: bool): real {
    if assignsCurrentY then y as real else 0.0
  }

  /** The row loop of DrawTriangle from row y to row last, inclusive. */
  function WithRows(f: Frame, y: int, last: int, p1: Vec3, p2: Vec3, p3: Vec3, c: Bgra, rightBend: bool,
                    assignsCurrentY: bool): (r: Frame)
    requires Sized(f)
    ensures SameSize(f, r) && r.width == f.width && r.height == f.height
    decreases last - y + 1
  {
    if y > last then f
    else
      WithRows(WithTriangleRow(f, y, CurrentY(y, assignsCurrentY), p1, p2, p3, c, rightBend), y + 1, last,
               p1, p2, p3, c, rightBend, assignsCurrentY)
  }

  /** One turn of the row loop: row y drawn, the rest of the rows follow from y + 1. */
  lemma RowsStep(f: Frame, g: Frame, y: int, last: int, p1: Vec3, p2: Vec3, p3: Vec3, c: Bgra, rightBend: bool,
                 assignsCurrentY: bool)
    requires Sized(f) && y <= last
    requires g == WithTriangleRow(f, y, CurrentY(y, assignsCurrentY), p1, p2, p3, c, rightBend)
    ensures Sized(g)
    ensures WithRows(f, y, last, p1, p2, p3, c, rightBend, assignsCurrentY)
         == WithRows(g, y + 1, last, p1, p2, p3, c, rightBend, assignsCurrentY)
  {
  }

  /** The rows drawn when each is drawn at its own height: y to last. */
  lemma {:induction false} RowsFootprint(f: Frame, y: int, last: int, p1: Vec3, p2: Vec3, p3: Vec3, c: Bgra,
                                         rightBend: bool)
    requires Sized(f)
    ensures Confined(f, WithRows(f, y, last, p1, p2, p3, c, rightBend, true), y, last,
                     Min3(p1.z, p2.z, p3.z), Max3(p1.z, p2.z, p3.z))
    decreases last - y + 1
  {
    if y <= last {
      var lo, hi := Min3(p1.z, p2.z, p3.z), Max3(p1.z, p2.z, p3.z);
      var g := WithTriangleRow(f, y, CurrentY(y, true), p1, p2, p3, c, rightBend);
      var r := WithRows(g, y + 1, last, p1, p2, p3, c, rightBend, true);
      assert r == WithRows(f, y, last, p1, p2, p3, c, rightBend, true);
      assert Trunc(y as real) == y;
      TriangleRowFootprint(f, y, CurrentY(y, true), p1, p2, p3, c, rightBend);
      ConfinedWiden(f, g, y, y, lo, hi, y, last, lo, hi);
      RowsFootprint(g, y + 1, last, p1, p2, p3, c, rightBend);
      ConfinedWiden(g, r, y + 1, last, lo, hi, y, last, lo, hi);
      ConfinedTransitive(f, g, r, y, last, lo, hi);
    }
  }

  /** The rows drawn when every one is drawn at height 0: row 0 only. */
  lemma {:induction false} RowsFootprintAtZero(f: Frame, y: int, last: int, p1: Vec3, p2: Vec3, p3: Vec3, c: Bgra,
                                               rightBend: bool)
    requires Sized(f)
    ensures Confined(f, WithRows(f, y, last, p1, p2, p3, c, rightBend, false), 0, 0,
                     Min3(p1.z, p2.z, p3.z), Max3(p1.z, p2.z, p3.z))
    decreases last - y + 1
  {
    if y <= last {
      var lo, hi := Min3(p1.z, p2.z, p3.z), Max3(p1.z, p2.z, p3.z);
      var g := WithTriangleRow(f, y, CurrentY(y, false), p1, p2, p3, c, rightBend);
      var r := WithRows(g, y + 1, last, p1, p2, p3, c, rightBend, false);
      assert r == WithRows(f, y, last, p1, p2, p3, c, rightBend, false);
      assert Trunc(CurrentY(y, false)) == 0;
      TriangleRowFootprint(f, y, CurrentY(y, false), p1, p2, p3, c, rightBend);
      RowsFootprintAtZero(g, y + 1, last, p1, p2, p3, c, rightBend);
      ConfinedTransitive(f, g, r, 0, 0, lo, hi);
    }
  }

  /** A row drawn at its own height leaves every pixel of the other rows. */
  lemma RowKeepsOtherRows(f: Frame, y: int, p1: Vec3, p2: Vec3, p3: Vec3, c: Bgra, rightBend: bool, k: int)
    requires Sized(f) && 0 <= k < |f.depth| && 0 < f.width && k / f.width != y
    ensures Untouched(f, WithTriangleRow(f, y, y as real, p1, p2, p3, c, rightBend), k)
  {
    assert Trunc(y as real) == y;
    TriangleRowFootprint(f, y, y as real, p1, p2, p3, c, rightBend);
  }

  /** Rows y to last, each drawn at its own height, leave every pixel above row y. */
  lemma RowsKeepEarlierRows(f: Frame, y: int, last: int, p1: Vec3, p2: Vec3, p3: Vec3, c: Bgra, rightBend: bool,
                            k: int)
    requires Sized(f) && 0 <= k < |f.depth| && 0 < f.width && k / f.width < y
    ensures Untouched(f, WithRows(f, y, last, p1, p2, p3, c, rightBend, true), k)
  {
    RowsFootprint(f, y, last, p1, p2, p3, c, rightBend);
  }

  /** DrawTriangle after the sort: the inverse slopes p1-p2 and p1-p3 decide on which
      side p2 lies, then rows Trunc(p1.y) to Trunc(p3.y) are scanned. */
  function WithSortedTriangle(f: Frame, p1: Vec3, p2: Vec3, p3: Vec3, c: Bgra, assignsCurrentY: bool): (r: Frame)
    requires Sized(f)
    ensures SameSize(f, r) && r.width == f.width && r.height == f.height
  {
    var rightBend := InverseSlope(p1, p2) > InverseSlope(p1, p3);
    WithRows(f, Trunc(p1.y), Trunc(p3.y), p1, p2, p3, c, rightBend, assignsCurrentY)
  }

  /** SoftEngine.cs DrawTriangle: sort the corners by y, then scan. */
  function WithTriangle(f: Frame, v1: Vec3, v2: Vec3, v3: Vec3, c: Bgra): (r: Frame)
    requires Sized(f)
    ensures SameSize(f, r) && r.width == f.width && r.height == f.height
  {
    var (p1, p2, p3) := SortByY(v1, v2, v3, YOf);
    WithSortedTriangle(f, p1, p2, p3, c, true)
  }

  lemma SortedBounds(v1: Vec3, v2: Vec3, v3: Vec3)
    ensures var (p1, p2, p3) := SortByY(v1, v2, v3, YOf);
            p1.y == Min3(v1.y, v2.y, v3.y) && p3.y == Max3(v1.y, v2.y, v3.y) &&
            Min3(p1.z, p2.z, p3.z) == Min3(v1.z, v2.z, v3.z) && Max3(p1.z, p2.z, p3.z) == Max3(v1.z, v2.z, v3.z)
  {
    SortByYSorts(v1, v2, v3, YOf);
    var (p1, p2, p3) := SortByY(v1, v2, v3, YOf);
    assert p1 in multiset{v1, v2, v3} && p2 in multiset{v1, v2, v3} && p3 in multiset{v1, v2, v3};
    assert v1 in multiset{p1, p2, p3} && v2 in multiset{p1, p2, p3} && v3 in multiset{p1, p2, p3};
  }

  /** A triangle changes only pixels in rows Trunc(min y) to Trunc(max y) of its
      corners, and leaves there depths between the least and greatest corner depth. */
  lemma TriangleFootprint(f: Frame, v1: Vec3, v2: Vec3, v3: Vec3, c: Bgra)
    requires Sized(f)
    ensures Confined(f, WithTriangle(f, v1, v2, v3, c), Trunc(Min3(v1.y, v2.y, v3.y)), Trunc(Max3(v1.y, v2.y, v3.y)),
                     Min3(v1.z, v2.z, v3.z), Max3(v1.z, v2.z, v3.z))
  {
    var (p1, p2, p3) := SortByY(v1, v2, v3, YOf);
    SortedBounds(v1, v2, v3);
    var rightBend := InverseSlope(p1, p2) > InverseSlope(p1, p3);
    RowsFootprint(f, Trunc(p1.y), Trunc(p3.y), p1, p2, p3, c, rightBend);
  }
}
