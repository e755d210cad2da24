/**
 * Device.cs: the later Device, which draws Vertex triangles with one lock object per
 * pixel. Locks are modelled by their number only: taking lockBuffer[i] is an array
 * access, so it demands 0 <= i < lockCount. The colour handed to DrawTriangle is
 * the already shaded one.
 */
module ParallelDevice {
  import opened Raster

  /** A projected corner: screen coordinates, plus the normal and world position used
      for lighting. */
  datatype Vertex = Vertex(normal: Vec3, coordinates: Vec3, worldCoordinates: Vec3)

  function CoordY(v: Vertex): real {
    v.coordinates.y
  }

  /** The lock the 3-argument PutPixel takes, as written: the byte index (x + y*w)*4. */
  function ByteLockIndex(x: int, y: int, w: int): int {
    (x + y * w) * 4
  }

  /** The lock the depth-tested PutPixel takes: the pixel index x + y*w. */
  function PixelLockIndex(x: int, y: int, w: int): int {
    x + y * w
  }

  /** On a 2x2 bitmap, pixel (0, 1) is on screen, yet the byte index 8 it locks is
      past the 4 locks there are. */
  lemma ByteLockIndexOverruns()
    ensures var w, h, x, y := 2, 2, 0, 1;
            0 <= x < w && 0 <= y < h && ByteLockIndex(x, y, w) >= w * h
  {
  }

  /** Every on-screen pixel has a lock of its own index. */
  lemma PixelLockIndexInRange(w: int, h: int, x: int, y: int)
    requires 0 <= x < w && 0 <= y < h
    ensures 0 <= PixelLockIndex(x, y, w) < w * h
  {
    MulMonotone(y, h - 1, w);
    assert (h - 1) * w + w == w * h;
  }

  /** DrawTriangle on vertices: sort by the y of the screen coordinates, then scan;
      assignsCurrentY says whether each row is drawn at its own height. */
  function WithVertexTriangle(f: Frame, v1: Vertex, v2: Vertex, v3: Vertex, c: Bgra,
                              assignsCurrentY: bool): (r: Frame)
    requires Sized(f)
    ensures SameSize(f, r) && r.width == f.width && r.height == f.height
  {
    var (u1, u2, u3) := SortByY(v1, v2, v3, CoordY);
    WithSortedTriangle(f, u1.coordinates, u2.coordinates, u3.coordinates, c, assignsCurrentY)
  }

  /** Sorting vertices by CoordY and taking their coordinates is sorting the
      coordinates by YOf. */
  lemma SortCommutesWithCoordinates(v1: Vertex, v2: Vertex, v3: Vertex)
    ensures var (u1, u2, u3) := SortByY(v1, v2, v3, CoordY);
            (u1.coordinates, u2.coordinates, u3.coordinates)
            == SortByY(v1.coordinates, v2.coordinates, v3.coordinates, YOf)
  {
  }

  /** Once every row is drawn at its own height, this Device draws exactly what the
      single-threaded Device of SoftEngine.cs draws. */
  lemma CorrectedMatchesSoftEngine(f: Frame, v1: Vertex, v2: Vertex, v3: Vertex, c: Bgra)
    requires Sized(f)
    ensures WithVertexTriangle(f, v1, v2, v3, c, true)
            == WithTriangle(f, v1.coordinates, v2.coordinates, v3.coordinates, c)
  {
    SortCommutesWithCoordinates(v1, v2, v3);
  }

  /** As written, data.currentY is never assigned and stays 0: whatever the triangle,
      only row 0 of the bitmap can change. */
  lemma AsWrittenTouchesRowZeroOnly(f: Frame, v1: Vertex, v2: Vertex, v3: Vertex, c: Bgra)
    requires Sized(f)
    ensures Confined(f, WithVertexTriangle(f, v1, v2, v3, c, false), 0, 0,
                     Min3(v1.coordinates.z, v2.coordinates.z, v3.coordinates.z),
                     Max3(v1.coordinates.z, v2.coordinates.z, v3.coordinates.z))
  {
    var (u1, u2, u3) := SortByY(v1, v2, v3, CoordY);
    SortByYSorts(v1, v2, v3, CoordY);
    var p1, p2, p3 := u1.coordinates, u2.coordinates, u3.coordinates;
    assert multiset{u1, u2, u3} == multiset{v1, v2, v3};
    assert u1 in multiset{v1, v2, v3} && u2 in multiset{v1, v2, v3} && u3 in multiset{v1, v2, v3};
    var lo, hi := Min3(p1.z, p2.z, p3.z), Max3(p1.z, p2.z, p3.z);
    var vlo := Min3(v1.coordinates.z, v2.coordinates.z, v3.coordinates.z);
    var vhi := Max3(v1.coordinates.z, v2.coordinates.z, v3.coordinates.z);
    assert vlo <= lo && hi <= vhi;
    var rightBend := InverseSlope(p1, p2) > InverseSlope(p1, p3);
    RowsFootprintAtZero(f, Trunc(p1.y), Trunc(p3.y), p1, p2, p3, c, rightBend);
    ConfinedWiden(f, WithVertexTriangle(f, v1, v2, v3, c, false), 0, 0, lo, hi, 0, 0, vlo, vhi);
  }

  // The triangle (1, 2), (3, 3), (1, 5) at depth 0 on an 8x8 bitmap tells the two
  // row heights apart: its row 3 colours pixel (1, 3) only when drawn at height 3.

  /** Row 3 of the triangle (1, 2), (3, 3), (1, 5) at depth 0, drawn at height 3 on
      any 8x8 bitmap: from p2 on, the span runs from the long edge at x = 1 to the
      edge p2-p3 at x = 3, so the points (1, 3) and (2, 3) are drawn at depth 0. */
  lemma RowThreeOfExample(p1: Vec3, p2: Vec3, p3: Vec3, c: Bgra)
    requires p1 == Vec3(1.0, 2.0, 0.0) && p2 == Vec3(3.0, 3.0, 0.0) && p3 == Vec3(1.0, 5.0, 0.0)
    ensures forall g {:trigger WithTriangleRow(g, 3, 3.0, p1, p2, p3, c, true)} | Sized(g) && g.width == 8 && g.height == 8 ::
              WithTriangleRow(g, 3, 3.0, p1, p2, p3, c, true)
              == WithPoint(WithPoint(g, Vec3(1.0, 3.0, 0.0), c), Vec3(2.0, 3.0, 0.0), c)
  {
    forall g | Sized(g) && g.width == 8 && g.height == 8
      ensures WithTriangleRow(g, 3, 3.0, p1, p2, p3, c, true)
              == WithPoint(WithPoint(g, Vec3(1.0, 3.0, 0.0), c), Vec3(2.0, 3.0, 0.0), c)
    {
      var h := WithPoint(g, Vec3(1.0, 3.0, 0.0), c);
      var r := WithPoint(h, Vec3(2.0, 3.0, 0.0), c);
      assert WithSpan(r, 3.0, 1, 3, 0.0, 0.0, c, 3) == r;
      assert WithSpan(h, 3.0, 1, 3, 0.0, 0.0, c, 2) == r;
      assert WithSpan(g, 3.0, 1, 3, 0.0, 0.0, c, 1) == r;
      assert Trunc(1.0) == 1 && Trunc(3.0) == 3;
      assert WithScanLine(g, 3.0, p1, p3, p2, p3, c) == r;
    }
  }

  /** On an 8x8 bitmap whose depth at index 25 is not below 0, the points (1, 3) and
      (2, 3) at depth 0 leave colour c and depth 0 at index 25, the pixel of the first. */
  lemma PointsOfRowThree(g: Frame, c: Bgra)
    requires Sized(g) && g.width == 8 && g.height == 8 && 0.0 <= g.depth[25]
    ensures var r := WithPoint(WithPoint(g, Vec3(1.0, 3.0, 0.0), c), Vec3(2.0, 3.0, 0.0), c);
            PixelAt(r.back, 25) == c && r.depth[25] == 0.0
  {
    var a, b := Vec3(1.0, 3.0, 0.0), Vec3(2.0, 3.0, 0.0);
    var h := WithPoint(g, a, c);
    assert PointIndex(g, a.x, a.y) == 25;
    assert PixelAt(h.back, 25) == c && h.depth[25] == 0.0;
    assert PointIndex(h, b.x, b.y) == 26;
    PointFootprint(h, b, c);
  }

  /** Corners already in order of y are drawn in that order. */
  lemma SortedVertexTriangle(f: Frame, v1: Vertex, v2: Vertex, v3: Vertex, c: Bgra, assignsCurrentY: bool)
    requires Sized(f) && CoordY(v1) <= CoordY(v2) <= CoordY(v3)
    ensures WithVertexTriangle(f, v1, v2, v3, c, assignsCurrentY)
            == WithSortedTriangle(f, v1.coordinates, v2.coordinates, v3.coordinates, c, assignsCurrentY)
  {
  }

  /** The corners of the example come in order of y, p2 lies right of the long edge
      p1-p3, and the rows run from 2 to 5. */
  lemma ExampleCorners(p1: Vec3, p2: Vec3, p3: Vec3)
    requires p1 == Vec3(1.0, 2.0, 0.0) && p2 == Vec3(3.0, 3.0, 0.0) && p3 == Vec3(1.0, 5.0, 0.0)
    ensures p1.y <= p2.y <= p3.y && InverseSlope(p1, p2) > InverseSlope(p1, p3)
    ensures Trunc(p1.y) == 2 && Trunc(p3.y) == 5
  {
  }

  /** Corners in order of y, p2 right of the long edge, rows 2 to 5: the triangle is
      row 2, then row 3, then rows 4 and 5, each drawn at its own height. */
  lemma RowsOfSortedExample(f: Frame, v1: Vertex, v2: Vertex, v3: Vertex, c: Bgra)
    requires Sized(f) && CoordY(v1) <= CoordY(v2) <= CoordY(v3)
    requires Trunc(v1.coordinates.y) == 2 && Trunc(v3.coordinates.y) == 5
    requires InverseSlope(v1.coordinates, v2.coordinates) > InverseSlope(v1.coordinates, v3.coordinates)
    ensures var p1, p2, p3 := v1.coordinates, v2.coordinates, v3.coordinates;
            var g := WithTriangleRow(f, 2, 2.0, p1, p2, p3, c, true);
            var h := WithTriangleRow(g, 3, 3.0, p1, p2, p3, c, true);
            WithVertexTriangle(f, v1, v2, v3, c, true) == WithRows(h, 4, 5, p1, p2, p3, c, true, true)
  {
    var p1, p2, p3 := v1.coordinates, v2.coordinates, v3.coordinates;
    SortedVertexTriangle(f, v1, v2, v3, c, true);
    var g := WithTriangleRow(f, 2, 2.0, p1, p2, p3, c, true);
    RowsStep(f, g, 2, 5, p1, p2, p3, c, true, true);
    RowsStep(g, WithTriangleRow(g, 3, 3.0, p1, p2, p3, c, true), 3, 5, p1, p2, p3, c, true, true);
  }

  /** On an 8x8 bitmap whose depth at index 25 is not below 0, a row 2 that stays in
      its row, a row 3 that draws the points (1, 3) and (2, 3) at depth 0 and rows 4
      and 5 below it leave colour c and depth 0 at index 25. */
  lemma PixelOfExampleRows(f: Frame, p1: Vec3, p2: Vec3, p3: Vec3, c: Bgra)
    requires Sized(f) && f.width == 8 && f.height == 8 && 0.0 <= f.depth[25]
    requires forall g {:trigger WithTriangleRow(g, 3, 3.0, p1, p2, p3, c, true)}
               | Sized(g) && g.width == 8 && g.height == 8 ::
               WithTriangleRow(g, 3, 3.0, p1, p2, p3, c, true)
               == WithPoint(WithPoint(g, Vec3(1.0, 3.0, 0.0), c), Vec3(2.0, 3.0, 0.0), c)
    ensures var g := WithTriangleRow(f, 2, 2.0, p1, p2, p3, c, true);
            var r := WithRows(WithTriangleRow(g, 3, 3.0, p1, p2, p3, c, true), 4, 5, p1, p2, p3, c, true, true);
            PixelAt(r.back, 25) == c && r.depth[25] == 0.0
  {
    var g := WithTriangleRow(f, 2, 2.0, p1, p2, p3, c, true);
    var h := WithTriangleRow(g, 3, 3.0, p1, p2, p3, c, true);
    RowKeepsOtherRows(f, 2, p1, p2, p3, c, true, 25);
    RowsKeepEarlierRows(h, 4, 5, p1, p2, p3, c, true, 25);
    PointsOfRowThree(g, c);
  }

  /** Corners in order of y, p2 right of the long edge, rows 2 to 5, and a row 3
      that draws the points (1, 3) and (2, 3) at depth 0: on an 8x8 bitmap whose depth
      at index 25 is not below 0, the triangle leaves colour c and depth 0 there. */
  lemma SecondRowDrawsPixel(f: Frame, v1: Vertex, v2: Vertex, v3: Vertex, c: Bgra)
    requires Sized(f) && f.width == 8 && f.height == 8 && 0.0 <= f.depth[25]
    requires CoordY(v1) <= CoordY(v2) <= CoordY(v3)
    requires Trunc(v1.coordinates.y) == 2 && Trunc(v3.coordinates.y) == 5
    requires InverseSlope(v1.coordinates, v2.coordinates) > InverseSlope(v1.coordinates, v3.coordinates)
    requires forall g {:trigger WithTriangleRow(g, 3, 3.0, v1.coordinates, v2.coordinates, v3.coordinates, c, true)}
               | Sized(g) && g.width == 8 && g.height == 8 ::
               WithTriangleRow(g, 3, 3.0, v1.coordinates, v2.coordinates, v3.coordinates, c, true)
               == WithPoint(WithPoint(g, Vec3(1.0, 3.0, 0.0), c), Vec3(2.0, 3.0, 0.0), c)
    ensures var r := WithVertexTriangle(f, v1, v2, v3, c, true);
            PixelAt(r.back, 25) == c && r.depth[25] == 0.0
  {
    RowsOfSortedExample(f, v1, v2, v3, c);
    PixelOfExampleRows(f, v1.coordinates, v2.coordinates, v3.coordinates, c);
  }

  /** The triangle (1, 2), (3, 3), (1, 5) at depth 0 on an 8x8 bitmap, each row drawn
      at its own height: pixel (1, 3), index 25, gets colour c and depth 0 wherever
      the stored depth there is not below 0. */
  lemma CorrectedDrawsExample(f: Frame, v1: Vertex, v2: Vertex, v3: Vertex, c: Bgra)
    requires Sized(f) && f.width == 8 && f.height == 8 && 0.0 <= f.depth[25]
    requires v1.coordinates == Vec3(1.0, 2.0, 0.0) && v2.coordinates == Vec3(3.0, 3.0, 0.0)
    requires v3.coordinates == Vec3(1.0, 5.0, 0.0)
    ensures var r := WithVertexTriangle(f, v1, v2, v3, c, true);
            PixelAt(r.back, 25) == c && r.depth[25] == 0.0
  {
    var p1, p2, p3 := v1.coordinates, v2.coordinates, v3.coordinates;
    ExampleCorners(p1, p2, p3);
    RowThreeOfExample(p1, p2, p3, c);
    SecondRowDrawsPixel(f, v1, v2, v3, c);
  }

  /** The same triangle as written, every row drawn at height 0: row 3, indices 24 to
      31, is left as it was. */
  lemma AsWrittenSkipsExample(f: Frame, v1: Vertex, v2: Vertex, v3: Vertex, c: Bgra)
    requires Sized(f) && f.width == 8 && f.height == 8
    requires v1.coordinates == Vec3(1.0, 2.0, 0.0) && v2.coordinates == Vec3(3.0, 3.0, 0.0)
    requires v3.coordinates == Vec3(1.0, 5.0, 0.0)
    ensures var r := WithVertexTriangle(f, v1, v2, v3, c, false);
            forall k | 24 <= k < 32 :: Untouched(f, r, k)
  {
    AsWrittenTouchesRowZeroOnly(f, v1, v2, v3, c);
  }

  /** The example tells the two apart: drawn at their own heights the rows colour
      pixel (1, 3), while as written they leave all of row 3 as it was. */
  lemma CorrectedDiffersFromAsWritten(f: Frame, v1: Vertex, v2: Vertex, v3: Vertex, c: Bgra)
    requires Sized(f) && f.width == 8 && f.height == 8 && 0.0 <= f.depth[25]
    requires v1.coordinates == Vec3(1.0, 2.0, 0.0) && v2.coordinates == Vec3(3.0, 3.0, 0.0)
    requires v3.coordinates == Vec3(1.0, 5.0, 0.0)
    ensures var r := WithVertexTriangle(f, v1, v2, v3, c, true);
            PixelAt(r.back, 25) == c && r.depth[25] == 0.0
    ensures var r := WithVertexTriangle(f, v1, v2, v3, c, false);
            forall k | 24 <= k < 32 :: Untouched(f, r, k)
  {
    CorrectedDrawsExample(f, v1, v2, v3, c);
    AsWrittenSkipsExample(f, v1, v2, v3, c);
  }

  /** Drawn at their own heights, the rows changed are those between the lowest and
      the highest corner. */
  lemma CorrectedTouchesTriangleRows(f: Frame, v1: Vertex, v2: Vertex, v3: Vertex, c: Bgra)
    requires Sized(f)
    ensures Confined(f, WithVertexTriangle(f, v1, v2, v3, c, true),
                     Trunc(Min3(v1.coordinates.y, v2.coordinates.y, v3.coordinates.y)),
                     Trunc(Max3(v1.coordinates.y, v2.coordinates.y, v3.coordinates.y)),
                     Min3(v1.coordinates.z, v2.coordinates.z, v3.coordinates.z),
                     Max3(v1.coordinates.z, v2.coordinates.z, v3.coordinates.z))
  {
    CorrectedMatchesSoftEngine(f, v1, v2, v3, c);
    TriangleFootprint(f, v1.coordinates, v2.coordinates, v3.coordinates, c);
  }

  class Device {
    const renderWidth: int
    const renderHeight: int
    const backBuffer: array<byte>
    const depthBuffer: array<real>
    /** The length of lockBuffer. */
    const lockCount: int

    /** width*height*4 bytes, width*height depth cells and width*height locks. */
    predicate Valid() {
      0 <= renderWidth && 0 <= renderHeight &&
      depthBuffer.Length == renderWidth * renderHeight && backBuffer.Length == depthBuffer.Length * 4 &&
      lockCount == renderWidth * renderHeight
    }

    /** The two buffers as values. */
    function Current(): (f: Frame)
      reads backBuffer, depthBuffer
      ensures Valid() ==> Sized(f)
    {
      Frame(renderWidth, renderHeight, backBuffer[..], depthBuffer[..])
    }

    /** Buffers and locks for a bitmap of width by height pixels. */
    constructor (width: nat, height: nat)
      ensures Valid() && renderWidth == width && renderHeight == height
      ensures fresh(backBuffer) && fresh(depthBuffer)
      ensures forall i | 0 <= i < backBuffer.Length :: backBuffer[i] == 0
      ensures forall i | 0 <= i < depthBuffer.Length :: depthBuffer[i] == 0.0
    {
      renderWidth := width;
      renderHeight := height;
      backBuffer := new byte[width * height * 4](_ => 0);
      depthBuffer := new real[width * height](_ => 0.0);
      lockCount := width * height;
    }

    /** Every 4-byte group becomes b, g, r, a and every depth cell float.MaxValue. */
    method Clear(r: byte, g: byte, b: byte, a: byte)
      requires Valid()
      modifies backBuffer, depthBuffer
      ensures forall i | 0 <= i < backBuffer.Length :: backBuffer[i] == Channel(Bgra(b, g, r, a), i % 4)
      ensures forall i | 0 <= i < depthBuffer.Length :: depthBuffer[i] == FloatMax
    {
      var index := 0;
      while index < backBuffer.Length
        invariant 0 <= index <= backBuffer.Length && index % 4 == 0
        invariant forall i | 0 <= i < index :: backBuffer[i] == Channel(Bgra(b, g, r, a), i % 4)
      {
        BlockOffsets(index);
        backBuffer[index] := b;
        backBuffer[index + 1] := g;
        backBuffer[index + 2] := r;
        backBuffer[index + 3] := a;
        index := index + 4;
      }
      index := 0;
      while index < depthBuffer.Length
        invariant 0 <= index <= depthBuffer.Length
        invariant forall i | 0 <= i < index :: depthBuffer[i] == FloatMax
        invariant forall i | 0 <= i < backBuffer.Length :: backBuffer[i] == Channel(Bgra(b, g, r, a), i % 4)
      {
        depthBuffer[index] := FloatMax;
        index := index + 1;
      }
    }

    /** The copy of Present: len/4 four-byte words, then the len%4 bytes left, into
        the bitmap's memory, here an array. */
    method Present(target: array<byte>)
      requires backBuffer.Length <= target.Length && target != backBuffer
      modifies target
      ensures target[..backBuffer.Length] == backBuffer[..]
      ensures target[backBuffer.Length..] == old(target[backBuffer.Length..])
    {
      var len := backBuffer.Length;
      var i := 0;
      while i < len / 4
        invariant 0 <= i <= len / 4
        invariant forall j | 0 <= j < i * 4 :: target[j] == backBuffer[j]
        invariant forall j | i * 4 <= j < target.Length :: target[j] == old(target[j])
      {
        target[i * 4] := backBuffer[i * 4];
        target[i * 4 + 1] := backBuffer[i * 4 + 1];
        target[i * 4 + 2] := backBuffer[i * 4 + 2];
        target[i * 4 + 3] := backBuffer[i * 4 + 3];
        i := i + 1;
      }
      var words := len / 4 * 4;
      i := 0;
      while i < len % 4
        invariant 0 <= i <= len % 4
        invariant forall j | 0 <= j < words + i :: target[j] == backBuffer[j]
        invariant forall j | words + i <= j < target.Length :: target[j] == old(target[j])
      {
        target[words + i] := backBuffer[words + i];
        i := i + 1;
      }
      assert words + len % 4 == len;
    }

    /** The 3-argument PutPixel as written: it locks lockBuffer[(x + y*width)*4], so
        it can only be called for the first quarter of the pixels. */
    method PutPixel(x: int, y: int, color: Bgra)
      requires Valid() && 0 <= ByteLockIndex(x, y, renderWidth) < lockCount
      modifies backBuffer
      ensures backBuffer[..] == WritePixel(old(backBuffer[..]), x + y * renderWidth, color)
    {
      var index := (x + y * renderWidth) * 4;
      backBuffer[index] := color.blue;
      backBuffer[index + 1] := color.green;
      backBuffer[index + 2] := color.red;
      backBuffer[index + 3] := color.alpha;
    }

    /** The 3-argument PutPixel locking the pixel's own lock, x + y*width, as the
        depth-tested PutPixel does. */
    method PutPixelLockingPixel(x: int, y: int, color: Bgra)
      requires Valid() && 0 <= PixelLockIndex(x, y, renderWidth) < lockCount
      modifies backBuffer
      ensures backBuffer[..] == WritePixel(old(backBuffer[..]), x + y * renderWidth, color)
    {
      var index := x + y * renderWidth;
      var index4 := index * 4;
      backBuffer[index4] := color.blue;
      backBuffer[index4 + 1] := color.green;
      backBuffer[index4 + 2] := color.red;
      backBuffer[index4 + 3] := color.alpha;
    }

    /** PutPixel(x, y, z, color): under the pixel's lock, the depth-tested write. */
    method PutPixelAtDepth(x: int, y: int, z: real, color: Bgra)
      requires Valid() && 0 <= PixelLockIndex(x, y, renderWidth) < lockCount
      modifies backBuffer, depthBuffer
      ensures Current() == WithDepthPixel(old(Current()), x, y, z, color)
    {
      var index := x + y * renderWidth;
      var index4 := index * 4;
      if depthBuffer[index] < z {
        return;
      }
      depthBuffer[index] := z;
      backBuffer[index4] := color.blue;
      backBuffer[index4 + 1] := color.green;
      backBuffer[index4 + 2] := color.red;
      backBuffer[index4 + 3] := color.alpha;
    }

    /** DrawPoint(Vector2): a white point, through the corrected lock of DrawPoint2D. */
    method DrawWhitePoint(point: Vec2)
      requires Valid()
      modifies backBuffer
      ensures Current() == WithPoint2(old(Current()), point, White)
    {
      DrawPoint2D(point, White);
    }

    /** DrawPoint(Vector2, Color4): clip, then the 3-argument PutPixel with the pixel's
        own lock. As written, PutPixel locks the byte index and overruns the locks
        (ByteLockIndexOverruns); this is the corrected call. */
    method DrawPoint2D(point: Vec2, color: Bgra)
      requires Valid()
      modifies backBuffer
      ensures Current() == WithPoint2(old(Current()), point, color)
    {
      if 0.0 <= point.x && 0.0 <= point.y && point.x < renderWidth as real && point.y < renderHeight as real {
        ClippedIndexInBounds(Current(), point.x, point.y);
        PutPixelLockingPixel(Trunc(point.x), Trunc(point.y), color);
      }
    }

    /** DrawPoint(Vector3, Color4): clip, then the depth-tested PutPixel. */
    method DrawPoint(point: Vec3, color: Bgra)
      requires Valid()
      modifies backBuffer, depthBuffer
      ensures Current() == WithPoint(old(Current()), point, color)
    {
      if 0.0 <= point.x && 0.0 <= point.y && point.x < renderWidth as real && point.y < renderHeight as real {
        ClippedIndexInBounds(Current(), point.x, point.y);
        PutPixelAtDepth(Trunc(point.x), Trunc(point.y), point.z, color);
      }
    }

    /** The row at height currentY between the edges va-vb and vc-vd. */
    method ProcessScanLine(currentY: real, va: Vertex, vb: Vertex, vc: Vertex, vd: Vertex, color: Bgra)
      requires Valid()
      modifies backBuffer, depthBuffer
      ensures Current() == WithScanLine(old(Current()), currentY, va.coordinates, vb.coordinates,
                                        vc.coordinates, vd.coordinates, color)
    {
      var pa, pb, pc, pd := va.coordinates, vb.coordinates, vc.coordinates, vd.coordinates;
      var gradient1 := Gradient(currentY, pa.y, pb.y);
      var gradient2 := Gradient(currentY, pc.y, pd.y);
      var sx := Trunc(Interpolate(pa.x, pb.x, gradient1));
      var ex := Trunc(Interpolate(pc.x, pd.x, gradient2));
      var z1 := Interpolate(pa.z, pb.z, gradient1);
      var z2 := Interpolate(pc.z, pd.z, gradient2);
      ghost var goal := WithSpan(Current(), currentY, sx, ex, z1, z2, color, sx);
      var x := sx;
      while x < ex
        invariant sx <= x && Sized(Current())
        invariant WithSpan(Current(), currentY, sx, ex, z1, z2, color, x) == goal
        decreases ex - x
      {
        ghost var before := Current();
        var gradient := (x - sx) as real / (ex - sx) as real;
        var z := Interpolate(z1, z2, gradient);
        DrawPoint(Vec3(x as real, currentY, z), color);
        assert Current() == WithPoint(before, Vec3(x as real, currentY, z), color);
        assert WithSpan(before, currentY, sx, ex, z1, z2, color, x)
            == WithSpan(Current(), currentY, sx, ex, z1, z2, color, x + 1);
        x := x + 1;
      }
    }

    /** The body of DrawTriangle's row loops for row y, drawn at height currentY. */
    method DrawTriangleRow(y: int, currentY: real, v1: Vertex, v2: Vertex, v3: Vertex, color: Bgra,
                           rightBend: bool)
      requires Valid()
      modifies backBuffer, depthBuffer
      ensures Current() == WithTriangleRow(old(Current()), y, currentY, v1.coordinates, v2.coordinates,
                                           v3.coordinates, color, rightBend)
    {
      if rightBend {
        if (y as real) < v2.coordinates.y {
          ProcessScanLine(currentY, v1, v3, v1, v2, color);
        } else {
          ProcessScanLine(currentY, v1, v3, v2, v3, color);
        }
      } else {
        if (y as real) < v2.coordinates.y {
          ProcessScanLine(currentY, v1, v2, v1, v3, color);
        } else {
          ProcessScanLine(currentY, v2, v3, v1, v3, color);
        }
      }
    }

    /** The row loops of DrawTriangle, lines 346-374, with ScanLineData.currentY set to
        each row: rows Trunc(v1.y) to Trunc(v3.y), with v2 on the side `rightBend` says. */
    method DrawRows(v1: Vertex, v2: Vertex, v3: Vertex, color: Bgra, rightBend: bool)
      requires Valid()
      modifies backBuffer, depthBuffer
      ensures Current() == WithRows(old(Current()), Trunc(v1.coordinates.y), Trunc(v3.coordinates.y),
                                    v1.coordinates, v2.coordinates, v3.coordinates, color, rightBend, true)
    {
      var p1, p2, p3 := v1.coordinates, v2.coordinates, v3.coordinates;
      ghost var goal := WithRows(Current(), Trunc(p1.y), Trunc(p3.y), p1, p2, p3, color, rightBend, true);
      var y := Trunc(p1.y);
      while y <= Trunc(p3.y)
        invariant WithRows(Current(), y, Trunc(p3.y), p1, p2, p3, color, rightBend, true) == goal
        decreases Trunc(p3.y) - y
      {
        ghost var before := Current();
        DrawTriangleRow(y, y as real, v1, v2, v3, color, rightBend);
        RowsStep(before, Current(), y, Trunc(p3.y), p1, p2, p3, color, rightBend, true);
        y := y + 1;
      }
    }

    /** DrawTriangle with data.currentY set to y in every row: sort the vertices by
        screen y, pick the side of p2 by the inverse slopes, scan rows
        Trunc(p1.y) to Trunc(p3.y). */
    method DrawTriangle(v1: Vertex, v2: Vertex, v3: Vertex, color: Bgra)
      requires Valid()
      modifies backBuffer, depthBuffer
      ensures Current() == WithVertexTriangle(old(Current()), v1, v2, v3, color, true)
    {
      var w1, w2, w3 := v1, v2, v3;
      if w1.coordinates.y > w2.coordinates.y {
        w1, w2 := w2, w1;
      }
      if w2.coordinates.y > w3.coordinates.y {
        w2, w3 := w3, w2;
      }
      if w1.coordinates.y > w2.coordinates.y {
        w1, w2 := w2, w1;
      }
      assert (w1, w2, w3) == SortByY(v1, v2, v3, CoordY);
      var p1, p2, p3 := w1.coordinates, w2.coordinates, w3.coordinates;
      var dP1P2 := InverseSlope(p1, p2);
      var dP1P3 := InverseSlope(p1, p3);
      // First case: v2 right of the long edge v1-v3; second case: left of it.
      if dP1P2 > dP1P3 {
        DrawRows(w1, w2, w3, color, true);
      } else {
        DrawRows(w1, w2, w3, color, false);
      }
    }
  }
}
