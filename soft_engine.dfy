/**
 * SoftEngine.cs: the single-threaded Device, which draws into a BGRA back buffer and
 * a depth buffer, and the Mesh it is fed from. Every drawing method is proved
 * to leave the buffers as the matching function of the Raster module says.
 */
module SoftEngine {
  import opened Raster

  /** Indices of a face's three corners in Mesh.Vertices. */
  datatype Face = Face(a: int, b: int, c: int)

  const Origin: Vec3 := Vec3(0.0, 0.0, 0.0)

  class Mesh {
    var name: string
    var vertices: array<Vec3>
    var faces: array<Face>
    var position: Vec3
    var rotation: Vec3

    /** Arrays of the given lengths, every element the zero value; the name given. */
    constructor (name: string, verticesCount: nat, facesCount: nat)
      ensures this.name == name && position == Origin && rotation == Origin
      ensures fresh(vertices) && vertices.Length == verticesCount
      ensures fresh(faces) && faces.Length == facesCount
      ensures forall i | 0 <= i < verticesCount :: vertices[i] == Origin
      ensures forall i | 0 <= i < facesCount :: faces[i] == Face(0, 0, 0)
    {
      vertices := new Vec3[verticesCount](_ => Origin);
      faces := new Face[facesCount](_ => Face(0, 0, 0));
      this.name := name;
      position := Origin;
      rotation := Origin;
    }
  }

  class Device {
    const renderWidth: int
    const renderHeight: int
    const backBuffer: array<byte>
    const depthBuffer: array<real>

    /** width*height*4 bytes and width*height depth cells. */
    predicate Valid() {
      0 <= renderWidth && 0 <= renderHeight &&
      depthBuffer.Length == renderWidth * renderHeight && backBuffer.Length == depthBuffer.Length * 4
    }

    /** The two buffers as values. */
    function Current(): (f: Frame)
      reads backBuffer, depthBuffer
      ensures Valid() ==> Sized(f)
    {
      Frame(renderWidth, renderHeight, backBuffer[..], depthBuffer[..])
    }

    /** Buffers for a bitmap of width by height pixels, zero-filled as new arrays are. */
    constructor (width: nat, height: nat)
      ensures Valid() && renderWidth == width && renderHeight == height
      ensures fresh(backBuffer) && fresh(depthBuffer)
      ensures forall i | 0 <= i < backBuffer.Length :: backBuffer[i] == 0
      ensures forall i | 0 <= i < depthBuffer.Length :: depthBuffer[i] == 0.0
    {
      renderWidth := width;
      renderHeight := height;
      backBuffer := new byte[width * height * 4](_ => 0);
      depthBuffer := new real[width * height](_ => 0.0);
    }

    /** Every 4-byte group becomes b, g, r, a and every depth cell float.MaxValue. */
    method Clear(r: byte, g: byte, b: byte, a: byte)
      requires Valid()
      modifies backBuffer, depthBuffer
      ensures forall i | 0 <= i < backBuffer.Length :: backBuffer[i] == Channel(Bgra(b, g, r, a), i % 4)
      ensures forall i | 0 <= i < depthBuffer.Length :: depthBuffer[i] == FloatMax
    {
      var index := 0;
      while index < backBuffer.Length
        invariant 0 <= index <= backBuffer.Length && index % 4 == 0
        invariant forall i | 0 <= i < index :: backBuffer[i] == Channel(Bgra(b, g, r, a), i % 4)
      {
        BlockOffsets(index);
        backBuffer[index] := b;
        backBuffer[index + 1] := g;
        backBuffer[index + 2] := r;
        backBuffer[index + 3] := a;
        index := index + 4;
      }
      index := 0;
      while index < depthBuffer.Length
        invariant 0 <= index <= depthBuffer.Length
        invariant forall i | 0 <= i < index :: depthBuffer[i] == FloatMax
        invariant forall i | 0 <= i < backBuffer.Length :: backBuffer[i] == Channel(Bgra(b, g, r, a), i % 4)
      {
        depthBuffer[index] := FloatMax;
        index := index + 1;
      }
    }

    /** The copy of Present: len/4 four-byte words, then the len%4 bytes left, from the
        back buffer to the bitmap's memory, here an array. */
    method Present(target: array<byte>)
      requires backBuffer.Length <= target.Length && target != backBuffer
      modifies target
      ensures target[..backBuffer.Length] == backBuffer[..]
      ensures target[backBuffer.Length..] == old(target[backBuffer.Length..])
    {
      var len := backBuffer.Length;
      var i := 0;
      while i < len / 4
        invariant 0 <= i <= len / 4
        invariant forall j | 0 <= j < i * 4 :: target[j] == backBuffer[j]
        invariant forall j | i * 4 <= j < target.Length :: target[j] == old(target[j])
      {
        target[i * 4] := backBuffer[i * 4];
        target[i * 4 + 1] := backBuffer[i * 4 + 1];
        target[i * 4 + 2] := backBuffer[i * 4 + 2];
        target[i * 4 + 3] := backBuffer[i * 4 + 3];
        i := i + 1;
      }
      var words := len / 4 * 4;
      i := 0;
      while i < len % 4
        invariant 0 <= i <= len % 4
        invariant forall j | 0 <= j < words + i :: target[j] == backBuffer[j]
        invariant forall j | words + i <= j < target.Length :: target[j] == old(target[j])
      {
        target[words + i] := backBuffer[words + i];
        i := i + 1;
      }
      assert words + len % 4 == len;
    }

    /** The unconditional write of the 4 bytes at (x + y*width)*4. */
    method PutPixel(x: int, y: int, color: Bgra)
      requires 0 <= (x + y * renderWidth) * 4 && (x + y * renderWidth) * 4 + 3 < backBuffer.Length
      modifies backBuffer
      ensures backBuffer[..] == WritePixel(old(backBuffer[..]), x + y * renderWidth, color)
    {
      var index := (x + y * renderWidth) * 4;
      backBuffer[index] := color.blue;
      backBuffer[index + 1] := color.green;
      backBuffer[index + 2] := color.red;
      backBuffer[index + 3] := color.alpha;
    }

    /** PutPixel(x, y, z, color): the depth-tested write at x + y*width. */
    method PutPixelAtDepth(x: int, y: int, z: real, color: Bgra)
      requires Valid() && 0 <= x + y * renderWidth < depthBuffer.Length
      modifies backBuffer, depthBuffer
      ensures Current() == WithDepthPixel(old(Current()), x, y, z, color)
    {
      var index := x + y * renderWidth;
      var index4 := index * 4;
      if depthBuffer[index] < z {
        return;
      }
      depthBuffer[index] := z;
      backBuffer[index4] := color.blue;
      backBuffer[index4 + 1] := color.green;
      backBuffer[index4 + 2] := color.red;
      backBuffer[index4 + 3] := color.alpha;
    }

    /** DrawPoint(Vector2): a white point. */
    method DrawWhitePoint(point: Vec2)
      requires Valid()
      modifies backBuffer
      ensures Current() == WithPoint2(old(Current()), point, White)
    {
      DrawPoint2D(point, White);
    }

    /** DrawPoint(Vector2, Color4): clip, then the unconditional PutPixel. */
    method DrawPoint2D(point: Vec2, color: Bgra)
      requires Valid()
      modifies backBuffer
      ensures Current() == WithPoint2(old(Current()), point, color)
    {
      if 0.0 <= point.x && 0.0 <= point.y && point.x < renderWidth as real && point.y < renderHeight as real {
        ClippedIndexInBounds(Current(), point.x, point.y);
        PutPixel(Trunc(point.x), Trunc(point.y), color);
      }
    }

    /** DrawPoint(Vector3, Color4): clip, then the depth-tested PutPixel. */
    method DrawPoint(point: Vec3, color: Bgra)
      requires Valid()
      modifies backBuffer, depthBuffer
      ensures Current() == WithPoint(old(Current()), point, color)
    {
      if 0.0 <= point.x && 0.0 <= point.y && point.x < renderWidth as real && point.y < renderHeight as real {
        ClippedIndexInBounds(Current(), point.x, point.y);
        PutPixelAtDepth(Trunc(point.x), Trunc(point.y), point.z, color);
      }
    }

    /** Row y between the edges pa-pb and pc-pd: pixels sx .. ex-1. */
    method ProcessScanLine(y: int, pa: Vec3, pb: Vec3, pc: Vec3, pd: Vec3, color: Bgra)
      requires Valid()
      modifies backBuffer, depthBuffer
      ensures Current() == WithScanLine(old(Current()), y as real, pa, pb, pc, pd, color)
    {
      var gradient1 := Gradient(y as real, pa.y, pb.y);
      var gradient2 := Gradient(y as real, pc.y, pd.y);
      var sx := Trunc(Interpolate(pa.x, pb.x, gradient1));
      var ex := Trunc(Interpolate(pc.x, pd.x, gradient2));
      var z1 := Interpolate(pa.z, pb.z, gradient1);
      var z2 := Interpolate(pc.z, pd.z, gradient2);
      ghost var goal := WithSpan(Current(), y as real, sx, ex, z1, z2, color, sx);
      var x := sx;
      while x < ex
        invariant sx <= x && Sized(Current())
        invariant WithSpan(Current(), y as real, sx, ex, z1, z2, color, x) == goal
        decreases ex - x
      {
        ghost var before := Current();
        var gradient := (x - sx) as real / (ex - sx) as real;
        var z := Interpolate(z1, z2, gradient);
        DrawPoint(Vec3(x as real, y as real, z), color);
        assert Current() == WithPoint(before, Vec3(x as real, y as real, z), color);
        assert WithSpan(before, y as real, sx, ex, z1, z2, color, x)
            == WithSpan(Current(), y as real, sx, ex, z1, z2, color, x + 1);
        x := x + 1;
      }
    }

    /** The body of DrawTriangle's row loops, row y drawn at its own height; rightBend
        is true in the loop taken when p2 lies right of the edge p1-p3. */
    method DrawTriangleRow(y: int, p1: Vec3, p2: Vec3, p3: Vec3, color: Bgra, rightBend: bool)
      requires Valid()
      modifies backBuffer, depthBuffer
      ensures Current() == WithTriangleRow(old(Current()), y, y as real, p1, p2, p3, color, rightBend)
    {
      if rightBend {
        if (y as real) < p2.y {
          ProcessScanLine(y, p1, p3, p1, p2, color);
        } else {
          ProcessScanLine(y, p1, p3, p2, p3, color);
        }
      } else {
        if (y as real) < p2.y {
          ProcessScanLine(y, p1, p2, p1, p3, color);
        } else {
          ProcessScanLine(y, p2, p3, p1, p3, color);
        }
      }
    }

    /** The row loops of DrawTriangle, lines 322-350: rows Trunc(p1.y) to Trunc(p3.y),
        each drawn at its own height, with p2 on the side `rightBend` says. */
    method DrawRows(p1: Vec3, p2: Vec3, p3: Vec3, color: Bgra, rightBend: bool)
      requires Valid()
      modifies backBuffer, depthBuffer
      ensures Current() == WithRows(old(Current()), Trunc(p1.y), Trunc(p3.y), p1, p2, p3, color, rightBend, true)
    {
      ghost var goal := WithRows(Current(), Trunc(p1.y), Trunc(p3.y), p1, p2, p3, color, rightBend, true);
      var y := Trunc(p1.y);
      while y <= Trunc(p3.y)
        invariant WithRows(Current(), y, Trunc(p3.y), p1, p2, p3, color, rightBend, true) == goal
        decreases Trunc(p3.y) - y
      {
        ghost var before := Current();
        DrawTriangleRow(y, p1, p2, p3, color, rightBend);
        RowsStep(before, Current(), y, Trunc(p3.y), p1, p2, p3, color, rightBend, true);
        y := y + 1;
      }
    }

    /** Sort the corners by y with three swaps, pick the side of p2 by the inverse
        slopes, then scan rows Trunc(p1.y) to Trunc(p3.y). */
    method DrawTriangle(v1: Vec3, v2: Vec3, v3: Vec3, color: Bgra)
      requires Valid()
      modifies backBuffer, depthBuffer
      ensures Current() == WithTriangle(old(Current()), v1, v2, v3, color)
    {
      var p1, p2, p3 := v1, v2, v3;
      if p1.y > p2.y {
        p1, p2 := p2, p1;
      }
      if p2.y > p3.y {
        p3, p2 := p2, p3;
      }
      if p1.y > p2.y {
        p1, p2 := p2, p1;
      }
      assert (p1, p2, p3) == SortByY(v1, v2, v3, YOf);
      var dP1P2 := InverseSlope(p1, p2);
      var dP1P3 := InverseSlope(p1, p3);
      // First case: p2 right of the long edge p1-p3; second case: left of it.
      if dP1P2 > dP1P3 {
        DrawRows(p1, p2, p3, color, true);
      } else {
        DrawRows(p1, p2, p3, color, false);
      }
    }
  }
}
