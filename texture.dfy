/**
 * Texture.cs: sampling a BGRA texture at (tu, tv). The texture is a value: Map reads
 * it and changes nothing. internalBuffer is None until an image has been decoded;
 * the decoding itself is not part of this model.
 */
module Textures {
  import opened Wrappers
  import opened Raster

  /** SharpDX's Color4, channels as reals. */
  datatype Color4 = Color4(red: real, green: real, blue: real, alpha: real)

  /** Color4.White. */
  const WhiteColor: Color4 := Color4(1.0, 1.0, 1.0, 1.0)

  /** The exceptions Map can throw: an int % 0, and a read outside internalBuffer. */
  datatype MapError = DivideByZero | IndexOutOfRange

  /** A texture of the fixed size given to the constructor, with the decoded bytes
      when there are any. */
  datatype Texture = Texture(internalBuffer: Option<seq<byte>>, width: int, height: int)

  function Abs(a: int): (r: int)
    ensures 0 <= r && (r == a || r == -a)
  {
    if a < 0 then -a else a
  }

  /** C#'s % on int: the remainder of the division truncated toward zero, so it has
      the sign of a and does not depend on the sign of b. */
  function CRem(a: int, b: int): (r: int)
    requires b != 0
    ensures Abs(r) < Abs(b)
    ensures 0 <= a ==> 0 <= r
    ensures a <= 0 ==> r <= 0
    // a is the quotient truncated toward zero, times |b|, plus r
    ensures a - r == (if 0 <= a then a / Abs(b) else -((-a) / Abs(b))) * Abs(b)
  {
    if 0 <= a then a % Abs(b) else -((-a) % Abs(b))
  }

  /** The texel column (or row) of coordinate t on a side of `size` texels:
      |(int)(t*size) % size|. */
  function Wrap(t: real, size: int): int
    requires size != 0
  {
    Abs(CRem(Trunc(t * size as real), size))
  }

  /** RGBA channels scaled to [0, 1] from a BGRA texel. */
  function Normalized(p: Bgra): Color4 {
    Color4(p.red as real / 255.0, p.green as real / 255.0, p.blue as real / 255.0, p.alpha as real / 255.0)
  }

  /** The texture has as many bytes as its declared size calls for. */
  predicate WellSized(tex: Texture) {
    tex.internalBuffer.Some? && 0 < tex.width && 0 < tex.height &&
    |tex.internalBuffer.value| == tex.width * tex.height * 4
  }

  /** Map(tu, tv): white with no image; otherwise the texel at the wrapped (u, v), or
      the exception the arithmetic or the read throws. */
  function Map(tex: Texture, tu: real, tv: real): (r: Result<Color4, MapError>)
    ensures tex.internalBuffer.None? ==> r == Success(WhiteColor)
    ensures r == Failure(DivideByZero) <==> tex.internalBuffer.Some? && (tex.width == 0 || tex.height == 0)
    ensures r.Success? && tex.internalBuffer.Some? ==>
              var u, v := Wrap(tu, tex.width), Wrap(tv, tex.height);
              0 <= u + v * tex.width && (u + v * tex.width) * 4 + 3 < |tex.internalBuffer.value| &&
              r.value == Normalized(PixelAt(tex.internalBuffer.value, u + v * tex.width))
  {
    match tex.internalBuffer
    case None => Success(WhiteColor)
    case Some(buffer) =>
      if tex.width == 0 || tex.height == 0 then Failure(DivideByZero)
      else
        var u := Wrap(tu, tex.width);
        var v := Wrap(tv, tex.height);
        var pos := (u + v * tex.width) * 4;
        if pos < 0 || |buffer| <= pos + 3 then Failure(IndexOutOfRange)
        else
          var b, g, r, a := buffer[pos + 0], buffer[pos + 1], buffer[pos + 2], buffer[pos + 3];
          Success(Color4(r as real / 255.0, g as real / 255.0, b as real / 255.0, a as real / 255.0))
  }

  /** The wrapped coordinate is a texel of the side, whatever t is. */
  lemma WrapInRange(t: real, size: int)
    requires size != 0
    ensures 0 <= Wrap(t, size) < Abs(size)
  {
  }

  /** On non-negative texel numbers, C#'s % agrees with the mathematical remainder. */
  lemma CRemOfNatural(n: int, size: int)
    requires 0 <= n && 0 < size
    ensures CRem(n, size) == n % size && CRem(n + size, size) == n % size
  {
    var q, r := n / size, n % size;
    assert n == q * size + r;
    assert n + size == r + (q + 1) * size;
    RowAndColumn(r, q + 1, size);
  }

  /** Truncation moves with whole numbers added to a non-negative real. */
  lemma TruncShift(r: real, n: int)
    requires 0.0 <= r && 0 <= n
    ensures Trunc(r + n as real) == Trunc(r) + n
  {
    var t, s := Trunc(r), Trunc(r + n as real);
    assert t as real <= r < t as real + 1.0;
    assert s as real <= r + n as real < s as real + 1.0;
    assert (t + n) as real <= r + n as real < (t + n) as real + 1.0;
  }

  /** For t >= 0 the texture repeats: t and t + 1 sample the same texel. */
  lemma WrapRepeats(t: real, size: int)
    requires 0.0 <= t && 0 < size
    ensures Wrap(t + 1.0, size) == Wrap(t, size)
  {
    var n := Trunc(t * size as real);
    assert (t + 1.0) * size as real == t * size as real + size as real;
    TruncShift(t * size as real, size);
    CRemOfNatural(n, size);
  }

  /** For t < 0 the texture is mirrored, not repeated: -t and t sample the same texel. */
  lemma WrapMirrors(t: real, size: int)
    requires size != 0
    ensures Wrap(-t, size) == Wrap(t, size)
  {
    var r := t * size as real;
    assert -t * size as real == -r;
    assert Trunc(-r) == -Trunc(r);
    var n := Trunc(r);
    if 0 <= n {
      assert CRem(-n, size) == -(n % Abs(size));
    } else {
      assert CRem(n, size) == -((-n) % Abs(size));
    }
  }

  /** A texel inside the declared size starts a 4-byte group inside a buffer of
      width*height*4 bytes. */
  lemma TexelInBounds(u: int, v: int, width: int, height: int)
    requires 0 <= u < width && 0 <= v < height
    ensures 0 <= (u + v * width) * 4 && (u + v * width) * 4 + 3 < width * height * 4
  {
    MulMonotone(v, height - 1, width);
    MulMonotone(0, v, width);
    assert (height - 1) * width + width == width * height;
  }

  /** When the decoded image has the declared size, every (tu, tv) samples a texel. */
  lemma WellSizedMapSucceeds(tex: Texture, tu: real, tv: real)
    requires WellSized(tex)
    ensures Map(tex, tu, tv).Success?
  {
    WrapInRange(tu, tex.width);
    WrapInRange(tv, tex.height);
    TexelInBounds(Wrap(tu, tex.width), Wrap(tv, tex.height), tex.width, tex.height);
  }

  /** Each channel Map returns lies in [0, 1]. */
  lemma ChannelsInUnitRange(tex: Texture, tu: real, tv: real)
    requires Map(tex, tu, tv).Success?
    ensures var c := Map(tex, tu, tv).value;
            0.0 <= c.red <= 1.0 && 0.0 <= c.green <= 1.0 && 0.0 <= c.blue <= 1.0 && 0.0 <= c.alpha <= 1.0
  {
  }

  /** A texel written in the back buffer's BGRA layout is sampled back as its colour
      scaled to [0, 1]. */
  lemma SamplesWrittenTexel(tex: Texture, tu: real, tv: real, c: Bgra)
    requires WellSized(tex)
    ensures var u, v := Wrap(tu, tex.width), Wrap(tv, tex.height);
            0 <= u + v * tex.width && (u + v * tex.width) * 4 + 3 < |tex.internalBuffer.value| &&
            Map(tex.(internalBuffer := Some(WritePixel(tex.internalBuffer.value, u + v * tex.width, c))), tu, tv)
            == Success(Normalized(c))
  {
    var u, v := Wrap(tu, tex.width), Wrap(tv, tex.height);
    WrapInRange(tu, tex.width);
    WrapInRange(tv, tex.height);
    TexelInBounds(u, v, tex.width, tex.height);
    var written := tex.(internalBuffer := Some(WritePixel(tex.internalBuffer.value, u + v * tex.width, c)));
    WellSizedMapSucceeds(written, tu, tv);
  }

  /** A texture declared 4x4 whose image decoded as 2x2 (16 bytes): sampling near the
      far corner reads past the buffer. */
  lemma SmallerImageReadsOutOfRange()
    ensures Map(Texture(Some(seq(16, _ => 0)), 4, 4), 0.9, 0.9) == Failure(IndexOutOfRange)
  {
    assert Trunc(0.9 * 4.0) == 3;
    assert Wrap(0.9, 4) == 3;
  }
}
