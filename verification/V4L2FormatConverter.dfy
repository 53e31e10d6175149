/**
 The capture side's scalar converters, working in place on the destination array, with the
 matrix of section 2.5 of ITU-R BT.601-7 in 8-bit fixed point. Each is proved to store the
 picture its input lays out and to write nothing else.
 */
module V4L2FormatConverter {
  import opened Common
  import opened LineConversion
  import opened PixelLayouts

  function Clamp(value: int): byte {
    if value < 0 then 0 else if value > 255 then 255 else value
  }

  /** A right shift by eight of a possibly negative number rounds down, as `/ 256` does here. */
  function YuvToRgb(p: Yuv): Bgra {
    var c, d, e := p.y - 16, p.u - 128, p.v - 128;
    Bgra(Clamp((298 * c + 516 * d + 128) / 256),
         Clamp((298 * c - 100 * d - 208 * e + 128) / 256),
         Clamp((298 * c + 409 * e + 128) / 256),
         255)
  }

  /** Grey input gives grey output, no darker for a lighter grey; studio black and white become 0 and 255. */
  lemma GreyStaysGrey(y: byte, y': byte)
    requires y <= y'
    ensures var p, p' := YuvToRgb(Yuv(y, 128, 128)), YuvToRgb(Yuv(y', 128, 128));
            && p.b == p.g == p.r <= p'.r
            && (y <= 16 ==> p.r == 0) && (y >= 235 ==> p.r == 255)
  {
    var c, c' := 298 * (y - 16) + 128, 298 * (y' - 16) + 128;
    assert c / 256 <= c' / 256;
  }

  /** Packed 4:2:2 input, its lines without gaps. */
  function PackedPairs(s: seq<byte>, w: nat): Plane { Plane(s, 0, 2 * w) }

  method ConvertYuyvToBgra(src: array<byte>, w: nat, h: nat, dst: array<byte>)
    requires src != dst && w % 2 == 0
    requires Holds(PackedPairs(src[..], w), h, 2 * w) && CanvasFits(Packed(w, h), dst.Length)
    modifies dst
    ensures Painted(dst[..], Packed(w, h), ColouredPicture(YuyvPicture(PackedPairs(src[..], w), w, h), YuvToRgb), h)
    ensures OnlyRows(old(dst[..]), dst[..], Packed(w, h), h)
  {
    ghost var k, p := Packed(w, h), PackedPairs(src[..], w);
    ghost var picture := ColouredPicture(YuyvPicture(p, w, h), YuvToRgb);
    var y, s, d := 0, 0, 0;
    while y < h
      invariant 0 <= y <= h && s == Times(y, 2 * w) && d == Times(y, 4 * w)
      invariant Painted(dst[..], k, picture, y) && OnlyRows(old(dst[..]), dst[..], k, y)
    {
      assert RowFits(p, y, 2 * w) && CanvasRow(k, y) == d;
      ghost var before := dst[..];
      YuyvRow(src, s, dst, d, w, YuvToRgb);
      PaintNext(old(dst[..]), before, dst[..], k, picture, y);
      y, s, d := y + 1, s + 2 * w, d + 4 * w;
    }
  }

  method ConvertUyvyToBgra(src: array<byte>, w: nat, h: nat, dst: array<byte>)
    requires src != dst && w % 2 == 0
    requires Holds(PackedPairs(src[..], w), h, 2 * w) && CanvasFits(Packed(w, h), dst.Length)
    modifies dst
    ensures Painted(dst[..], Packed(w, h), ColouredPicture(UyvyPicture(PackedPairs(src[..], w), w, h), YuvToRgb), h)
    ensures OnlyRows(old(dst[..]), dst[..], Packed(w, h), h)
  {
    ghost var k, p := Packed(w, h), PackedPairs(src[..], w);
    ghost var picture := ColouredPicture(UyvyPicture(p, w, h), YuvToRgb);
    var y, s, d := 0, 0, 0;
    while y < h
      invariant 0 <= y <= h && s == Times(y, 2 * w) && d == Times(y, 4 * w)
      invariant Painted(dst[..], k, picture, y) && OnlyRows(old(dst[..]), dst[..], k, y)
    {
      assert RowFits(p, y, 2 * w) && CanvasRow(k, y) == d;
      ghost var before := dst[..];
      UyvyRow(src, s, dst, d, w, YuvToRgb);
      PaintNext(old(dst[..]), before, dst[..], k, picture, y);
      y, s, d := y + 1, s + 2 * w, d + 4 * w;
    }
  }

  /** The luma plane of a packed NV12 buffer. */
  function LumaOf(s: seq<byte>, w: nat): Plane { Plane(s, 0, w) }

  /** The chroma plane, right behind the luma plane. */
  ghost function ChromaOf(s: seq<byte>, w: nat, h: nat): Plane { Plane(s, Times(h, w), w) }

  /** What an NV12 buffer shows. */
  ghost function Nv12Pixels(s: seq<byte>, w: nat, h: nat): (picture: seq<seq<Bgra>>)
    requires Nv12Holds(LumaOf(s, w), ChromaOf(s, w, h), w, h)
    ensures |picture| == h
  {
    ColouredPicture(Nv12Picture(LumaOf(s, w), ChromaOf(s, w, h), w, h), YuvToRgb)
  }

  /** One turn of the row loop. */
  method ConvertNv12Line(src: array<byte>, w: nat, h: nat, uvPlane: nat, y: nat, dst: array<byte>)
    requires src != dst && y < h && uvPlane == Times(h, w)
    requires Nv12Holds(LumaOf(src[..], w), ChromaOf(src[..], w, h), w, h) && CanvasFits(Packed(w, h), dst.Length)
    modifies dst
    ensures PixelLine(dst[..], CanvasRow(Packed(w, h), y), w) == Nv12Pixels(src[..], w, h)[y]
    ensures SameOutside(old(dst[..]), dst[..], CanvasRow(Packed(w, h), y), CanvasRow(Packed(w, h), y) + 4 * w)
  {
    assert RowFits(LumaOf(src[..], w), y, w) && RowFits(ChromaOf(src[..], w, h), y / 2, 2 * ((w + 1) / 2));
    assert CanvasRow(Packed(w, h), y) == Times(y, 4 * w);
    var yFrom := Product(y, w);
    var uvRow := Product(y / 2, w);
    var to := Product(y, 4 * w);
    Nv12Row(src, yFrom, src, uvPlane + uvRow, dst, to, w, YuvToRgb);
  }

  method ConvertNv12ToBgra(src: array<byte>, w: nat, h: nat, dst: array<byte>)
    requires src != dst
    requires Nv12Holds(LumaOf(src[..], w), ChromaOf(src[..], w, h), w, h) && CanvasFits(Packed(w, h), dst.Length)
    modifies dst
    ensures Painted(dst[..], Packed(w, h), Nv12Pixels(src[..], w, h), h)
    ensures OnlyRows(old(dst[..]), dst[..], Packed(w, h), h)
  {
    ghost var k, picture := Packed(w, h), Nv12Pixels(src[..], w, h);
    var uvPlane := Product(h, w);
    var y := 0;
    while y < h
      invariant 0 <= y <= h
      invariant Painted(dst[..], k, picture, y) && OnlyRows(old(dst[..]), dst[..], k, y)
    {
      ghost var before := dst[..];
      ConvertNv12Line(src, w, h, uvPlane, y, dst);
      PaintNext(old(dst[..]), before, dst[..], k, picture, y);
      y := y + 1;
    }
  }
}
