/**
 The generic software converter: three source layouts with line strides of the caller's choice,
 two colour matrices, two ranges, and integer division that truncates toward zero.
 */
module BasicFormatConverter {
  import opened Common
  import opened LineConversion
  import opened PixelLayouts

  datatype ColorSpace = BT601 | BT709 | AutoSpace

  datatype ColorRange = Limited | Full | AutoRange

  datatype ColorSpaceInfo = ColorSpaceInfo(space: ColorSpace, range: ColorRange)

  const AUTO_INFO := ColorSpaceInfo(AutoSpace, AutoRange)

  /** The colour decisions of one call. */
  datatype Mode = Mode(bt709: bool, fullRange: bool)

  /** Division as the source language does it: the quotient of the magnitudes, with the sign of a. */
  function TruncDiv(a: int, b: int): (q: int)
    requires b > 0
    ensures a >= 0 ==> q * b <= a < (q + 1) * b
    ensures a <= 0 ==> (q - 1) * b < a <= q * b
  {
    if a >= 0 then a / b else -((-a) / b)
  }

  function Clamp(value: int): byte { Max(0, Min(255, value)) }

  function ModeFor(info: ColorSpaceInfo, height: int): Mode {
    Mode(info.space == BT709 || (info.space == AutoSpace && height >= 720), info.range == Full)
  }

  /** The luma of a sample, brought to full range. */
  function Luma(m: Mode, y: byte): byte { if m.fullRange then y else Clamp(TruncDiv((y - 16) * 255, 219)) }

  /** A colour difference of a sample, centred and brought to full range. */
  function Chroma(m: Mode, u: byte): int { if m.fullRange then u - 128 else TruncDiv((u - 128) * 255, 224) }

  /** A channel: luma and a term in thousandths, rounded as the source does it. */
  function Channel(y: byte, n: int): byte { Clamp(y + TruncDiv(n + 500, 1000)) }

  function GreenChannel(y: byte, n: int): byte { Clamp(y - TruncDiv(n + 500, 1000)) }

  function Matrix709(y: byte, u: int, v: int): Bgra {
    Bgra(Channel(y, 1856 * u), GreenChannel(y, 187 * u + 468 * v), Channel(y, 1575 * v), 255)
  }

  function Matrix601(y: byte, u: int, v: int): Bgra {
    Bgra(Channel(y, 1772 * u), GreenChannel(y, 344 * u + 714 * v), Channel(y, 1402 * v), 255)
  }

  function Decode(m: Mode, p: Yuv): Bgra {
    var y, u, v := Luma(m, p.y), Chroma(m, p.u), Chroma(m, p.v);
    if m.bt709 then Matrix709(y, u, v) else Matrix601(y, u, v)
  }

  function Decoder(m: Mode): Yuv -> Bgra { p => Decode(m, p) }

  lemma NeutralIsGrey(m: Mode, y: byte)
    ensures Decode(m, Yuv(y, 128, 128)) == Bgra(Luma(m, y), Luma(m, y), Luma(m, y), 255)
  {
    NoChroma(m, Luma(m, y));
  }

  lemma NoChroma(m: Mode, y: byte)
    ensures Chroma(m, 128) == 0 && Matrix709(y, 0, 0) == Matrix601(y, 0, 0) == Bgra(y, y, y, 255)
  {
    CentreIsNeutral(m);
    NothingAdded(y);
    NothingTaken(y);
  }

  lemma CentreIsNeutral(m: Mode)
    ensures Chroma(m, 128) == 0
  {
  }

  lemma NothingAdded(y: byte)
    ensures Channel(y, 0) == y
  {
  }

  lemma NothingTaken(y: byte)
    ensures GreenChannel(y, 0) == y
  {
  }

  lemma LumaMonotone(m: Mode, y: byte, y': byte)
    requires y <= y'
    ensures Luma(m, y) <= Luma(m, y')
    ensures y <= (if m.fullRange then 0 else 16) ==> Luma(m, y) == 0
    ensures y >= (if m.fullRange then 255 else 235) ==> Luma(m, y) == 255
  {
  }

  /** A grey pixel no lighter than another. */
  predicate GreyUpTo(p: Bgra, p': Bgra) { p.b == p.g == p.r <= p'.r == p'.g == p'.b }

  lemma GreysInOrder(m: Mode, y: byte, y': byte, p: Bgra, p': Bgra)
    requires y <= y' && p == Bgra(Luma(m, y), Luma(m, y), Luma(m, y), 255)
    requires p' == Bgra(Luma(m, y'), Luma(m, y'), Luma(m, y'), 255)
    ensures GreyUpTo(p, p')
    ensures y <= (if m.fullRange then 0 else 16) ==> p.r == 0
    ensures y >= (if m.fullRange then 255 else 235) ==> p.r == 255
  {
    LumaMonotone(m, y, y');
  }

  /**
   In every mode neutral chroma gives grey, no darker for a lighter sample; the range's ends
   become black and white.
   */
  lemma GreyStaysGrey(m: Mode, y: byte, y': byte)
    requires y <= y'
    ensures GreyUpTo(Decode(m, Yuv(y, 128, 128)), Decode(m, Yuv(y', 128, 128)))
    ensures y <= (if m.fullRange then 0 else 16) ==> Decode(m, Yuv(y, 128, 128)).r == 0
    ensures y >= (if m.fullRange then 255 else 235) ==> Decode(m, Yuv(y, 128, 128)).r == 255
  {
    NeutralIsGrey(m, y);
    NeutralIsGrey(m, y');
    GreysInOrder(m, y, y', Decode(m, Yuv(y, 128, 128)), Decode(m, Yuv(y', 128, 128)));
  }

  /** A sample that every two different modes decode differently. */
  const TELLTALE := Yuv(128, 128, 255)

  /** How each mode decodes it. */
  function Told(m: Mode): Bgra {
    if m.fullRange then Bgra(128, if m.bt709 then 69 else 37, 255, 255)
    else Bgra(130, if m.bt709 then 63 else 27, 255, 255)
  }

  lemma TelltaleLevels(m: Mode)
    ensures Luma(m, 128) == (if m.fullRange then 128 else 130) && Chroma(m, 128) == 0
    ensures Chroma(m, 255) == if m.fullRange then 127 else 144
  {
  }

  lemma Telltale709(y: byte, v: int)
    requires (y, v) == (128, 127) || (y, v) == (130, 144)
    ensures Matrix709(y, 0, v) == Bgra(y, if y == 128 then 69 else 63, 255, 255)
  {
    if y == 128 { assert GreenChannel(128, 468 * 127) == 69; } else { assert GreenChannel(130, 468 * 144) == 63; }
    NothingAdded(y);
  }

  lemma Telltale601(y: byte, v: int)
    requires (y, v) == (128, 127) || (y, v) == (130, 144)
    ensures Matrix601(y, 0, v) == Bgra(y, if y == 128 then 37 else 27, 255, 255)
  {
    if y == 128 { assert GreenChannel(128, 714 * 127) == 37; } else { assert GreenChannel(130, 714 * 144) == 27; }
    NothingAdded(y);
  }

  lemma TelltaleIs(m: Mode)
    ensures Decode(m, TELLTALE) == Told(m)
  {
    TelltaleLevels(m);
    if m.bt709 { Telltale709(Luma(m, 128), Chroma(m, 255)); } else { Telltale601(Luma(m, 128), Chroma(m, 255)); }
  }

  lemma ToldApart(m: Mode, m': Mode, p: Bgra, p': Bgra)
    requires m != m' && p == Told(m) && p' == Told(m')
    ensures p != p'
  {
  }

  lemma ModesTellApart(m: Mode, m': Mode)
    requires m != m'
    ensures Decode(m, TELLTALE) != Decode(m', TELLTALE)
  {
    TelltaleIs(m);
    TelltaleIs(m');
    ToldApart(m, m', Decode(m, TELLTALE), Decode(m', TELLTALE));
  }

  /**
   Only the UYVY decoder takes colour information. It decodes every sample as the 4:2:0 decoders
   do exactly when that information is not full range and names the matrix they would choose.
   */
  lemma ExplicitInfoAgreesWithAuto(info: ColorSpaceInfo, height: int)
    ensures (forall p :: Decode(ModeFor(info, height), p) == Decode(ModeFor(AUTO_INFO, height), p)) <==>
            info.range != Full && (info.space == AutoSpace || (info.space == BT709 <==> height >= 720))
  {
    var m, auto := ModeFor(info, height), ModeFor(AUTO_INFO, height);
    if m != auto { ModesTellApart(m, auto); }
  }

  method ConvertUyvyToBgra(src: array?<byte>, dst: array?<byte>, width: int, height: int, srcStride: nat,
                           info: ColorSpaceInfo)
    returns (ok: bool)
    requires src != null && dst != null && width > 0 && height > 0 ==>
               && src != dst && width % 2 == 0
               && Holds(Plane(src[..], 0, srcStride), height, 2 * width)
               && CanvasFits(Packed(width, height), dst.Length)
    modifies dst
    ensures ok <==> src != null && dst != null && width > 0 && height > 0
    ensures !ok && dst != null ==> dst[..] == old(dst[..])
    ensures ok ==> Painted(dst[..], Packed(width, height),
                           ColouredPicture(UyvyPicture(Plane(src[..], 0, srcStride), width, height),
                                           Decoder(ModeFor(info, height))), height)
    ensures ok ==> OnlyRows(old(dst[..]), dst[..], Packed(width, height), height)
  {
    if src == null || dst == null || width <= 0 || height <= 0 { return false; }
    var decode := Decoder(ModeFor(info, height));
    ghost var k, p := Packed(width, height), Plane(src[..], 0, srcStride);
    ghost var picture := ColouredPicture(UyvyPicture(p, width, height), decode);
    var y := 0;
    while y < height
      invariant 0 <= y <= height
      invariant Painted(dst[..], k, picture, y) && OnlyRows(old(dst[..]), dst[..], k, y)
    {
      assert RowFits(p, y, 2 * width) && CanvasRow(k, y) == Times(y, 4 * width);
      ghost var before := dst[..];
      var from := Product(y, srcStride);
      var to := Product(y, 4 * width);
      UyvyRow(src, from, dst, to, width, decode);
      PaintNext(old(dst[..]), before, dst[..], k, picture, y);
      y := y + 1;
    }
    return true;
  }

  method ConvertNv12ToBgra(srcY: array?<byte>, srcUV: array?<byte>, dst: array?<byte>, width: int, height: int,
                           strideY: nat, strideUV: nat)
    returns (ok: bool)
    requires srcY != null && srcUV != null && dst != null && width > 0 && height > 0 ==>
               && srcY != dst && srcUV != dst
               && Nv12Holds(Plane(srcY[..], 0, strideY), Plane(srcUV[..], 0, strideUV), width, height)
               && CanvasFits(Packed(width, height), dst.Length)
    modifies dst
    ensures ok <==> srcY != null && srcUV != null && dst != null && width > 0 && height > 0
    ensures !ok && dst != null ==> dst[..] == old(dst[..])
    ensures ok ==> Painted(dst[..], Packed(width, height),
                           ColouredPicture(Nv12Picture(Plane(srcY[..], 0, strideY), Plane(srcUV[..], 0, strideUV),
                                                       width, height),
                                           Decoder(ModeFor(AUTO_INFO, height))), height)
    ensures ok ==> OnlyRows(old(dst[..]), dst[..], Packed(width, height), height)
  {
    if srcY == null || srcUV == null || dst == null || width <= 0 || height <= 0 { return false; }
    var decode := Decoder(ModeFor(AUTO_INFO, height));
    ghost var k, luma, chroma := Packed(width, height), Plane(srcY[..], 0, strideY), Plane(srcUV[..], 0, strideUV);
    ghost var picture := ColouredPicture(Nv12Picture(luma, chroma, width, height), decode);
    var y := 0;
    while y < height
      invariant 0 <= y <= height
      invariant Painted(dst[..], k, picture, y) && OnlyRows(old(dst[..]), dst[..], k, y)
    {
      assert RowFits(luma, y, width) && RowFits(chroma, y / 2, 2 * ((width + 1) / 2));
      assert CanvasRow(k, y) == Times(y, 4 * width);
      ghost var before := dst[..];
      var yFrom := Product(y, strideY);
      var uvFrom := Product(y / 2, strideUV);
      var to := Product(y, 4 * width);
      Nv12Row(srcY, yFrom, srcUV, uvFrom, dst, to, width, decode);
      PaintNext(old(dst[..]), before, dst[..], k, picture, y);
      y := y + 1;
    }
    return true;
  }

  method ConvertYuv420ToBgra(srcY: array?<byte>, srcU: array?<byte>, srcV: array?<byte>, dst: array?<byte>,
                             width: int, height: int, strideY: nat, strideU: nat, strideV: nat)
    returns (ok: bool)
    requires srcY != null && srcU != null && srcV != null && dst != null && width > 0 && height > 0 ==>
               && srcY != dst && srcU != dst && srcV != dst
               && Yuv420Holds(Plane(srcY[..], 0, strideY), Plane(srcU[..], 0, strideU), Plane(srcV[..], 0, strideV),
                              width, height)
               && CanvasFits(Packed(width, height), dst.Length)
    modifies dst
    ensures ok <==> srcY != null && srcU != null && srcV != null && dst != null && width > 0 && height > 0
    ensures !ok && dst != null ==> dst[..] == old(dst[..])
    ensures ok ==> Painted(dst[..], Packed(width, height),
                           ColouredPicture(Yuv420Picture(Plane(srcY[..], 0, strideY), Plane(srcU[..], 0, strideU),
                                                         Plane(srcV[..], 0, strideV), width, height),
                                           Decoder(ModeFor(AUTO_INFO, height))), height)
    ensures ok ==> OnlyRows(old(dst[..]), dst[..], Packed(width, height), height)
  {
    if srcY == null || srcU == null || srcV == null || dst == null || width <= 0 || height <= 0 { return false; }
    var decode := Decoder(ModeFor(AUTO_INFO, height));
    ghost var k, luma := Packed(width, height), Plane(srcY[..], 0, strideY);
    ghost var us, vs := Plane(srcU[..], 0, strideU), Plane(srcV[..], 0, strideV);
    ghost var picture := ColouredPicture(Yuv420Picture(luma, us, vs, width, height), decode);
    var y := 0;
    while y < height
      invariant 0 <= y <= height
      invariant Painted(dst[..], k, picture, y) && OnlyRows(old(dst[..]), dst[..], k, y)
    {
      assert RowFits(luma, y, width) && RowFits(us, y / 2, (width + 1) / 2) && RowFits(vs, y / 2, (width + 1) / 2);
      assert CanvasRow(k, y) == Times(y, 4 * width);
      ghost var before := dst[..];
      var yFrom := Product(y, strideY);
      var uFrom := Product(y / 2, strideU);
      var vFrom := Product(y / 2, strideV);
      var to := Product(y, 4 * width);
      Yuv420Row(srcY, yFrom, srcU, uFrom, srcV, vFrom, dst, to, width, decode);
      PaintNext(old(dst[..]), before, dst[..], k, picture, y);
      y := y + 1;
    }
    return true;
  }

  // ---------------------------------------------------------------- one picture, three storages

  /** A 4:2:0 picture: a luma sample per pixel, a chroma pair per two by two pixels. */
  datatype Picture420 = Picture420(w: nat, h: nat,
                                   luma: (nat, nat) -> byte, u: (nat, nat) -> byte, v: (nat, nat) -> byte)
  {
    function Sample(row: nat, col: nat): Yuv {
      Yuv(luma(row, col), u(row / 2, col / 2), v(row / 2, col / 2))
    }

    function Samples(): (lines: seq<seq<Yuv>>)
      ensures |lines| == h
      ensures forall r :: 0 <= r < h ==>
                |lines[r]| == w && forall c :: 0 <= c < w ==> lines[r][c] == Sample(r, c)
    {
      seq(h, r requires 0 <= r < h => seq(w, c requires 0 <= c < w => Sample(r, c)))
    }
  }

  ghost predicate SampleAt(sample: (nat, nat) -> byte, p: Plane, r: nat, i: nat) {
    RowStart(p, r) + i < |p.bytes| && p.bytes[RowStart(p, r) + i] == sample(r, i)
  }

  ghost predicate StoredPlane(sample: (nat, nat) -> byte, p: Plane, rows: nat, cols: nat) {
    Holds(p, rows, cols) && forall r, i :: 0 <= r < rows && 0 <= i < cols ==> SampleAt(sample, p, r, i)
  }

  ghost predicate ChromaPairAt(pic: Picture420, p: Plane, r: nat, i: nat) {
    var at := RowStart(p, r) + 2 * i;
    at + 1 < |p.bytes| && p.bytes[at] == pic.u(r, i) && p.bytes[at + 1] == pic.v(r, i)
  }

  ghost predicate StoredAsNv12(pic: Picture420, luma: Plane, chroma: Plane) {
    && StoredPlane(pic.luma, luma, pic.h, pic.w)
    && Holds(chroma, (pic.h + 1) / 2, 2 * ((pic.w + 1) / 2))
    && forall r, i :: 0 <= r < (pic.h + 1) / 2 && 0 <= i < (pic.w + 1) / 2 ==> ChromaPairAt(pic, chroma, r, i)
  }

  ghost predicate StoredAsYuv420(pic: Picture420, luma: Plane, u: Plane, v: Plane) {
    && StoredPlane(pic.luma, luma, pic.h, pic.w)
    && StoredPlane(pic.u, u, (pic.h + 1) / 2, (pic.w + 1) / 2)
    && StoredPlane(pic.v, v, (pic.h + 1) / 2, (pic.w + 1) / 2)
  }

  ghost predicate QuadAt(pic: Picture420, p: Plane, r: nat, i: nat) {
    var at := RowStart(p, r) + 4 * i;
    && at + 4 <= |p.bytes|
    && p.bytes[at] == pic.u(r / 2, i) && p.bytes[at + 1] == pic.luma(r, 2 * i)
    && p.bytes[at + 2] == pic.v(r / 2, i) && p.bytes[at + 3] == pic.luma(r, 2 * i + 1)
  }

  /** Expanded to UYVY: every chroma line is written out for both luma lines that share it. */
  ghost predicate StoredAsUyvy(pic: Picture420, p: Plane) {
    && pic.w % 2 == 0 && Holds(p, pic.h, 2 * pic.w)
    && forall r, i :: 0 <= r < pic.h && 0 <= i < pic.w / 2 ==> QuadAt(pic, p, r, i)
  }

  lemma Nv12ShowsPicture(pic: Picture420, luma: Plane, chroma: Plane)
    requires StoredAsNv12(pic, luma, chroma)
    ensures Nv12Picture(luma, chroma, pic.w, pic.h) == pic.Samples()
  {
    var shown, meant := Nv12Picture(luma, chroma, pic.w, pic.h), pic.Samples();
    forall r | 0 <= r < pic.h ensures shown[r] == meant[r] {
      forall c | 0 <= c < pic.w ensures shown[r][c] == meant[r][c] {
        assert SampleAt(pic.luma, luma, r, c);
        assert ChromaPairAt(pic, chroma, r / 2, c / 2);
      }
    }
  }

  lemma Yuv420ShowsPicture(pic: Picture420, luma: Plane, u: Plane, v: Plane)
    requires StoredAsYuv420(pic, luma, u, v)
    ensures Yuv420Picture(luma, u, v, pic.w, pic.h) == pic.Samples()
  {
    var shown, meant := Yuv420Picture(luma, u, v, pic.w, pic.h), pic.Samples();
    forall r | 0 <= r < pic.h ensures shown[r] == meant[r] {
      forall c | 0 <= c < pic.w ensures shown[r][c] == meant[r][c] {
        assert SampleAt(pic.luma, luma, r, c);
        assert SampleAt(pic.u, u, r / 2, c / 2) && SampleAt(pic.v, v, r / 2, c / 2);
      }
    }
  }

  lemma UyvyShowsPicture(pic: Picture420, p: Plane)
    requires StoredAsUyvy(pic, p)
    ensures UyvyPicture(p, pic.w, pic.h) == pic.Samples()
  {
    var shown, meant := UyvyPicture(p, pic.w, pic.h), pic.Samples();
    forall r | 0 <= r < pic.h ensures shown[r] == meant[r] {
      forall c | 0 <= c < pic.w ensures shown[r][c] == meant[r][c] {
        assert QuadAt(pic, p, r, c / 2);
        assert c == 2 * (c / 2) || c == 2 * (c / 2) + 1;
      }
    }
  }

  /**
   The same picture stored three ways, whatever the strides and whatever lies between the lines,
   comes out of the three decoders as the same bytes.
   */
  method DecodersAgree(ghost pic: Picture420, w: nat, h: nat,
                       packed: array<byte>, packedStride: nat,
                       luma: array<byte>, strideY: nat, chroma: array<byte>, strideUV: nat,
                       planeY: array<byte>, strideY': nat, us: array<byte>, strideU: nat, vs: array<byte>, strideV: nat,
                       a: array<byte>, b: array<byte>, c: array<byte>)
    requires (pic.w, pic.h) == (w, h) && w > 0 && h > 0
    requires StoredAsUyvy(pic, Plane(packed[..], 0, packedStride))
    requires StoredAsNv12(pic, Plane(luma[..], 0, strideY), Plane(chroma[..], 0, strideUV))
    requires StoredAsYuv420(pic, Plane(planeY[..], 0, strideY'), Plane(us[..], 0, strideU), Plane(vs[..], 0, strideV))
    requires a != b && b != c && a != c && {a, b, c} !! {packed, luma, chroma, planeY, us, vs}
    requires CanvasFits(Packed(w, h), a.Length) && a[..] == b[..] == c[..]
    modifies a, b, c
    ensures a[..] == b[..] == c[..]
    ensures Painted(a[..], Packed(w, h), ColouredPicture(pic.Samples(), Decoder(ModeFor(AUTO_INFO, h))), h)
  {
    ghost var first, k := a[..], Packed(w, h);
    ghost var picture := ColouredPicture(pic.Samples(), Decoder(ModeFor(AUTO_INFO, h)));
    UyvyShowsPicture(pic, Plane(packed[..], 0, packedStride));
    Nv12ShowsPicture(pic, Plane(luma[..], 0, strideY), Plane(chroma[..], 0, strideUV));
    Yuv420ShowsPicture(pic, Plane(planeY[..], 0, strideY'), Plane(us[..], 0, strideU), Plane(vs[..], 0, strideV));
    var ok := ConvertUyvyToBgra(packed, a, w, h, packedStride, AUTO_INFO);
    ok := ConvertNv12ToBgra(luma, chroma, b, w, h, strideY, strideUV);
    ok := ConvertYuv420ToBgra(planeY, us, vs, c, w, h, strideY', strideU, strideV);
    PaintedDetermines(first, a[..], b[..], k, picture);
    PaintedDetermines(first, a[..], c[..], k, picture);
  }
}
