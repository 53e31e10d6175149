/**
 The decoders measured against the standards: a colour that was encoded by BT.601 or BT.709 and is
 then decoded comes back, up to a few levels of rounding in each channel.
 */
module ColourAccuracy {
  import opened Common
  import opened PixelLayouts
  import opened LineConversion
  import opened ColourStandard
  import opened BasicFormatConverter
  import Capture = V4L2FormatConverter
  import Display = DisplayScaling

  // ---------------------------------------------------------------- limited range

  /** A whole level stands for a luma. */
  predicate LumaStands(level: int, y: real) { 0.0 <= y <= 255.0 && -1.578 < level as real - y < 0.583 }

  /** A whole level stands for a difference, up to rounding toward zero. */
  predicate Stands(level: int, x: real) {
    && -127.5 <= x <= 127.5
    && if level >= 0 then -1.565 < level as real - x < 0.57 else -0.57 < level as real - x < 1.565
  }

  lemma LimitedLuma(bt709: bool, level: byte, y: real)
    requires 0.0 <= y <= 255.0 && Nearest(level - 16, y * 219.0 / 255.0)
    ensures LumaStands(Luma(Mode(bt709, false), level), y)
  {
    var q := TruncDiv((level - 16) * 255, 219);
    assert 255 * (level - 16) - 218 <= 219 * q <= 255 * (level - 16);
  }

  lemma LimitedChroma(bt709: bool, level: byte, x: real)
    requires -127.5 <= x <= 127.5 && Nearest(level - 128, x * 224.0 / 255.0)
    ensures Stands(Chroma(Mode(bt709, false), level), x)
  {
    var q := TruncDiv((level - 128) * 255, 224);
    if level >= 128 {
      assert 255 * (level - 128) - 223 <= 224 * q <= 255 * (level - 128);
    } else {
      assert 255 * (level - 128) <= 224 * q <= 255 * (level - 128) + 223;
      assert q < 0;
    }
  }

  lemma Blue601(l: byte, u: int, y: real, x: real, b: byte)
    requires LumaStands(l, y) && Stands(u, x) && b as real == y + 1.772 * x
    ensures b - 4 <= Channel(l, 1772 * u) <= b + 4
  {
  }

  lemma Red601(l: byte, v: int, y: real, z: real, r: byte)
    requires LumaStands(l, y) && Stands(v, z) && r as real == y + 1.402 * z
    ensures r - 4 <= Channel(l, 1402 * v) <= r + 4
  {
  }

  lemma Green601(l: byte, u: int, v: int, y: real, x: real, z: real, g: byte)
    requires LumaStands(l, y) && Stands(u, x) && Stands(v, z)
    requires 0.587 * g as real == 0.587 * y - 0.202008 * x - 0.419198 * z
    ensures g - 4 <= GreenChannel(l, 344 * u + 714 * v) <= g + 4
  {
  }

  lemma Channels601(l: byte, u: int, v: int, y: real, x: real, z: real, c: Rgb)
    requires LumaStands(l, y) && Stands(u, x) && Stands(v, z)
    requires c.b as real == y + 1.772 * x && c.r as real == y + 1.402 * z
    requires 0.587 * c.g as real == 0.587 * y - 0.202008 * x - 0.419198 * z
    ensures Within(4, c, Matrix601(l, u, v))
  {
    Blue601(l, u, y, x, c.b);
    Red601(l, v, y, z, c.r);
    Green601(l, u, v, y, x, z, c.g);
  }

  lemma Limited601(c: Rgb, p: Yuv)
    requires Encodes(REC601, false, c, p)
    ensures Within(4, c, Decode(Mode(false, false), p))
  {
    var m := Mode(false, false);
    var y, x, z := ExactLuma(REC601, c), BlueDifference(REC601, c), RedDifference(REC601, c);
    Rec601(c);
    LimitedLuma(m.bt709, p.y, y);
    LimitedChroma(m.bt709, p.u, x);
    LimitedChroma(m.bt709, p.v, z);
    Channels601(Luma(m, p.y), Chroma(m, p.u), Chroma(m, p.v), y, x, z, c);
  }

  lemma Blue709(l: byte, u: int, y: real, x: real, b: byte)
    requires LumaStands(l, y) && Stands(u, x) && b as real == y + 1.8556 * x
    ensures b - 4 <= Channel(l, 1856 * u) <= b + 4
  {
  }

  lemma Red709(l: byte, v: int, y: real, z: real, r: byte)
    requires LumaStands(l, y) && Stands(v, z) && r as real == y + 1.5748 * z
    ensures r - 4 <= Channel(l, 1575 * v) <= r + 4
  {
  }

  lemma Green709(l: byte, u: int, v: int, y: real, x: real, z: real, g: byte)
    requires LumaStands(l, y) && Stands(u, x) && Stands(v, z)
    requires 0.7152 * g as real == 0.7152 * y - 0.13397432 * x - 0.33480248 * z
    ensures g - 4 <= GreenChannel(l, 187 * u + 468 * v) <= g + 4
  {
  }

  lemma Channels709(l: byte, u: int, v: int, y: real, x: real, z: real, c: Rgb)
    requires LumaStands(l, y) && Stands(u, x) && Stands(v, z)
    requires c.b as real == y + 1.8556 * x && c.r as real == y + 1.5748 * z
    requires 0.7152 * c.g as real == 0.7152 * y - 0.13397432 * x - 0.33480248 * z
    ensures Within(4, c, Matrix709(l, u, v))
  {
    Blue709(l, u, y, x, c.b);
    Red709(l, v, y, z, c.r);
    Green709(l, u, v, y, x, z, c.g);
  }

  lemma Limited709(c: Rgb, p: Yuv)
    requires Encodes(REC709, false, c, p)
    ensures Within(4, c, Decode(Mode(true, false), p))
  {
    var m := Mode(true, false);
    var y, x, z := ExactLuma(REC709, c), BlueDifference(REC709, c), RedDifference(REC709, c);
    Rec709(c);
    LimitedLuma(m.bt709, p.y, y);
    LimitedChroma(m.bt709, p.u, x);
    LimitedChroma(m.bt709, p.v, z);
    Channels709(Luma(m, p.y), Chroma(m, p.u), Chroma(m, p.v), y, x, z, c);
  }

  // ---------------------------------------------------------------- full range

  lemma FullLevels(bt709: bool, p: Yuv)
    ensures var m := Mode(bt709, true);
            Luma(m, p.y) == p.y && Chroma(m, p.u) == p.u - 128 && Chroma(m, p.v) == p.v - 128
  {
  }

  predicate FullStands(level: int, x: real) { -127.5 <= x <= 127.5 && Nearest(level, x) }

  lemma FullBlue601(l: byte, u: int, y: real, x: real, b: byte)
    requires Nearest(l, y) && FullStands(u, x) && b as real == y + 1.772 * x
    ensures b - 2 <= Channel(l, 1772 * u) <= b + 2
  {
  }

  lemma FullRed601(l: byte, v: int, y: real, z: real, r: byte)
    requires Nearest(l, y) && FullStands(v, z) && r as real == y + 1.402 * z
    ensures r - 2 <= Channel(l, 1402 * v) <= r + 2
  {
  }

  lemma FullGreen601(l: byte, u: int, v: int, y: real, x: real, z: real, g: byte)
    requires Nearest(l, y) && FullStands(u, x) && FullStands(v, z)
    requires 0.587 * g as real == 0.587 * y - 0.202008 * x - 0.419198 * z
    ensures g - 2 <= GreenChannel(l, 344 * u + 714 * v) <= g + 2
  {
  }

  lemma FullChannels601(l: byte, u: int, v: int, y: real, x: real, z: real, c: Rgb)
    requires Nearest(l, y) && FullStands(u, x) && FullStands(v, z)
    requires c.b as real == y + 1.772 * x && c.r as real == y + 1.402 * z
    requires 0.587 * c.g as real == 0.587 * y - 0.202008 * x - 0.419198 * z
    ensures Within(2, c, Matrix601(l, u, v))
  {
    FullBlue601(l, u, y, x, c.b);
    FullRed601(l, v, y, z, c.r);
    FullGreen601(l, u, v, y, x, z, c.g);
  }

  lemma Full601(c: Rgb, p: Yuv)
    requires Encodes(REC601, true, c, p)
    ensures Within(2, c, Decode(Mode(false, true), p))
  {
    var m := Mode(false, true);
    Rec601(c);
    FullLevels(false, p);
    FullChannels601(Luma(m, p.y), Chroma(m, p.u), Chroma(m, p.v),
                    ExactLuma(REC601, c), BlueDifference(REC601, c), RedDifference(REC601, c), c);
  }

  lemma FullBlue709(l: byte, u: int, y: real, x: real, b: byte)
    requires Nearest(l, y) && FullStands(u, x) && b as real == y + 1.8556 * x
    ensures b - 2 <= Channel(l, 1856 * u) <= b + 2
  {
  }

  lemma FullRed709(l: byte, v: int, y: real, z: real, r: byte)
    requires Nearest(l, y) && FullStands(v, z) && r as real == y + 1.5748 * z
    ensures r - 2 <= Channel(l, 1575 * v) <= r + 2
  {
  }

  lemma FullGreen709(l: byte, u: int, v: int, y: real, x: real, z: real, g: byte)
    requires Nearest(l, y) && FullStands(u, x) && FullStands(v, z)
    requires 0.7152 * g as real == 0.7152 * y - 0.13397432 * x - 0.33480248 * z
    ensures g - 2 <= GreenChannel(l, 187 * u + 468 * v) <= g + 2
  {
  }

  lemma FullChannels709(l: byte, u: int, v: int, y: real, x: real, z: real, c: Rgb)
    requires Nearest(l, y) && FullStands(u, x) && FullStands(v, z)
    requires c.b as real == y + 1.8556 * x && c.r as real == y + 1.5748 * z
    requires 0.7152 * c.g as real == 0.7152 * y - 0.13397432 * x - 0.33480248 * z
    ensures Within(2, c, Matrix709(l, u, v))
  {
    FullBlue709(l, u, y, x, c.b);
    FullRed709(l, v, y, z, c.r);
    FullGreen709(l, u, v, y, x, z, c.g);
  }

  lemma Full709(c: Rgb, p: Yuv)
    requires Encodes(REC709, true, c, p)
    ensures Within(2, c, Decode(Mode(true, true), p))
  {
    var m := Mode(true, true);
    Rec709(c);
    FullLevels(true, p);
    FullChannels709(Luma(m, p.y), Chroma(m, p.u), Chroma(m, p.v),
                    ExactLuma(REC709, c), BlueDifference(REC709, c), RedDifference(REC709, c), c);
  }

  // ---------------------------------------------------------------- the choice of the standard

  /** The standard that a caller means: the one it names, or else BT.709 from 720 lines on. */
  function Meant(info: ColorSpaceInfo, height: int): Weights {
    match info.space
    case BT601 => REC601
    case BT709 => REC709
    case AutoSpace => if height < 720 then REC601 else REC709
  }

  /** Two levels off at most in the full range, four in the limited one. */
  function Levels(info: ColorSpaceInfo): nat { if info.range == Full then 2 else 4 }

  /** Whatever the caller names, and by height otherwise, every colour encoded so comes back. */
  lemma ColoursComeBack(info: ColorSpaceInfo, height: int, c: Rgb, p: Yuv)
    requires Encodes(Meant(info, height), info.range == Full, c, p)
    ensures Within(Levels(info), c, Decode(ModeFor(info, height), p))
  {
    if Meant(info, height) == REC601 {
      if info.range == Full { Full601(c, p); } else { Limited601(c, p); }
    } else {
      if info.range == Full { Full709(c, p); } else { Limited709(c, p); }
    }
  }

  // ---------------------------------------------------------------- the matrix of capture and display

  /** Studio levels as the fixed-point matrix takes them. */
  predicate StudioStands(level: int, x: real) { -127.5 <= x <= 127.5 && Nearest(level, x * 224.0 / 255.0) }

  /** A studio sample and the exact luma and differences it stands for. */
  predicate StudioSample(p: Yuv, y: real, x: real, z: real) {
    && 0.0 <= y <= 255.0 && Nearest(p.y - 16, y * 219.0 / 255.0)
    && StudioStands(p.u - 128, x) && StudioStands(p.v - 128, z)
  }

  lemma CaptureBlue(p: Yuv, y: real, x: real, z: real, b: byte)
    requires StudioSample(p, y, x, z) && b as real == y + 1.772 * x
    ensures b - 2 <= Capture.YuvToRgb(p).b <= b + 2
  {
  }

  lemma CaptureRed(p: Yuv, y: real, x: real, z: real, r: byte)
    requires StudioSample(p, y, x, z) && r as real == y + 1.402 * z
    ensures r - 2 <= Capture.YuvToRgb(p).r <= r + 2
  {
  }

  lemma CaptureGreen(p: Yuv, y: real, x: real, z: real, g: byte)
    requires StudioSample(p, y, x, z) && 0.587 * g as real == 0.587 * y - 0.202008 * x - 0.419198 * z
    ensures g - 2 <= Capture.YuvToRgb(p).g <= g + 2
  {
  }

  lemma CaptureChannels(p: Yuv, y: real, x: real, z: real, c: Rgb)
    requires StudioSample(p, y, x, z) && c.b as real == y + 1.772 * x && c.r as real == y + 1.402 * z
    requires 0.587 * c.g as real == 0.587 * y - 0.202008 * x - 0.419198 * z
    ensures Within(2, c, Capture.YuvToRgb(p))
  {
    CaptureBlue(p, y, x, z, c.b);
    CaptureRed(p, y, x, z, c.r);
    CaptureGreen(p, y, x, z, c.g);
  }

  /** The capture converter and the display blit decode limited-range BT.601. */
  lemma CaptureColoursComeBack(c: Rgb, p: Yuv)
    requires Encodes(REC601, false, c, p)
    ensures Within(2, c, Capture.YuvToRgb(p)) && Within(2, c, Display.DisplayRgb(p))
  {
    Rec601(c);
    CaptureChannels(p, ExactLuma(REC601, c), BlueDifference(REC601, c), RedDifference(REC601, c), c);
    Display.SameMatrix(p);
  }

  // ---------------------------------------------------------------- whole frames

  /** Every sample of the picture encodes the colour in its place. */
  ghost predicate Shows(picture: seq<seq<Yuv>>, colours: seq<seq<Rgb>>, k: Weights, full: bool)
    requires k.b < 1.0 && k.r < 1.0
  {
    && |picture| == |colours|
    && (forall row :: 0 <= row < |picture| ==> |picture[row]| == |colours[row]|)
    && forall row, col :: 0 <= row < |picture| && 0 <= col < |picture[row]| ==>
         Encodes(k, full, colours[row][col], picture[row][col])
  }

  /** Every pixel of the picture is at most n levels off the colour in its place. */
  ghost predicate Near(pixels: seq<seq<Bgra>>, colours: seq<seq<Rgb>>, n: nat) {
    && |pixels| == |colours|
    && (forall row :: 0 <= row < |pixels| ==> |pixels[row]| == |colours[row]|)
    && forall row, col :: 0 <= row < |pixels| && 0 <= col < |pixels[row]| ==>
         Within(n, colours[row][col], pixels[row][col])
  }

  /** A frame of encoded colours, decoded by the generic converter. */
  lemma FrameComesBack(picture: seq<seq<Yuv>>, colours: seq<seq<Rgb>>, info: ColorSpaceInfo, height: int)
    requires Shows(picture, colours, Meant(info, height), info.range == Full)
    ensures Near(ColouredPicture(picture, Decoder(ModeFor(info, height))), colours, Levels(info))
  {
    var pixels := ColouredPicture(picture, Decoder(ModeFor(info, height)));
    forall row, col | 0 <= row < |picture| && 0 <= col < |picture[row]|
      ensures Within(Levels(info), colours[row][col], pixels[row][col])
    {
      assert Encodes(Meant(info, height), info.range == Full, colours[row][col], picture[row][col]);
      ColoursComeBack(info, height, colours[row][col], picture[row][col]);
    }
  }

  /** A UYVY frame of limited BT.601 colours, its lines inside the stride, appears with those colours. */
  lemma DisplayColoursComeBack(s: seq<byte>, stride: nat, srcW: nat, srcH: nat, colours: seq<seq<Rgb>>,
                               k: Canvas, before: seq<byte>, row: nat, col: nat)
    requires srcW > 0 && srcH > 0 && srcW % 2 == 0 && 2 * srcW <= stride && Holds(Plane(s, 0, stride), srcH, 2 * srcW)
    requires Shows(UyvyPicture(Plane(s, 0, stride), srcW, srcH), colours, REC601, false)
    requires CanvasFits(k, |before|) && row < k.h && col < k.w
    ensures Display.Readable(Display.UYVY, |s|, stride, srcW, srcH)
    ensures Within(2, colours[Display.SourceIndex(row, srcH, k.h)][Display.SourceIndex(col, srcW, k.w)],
                   Display.BlitPicture(Display.UYVY, s, stride, srcW, srcH, k, before)[row][col])
  {
    var y, x := Display.SourceIndex(row, srcH, k.h), Display.SourceIndex(col, srcW, k.w);
    var p := Plane(s, 0, stride);
    Display.LinesReadable(s, stride, srcW, srcH);
    assert RowFits(p, y, 2 * srcW);
    var sample := UyvyPicture(p, srcW, srcH)[y][x];
    assert Encodes(REC601, false, colours[y][x], sample);
    CaptureColoursComeBack(colours[y][x], sample);
    Display.UnscaledTexel(s, RowStart(p, y), stride, srcW, x);
  }

  /** The four bytes of a stored pixel. */
  ghost predicate StoredNear(dst: seq<byte>, at: nat, c: Rgb, n: nat) {
    at + 4 <= |dst| && Within(n, c, Bgra(dst[at], dst[at + 1], dst[at + 2], dst[at + 3]))
  }

  /** A UYVY frame of encoded colours, decoded, has those colours in its bytes. */
  method EncodedUyvyComesBack(src: array<byte>, dst: array<byte>, width: nat, height: nat, stride: nat,
                              info: ColorSpaceInfo, ghost colours: seq<seq<Rgb>>)
    requires width > 0 && height > 0 && src != dst && width % 2 == 0
    requires Holds(Plane(src[..], 0, stride), height, 2 * width) && CanvasFits(Packed(width, height), dst.Length)
    requires Shows(UyvyPicture(Plane(src[..], 0, stride), width, height), colours,
                   Meant(info, height), info.range == Full)
    modifies dst
    ensures forall row, col :: 0 <= row < height && 0 <= col < width ==>
              StoredNear(dst[..], CanvasRow(Packed(width, height), row) + 4 * col, colours[row][col], Levels(info))
  {
    ghost var picture := UyvyPicture(Plane(src[..], 0, stride), width, height);
    ghost var pixels := ColouredPicture(picture, Decoder(ModeFor(info, height)));
    FrameComesBack(picture, colours, info, height);
    var ok := ConvertUyvyToBgra(src, dst, width, height, stride, info);
    forall row, col | 0 <= row < height && 0 <= col < width
      ensures StoredNear(dst[..], CanvasRow(Packed(width, height), row) + 4 * col, colours[row][col], Levels(info))
    {
      assert PixelLine(dst[..], CanvasRow(Packed(width, height), row), width)[col] == pixels[row][col];
    }
  }
}
