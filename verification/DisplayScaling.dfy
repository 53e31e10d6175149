/**
 Software scaling on the display side: the letterbox window, the nearest-neighbour index map,
 and the blit that writes the window into a framebuffer whose lines are `pitch` bytes apart.
 Aspect ratios are compared and applied as exact fractions.
 */
module DisplayScaling {
  import opened Common
  import opened LineConversion
  import opened PixelLayouts
  import Capture = V4L2FormatConverter

  // ---------------------------------------------------------------- the window

  datatype Window = Window(x: nat, y: nat, w: nat, h: nat)

  function Letterbox(srcW: nat, srcH: nat, dispW: nat, dispH: nat): Window
    requires srcW > 0 && srcH > 0 && dispW > 0 && dispH > 0
  {
    if srcW * dispH > dispW * srcH then
      var h := dispW * srcH / srcW;
      WideFits(srcW, srcH, dispW, dispH);
      Window(0, (dispH - h) / 2, dispW, h)
    else
      var w := dispH * srcW / srcH;
      TallFits(srcW, srcH, dispW, dispH);
      Window((dispW - w) / 2, 0, w, dispH)
  }

  lemma DivBounds(a: nat, b: nat)
    requires b > 0
    ensures (a / b) * b <= a < (a / b) * b + b
  {
  }

  lemma ProductStep(a: nat, b: nat, k: nat)
    requires a < b
    ensures a * k + k <= b * k == k * b
  {
    assert a * k + k == (a + 1) * k <= b * k;
  }

  lemma ProductMonotone(a: nat, b: nat, k: nat)
    requires a >= b
    ensures a * k >= b * k
  {
  }

  lemma LessByFactor(a: nat, b: nat, k: nat)
    requires k > 0 && a * k < b * k
    ensures a < b
  {
    if a >= b { ProductMonotone(a, b, k); }
  }

  lemma WideFits(srcW: nat, srcH: nat, dispW: nat, dispH: nat)
    requires srcW > 0 && srcW * dispH > dispW * srcH
    ensures 0 <= dispW * srcH / srcW < dispH
  {
    var h := dispW * srcH / srcW;
    DivBounds(dispW * srcH, srcW);
    assert h * srcW < dispH * srcW;
    LessByFactor(h, dispH, srcW);
  }

  lemma TallFits(srcW: nat, srcH: nat, dispW: nat, dispH: nat)
    requires srcH > 0 && srcW * dispH <= dispW * srcH
    ensures 0 <= dispH * srcW / srcH <= dispW
  {
    var w := dispH * srcW / srcH;
    DivBounds(dispH * srcW, srcH);
    assert w * srcH < (dispW + 1) * srcH;
    LessByFactor(w, dispW + 1, srcH);
  }

  /**
   The window lies inside the display, fills it in one direction, is centred up to one pixel in
   the other, and has the source's aspect ratio as nearly as whole pixels allow from below.
   */
  lemma LetterboxFits(srcW: nat, srcH: nat, dispW: nat, dispH: nat)
    requires srcW > 0 && srcH > 0 && dispW > 0 && dispH > 0
    ensures var k := Letterbox(srcW, srcH, dispW, dispH);
            && k.x + k.w <= dispW && k.y + k.h <= dispH
            && 0 <= dispW - k.w - 2 * k.x <= 1 && 0 <= dispH - k.h - 2 * k.y <= 1
            && ((k.w == dispW && k.h * srcW <= k.w * srcH < (k.h + 1) * srcW) ||
                (k.h == dispH && k.w * srcH <= k.h * srcW < (k.w + 1) * srcH))
  {
    var k := Letterbox(srcW, srcH, dispW, dispH);
    if srcW * dispH > dispW * srcH {
      WideFits(srcW, srcH, dispW, dispH);
      DivBounds(dispW * srcH, srcW);
      assert (k.h + 1) * srcW == k.h * srcW + srcW;
    } else {
      TallFits(srcW, srcH, dispW, dispH);
      DivBounds(dispH * srcW, srcH);
      assert (k.w + 1) * srcH == k.w * srcH + srcH;
    }
  }

  lemma ZeroQuotient(a: nat, b: nat)
    requires b > 0
    ensures a / b == 0 <==> a < b
  {
    DivBounds(a, b);
    if a / b > 0 { assert (a / b) * b >= b; }
  }

  /** Nothing at all is drawn exactly for sources too flat or too narrow to leave one whole pixel. */
  lemma LetterboxEmptyIff(srcW: nat, srcH: nat, dispW: nat, dispH: nat)
    requires srcW > 0 && srcH > 0 && dispW > 0 && dispH > 0
    ensures var k := Letterbox(srcW, srcH, dispW, dispH);
            (k.w == 0 || k.h == 0) <==> (dispW * srcH < srcW || dispH * srcW < srcH)
  {
    assert srcW * dispH >= srcW && dispW * srcH >= srcH;
    if srcW * dispH > dispW * srcH {
      ZeroQuotient(dispW * srcH, srcW);
    } else {
      ZeroQuotient(dispH * srcW, srcH);
    }
  }

  // ---------------------------------------------------------------- the index map

  /** The source line or column shown at position d of `dst`. */
  function SourceIndex(d: nat, src: nat, dst: nat): (s: nat)
    requires dst > 0 && src > 0
    ensures s < src
  {
    var s := d * src / dst;
    if s >= src then src - 1 else s
  }

  method MapIndex(d: nat, src: nat, dst: nat) returns (s: nat)
    requires d < dst && src > 0
    ensures s == SourceIndex(d, src, dst)
  {
    s := d * src / dst;
    if s >= src { s := src - 1; }
  }

  /** Inside the window the bound check never bites. */
  lemma IndexIsQuotient(d: nat, src: nat, dst: nat)
    requires d < dst && src > 0
    ensures SourceIndex(d, src, dst) == d * src / dst
    ensures SourceIndex(d, src, dst) * dst <= d * src < (SourceIndex(d, src, dst) + 1) * dst
  {
    var s := d * src / dst;
    DivBounds(d * src, dst);
    ProductStep(d, dst, src);
    LessByFactor(s, src, dst);
    assert (s + 1) * dst == s * dst + dst;
  }

  lemma IndexMonotone(d: nat, d': nat, src: nat, dst: nat)
    requires d <= d' < dst && src > 0
    ensures SourceIndex(d, src, dst) <= SourceIndex(d', src, dst)
  {
    var s, s' := SourceIndex(d, src, dst), SourceIndex(d', src, dst);
    IndexIsQuotient(d, src, dst);
    IndexIsQuotient(d', src, dst);
    ProductMonotone(d', d, src);
    LessByFactor(s, s' + 1, dst);
  }

  lemma IndexUnscaled(d: nat, n: nat)
    requires d < n
    ensures SourceIndex(d, n, n) == d
  {
    IndexIsQuotient(d, n, n);
    var s := SourceIndex(d, n, n);
    LessByFactor(s, d + 1, n);
    LessByFactor(d, s + 1, n);
  }

  /** Line s of the source appears at some position. */
  ghost predicate Shown(s: nat, src: nat, dst: nat)
    requires src > 0
  {
    exists d :: 0 <= d < dst && SourceIndex(d, src, dst) == s
  }

  ghost predicate CoversAll(src: nat, dst: nat)
    requires src > 0
  {
    forall s :: 0 <= s < src ==> Shown(s, src, dst)
  }

  ghost predicate RepeatsNothing(src: nat, dst: nat)
    requires src > 0
  {
    forall d, d' :: 0 <= d < d' < dst ==> SourceIndex(d, src, dst) < SourceIndex(d', src, dst)
  }

  lemma IndexIs(d: nat, s: nat, src: nat, dst: nat)
    requires d < dst && src > 0 && s * dst <= d * src < s * dst + dst
    ensures SourceIndex(d, src, dst) == s
  {
    IndexIsQuotient(d, src, dst);
    var i := SourceIndex(d, src, dst);
    assert (s + 1) * dst == s * dst + dst;
    LessByFactor(i, s + 1, dst);
    LessByFactor(s, i + 1, dst);
  }

  /** Line s first appears at s * dst / src, rounded up. */
  lemma ShownWhenEnlarged(s: nat, src: nat, dst: nat)
    requires s < src <= dst
    ensures Shown(s, src, dst)
  {
    var a := s * dst;
    var d := (a + src - 1) / src;
    DivBounds(a + src - 1, src);
    ProductStep(s, src, dst);
    LessByFactor(d, dst, src);
    IndexIs(d, s, src, dst);
  }

  /** The last source line is missed when the picture shrinks. */
  lemma LastMissedWhenShrunk(d: nat, src: nat, dst: nat)
    requires d < dst < src
    ensures SourceIndex(d, src, dst) < src - 1
  {
    IndexIsQuotient(d, src, dst);
    var i := SourceIndex(d, src, dst);
    ProductStep(d, dst, src);
    assert (src - 1) * dst == src * dst - dst;
    assert i * dst < (src - 1) * dst;
    LessByFactor(i, src - 1, dst);
  }

  lemma CoversAllIffEnlarging(src: nat, dst: nat)
    requires src > 0 && dst > 0
    ensures CoversAll(src, dst) <==> dst >= src
  {
    if dst >= src {
      forall s | 0 <= s < src ensures Shown(s, src, dst) { ShownWhenEnlarged(s, src, dst); }
    } else {
      forall d | 0 <= d < dst ensures SourceIndex(d, src, dst) != src - 1 { LastMissedWhenShrunk(d, src, dst); }
      assert !Shown(src - 1, src, dst);
    }
  }

  lemma RepeatsNothingIffShrinking(src: nat, dst: nat)
    requires src > 0 && dst > 0
    ensures RepeatsNothing(src, dst) <==> dst <= src
  {
    if dst <= src {
      forall d, d' | 0 <= d < d' < dst ensures SourceIndex(d, src, dst) < SourceIndex(d', src, dst) {
        StepWhenShrunk(d, d', src, dst);
      }
    } else {
      ZeroQuotient(0 * src, dst);
      ZeroQuotient(1 * src, dst);
      assert SourceIndex(0, src, dst) == SourceIndex(1, src, dst);
    }
  }

  lemma StepWhenShrunk(d: nat, d': nat, src: nat, dst: nat)
    requires d < d' < dst <= src
    ensures SourceIndex(d, src, dst) < SourceIndex(d', src, dst)
  {
    var s, s' := SourceIndex(d, src, dst), SourceIndex(d', src, dst);
    IndexIsQuotient(d, src, dst);
    IndexIsQuotient(d', src, dst);
    ProductStep(d, d', src);
    assert (s' + 1) * dst == s' * dst + dst;
    LessByFactor(s, s', dst);
  }

  // ---------------------------------------------------------------- the blit

  datatype PixelFormat = BGRA | RGB24 | UYVY | NV12

  /** The matrix written out in the blit. */
  function DisplayRgb(p: Yuv): Bgra {
    var c, d, e := p.y - 16, p.u - 128, p.v - 128;
    Bgra(Min(255, Max(0, (298 * c + 516 * d + 128) / 256)),
         Min(255, Max(0, (298 * c - 100 * d - 208 * e + 128) / 256)),
         Min(255, Max(0, (298 * c + 409 * e + 128) / 256)),
         0xFF)
  }

  lemma SameMatrix(p: Yuv)
    ensures DisplayRgb(p) == Capture.YuvToRgb(p)
  {
  }

  /** The bytes of a source line that the blit may look at. */
  predicate LineReadable(format: PixelFormat, len: nat, from: nat, stride: nat, srcW: nat) {
    match format
    case BGRA => from + 4 * srcW <= len
    case UYVY => from + Min(stride, 4 * ((srcW + 1) / 2)) <= len
    case _ => true
  }

  ghost predicate Readable(format: PixelFormat, len: nat, stride: nat, srcW: nat, srcH: nat) {
    forall row :: 0 <= row < srcH ==> LineReadable(format, len, Times(row, stride), stride, srcW)
  }

  /**
   What source column `col` looks like on the display; None where nothing is written: a UYVY pair
   reaching past the stride, or a format the blit does not handle.
   */
  function Texel(format: PixelFormat, s: seq<byte>, from: nat, stride: nat, srcW: nat, col: nat): Option<Bgra>
    requires LineReadable(format, |s|, from, stride, srcW) && col < srcW
  {
    match format
    case BGRA => Some(Bgra(s[from + 4 * col], s[from + 4 * col + 1], s[from + 4 * col + 2], 0xFF))
    case UYVY => if 4 * (col / 2) + 3 >= stride then None else Some(DisplayRgb(UyvySample(s, from, col)))
    case _ => None
  }

  function BlitLine(format: PixelFormat, s: seq<byte>, from: nat, stride: nat, srcW: nat, was: seq<Bgra>)
    : (line: seq<Bgra>)
    requires srcW > 0 && LineReadable(format, |s|, from, stride, srcW)
    ensures |line| == |was|
    ensures forall d :: 0 <= d < |was| ==>
              line[d] == Over(Texel(format, s, from, stride, srcW, SourceIndex(d, srcW, |was|)), was[d])
  {
    seq(|was|, d requires 0 <= d < |was| =>
      Over(Texel(format, s, from, stride, srcW, SourceIndex(d, srcW, |was|)), was[d]))
  }

  function Over(texel: Option<Bgra>, was: Bgra): Bgra {
    match texel case Some(p) => p case None => was
  }

  /** Whether a one-to-one blit of such a frame writes anything. */
  predicate Draws(format: PixelFormat, stride: nat, w: nat, h: nat) {
    w > 0 && h > 0 && (format == BGRA || (format == UYVY && stride >= 4))
  }

  /** Some pixel of the one-to-one blit's picture is written, whatever the frame's content. */
  lemma DrawsIff(format: PixelFormat, s: seq<byte>, stride: nat, w: nat, h: nat)
    requires Readable(format, |s|, stride, w, h)
    ensures Draws(format, stride, w, h) <==>
            exists row, col :: 0 <= row < h && 0 <= col < w &&
                               Texel(format, s, Times(row, stride), stride, w, SourceIndex(col, w, w)).Some?
  {
    if Draws(format, stride, w, h) {
      assert LineReadable(format, |s|, Times(0, stride), stride, w);
      IndexUnscaled(0, w);
      assert Texel(format, s, Times(0, stride), stride, w, SourceIndex(0, w, w)).Some?;
    }
  }

  /** RGB24 and NV12 frames leave the window as it was: black. */
  lemma OtherFormatsShowNothing(format: PixelFormat, s: seq<byte>, from: nat, stride: nat, srcW: nat, was: seq<Bgra>)
    requires srcW > 0 && (format == RGB24 || format == NV12)
    ensures BlitLine(format, s, from, stride, srcW, was) == was
  {
    var line := BlitLine(format, s, from, stride, srcW, was);
    forall d | 0 <= d < |was| ensures line[d] == was[d] { }
  }

  method WritePixel(src: array<byte>, from: nat, stride: nat, format: PixelFormat, srcW: nat, srcX: nat,
                    dst: array<byte>, ghost to: nat, ghost col: nat, at: nat)
    requires src != dst && LineReadable(format, src.Length, from, stride, srcW) && srcX < srcW
    requires at == to + 4 * col && at + 4 <= dst.Length
    modifies dst
    ensures PixelAt(dst, to, col) == Over(Texel(format, src[..], from, stride, srcW, srcX), old(PixelAt(dst, to, col)))
    ensures forall j :: 0 <= j < dst.Length && (j < at || at + 4 <= j) ==> dst[j] == old(dst[j])
  {
    if format == BGRA {
      var p := from + srcX * 4;
      PutPixel(dst, to, col, at, Bgra(src[p], src[p + 1], src[p + 2], 0xFF));
    } else if format == UYVY {
      var srcXPair := (srcX / 2) * 2;
      if srcXPair * 2 + 3 >= stride { return; }
      var p := from + srcXPair * 2;
      var y := if srcX % 2 == 1 then src[p + 3] else src[p + 1];
      PutPixel(dst, to, col, at, DisplayRgb(Yuv(y, src[p], src[p + 2])));
    }
  }

  method BlitRow(src: array<byte>, from: nat, stride: nat, format: PixelFormat, srcW: nat,
                 dst: array<byte>, to: nat, dstW: nat)
    requires src != dst && srcW > 0 && LineReadable(format, src.Length, from, stride, srcW)
    requires to + 4 * dstW <= dst.Length
    modifies dst
    ensures PixelLine(dst[..], to, dstW) ==
            BlitLine(format, src[..], from, stride, srcW, PixelLine(old(dst[..]), to, dstW))
    ensures SameOutside(old(dst[..]), dst[..], to, to + 4 * dstW)
  {
    ghost var was := PixelLine(dst[..], to, dstW);
    ghost var line := BlitLine(format, src[..], from, stride, srcW, was);
    var x := 0;
    while x < dstW
      invariant 0 <= x <= dstW
      invariant forall c :: 0 <= c < x ==> PixelAt(dst, to, c) == line[c]
      invariant forall c :: x <= c < dstW ==> PixelAt(dst, to, c) == was[c]
      invariant forall j :: 0 <= j < dst.Length && (j < to || to + 4 * dstW <= j) ==> dst[j] == old(dst[j])
    {
      var srcX := MapIndex(x, srcW, dstW);
      WritePixel(src, from, stride, format, srcW, srcX, dst, to, x, to + x * 4);
      x := x + 1;
    }
    SameLine(dst, to, dstW, line);
  }

  /** What the canvas shows after the blit, given what it showed before. */
  ghost function BlitPicture(format: PixelFormat, s: seq<byte>, stride: nat, srcW: nat, srcH: nat,
                             k: Canvas, before: seq<byte>): (lines: seq<seq<Bgra>>)
    requires srcW > 0 && srcH > 0 && Readable(format, |s|, stride, srcW, srcH) && CanvasFits(k, |before|)
    ensures |lines| == k.h
    ensures forall r :: 0 <= r < k.h ==>
              lines[r] == BlitLine(format, s, Times(SourceIndex(r, srcH, k.h), stride), stride, srcW,
                                   PixelLine(before, CanvasRow(k, r), k.w))
  {
    seq(k.h, r requires 0 <= r < k.h =>
      BlitLine(format, s, Times(SourceIndex(r, srcH, k.h), stride), stride, srcW,
               PixelLine(before, CanvasRow(k, r), k.w)))
  }

  /** One turn of the row loop, the source line already chosen. */
  method BlitNextRow(src: array<byte>, srcW: nat, format: PixelFormat, from: nat, stride: nat,
                     dst: array<byte>, k: Canvas, ghost first: seq<byte>, ghost picture: seq<seq<Bgra>>, y: nat)
    requires src != dst && srcW > 0 && LineReadable(format, src.Length, from, stride, srcW)
    requires |first| == dst.Length && CanvasFits(k, dst.Length) && y < k.h == |picture|
    requires Painted(dst[..], k, picture, y) && OnlyRows(first, dst[..], k, y)
    requires picture[y] == BlitLine(format, src[..], from, stride, srcW, PixelLine(first, CanvasRow(k, y), k.w))
    modifies dst
    ensures Painted(dst[..], k, picture, y + 1) && OnlyRows(first, dst[..], k, y + 1)
  {
    ghost var before := dst[..];
    LineStillUntouched(first, before, k, y);
    var row := Product(y, k.stride);
    BlitRow(src, from, stride, format, srcW, dst, k.start + row, k.w);
    PaintNext(first, before, dst[..], k, picture, y);
  }

  method ConvertToFramebuffer(src: array<byte>, srcW: nat, srcH: nat, format: PixelFormat, stride: nat,
                              dst: array<byte>, k: Canvas)
    requires src != dst && srcW > 0 && srcH > 0
    requires Readable(format, src.Length, stride, srcW, srcH) && CanvasFits(k, dst.Length)
    modifies dst
    ensures Painted(dst[..], k, BlitPicture(format, src[..], stride, srcW, srcH, k, old(dst[..])), k.h)
    ensures OnlyRows(old(dst[..]), dst[..], k, k.h)
  {
    ghost var first := dst[..];
    ghost var picture := BlitPicture(format, src[..], stride, srcW, srcH, k, first);
    var y := 0;
    while y < k.h
      invariant 0 <= y <= k.h
      invariant Painted(dst[..], k, picture, y) && OnlyRows(first, dst[..], k, y)
    {
      var srcY := MapIndex(y, srcH, k.h);
      var from := Product(srcY, stride);
      BlitNextRow(src, srcW, format, from, stride, dst, k, first, picture, y);
      y := y + 1;
    }
  }

  // ---------------------------------------------------------------- one frame on the display

  lemma {:induction false} TimesSum(a: nat, b: nat, n: nat)
    ensures Times(a + b, n) == Times(a, n) + Times(b, n)
  {
    if a == 0 {
    } else {
      TimesSum(a - 1, b, n);
      assert Times(a - 1 + b, n) + n == Times(a + b, n);
    }
  }

  /** The window as a canvas in a framebuffer. */
  ghost function WindowCanvas(win: Window, pitch: nat): Canvas {
    Canvas(Times(win.y, pitch) + 4 * win.x, pitch, win.w, win.h)
  }

  lemma WindowInFramebuffer(win: Window, dispW: nat, dispH: nat, pitch: nat, size: nat)
    requires win.x + win.w <= dispW && win.y + win.h <= dispH
    requires 4 * dispW <= pitch && Times(dispH, pitch) <= size
    ensures CanvasFits(WindowCanvas(win, pitch), size)
    ensures forall row :: 0 <= row < win.h ==>
              CanvasRow(WindowCanvas(win, pitch), row) == Times(win.y + row, pitch) + 4 * win.x
  {
    var k := WindowCanvas(win, pitch);
    forall row | 0 <= row < win.h
      ensures CanvasRow(k, row) == Times(win.y + row, pitch) + 4 * win.x
      ensures CanvasRow(k, row) + 4 * k.w <= size
    {
      TimesSum(win.y, row, pitch);
      TimesApart(win.y + row, dispH, pitch);
    }
  }

  /** Bytes outside the window are zero. */
  ghost predicate BlackOutside(fb: seq<byte>, k: Canvas) {
    forall j :: 0 <= j < |fb| && (forall row :: 0 <= row < k.h ==> !OnRow(k, row, j)) ==> fb[j] == 0
  }

  function Black(n: nat): (s: seq<byte>)
    ensures |s| == n && forall j :: 0 <= j < n ==> s[j] == 0
  {
    seq(n, _ => 0)
  }

  method Clear(fb: array<byte>)
    modifies fb
    ensures fb[..] == Black(fb.Length)
  {
    forall j | 0 <= j < fb.Length { fb[j] := 0; }
  }

  method PlaceWindow(win: Window, pitch: nat) returns (k: Canvas)
    ensures k == WindowCanvas(win, pitch)
  {
    var top := Product(win.y, pitch);
    k := Canvas(top + 4 * win.x, pitch, win.w, win.h);
  }

  /** Four framebuffer bytes at `to` repeat three source bytes at `from`, the fourth is full. */
  predicate SameColour(fb: seq<byte>, to: int, s: seq<byte>, from: int) {
    && 0 <= to && to + 4 <= |fb| && 0 <= from && from + 3 <= |s|
    && fb[to..to + 3] == s[from..from + 3] && fb[to + 3] == 0xFF
  }

  /** The pixel at each row and column of the window repeats the source pixel of its quotients. */
  ghost predicate BytesShown(fb: seq<byte>, pitch: nat, win: Window, s: seq<byte>, stride: nat, srcW: nat, srcH: nat) {
    forall row, col :: 0 <= row < win.h && 0 <= col < win.w ==>
      SameColour(fb, (win.y + row) * pitch + 4 * (win.x + col),
                 s, (row * srcH / win.h) * stride + 4 * (col * srcW / win.w))
  }

  lemma WindowPixel(win: Window, pitch: nat, row: nat)
    ensures CanvasRow(WindowCanvas(win, pitch), row) == (win.y + row) * pitch + 4 * win.x
  {
    TimesSum(win.y, row, pitch);
    TimesIsProduct(win.y + row, pitch);
  }

  lemma PixelBytes(fb: seq<byte>, to: nat, s: seq<byte>, from: nat)
    requires to + 4 <= |fb| && from + 4 <= |s|
    requires Bgra(fb[to], fb[to + 1], fb[to + 2], fb[to + 3]) == Bgra(s[from], s[from + 1], s[from + 2], 0xFF)
    ensures SameColour(fb, to, s, from)
  {
  }

  /** A BGRA frame appears on the display byte for byte, scaled. */
  lemma BgraBytes(fb: seq<byte>, pitch: nat, win: Window, s: seq<byte>, stride: nat, srcW: nat, srcH: nat,
                  before: seq<byte>)
    requires srcW > 0 && srcH > 0 && Readable(BGRA, |s|, stride, srcW, srcH)
    requires CanvasFits(WindowCanvas(win, pitch), |fb|) && |before| == |fb|
    requires Painted(fb, WindowCanvas(win, pitch),
                     BlitPicture(BGRA, s, stride, srcW, srcH, WindowCanvas(win, pitch), before), win.h)
    ensures BytesShown(fb, pitch, win, s, stride, srcW, srcH)
  {
    var k := WindowCanvas(win, pitch);
    var picture := BlitPicture(BGRA, s, stride, srcW, srcH, k, before);
    forall row, col | 0 <= row < win.h && 0 <= col < win.w
      ensures SameColour(fb, (win.y + row) * pitch + 4 * (win.x + col),
                         s, (row * srcH / win.h) * stride + 4 * (col * srcW / win.w))
    {
      var y, x := SourceIndex(row, srcH, win.h), SourceIndex(col, srcW, win.w);
      IndexIsQuotient(row, srcH, win.h);
      IndexIsQuotient(col, srcW, win.w);
      TimesIsProduct(y, stride);
      WindowPixel(win, pitch, row);
      assert LineReadable(BGRA, |s|, Times(y, stride), stride, srcW);
      assert PixelLine(fb, CanvasRow(k, row), k.w)[col] == picture[row][col];
      PixelBytes(fb, CanvasRow(k, row) + 4 * col, s, Times(y, stride) + 4 * x);
    }
  }

  /**
   Clears the framebuffer, then scales the frame into the letterbox window: the window shows the
   scaled picture over black, BGRA byte for byte, and every byte outside it, padding included, is
   zero.
   */
  method DisplayFrameScaled(src: array<byte>, srcW: nat, srcH: nat, format: PixelFormat, stride: nat,
                            fb: array<byte>, pitch: nat, dispW: nat, dispH: nat)
    returns (ghost win: Window)
    requires src != fb && srcW > 0 && srcH > 0 && dispW > 0 && dispH > 0
    requires Readable(format, src.Length, stride, srcW, srcH)
    requires 4 * dispW <= pitch && Times(dispH, pitch) <= fb.Length
    modifies fb
    ensures win == Letterbox(srcW, srcH, dispW, dispH)
    ensures CanvasFits(WindowCanvas(win, pitch), fb.Length)
    ensures Painted(fb[..], WindowCanvas(win, pitch),
                    BlitPicture(format, src[..], stride, srcW, srcH, WindowCanvas(win, pitch), Black(fb.Length)), win.h)
    ensures BlackOutside(fb[..], WindowCanvas(win, pitch))
    ensures format == BGRA ==> BytesShown(fb[..], pitch, win, src[..], stride, srcW, srcH)
  {
    Clear(fb);
    var place := Letterbox(srcW, srcH, dispW, dispH);
    LetterboxFits(srcW, srcH, dispW, dispH);
    WindowInFramebuffer(place, dispW, dispH, pitch, fb.Length);
    var k := PlaceWindow(place, pitch);
    ConvertToFramebuffer(src, srcW, srcH, format, stride, fb, k);
    win := place;
    if format == BGRA { BgraBytes(fb[..], pitch, win, src[..], stride, srcW, srcH, Black(fb.Length)); }
  }

  // ---------------------------------------------------------------- unscaled UYVY is the capture decoding

  /** Every pair of an even-width line is inside the stride exactly when the stride holds the line. */
  lemma NothingSkippedIff(stride: nat, w: nat)
    requires w % 2 == 0
    ensures (forall col :: 0 <= col < w ==> 4 * (col / 2) + 3 < stride) <==> (w == 0 || 2 * w <= stride)
  {
    if w > 0 {
      var last := w - 1;
      assert 4 * (last / 2) + 3 == 2 * w - 1;
      if 2 * w <= stride {
        forall col | 0 <= col < w ensures 4 * (col / 2) + 3 < stride { }
      }
    }
  }

  lemma PairInLine(col: nat, w: nat)
    requires col < w && w % 2 == 0
    ensures 4 * (col / 2) + 4 <= 2 * w
  {
  }

  lemma UnscaledTexel(s: seq<byte>, from: nat, stride: nat, w: nat, col: nat)
    requires col < w && w % 2 == 0 && 2 * w <= stride && from + 2 * w <= |s|
    ensures Texel(UYVY, s, from, stride, w, col) == Some(Capture.YuvToRgb(UyvySample(s, from, col)))
  {
    PairInLine(col, w);
    var p := UyvySample(s, from, col);
    assert Texel(UYVY, s, from, stride, w, col) == Some(DisplayRgb(p));
    SameMatrix(p);
  }

  lemma UnscaledLine(s: seq<byte>, from: nat, stride: nat, w: nat, was: seq<Bgra>)
    requires w > 0 && w % 2 == 0 && 2 * w <= stride && from + 2 * w <= |s| && |was| == w
    ensures LineReadable(UYVY, |s|, from, stride, w)
    ensures BlitLine(UYVY, s, from, stride, w, was) == Coloured(UyvyLine(s, from, w), Capture.YuvToRgb)
  {
    var a, b := BlitLine(UYVY, s, from, stride, w, was), Coloured(UyvyLine(s, from, w), Capture.YuvToRgb);
    forall d | 0 <= d < w ensures a[d] == b[d] {
      IndexUnscaled(d, w);
      UnscaledTexel(s, from, stride, w, d);
      assert a[d] == Over(Texel(UYVY, s, from, stride, w, d), was[d]);
    }
  }

  lemma LinesReadable(s: seq<byte>, stride: nat, w: nat, h: nat)
    requires w % 2 == 0 && 2 * w <= stride && Holds(Plane(s, 0, stride), h, 2 * w)
    ensures Readable(UYVY, |s|, stride, w, h)
  {
    forall row | 0 <= row < h ensures LineReadable(UYVY, |s|, Times(row, stride), stride, w) {
      assert RowFits(Plane(s, 0, stride), row, 2 * w);
    }
  }

  /** Line `row` of the window comes from line `row` of the frame. */
  lemma UnscaledSource(s: seq<byte>, stride: nat, w: nat, h: nat, k: Canvas, before: seq<byte>, row: nat)
    requires w > 0 && row < h && (k.w, k.h) == (w, h) && CanvasFits(k, |before|) && Readable(UYVY, |s|, stride, w, h)
    ensures LineReadable(UYVY, |s|, Times(row, stride), stride, w)
    ensures BlitPicture(UYVY, s, stride, w, h, k, before)[row] ==
            BlitLine(UYVY, s, Times(row, stride), stride, w, PixelLine(before, CanvasRow(k, row), k.w))
  {
    IndexUnscaled(row, h);
  }

  lemma CapturedSource(s: seq<byte>, stride: nat, w: nat, h: nat, row: nat)
    requires row < h && w % 2 == 0 && Holds(Plane(s, 0, stride), h, 2 * w)
    ensures Times(row, stride) + 2 * w <= |s|
    ensures UyvyPicture(Plane(s, 0, stride), w, h)[row] == UyvyLine(s, Times(row, stride), w)
  {
    assert RowFits(Plane(s, 0, stride), row, 2 * w);
  }

  lemma UnscaledRow(s: seq<byte>, stride: nat, w: nat, h: nat, k: Canvas, before: seq<byte>, row: nat)
    requires w > 0 && row < h && w % 2 == 0 && 2 * w <= stride && Holds(Plane(s, 0, stride), h, 2 * w)
    requires (k.w, k.h) == (w, h) && CanvasFits(k, |before|) && Readable(UYVY, |s|, stride, w, h)
    ensures BlitPicture(UYVY, s, stride, w, h, k, before)[row] ==
            Coloured(UyvyPicture(Plane(s, 0, stride), w, h)[row], Capture.YuvToRgb)
  {
    UnscaledSource(s, stride, w, h, k, before, row);
    CapturedSource(s, stride, w, h, row);
    UnscaledLine(s, Times(row, stride), stride, w, PixelLine(before, CanvasRow(k, row), k.w));
  }

  /** At one to one, for any adequate stride, the display shows what the capture converter makes of the frame. */
  lemma UnscaledBlitIsCaptureDecoding(s: seq<byte>, stride: nat, w: nat, h: nat, k: Canvas, before: seq<byte>)
    requires w > 0 && h > 0 && w % 2 == 0 && 2 * w <= stride && Holds(Plane(s, 0, stride), h, 2 * w)
    requires (k.w, k.h) == (w, h) && CanvasFits(k, |before|)
    ensures Readable(UYVY, |s|, stride, w, h)
    ensures BlitPicture(UYVY, s, stride, w, h, k, before) ==
            ColouredPicture(UyvyPicture(Plane(s, 0, stride), w, h), Capture.YuvToRgb)
  {
    var p := Plane(s, 0, stride);
    LinesReadable(s, stride, w, h);
    var a := BlitPicture(UYVY, s, stride, w, h, k, before);
    var b := ColouredPicture(UyvyPicture(p, w, h), Capture.YuvToRgb);
    forall row | 0 <= row < h ensures a[row] == b[row] {
      UnscaledRow(s, stride, w, h, k, before, row);
    }
  }
}
