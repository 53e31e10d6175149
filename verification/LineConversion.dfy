/**
 The inner loops that turn one line of samples into one line of pixels, for the layouts the
 converters share. What differs between converters is the colour conversion, a parameter here.
 */
module LineConversion {
  import opened Common
  import opened PixelLayouts

  function Coloured(line: seq<Yuv>, convert: Yuv -> Bgra): (pixels: seq<Bgra>)
    ensures |pixels| == |line|
    ensures forall c :: 0 <= c < |line| ==> pixels[c] == convert(line[c])
  {
    seq(|line|, c requires 0 <= c < |line| => convert(line[c]))
  }

  function ColouredPicture(picture: seq<seq<Yuv>>, convert: Yuv -> Bgra): (pixels: seq<seq<Bgra>>)
    ensures |pixels| == |picture|
    ensures forall r :: 0 <= r < |picture| ==> pixels[r] == Coloured(picture[r], convert)
  {
    seq(|picture|, r requires 0 <= r < |picture| => Coloured(picture[r], convert))
  }

  /** The destination of a w by h picture: lines without gaps from the first byte on. */
  function Packed(w: nat, h: nat): Canvas { Canvas(0, 4 * w, w, h) }

  lemma YuyvPair(s: seq<byte>, at: nat, pairs: nat, i: nat)
    requires at + 4 * pairs <= |s| && i < pairs
    ensures var line, k, x := YuyvLine(s, at, 2 * pairs), at + 4 * i, 2 * i;
            line[x] == Yuv(s[k], s[k + 1], s[k + 3]) && line[x + 1] == Yuv(s[k + 2], s[k + 1], s[k + 3])
  {
  }

  lemma UyvyPair(s: seq<byte>, at: nat, pairs: nat, i: nat)
    requires at + 4 * pairs <= |s| && i < pairs
    ensures var line, k, x := UyvyLine(s, at, 2 * pairs), at + 4 * i, 2 * i;
            line[x] == Yuv(s[k + 1], s[k], s[k + 2]) && line[x + 1] == Yuv(s[k + 3], s[k], s[k + 2])
  {
  }

  /** Stores column `col` of the line that starts at `to`, where `at` points. */
  method PutPixel(dst: array<byte>, ghost to: nat, ghost col: nat, at: nat, p: Bgra)
    requires at == to + 4 * col && at + 4 <= dst.Length
    modifies dst
    ensures PixelAt(dst, to, col) == p
    ensures forall c :: 0 <= c < col ==> PixelAt(dst, to, c) == old(PixelAt(dst, to, c))
    ensures forall j :: 0 <= j < dst.Length && (j < at || at + 4 <= j) ==> dst[j] == old(dst[j])
  {
    dst[at] := p.b;
    dst[at + 1] := p.g;
    dst[at + 2] := p.r;
    dst[at + 3] := p.a;
  }

  /** Stores columns `col` and `col + 1`. */
  method PutPair(dst: array<byte>, ghost to: nat, ghost col: nat, at: nat, p: Bgra, q: Bgra)
    requires at == to + 4 * col && at + 8 <= dst.Length
    modifies dst
    ensures PixelAt(dst, to, col) == p && PixelAt(dst, to, col + 1) == q
    ensures forall c :: 0 <= c < col ==> PixelAt(dst, to, c) == old(PixelAt(dst, to, c))
    ensures forall j :: 0 <= j < dst.Length && (j < at || at + 8 <= j) ==> dst[j] == old(dst[j])
  {
    PutPixel(dst, to, col, at, p);
    PutPixel(dst, to, col + 1, at + 4, q);
  }

  /** A line whose every column shows the right pixel. */
  lemma SameLine(dst: array<byte>, to: nat, w: nat, line: seq<Bgra>)
    requires to + 4 * w <= dst.Length && |line| == w
    requires forall c :: 0 <= c < w ==> PixelAt(dst, to, c) == line[c]
    ensures PixelLine(dst[..], to, w) == line
  {
    var shown := PixelLine(dst[..], to, w);
    forall c | 0 <= c < w ensures shown[c] == line[c] { assert shown[c] == PixelAt(dst, to, c); }
  }

  /** Four source bytes give two pixels: luma first. */
  method YuyvRow(src: array<byte>, from: nat, dst: array<byte>, to: nat, w: nat, convert: Yuv -> Bgra)
    requires src != dst && w % 2 == 0
    requires from + 2 * w <= src.Length && to + 4 * w <= dst.Length
    modifies dst
    ensures PixelLine(dst[..], to, w) == Coloured(YuyvLine(src[..], from, w), convert)
    ensures SameOutside(old(dst[..]), dst[..], to, to + 4 * w)
  {
    ghost var bytes := src[..];
    ghost var line := Coloured(YuyvLine(bytes, from, w), convert);
    ghost var pairs, i := w / 2, 0;
    var x, s, d := 0, from, to;
    while x < w
      invariant 0 <= i <= pairs && x == 2 * i && w == 2 * pairs && s == from + 2 * x && d == to + 4 * x
      invariant forall c :: 0 <= c < x ==> PixelAt(dst, to, c) == line[c]
      invariant forall j :: 0 <= j < dst.Length && (j < to || to + 4 * w <= j) ==> dst[j] == old(dst[j])
    {
      var y0, u, y1, v := src[s], src[s + 1], src[s + 2], src[s + 3];
      YuyvPair(bytes, from, pairs, i);
      PutPair(dst, to, x, d, convert(Yuv(y0, u, v)), convert(Yuv(y1, u, v)));
      x, s, d, i := x + 2, s + 4, d + 8, i + 1;
    }
    SameLine(dst, to, w, line);
  }

  /** Four source bytes give two pixels: chroma first. */
  method UyvyRow(src: array<byte>, from: nat, dst: array<byte>, to: nat, w: nat, convert: Yuv -> Bgra)
    requires src != dst && w % 2 == 0
    requires from + 2 * w <= src.Length && to + 4 * w <= dst.Length
    modifies dst
    ensures PixelLine(dst[..], to, w) == Coloured(UyvyLine(src[..], from, w), convert)
    ensures SameOutside(old(dst[..]), dst[..], to, to + 4 * w)
  {
    ghost var bytes := src[..];
    ghost var line := Coloured(UyvyLine(bytes, from, w), convert);
    ghost var pairs, i := w / 2, 0;
    var x, s, d := 0, from, to;
    while x < w
      invariant 0 <= i <= pairs && x == 2 * i && w == 2 * pairs && s == from + 2 * x && d == to + 4 * x
      invariant forall c :: 0 <= c < x ==> PixelAt(dst, to, c) == line[c]
      invariant forall j :: 0 <= j < dst.Length && (j < to || to + 4 * w <= j) ==> dst[j] == old(dst[j])
    {
      var u, y0, v, y1 := src[s], src[s + 1], src[s + 2], src[s + 3];
      UyvyPair(bytes, from, pairs, i);
      PutPair(dst, to, x, d, convert(Yuv(y0, u, v)), convert(Yuv(y1, u, v)));
      x, s, d, i := x + 2, s + 4, d + 8, i + 1;
    }
    SameLine(dst, to, w, line);
  }

  /** One luma byte per pixel, one interleaved chroma pair per two pixels. */
  method Nv12Row(luma: array<byte>, yFrom: nat, chroma: array<byte>, uvFrom: nat,
                 dst: array<byte>, to: nat, w: nat, convert: Yuv -> Bgra)
    requires luma != dst && chroma != dst
    requires yFrom + w <= luma.Length && uvFrom + 2 * ((w + 1) / 2) <= chroma.Length && to + 4 * w <= dst.Length
    modifies dst
    ensures PixelLine(dst[..], to, w) == Coloured(Nv12Line(luma[..], yFrom, chroma[..], uvFrom, w), convert)
    ensures SameOutside(old(dst[..]), dst[..], to, to + 4 * w)
  {
    ghost var line := Coloured(Nv12Line(luma[..], yFrom, chroma[..], uvFrom, w), convert);
    var x := 0;
    while x < w
      invariant 0 <= x <= w
      invariant forall c :: 0 <= c < x ==> PixelAt(dst, to, c) == line[c]
      invariant forall j :: 0 <= j < dst.Length && (j < to || to + 4 * w <= j) ==> dst[j] == old(dst[j])
    {
      var uvIndex := (x / 2) * 2;
      var y, u, v := luma[yFrom + x], chroma[uvFrom + uvIndex], chroma[uvFrom + uvIndex + 1];
      PutPixel(dst, to, x, to + x * 4, convert(Yuv(y, u, v)));
      x := x + 1;
    }
    SameLine(dst, to, w, line);
  }

  /** As NV12, the two chroma samples in planes of their own. */
  method Yuv420Row(luma: array<byte>, yFrom: nat, us: array<byte>, uFrom: nat, vs: array<byte>, vFrom: nat,
                   dst: array<byte>, to: nat, w: nat, convert: Yuv -> Bgra)
    requires luma != dst && us != dst && vs != dst
    requires yFrom + w <= luma.Length && to + 4 * w <= dst.Length
    requires uFrom + (w + 1) / 2 <= us.Length && vFrom + (w + 1) / 2 <= vs.Length
    modifies dst
    ensures PixelLine(dst[..], to, w) ==
            Coloured(Yuv420Line(luma[..], yFrom, us[..], uFrom, vs[..], vFrom, w), convert)
    ensures SameOutside(old(dst[..]), dst[..], to, to + 4 * w)
  {
    ghost var line := Coloured(Yuv420Line(luma[..], yFrom, us[..], uFrom, vs[..], vFrom, w), convert);
    var x := 0;
    while x < w
      invariant 0 <= x <= w
      invariant forall c :: 0 <= c < x ==> PixelAt(dst, to, c) == line[c]
      invariant forall j :: 0 <= j < dst.Length && (j < to || to + 4 * w <= j) ==> dst[j] == old(dst[j])
    {
      var y, u, v := luma[yFrom + x], us[uFrom + x / 2], vs[vFrom + x / 2];
      PutPixel(dst, to, x, to + x * 4, convert(Yuv(y, u, v)));
      x := x + 1;
    }
    SameLine(dst, to, w, line);
  }
}
