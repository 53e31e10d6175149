/**
 Where samples and pixels lie in memory: the packed, semi-planar and planar source layouts,
 and four-byte pixels written line by line into a destination.
 */
module PixelLayouts {
  import opened Common

  /** One pixel before conversion. */
  datatype Yuv = Yuv(y: byte, u: byte, v: byte)

  /** One pixel after conversion, in memory order. */
  datatype Bgra = Bgra(b: byte, g: byte, r: byte, a: byte)

  /** Lines of some buffer, `stride` bytes from one to the next. */
  datatype Plane = Plane(bytes: seq<byte>, start: nat, stride: nat)

  ghost function RowStart(p: Plane, row: nat): nat { p.start + Times(row, p.stride) }

  ghost predicate RowFits(p: Plane, row: nat, n: nat) { RowStart(p, row) + n <= |p.bytes| }

  /** The first n bytes of each of the first `rows` lines are inside the buffer. */
  ghost predicate Holds(p: Plane, rows: nat, n: nat) {
    forall row :: 0 <= row < rows ==> RowFits(p, row, n)
  }

  // ---------------------------------------------------------------- samples

  /** Pixel `col` of a YUYV line starting at `at`. */
  function YuyvSample(s: seq<byte>, at: nat, col: nat): Yuv
    requires at + 4 * (col / 2) + 4 <= |s|
  {
    var k := at + 4 * (col / 2);
    Yuv(if col % 2 == 0 then s[k] else s[k + 2], s[k + 1], s[k + 3])
  }

  /** Pixel `col` of a UYVY line starting at `at`. */
  function UyvySample(s: seq<byte>, at: nat, col: nat): Yuv
    requires at + 4 * (col / 2) + 4 <= |s|
  {
    var k := at + 4 * (col / 2);
    Yuv(if col % 2 == 0 then s[k + 1] else s[k + 3], s[k], s[k + 2])
  }

  /** Pixel `col` of a line whose luma starts at `yAt` and whose interleaved chroma starts at `uvAt`. */
  function Nv12Sample(luma: seq<byte>, yAt: nat, chroma: seq<byte>, uvAt: nat, col: nat): Yuv
    requires yAt + col < |luma| && uvAt + 2 * (col / 2) + 1 < |chroma|
  {
    Yuv(luma[yAt + col], chroma[uvAt + 2 * (col / 2)], chroma[uvAt + 2 * (col / 2) + 1])
  }

  /** Pixel `col` of a line stored in three separate planes. */
  function Yuv420Sample(luma: seq<byte>, yAt: nat, u: seq<byte>, uAt: nat, v: seq<byte>, vAt: nat, col: nat): Yuv
    requires yAt + col < |luma| && uAt + col / 2 < |u| && vAt + col / 2 < |v|
  {
    Yuv(luma[yAt + col], u[uAt + col / 2], v[vAt + col / 2])
  }

  function YuyvLine(s: seq<byte>, at: nat, w: nat): (line: seq<Yuv>)
    requires w % 2 == 0 && at + 2 * w <= |s|
    ensures |line| == w
    ensures forall c :: 0 <= c < w ==> line[c] == YuyvSample(s, at, c)
  {
    seq(w, c requires 0 <= c < w => YuyvSample(s, at, c))
  }

  function UyvyLine(s: seq<byte>, at: nat, w: nat): (line: seq<Yuv>)
    requires w % 2 == 0 && at + 2 * w <= |s|
    ensures |line| == w
    ensures forall c :: 0 <= c < w ==> line[c] == UyvySample(s, at, c)
  {
    seq(w, c requires 0 <= c < w => UyvySample(s, at, c))
  }

  function Nv12Line(luma: seq<byte>, yAt: nat, chroma: seq<byte>, uvAt: nat, w: nat): (line: seq<Yuv>)
    requires yAt + w <= |luma| && uvAt + 2 * ((w + 1) / 2) <= |chroma|
    ensures |line| == w
    ensures forall c :: 0 <= c < w ==> line[c] == Nv12Sample(luma, yAt, chroma, uvAt, c)
  {
    seq(w, c requires 0 <= c < w => Nv12Sample(luma, yAt, chroma, uvAt, c))
  }

  function Yuv420Line(luma: seq<byte>, yAt: nat, u: seq<byte>, uAt: nat, v: seq<byte>, vAt: nat, w: nat)
    : (line: seq<Yuv>)
    requires yAt + w <= |luma| && uAt + (w + 1) / 2 <= |u| && vAt + (w + 1) / 2 <= |v|
    ensures |line| == w
    ensures forall c :: 0 <= c < w ==> line[c] == Yuv420Sample(luma, yAt, u, uAt, v, vAt, c)
  {
    seq(w, c requires 0 <= c < w => Yuv420Sample(luma, yAt, u, uAt, v, vAt, c))
  }

  ghost function YuyvPicture(p: Plane, w: nat, h: nat): (lines: seq<seq<Yuv>>)
    requires w % 2 == 0 && Holds(p, h, 2 * w)
    ensures |lines| == h
    ensures forall r :: 0 <= r < h ==>
              RowFits(p, r, 2 * w) && lines[r] == YuyvLine(p.bytes, RowStart(p, r), w)
  {
    seq(h, r requires 0 <= r < h => assert RowFits(p, r, 2 * w); YuyvLine(p.bytes, RowStart(p, r), w))
  }

  ghost function UyvyPicture(p: Plane, w: nat, h: nat): (lines: seq<seq<Yuv>>)
    requires w % 2 == 0 && Holds(p, h, 2 * w)
    ensures |lines| == h
    ensures forall r :: 0 <= r < h ==>
              RowFits(p, r, 2 * w) && lines[r] == UyvyLine(p.bytes, RowStart(p, r), w)
  {
    seq(h, r requires 0 <= r < h => assert RowFits(p, r, 2 * w); UyvyLine(p.bytes, RowStart(p, r), w))
  }

  /** Each chroma line serves two luma lines and each chroma sample two columns. */
  ghost predicate Nv12Holds(luma: Plane, chroma: Plane, w: nat, h: nat) {
    Holds(luma, h, w) && Holds(chroma, (h + 1) / 2, 2 * ((w + 1) / 2))
  }

  ghost function Nv12Picture(luma: Plane, chroma: Plane, w: nat, h: nat): (lines: seq<seq<Yuv>>)
    requires Nv12Holds(luma, chroma, w, h)
    ensures |lines| == h
    ensures forall r :: 0 <= r < h ==>
              RowFits(luma, r, w) && RowFits(chroma, r / 2, 2 * ((w + 1) / 2)) &&
              lines[r] == Nv12Line(luma.bytes, RowStart(luma, r), chroma.bytes, RowStart(chroma, r / 2), w)
  {
    seq(h, r requires 0 <= r < h =>
      assert RowFits(luma, r, w) && RowFits(chroma, r / 2, 2 * ((w + 1) / 2));
      Nv12Line(luma.bytes, RowStart(luma, r), chroma.bytes, RowStart(chroma, r / 2), w))
  }

  ghost predicate Yuv420Holds(luma: Plane, u: Plane, v: Plane, w: nat, h: nat) {
    Holds(luma, h, w) && Holds(u, (h + 1) / 2, (w + 1) / 2) && Holds(v, (h + 1) / 2, (w + 1) / 2)
  }

  ghost function Yuv420Picture(luma: Plane, u: Plane, v: Plane, w: nat, h: nat): (lines: seq<seq<Yuv>>)
    requires Yuv420Holds(luma, u, v, w, h)
    ensures |lines| == h
    ensures forall r :: 0 <= r < h ==>
              RowFits(luma, r, w) && RowFits(u, r / 2, (w + 1) / 2) && RowFits(v, r / 2, (w + 1) / 2) &&
              lines[r] == Yuv420Line(luma.bytes, RowStart(luma, r), u.bytes, RowStart(u, r / 2),
                                     v.bytes, RowStart(v, r / 2), w)
  {
    seq(h, r requires 0 <= r < h =>
      assert RowFits(luma, r, w) && RowFits(u, r / 2, (w + 1) / 2) && RowFits(v, r / 2, (w + 1) / 2);
      Yuv420Line(luma.bytes, RowStart(luma, r), u.bytes, RowStart(u, r / 2), v.bytes, RowStart(v, r / 2), w))
  }

  // ---------------------------------------------------------------- pixels

  function PixelAt(a: array<byte>, at: nat, col: nat): Bgra
    requires at + 4 * col + 4 <= a.Length
    reads a
  {
    Bgra(a[at + 4 * col], a[at + 4 * col + 1], a[at + 4 * col + 2], a[at + 4 * col + 3])
  }

  /** The w pixels stored from `at` on. */
  function PixelLine(s: seq<byte>, at: nat, w: nat): (line: seq<Bgra>)
    requires at + 4 * w <= |s|
    ensures |line| == w
    ensures forall c :: 0 <= c < w ==>
              line[c] == Bgra(s[at + 4 * c], s[at + 4 * c + 1], s[at + 4 * c + 2], s[at + 4 * c + 3])
  {
    seq(w, c requires 0 <= c < w => Bgra(s[at + 4 * c], s[at + 4 * c + 1], s[at + 4 * c + 2], s[at + 4 * c + 3]))
  }

  /** Nothing outside lo..hi differs. */
  ghost predicate SameOutside(before: seq<byte>, after: seq<byte>, lo: nat, hi: nat) {
    |before| == |after| &&
    forall j :: 0 <= j < |before| && (j < lo || hi <= j) ==> after[j] == before[j]
  }

  lemma LineFramed(before: seq<byte>, after: seq<byte>, lo: nat, hi: nat, at: nat, w: nat)
    requires SameOutside(before, after, lo, hi)
    requires at + 4 * w <= |before| && (at + 4 * w <= lo || hi <= at)
    ensures PixelLine(after, at, w) == PixelLine(before, at, w)
  {
    var x, y := PixelLine(after, at, w), PixelLine(before, at, w);
    forall c | 0 <= c < w ensures x[c] == y[c] {
      assert after[at + 4 * c] == before[at + 4 * c];
      assert after[at + 4 * c + 1] == before[at + 4 * c + 1];
      assert after[at + 4 * c + 2] == before[at + 4 * c + 2];
      assert after[at + 4 * c + 3] == before[at + 4 * c + 3];
    }
  }

  /** A rectangle of pixels inside a buffer of `len` bytes, its lines not overlapping. */
  datatype Canvas = Canvas(start: nat, stride: nat, w: nat, h: nat)

  ghost function CanvasRow(k: Canvas, row: nat): nat { k.start + Times(row, k.stride) }

  ghost predicate CanvasFits(k: Canvas, len: nat) {
    && (k.h > 1 ==> 4 * k.w <= k.stride)
    && forall row :: 0 <= row < k.h ==> CanvasRow(k, row) + 4 * k.w <= len
  }

  ghost predicate OnRow(k: Canvas, row: nat, j: int) { CanvasRow(k, row) <= j < CanvasRow(k, row) + 4 * k.w }

  /** The first n lines of the canvas show the picture. */
  ghost predicate Painted(s: seq<byte>, k: Canvas, picture: seq<seq<Bgra>>, n: nat)
    requires CanvasFits(k, |s|) && n <= k.h == |picture|
  {
    forall row :: 0 <= row < n ==> PixelLine(s, CanvasRow(k, row), k.w) == picture[row]
  }

  /** Bytes on none of the first n lines are as before. */
  ghost predicate OnlyRows(before: seq<byte>, after: seq<byte>, k: Canvas, n: nat) {
    |before| == |after| &&
    forall j :: 0 <= j < |before| && (forall row :: 0 <= row < n ==> !OnRow(k, row, j)) ==> after[j] == before[j]
  }

  lemma RowsApart(k: Canvas, len: nat, a: nat, b: nat)
    requires CanvasFits(k, len) && a < b < k.h
    ensures CanvasRow(k, a) + 4 * k.w <= CanvasRow(k, b)
  {
    TimesApart(a, b, k.stride);
  }

  /** Writing line n correctly, and nothing else, extends what is painted by one line. */
  lemma PaintNext(first: seq<byte>, before: seq<byte>, after: seq<byte>, k: Canvas, picture: seq<seq<Bgra>>, n: nat)
    requires |first| == |before| == |after| && CanvasFits(k, |before|) && n < k.h == |picture|
    requires Painted(before, k, picture, n) && OnlyRows(first, before, k, n)
    requires SameOutside(before, after, CanvasRow(k, n), CanvasRow(k, n) + 4 * k.w)
    requires PixelLine(after, CanvasRow(k, n), k.w) == picture[n]
    ensures Painted(after, k, picture, n + 1) && OnlyRows(first, after, k, n + 1)
  {
    forall row | 0 <= row < n + 1 ensures PixelLine(after, CanvasRow(k, row), k.w) == picture[row] {
      if row < n {
        RowsApart(k, |before|, row, n);
        LineFramed(before, after, CanvasRow(k, n), CanvasRow(k, n) + 4 * k.w, CanvasRow(k, row), k.w);
      }
    }
    forall j | 0 <= j < |first| && (forall row :: 0 <= row < n + 1 ==> !OnRow(k, row, j))
      ensures after[j] == first[j]
    {
      assert !OnRow(k, n, j);
      assert after[j] == before[j];
    }
  }

  /** A line not yet reached still shows what it showed at first. */
  lemma LineStillUntouched(first: seq<byte>, before: seq<byte>, k: Canvas, n: nat)
    requires |first| == |before| && CanvasFits(k, |first|) && n < k.h && OnlyRows(first, before, k, n)
    ensures PixelLine(before, CanvasRow(k, n), k.w) == PixelLine(first, CanvasRow(k, n), k.w)
  {
    var lo, hi := CanvasRow(k, n), CanvasRow(k, n) + 4 * k.w;
    forall j | lo <= j < hi ensures before[j] == first[j] {
      forall row | 0 <= row < n ensures !OnRow(k, row, j) { RowsApart(k, |first|, row, n); }
    }
  }

  /** The bytes of a line are the parts of its pixels. */
  lemma LineBytes(a: seq<byte>, b: seq<byte>, at: nat, w: nat, j: nat)
    requires |a| == |b| && at + 4 * w <= |a| && at <= j < at + 4 * w
    requires PixelLine(a, at, w) == PixelLine(b, at, w)
    ensures a[j] == b[j]
  {
    var c, part := (j - at) / 4, (j - at) % 4;
    assert PixelLine(a, at, w)[c] == PixelLine(b, at, w)[c];
    assert j == at + 4 * c + part;
  }

  /** A picture painted over the same bytes leaves the same bytes, however it was painted. */
  lemma PaintedDetermines(first: seq<byte>, a: seq<byte>, b: seq<byte>, k: Canvas, picture: seq<seq<Bgra>>)
    requires |first| == |a| == |b| && CanvasFits(k, |first|) && |picture| == k.h
    requires Painted(a, k, picture, k.h) && Painted(b, k, picture, k.h)
    requires OnlyRows(first, a, k, k.h) && OnlyRows(first, b, k, k.h)
    ensures a == b
  {
    forall j | 0 <= j < |first| ensures a[j] == b[j] {
      if row: nat :| row < k.h && OnRow(k, row, j) { LineBytes(a, b, CanvasRow(k, row), k.w, j); }
    }
  }
}
