/**
 Repacking and decoding commute: pictures that went through the sender's byte exchange or the
 reference NV12 repacking decode to the bytes the capture converter makes of the original.
 */
module PixelPipeline {
  import opened Common
  import opened LineConversion
  import opened PixelLayouts
  import Capture = V4L2FormatConverter
  import Sender = YuyvConversion

  // ---------------------------------------------------------------- YUYV and UYVY

  /** The four bytes from word m on. */
  lemma SwappedQuad(s: seq<byte>, t: seq<byte>, m: nat, n: nat)
    requires n % 2 == 0 && 2 * m + 4 <= n <= |s| && n <= |t|
    requires t[..n] == Sender.Swapped(s[..n])
    ensures t[2 * m] == s[2 * m + 1] && t[2 * m + 1] == s[2 * m]
    ensures t[2 * m + 2] == s[2 * m + 3] && t[2 * m + 3] == s[2 * m + 2]
  {
    var u := Sender.Swapped(s[..n]);
    assert u[2 * m] == s[2 * m + 1] && u[2 * m + 1] == s[2 * m];
    assert u[2 * m + 2] == s[2 * m + 3] && u[2 * m + 3] == s[2 * m + 2];
  }

  lemma SwappedSample(s: seq<byte>, t: seq<byte>, at: nat, col: nat, n: nat)
    requires n % 2 == 0 && at % 2 == 0 && at + 4 * (col / 2) + 4 <= n <= |s| && n <= |t|
    requires t[..n] == Sender.Swapped(s[..n])
    ensures UyvySample(t, at, col) == YuyvSample(s, at, col)
  {
    var m := at / 2 + 2 * (col / 2);
    assert 2 * m == at + 4 * (col / 2);
    SwappedQuad(s, t, m, n);
  }

  lemma {:induction false} EvenRows(row: nat, w: nat)
    ensures Times(row, 2 * w) == 2 * Times(row, w)
  {
    if row == 0 {
    } else {
      EvenRows(row - 1, w);
    }
  }

  lemma RowWithin(row: nat, h: nat, w: nat)
    requires row < h
    ensures Times(row, 2 * w) + 2 * w <= 2 * Times(h, w) && Times(row, 2 * w) % 2 == 0
  {
    EvenRows(row, w);
    EvenRows(h, w);
    TimesApart(row, h, 2 * w);
  }

  lemma SwappedLine(s: seq<byte>, t: seq<byte>, at: nat, w: nat, n: nat)
    requires n % 2 == 0 && at % 2 == 0 && w % 2 == 0 && at + 2 * w <= n <= |s| && n <= |t|
    requires t[..n] == Sender.Swapped(s[..n])
    ensures UyvyLine(t, at, w) == YuyvLine(s, at, w)
  {
    var a, b := UyvyLine(t, at, w), YuyvLine(s, at, w);
    forall c | 0 <= c < w ensures a[c] == b[c] { SwappedSample(s, t, at, c, n); }
  }

  lemma SwappedRow(s: seq<byte>, t: seq<byte>, w: nat, h: nat, row: nat)
    requires w % 2 == 0 && row < h && 2 * Times(h, w) <= |s| && 2 * Times(h, w) <= |t|
    requires t[..2 * Times(h, w)] == Sender.Swapped(s[..2 * Times(h, w)])
    ensures Times(row, 2 * w) + 2 * w <= 2 * Times(h, w)
    ensures UyvyLine(t, Times(row, 2 * w), w) == YuyvLine(s, Times(row, 2 * w), w)
  {
    RowWithin(row, h, w);
    SwappedLine(s, t, Times(row, 2 * w), w, 2 * Times(h, w));
  }

  /** The picture is the same: YUYV before the exchange, UYVY after it. */
  lemma ExchangeKeepsPicture(s: seq<byte>, t: seq<byte>, w: nat, h: nat)
    requires w % 2 == 0
    requires 2 * Times(h, w) <= |s| && 2 * Times(h, w) <= |t|
    requires t[..2 * Times(h, w)] == Sender.Swapped(s[..2 * Times(h, w)])
    ensures Holds(Capture.PackedPairs(s, w), h, 2 * w) && Holds(Capture.PackedPairs(t, w), h, 2 * w)
    ensures UyvyPicture(Capture.PackedPairs(t, w), w, h) == YuyvPicture(Capture.PackedPairs(s, w), w, h)
  {
    var p, q := Capture.PackedPairs(s, w), Capture.PackedPairs(t, w);
    forall row | 0 <= row < h ensures RowFits(p, row, 2 * w) && RowFits(q, row, 2 * w) { RowWithin(row, h, w); }
    var a, b := UyvyPicture(q, w, h), YuyvPicture(p, w, h);
    forall row | 0 <= row < h ensures a[row] == b[row] { SwappedRow(s, t, w, h, row); }
  }

  /** Sent and decoded equals decoded directly, byte for byte, on either conversion path. */
  method SendThenDecode(src: array<byte>, middle: array<byte>, viaUyvy: array<byte>, direct: array<byte>,
                        w: nat, h: nat, avx2: bool)
    requires w % 2 == 0 && viaUyvy != direct && middle !in {src, viaUyvy, direct} && src !in {viaUyvy, direct}
    requires 2 * Times(w, h) <= src.Length && 2 * Times(w, h) <= middle.Length
    requires CanvasFits(Packed(w, h), direct.Length) && viaUyvy[..] == direct[..]
    modifies middle, viaUyvy, direct
    ensures viaUyvy[..] == direct[..]
    ensures Holds(Capture.PackedPairs(src[..], w), h, 2 * w)
    ensures Painted(direct[..], Packed(w, h),
                    ColouredPicture(YuyvPicture(Capture.PackedPairs(src[..], w), w, h), Capture.YuvToRgb), h)
  {
    ghost var first, s, m := direct[..], src[..], middle[..];
    TimesSwapped(w, h);
    EvenArea(h, w);
    if avx2 && w % 16 == 0 {
      Sender.WholePairs(w, h);
      Sender.ConvertAvx2(src, middle, w, h);
    } else {
      Sender.ConvertScalar(src, middle, w, h);
    }
    Sender.ConvertedIsSwapped(s, m, middle[..], Times(h, w));
    ExchangeKeepsPicture(s, middle[..], w, h);
    Capture.ConvertUyvyToBgra(middle, w, h, viaUyvy);
    Capture.ConvertYuyvToBgra(src, w, h, direct);
    PaintedDetermines(first, viaUyvy[..], direct[..], Packed(w, h),
                      ColouredPicture(YuyvPicture(Capture.PackedPairs(s, w), w, h), Capture.YuvToRgb));
  }

  lemma TimesSwapped(a: nat, b: nat)
    ensures Times(a, b) == Times(b, a)
  {
    TimesIsProduct(a, b);
    TimesIsProduct(b, a);
  }

  /** An even width gives a whole number of pairs. */
  lemma EvenArea(h: nat, w: nat)
    requires w % 2 == 0
    ensures Sender.PairWords(w, h) == Times(h, w)
  {
    EvenRows(h, w / 2);
    TimesSwapped(w, h);
    HalfOfDouble(Times(h, w / 2));
  }

  lemma HalfOfDouble(m: nat)
    ensures 2 * m / 2 == m
  {
  }

  // ---------------------------------------------------------------- padded lines

  /** t is what the sender makes of a frame s whose lines are `stride` bytes apart. */
  ghost predicate Sent(s: seq<byte>, t: seq<byte>, w: nat, h: nat, stride: nat) {
    && w % 2 == 0 && Holds(Plane(s, 0, stride), h, 2 * w)
    && Holds(Capture.PackedPairs(t, w), h, 2 * w)
    && Sender.StartsSwapped(t, s, Times(h, w))
  }

  /** What goes out shows what was captured. */
  ghost predicate SentAsCaptured(s: seq<byte>, t: seq<byte>, w: nat, h: nat, stride: nat)
    requires Sent(s, t, w, h, stride)
  {
    UyvyPicture(Capture.PackedPairs(t, w), w, h) == YuyvPicture(Plane(s, 0, stride), w, h)
  }

  lemma {:induction false} TimesMonotone(a: nat, b: nat, m: nat, n: nat)
    requires a <= b && m <= n
    ensures Times(a, m) <= Times(b, n)
    decreases b
  {
    if b == 0 {
    } else if a == b {
      TimesMonotone(a - 1, b - 1, m, n);
    } else {
      TimesMonotone(a, b - 1, m, n);
    }
  }

  /** Without padding, or with a single line, the lines are where the conversion takes them to be. */
  lemma UnpaddedIsKept(s: seq<byte>, t: seq<byte>, w: nat, h: nat, stride: nat)
    requires Sent(s, t, w, h, stride) && (stride == 2 * w || h <= 1)
    ensures SentAsCaptured(s, t, w, h, stride)
  {
    ExchangeKeepsPicture(s, t, w, h);
    var a, b := YuyvPicture(Capture.PackedPairs(s, w), w, h), YuyvPicture(Plane(s, 0, stride), w, h);
    forall row | 0 <= row < h ensures a[row] == b[row] { }
  }

  /** A frame that is black but for the byte where the second line would start without padding. */
  ghost function Telltale(w: nat, h: nat, stride: nat): (s: seq<byte>)
    ensures |s| == Times(h, Max(stride, 2 * w)) + 2 * w
    ensures forall j :: 0 <= j < |s| ==> s[j] == if j == 2 * w then 1 else 0
  {
    seq(Times(h, Max(stride, 2 * w)) + 2 * w, j => if j == 2 * w then 1 else 0)
  }

  lemma TelltaleFits(w: nat, h: nat, stride: nat)
    ensures Holds(Plane(Telltale(w, h, stride), 0, stride), h, 2 * w)
    ensures 2 * Times(h, w) <= |Telltale(w, h, stride)|
  {
    var s := Telltale(w, h, stride);
    forall row | 0 <= row < h ensures RowFits(Plane(s, 0, stride), row, 2 * w) {
      TimesMonotone(row, h, stride, Max(stride, 2 * w));
    }
    EvenRows(h, w);
    TimesMonotone(h, h, 2 * w, Max(stride, 2 * w));
  }

  lemma PaddedIsSheared(w: nat, h: nat, stride: nat) returns (s: seq<byte>, t: seq<byte>)
    requires w > 0 && w % 2 == 0 && stride != 2 * w && h > 1
    ensures Sent(s, t, w, h, stride) && !SentAsCaptured(s, t, w, h, stride)
  {
    s := Telltale(w, h, stride);
    TelltaleFits(w, h, stride);
    t := Sender.Swapped(s[..2 * Times(h, w)]);
    ExchangeKeepsPicture(s, t, w, h);
    var packed, padded := Capture.PackedPairs(s, w), Plane(s, 0, stride);
    assert RowFits(packed, 1, 2 * w) && RowFits(padded, 1, 2 * w);
    TimesIsProduct(1, 2 * w);
    TimesIsProduct(1, stride);
    assert RowStart(packed, 1) == 2 * w && RowStart(padded, 1) == stride;
    assert YuyvSample(s, 2 * w, 0).y == 1 && YuyvSample(s, stride, 0).y == 0;
    assert YuyvPicture(packed, w, h)[1][0] == YuyvSample(s, 2 * w, 0);
    assert YuyvPicture(padded, w, h)[1][0] == YuyvSample(s, stride, 0);
  }

  /**
   The sender's YUYV path takes no notice of the frame's stride: what it sends shows the captured
   picture, whatever the content, exactly when the lines have no padding or there is only one.
   */
  lemma SentAsCapturedIff(w: nat, h: nat, stride: nat)
    requires w > 0 && w % 2 == 0
    ensures (forall s, t :: Sent(s, t, w, h, stride) ==> SentAsCaptured(s, t, w, h, stride)) <==>
            stride == 2 * w || h <= 1
  {
    if stride == 2 * w || h <= 1 {
      forall s, t | Sent(s, t, w, h, stride) ensures SentAsCaptured(s, t, w, h, stride) {
        UnpaddedIsKept(s, t, w, h, stride);
      }
    } else {
      var s, t := PaddedIsSheared(w, h, stride);
    }
  }

  // ---------------------------------------------------------------- NV12 and UYVY

  /** Stores the four bytes of one UYVY pair. */
  method PutQuad(dst: array<byte>, at: nat, u: byte, y0: byte, v: byte, y1: byte)
    requires at + 4 <= dst.Length
    modifies dst
    ensures (dst[at], dst[at + 1], dst[at + 2], dst[at + 3]) == (u, y0, v, y1)
    ensures forall j :: 0 <= j < dst.Length && (j < at || at + 4 <= j) ==> dst[j] == old(dst[j])
  {
    dst[at], dst[at + 1], dst[at + 2], dst[at + 3] := u, y0, v, y1;
  }

  /** Pair i of the UYVY line at `to` carries the samples of an NV12 line. */
  predicate QuadFrom(dst: array<byte>, to: nat, src: seq<byte>, yAt: nat, uvAt: nat, i: nat)
    requires to + 4 * i + 4 <= dst.Length && yAt + 2 * i + 1 < |src| && uvAt + 2 * i + 1 < |src|
    reads dst
  {
    var at := to + 4 * i;
    && dst[at] == src[uvAt + 2 * i] && dst[at + 1] == src[yAt + 2 * i]
    && dst[at + 2] == src[uvAt + 2 * i + 1] && dst[at + 3] == src[yAt + 2 * i + 1]
  }

  lemma QuadsMakeLine(dst: array<byte>, to: nat, src: seq<byte>, yAt: nat, uvAt: nat, pairs: nat)
    requires to + 4 * pairs <= dst.Length && yAt + 2 * pairs <= |src| && uvAt + 2 * pairs <= |src|
    requires forall i :: 0 <= i < pairs ==> QuadFrom(dst, to, src, yAt, uvAt, i)
    ensures UyvyLine(dst[..], to, 2 * pairs) == Nv12Line(src, yAt, src, uvAt, 2 * pairs)
  {
    var a, b := UyvyLine(dst[..], to, 2 * pairs), Nv12Line(src, yAt, src, uvAt, 2 * pairs);
    forall c | 0 <= c < 2 * pairs ensures a[c] == b[c] {
      assert QuadFrom(dst, to, src, yAt, uvAt, c / 2);
      assert c == 2 * (c / 2) || c == 2 * (c / 2) + 1;
    }
  }

  /** One line of the repacking. */
  method Nv12RowToUyvy(src: array<byte>, yAt: nat, uvAt: nat, dst: array<byte>, to: nat, w: nat)
    requires src != dst && w % 2 == 0
    requires yAt + w <= src.Length && uvAt + w <= src.Length && to + 2 * w <= dst.Length
    modifies dst
    ensures UyvyLine(dst[..], to, w) == Nv12Line(src[..], yAt, src[..], uvAt, w)
    ensures SameOutside(old(dst[..]), dst[..], to, to + 2 * w)
  {
    ghost var s, pairs, i := src[..], w / 2, 0;
    var x := 0;
    while x < w
      invariant 0 <= i <= pairs && x == 2 * i && w == 2 * pairs
      invariant forall k :: 0 <= k < i ==> QuadFrom(dst, to, s, yAt, uvAt, k)
      invariant forall j :: 0 <= j < dst.Length && (j < to || to + 2 * w <= j) ==> dst[j] == old(dst[j])
    {
      var y0, y1, uvCol := src[yAt + x], src[yAt + (x + 1)], x / 2;
      var u, v := src[uvAt + uvCol * 2], src[uvAt + uvCol * 2 + 1];
      label L:
      PutQuad(dst, to + x * 2, u, y0, v, y1);
      forall k | 0 <= k < i ensures QuadFrom(dst, to, s, yAt, uvAt, k) {
        assert old@L(QuadFrom(dst, to, s, yAt, uvAt, k));
      }
      x, i := x + 2, i + 1;
    }
    QuadsMakeLine(dst, to, s, yAt, uvAt, pairs);
  }

  lemma UyvyLineFramed(before: seq<byte>, after: seq<byte>, lo: nat, hi: nat, at: nat, w: nat)
    requires SameOutside(before, after, lo, hi)
    requires w % 2 == 0 && at + 2 * w <= |before| && (at + 2 * w <= lo || hi <= at)
    ensures UyvyLine(after, at, w) == UyvyLine(before, at, w)
  {
    var x, y := UyvyLine(after, at, w), UyvyLine(before, at, w);
    forall c | 0 <= c < w ensures x[c] == y[c] {
      var k := at + 4 * (c / 2);
      assert after[k] == before[k] && after[k + 1] == before[k + 1];
      assert after[k + 2] == before[k + 2] && after[k + 3] == before[k + 3];
    }
  }

  /** The first n UYVY lines carry the samples. */
  ghost predicate Repacked(d: seq<byte>, w: nat, h: nat, lines: seq<seq<Yuv>>, n: nat)
    requires w % 2 == 0 && Holds(Capture.PackedPairs(d, w), h, 2 * w) && n <= h == |lines|
  {
    forall r :: 0 <= r < n ==>
      RowFits(Capture.PackedPairs(d, w), r, 2 * w) && UyvyLine(d, Times(r, 2 * w), w) == lines[r]
  }

  lemma SameRoom(before: seq<byte>, after: seq<byte>, w: nat, h: nat)
    requires |before| == |after| && Holds(Capture.PackedPairs(before, w), h, 2 * w)
    ensures Holds(Capture.PackedPairs(after, w), h, 2 * w)
  {
    forall r | 0 <= r < h ensures RowFits(Capture.PackedPairs(after, w), r, 2 * w) {
      assert RowFits(Capture.PackedPairs(before, w), r, 2 * w);
    }
  }

  lemma RepackNext(before: seq<byte>, after: seq<byte>, w: nat, h: nat, lines: seq<seq<Yuv>>, n: nat)
    requires w % 2 == 0 && Holds(Capture.PackedPairs(before, w), h, 2 * w) && n < h == |lines|
    requires Repacked(before, w, h, lines, n)
    requires SameOutside(before, after, Times(n, 2 * w), Times(n, 2 * w) + 2 * w)
    requires Times(n, 2 * w) + 2 * w <= |after| && UyvyLine(after, Times(n, 2 * w), w) == lines[n]
    ensures Holds(Capture.PackedPairs(after, w), h, 2 * w) && Repacked(after, w, h, lines, n + 1)
  {
    SameRoom(before, after, w, h);
    var p := Capture.PackedPairs(after, w);
    forall r | 0 <= r < n + 1 ensures RowFits(p, r, 2 * w) && UyvyLine(after, Times(r, 2 * w), w) == lines[r] {
      assert RowFits(Capture.PackedPairs(before, w), r, 2 * w);
      if r < n {
        TimesApart(r, n, 2 * w);
        UyvyLineFramed(before, after, Times(n, 2 * w), Times(n, 2 * w) + 2 * w, Times(r, 2 * w), w);
      }
    }
  }

  lemma RepackedAll(d: seq<byte>, w: nat, h: nat, lines: seq<seq<Yuv>>)
    requires w % 2 == 0 && Holds(Capture.PackedPairs(d, w), h, 2 * w) && h == |lines|
    requires Repacked(d, w, h, lines, h)
    ensures UyvyPicture(Capture.PackedPairs(d, w), w, h) == lines
  {
    var shown := UyvyPicture(Capture.PackedPairs(d, w), w, h);
    forall r | 0 <= r < h ensures shown[r] == lines[r] { }
  }

  /** One turn of the repacking's loop. */
  method RepackRow(src: array<byte>, dst: array<byte>, w: nat, h: nat, y: nat, ghost lines: seq<seq<Yuv>>)
    requires src != dst && w % 2 == 0 && y < h
    requires Nv12Holds(Capture.LumaOf(src[..], w), Capture.ChromaOf(src[..], w, h), w, h)
    requires lines == Nv12Picture(Capture.LumaOf(src[..], w), Capture.ChromaOf(src[..], w, h), w, h)
    requires Holds(Capture.PackedPairs(dst[..], w), h, 2 * w) && Repacked(dst[..], w, h, lines, y)
    modifies dst
    ensures Holds(Capture.PackedPairs(dst[..], w), h, 2 * w) && Repacked(dst[..], w, h, lines, y + 1)
    ensures forall j :: Times(h, 2 * w) <= j < dst.Length ==> dst[j] == old(dst[j])
  {
    ghost var luma, chroma := Capture.LumaOf(src[..], w), Capture.ChromaOf(src[..], w, h);
    assert RowFits(luma, y, w) && RowFits(chroma, y / 2, 2 * ((w + 1) / 2));
    assert RowFits(Capture.PackedPairs(dst[..], w), y, 2 * w);
    ghost var before := dst[..];
    var uvPlane := Product(h, w);
    var yAt := Product(y, w);
    var uvRow := Product(y / 2, w / 2 * 2);
    var to := Product(y, 2 * w);
    Nv12RowToUyvy(src, yAt, uvPlane + uvRow, dst, to, w);
    RepackNext(before, dst[..], w, h, lines, y);
    TimesApart(y, h, 2 * w);
  }

  /** The reference repacking: what it stores, read as UYVY, is the NV12 picture, and it stores nothing else. */
  method Nv12ToUyvy(src: array<byte>, dst: array<byte>, w: nat, h: nat)
    requires src != dst && w % 2 == 0
    requires Nv12Holds(Capture.LumaOf(src[..], w), Capture.ChromaOf(src[..], w, h), w, h)
    requires Holds(Capture.PackedPairs(dst[..], w), h, 2 * w)
    modifies dst
    ensures Holds(Capture.PackedPairs(dst[..], w), h, 2 * w)
    ensures UyvyPicture(Capture.PackedPairs(dst[..], w), w, h) ==
            Nv12Picture(Capture.LumaOf(src[..], w), Capture.ChromaOf(src[..], w, h), w, h)
    ensures forall j :: Times(h, 2 * w) <= j < dst.Length ==> dst[j] == old(dst[j])
  {
    ghost var lines := Nv12Picture(Capture.LumaOf(src[..], w), Capture.ChromaOf(src[..], w, h), w, h);
    var y := 0;
    while y < h
      invariant 0 <= y <= h && Holds(Capture.PackedPairs(dst[..], w), h, 2 * w)
      invariant Repacked(dst[..], w, h, lines, y)
      invariant forall j :: Times(h, 2 * w) <= j < dst.Length ==> dst[j] == old(dst[j])
    {
      RepackRow(src, dst, w, h, y, lines);
      y := y + 1;
    }
    RepackedAll(dst[..], w, h, lines);
  }

  /** Repacked and decoded equals decoded directly, byte for byte. */
  method RepackThenDecode(src: array<byte>, middle: array<byte>, viaUyvy: array<byte>, direct: array<byte>,
                          w: nat, h: nat)
    requires w % 2 == 0 && viaUyvy != direct && middle !in {src, viaUyvy, direct} && src !in {viaUyvy, direct}
    requires Nv12Holds(Capture.LumaOf(src[..], w), Capture.ChromaOf(src[..], w, h), w, h)
    requires Holds(Capture.PackedPairs(middle[..], w), h, 2 * w)
    requires CanvasFits(Packed(w, h), direct.Length) && viaUyvy[..] == direct[..]
    modifies middle, viaUyvy, direct
    ensures viaUyvy[..] == direct[..]
  {
    ghost var first, s := direct[..], src[..];
    ghost var picture := Nv12Picture(Capture.LumaOf(s, w), Capture.ChromaOf(s, w, h), w, h);
    Nv12ToUyvy(src, middle, w, h);
    Capture.ConvertUyvyToBgra(middle, w, h, viaUyvy);
    Capture.ConvertNv12ToBgra(src, w, h, direct);
    PaintedDetermines(first, viaUyvy[..], direct[..], Packed(w, h), ColouredPicture(picture, Capture.YuvToRgb));
  }
}
