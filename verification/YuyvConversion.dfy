/**
 The NDI sender's YUYV to UYVY conversion: the scalar loop, the 256-bit shuffle loop with its
 scalar tail, the choice between them, and the buffer they write. The reference program's
 YUY2toUYVY is the independent third version.
 */
module YuyvConversion {
  import opened Common

  /** Every pair of neighbouring bytes exchanged. */
  function Swapped(s: seq<byte>): (t: seq<byte>)
    requires |s| % 2 == 0
    ensures |t| == |s|
    ensures forall j :: 0 <= j < |s| ==> t[j] == (if j % 2 == 0 then s[j + 1] else s[j - 1])
  {
    seq(|s|, j requires 0 <= j < |s| => if j % 2 == 0 then s[j + 1] else s[j - 1])
  }

  lemma SwapTwice(s: seq<byte>)
    requires |s| % 2 == 0
    ensures Swapped(Swapped(s)) == s
  {
    var t := Swapped(s);
    var u := Swapped(t);
    forall j | 0 <= j < |s| ensures u[j] == s[j] {
      if j % 2 == 0 { assert u[j] == t[j + 1]; } else { assert u[j] == t[j - 1]; }
    }
  }

  // ---------------------------------------------------------------- 256-bit shuffle

  const LANE := 16
  const REGISTER := 32

  /**
   _mm256_shuffle_epi8: each half of the register is permuted by itself. A mask byte with its
   high bit set gives zero; otherwise its low four bits select a byte of the same half.
   */
  function ShuffleBytes(a: seq<byte>, mask: seq<byte>): (r: seq<byte>)
    requires |a| == |mask| == REGISTER
    ensures |r| == REGISTER
    ensures forall j :: 0 <= j < REGISTER ==>
              r[j] == if mask[j] >= 128 then 0 else a[(if j < LANE then 0 else LANE) + mask[j] % 16]
  {
    seq(REGISTER, j requires 0 <= j < REGISTER =>
      if mask[j] >= 128 then 0 else a[(if j < LANE then 0 else LANE) + mask[j] % 16])
  }

  const SHUFFLE_MASK: seq<byte> := [
    1, 0, 3, 2, 5, 4, 7, 6, 9, 8, 11, 10, 13, 12, 15, 14,
    1, 0, 3, 2, 5, 4, 7, 6, 9, 8, 11, 10, 13, 12, 15, 14
  ]

  /** The mask selects the neighbour, inside the half, of every position. */
  lemma MaskSelectsNeighbour(j: nat)
    requires j < REGISTER
    ensures |SHUFFLE_MASK| == REGISTER
    ensures SHUFFLE_MASK[j] ==
            (if j % 2 == 0 then j + 1 else j - 1) - (if j < LANE then 0 else LANE)
  {
  }

  lemma ShuffleSwaps(a: seq<byte>)
    requires |a| == REGISTER
    ensures |SHUFFLE_MASK| == REGISTER && ShuffleBytes(a, SHUFFLE_MASK) == Swapped(a)
  {
    var r, t := ShuffleBytes(a, SHUFFLE_MASK), Swapped(a);
    forall j | 0 <= j < REGISTER ensures r[j] == t[j] { MaskSelectsNeighbour(j); }
  }

  // ---------------------------------------------------------------- the loops

  /** The two bytes of word i stand in dst the other way round. */
  predicate WordSwapped(src: seq<byte>, dst: seq<byte>, i: nat)
    requires 2 * i + 1 < |src| && 2 * i + 1 < |dst|
  {
    dst[2 * i] == src[2 * i + 1] && dst[2 * i + 1] == src[2 * i]
  }

  /** Words lo to hi are exchanged. */
  ghost predicate Exchanged(src: seq<byte>, dst: seq<byte>, lo: nat, hi: nat)
    requires 2 * hi <= |src| && 2 * hi <= |dst|
  {
    forall i :: lo <= i < hi ==> WordSwapped(src, dst, i)
  }

  /** The first `words` words exchanged, everything behind them as before. */
  ghost predicate Converted(src: seq<byte>, before: seq<byte>, after: seq<byte>, words: nat) {
    && 2 * words <= |src| && 2 * words <= |after| == |before|
    && Exchanged(src, after, 0, words)
    && forall j :: 2 * words <= j < |after| ==> after[j] == before[j]
  }

  lemma ConvertedIsSwapped(src: seq<byte>, before: seq<byte>, after: seq<byte>, words: nat)
    requires Converted(src, before, after, words)
    ensures after == Swapped(src[..2 * words]) + before[2 * words..]
  {
    var t := Swapped(src[..2 * words]);
    forall j | 0 <= j < 2 * words ensures after[j] == t[j] {
      assert WordSwapped(src, after, j / 2);
      assert j == 2 * (j / 2) || j == 2 * (j / 2) + 1;
    }
  }

  lemma ExchangedFurther(src: seq<byte>, first: seq<byte>, before: seq<byte>, after: seq<byte>, m: nat, n: nat)
    requires m <= n && 2 * n <= |src| && 2 * n <= |after|
    requires Converted(src, first, before, m) && |after| == |before|
    requires Exchanged(src, after, m, n)
    requires forall j :: 0 <= j < |after| && (j < 2 * m || 2 * n <= j) ==> after[j] == before[j]
    ensures Converted(src, first, after, n)
  {
    forall i | 0 <= i < n ensures WordSwapped(src, after, i) {
      if i < m { assert WordSwapped(src, before, i); }
    }
  }

  /** Exchanges the two words, four bytes, of one pixel pair. */
  method SwapPair(src: array<byte>, dst: array<byte>, ghost first: seq<byte>, at: nat, ghost word: nat)
    requires src != dst && at == 2 * word && at + 4 <= src.Length && at + 4 <= dst.Length
    requires Converted(src[..], first, dst[..], word)
    modifies dst
    ensures Converted(src[..], first, dst[..], word + 2)
  {
    ghost var before := dst[..];
    var y0, u, y1, v := src[at], src[at + 1], src[at + 2], src[at + 3];
    dst[at], dst[at + 1], dst[at + 2], dst[at + 3] := u, y0, v, y1;
    assert WordSwapped(src[..], dst[..], word) && WordSwapped(src[..], dst[..], word + 1);
    ExchangedFurther(src[..], first, before, dst[..], word, word + 2);
  }

  /** The words, two bytes each, of the (width * height) / 2 whole pairs of pixels. */
  ghost function PairWords(width: nat, height: nat): (words: nat)
    ensures words <= Times(width, height)
  {
    2 * (Times(width, height) / 2)
  }

  method ConvertScalar(src: array<byte>, dst: array<byte>, width: nat, height: nat)
    requires src != dst
    requires 2 * PairWords(width, height) <= src.Length && 2 * PairWords(width, height) <= dst.Length
    modifies dst
    ensures Converted(src[..], old(dst[..]), dst[..], PairWords(width, height))
  {
    var pixels := Product(width, height);
    var pairs := pixels / 2;
    var i, at := 0, 0;
    while i < pairs
      invariant 0 <= i <= pairs && at == 4 * i
      invariant Converted(src[..], old(dst[..]), dst[..], 2 * i)
    {
      SwapPair(src, dst, old(dst[..]), at, 2 * i);
      i, at := i + 1, at + 4;
    }
  }

  method StoreRegister(dst: array<byte>, at: nat, value: seq<byte>)
    requires |value| == REGISTER && at + REGISTER <= dst.Length
    modifies dst
    ensures dst[at..at + REGISTER] == value
    ensures forall j :: 0 <= j < dst.Length && (j < at || at + REGISTER <= j) ==> dst[j] == old(dst[j])
  {
    forall k | 0 <= k < REGISTER { dst[at + k] := value[k]; }
  }

  lemma SwappedStretch(src: seq<byte>, dst: seq<byte>, word: nat)
    requires 2 * word + REGISTER <= |src| && 2 * word + REGISTER <= |dst|
    requires dst[2 * word..2 * word + REGISTER] == Swapped(src[2 * word..2 * word + REGISTER])
    ensures Exchanged(src, dst, word, word + 16)
  {
    var d, s := dst[2 * word..2 * word + REGISTER], src[2 * word..2 * word + REGISTER];
    forall i | word <= i < word + 16 ensures WordSwapped(src, dst, i) {
      var k := i - word;
      assert d[2 * k] == s[2 * k + 1] && d[2 * k + 1] == s[2 * k];
    }
  }

  /** Loads, shuffles and stores one register, sixteen words. */
  method ShuffleRegister(src: array<byte>, dst: array<byte>, ghost first: seq<byte>, at: nat, ghost word: nat)
    requires src != dst && at == 2 * word && at + REGISTER <= src.Length && at + REGISTER <= dst.Length
    requires Converted(src[..], first, dst[..], word)
    modifies dst
    ensures Converted(src[..], first, dst[..], word + 16)
  {
    ghost var before := dst[..];
    var data := src[at..at + REGISTER];
    ShuffleSwaps(data);
    StoreRegister(dst, at, ShuffleBytes(data, SHUFFLE_MASK));
    assert src[..][at..at + REGISTER] == data && dst[..][at..at + REGISTER] == dst[at..at + REGISTER];
    SwappedStretch(src[..], dst[..], word);
    ExchangedFurther(src[..], first, before, dst[..], word, word + 16);
  }

  /** The scalar tail of the vector loop. */
  method ConvertTail(src: array<byte>, dst: array<byte>, ghost first: seq<byte>, start: nat, totalBytes: nat,
                     ghost done: nat, ghost quads: nat)
    requires src != dst && totalBytes <= src.Length && totalBytes <= dst.Length
    requires start == 4 * done && totalBytes == 4 * quads && done <= quads
    requires Converted(src[..], first, dst[..], 2 * done)
    modifies dst
    ensures Converted(src[..], first, dst[..], 2 * quads)
  {
    ghost var q := done;
    var i := start;
    while i < totalBytes
      invariant done <= q <= quads && i == 4 * q
      invariant Converted(src[..], first, dst[..], 2 * q)
    {
      SwapPair(src, dst, first, i, 2 * q);
      i, q := i + 4, q + 1;
    }
  }

  /**
   Two registers, 64 bytes, at a time, then the scalar loop from where the registers stop. The
   caller takes this path only for widths divisible by 16, so the tail is a whole number of pairs.
   */
  method ConvertAvx2(src: array<byte>, dst: array<byte>, width: nat, height: nat)
    requires src != dst && PairWords(width, height) == Times(width, height)
    requires 2 * Times(width, height) <= src.Length && 2 * Times(width, height) <= dst.Length
    modifies dst
    ensures Converted(src[..], old(dst[..]), dst[..], Times(width, height))
  {
    var pixels := Product(width, height);
    var totalBytes := 2 * pixels;
    var blocks := totalBytes / 64;
    var avxBytes := blocks * 64;
    ghost var quads, b := pixels / 2, 0;
    var i := 0;
    while i < avxBytes
      invariant 0 <= b <= blocks && i == 64 * b
      invariant Converted(src[..], old(dst[..]), dst[..], 32 * b)
    {
      ShuffleRegister(src, dst, old(dst[..]), i, 32 * b);
      ShuffleRegister(src, dst, old(dst[..]), i + 32, 32 * b + 16);
      i, b := i + 64, b + 1;
    }
    ConvertTail(src, dst, old(dst[..]), i, totalBytes, 16 * b, quads);
  }

  /** The reference: two pixels per step until all are covered, so a last odd pixel still costs four bytes. */
  method Yuy2ToUyvy(src: array<byte>, dst: array<byte>, width: nat, height: nat)
    requires src != dst
    requires 4 * ((Times(width, height) + 1) / 2) <= src.Length && 4 * ((Times(width, height) + 1) / 2) <= dst.Length
    modifies dst
    ensures Converted(src[..], old(dst[..]), dst[..], 2 * ((Times(width, height) + 1) / 2))
  {
    var totalPixels := Product(width, height);
    ghost var quads, q := (totalPixels + 1) / 2, 0;
    var i, at := 0, 0;
    while i < totalPixels
      invariant 0 <= q <= quads && totalPixels <= 2 * quads <= totalPixels + 1 && i == 2 * q && at == 4 * q
      invariant Converted(src[..], old(dst[..]), dst[..], 2 * q)
    {
      SwapPair(src, dst, old(dst[..]), at, 2 * q);
      i, at, q := i + 2, at + 4, q + 1;
    }
  }

  // ---------------------------------------------------------------- the choice

  lemma {:induction false} Sixteenfold(k: nat, n: nat)
    ensures Times(16 * k, n) == 16 * Times(k, n)
  {
    if k == 0 {
    } else {
      Sixteenfold(k - 1, n);
      SixteenMore(16 * (k - 1), n);
    }
  }

  lemma SixteenMore(k: nat, n: nat)
    ensures Times(k + 16, n) == Times(k, n) + 16 * n
  {
    FourMore(k, n);
    FourMore(k + 4, n);
    FourMore(k + 8, n);
    FourMore(k + 12, n);
  }

  lemma FourMore(k: nat, n: nat)
    ensures Times(k + 4, n) == Times(k, n) + 4 * n
  {
    assert Times(k + 1, n) == Times(k, n) + n;
    assert Times(k + 2, n) == Times(k + 1, n) + n;
    assert Times(k + 3, n) == Times(k + 2, n) + n;
  }

  /** A width divisible by 16 makes a whole number of pairs, so both loops stop at the same byte. */
  lemma WholePairs(width: nat, height: nat)
    requires width % 16 == 0
    ensures PairWords(width, height) == Times(width, height)
  {
    var k := width / 16;
    Sixteenfold(k, height);
    assert Times(width, height) == 16 * Times(k, height);
    HalfOfSixteenfold(Times(k, height));
  }

  lemma HalfOfSixteenfold(m: nat)
    ensures 16 * m / 2 == 8 * m
  {
  }

  /**
   Two destinations that start out equal, one converted by each loop, end up equal whenever
   the sender may take the vector path: the processor's features do not show in the picture.
   */
  method PathsAgree(src: array<byte>, scalar: array<byte>, vector: array<byte>, width: nat, height: nat)
    requires src != scalar && src != vector && scalar != vector && width % 16 == 0
    requires 2 * Times(width, height) <= src.Length
    requires scalar[..] == vector[..] && 2 * Times(width, height) <= scalar.Length
    modifies scalar, vector
    ensures scalar[..] == vector[..]
    ensures scalar[..] == Swapped(src[..2 * Times(width, height)]) + old(scalar[2 * Times(width, height)..])
  {
    WholePairs(width, height);
    ghost var n, s, before := Times(width, height), src[..], scalar[..];
    ConvertScalar(src, scalar, width, height);
    ConvertedIsSwapped(s, before, scalar[..], n);
    ConvertAvx2(src, vector, width, height);
    ConvertedIsSwapped(s, before, vector[..], n);
  }

  // ---------------------------------------------------------------- sending

  datatype FourCC = YUYV | UYVY | BGRA | BGRX | RGBA | RGBX | OtherFormat

  datatype FrameInfo = FrameInfo(data: array?<byte>, width: nat, height: nat, stride: nat, fourcc: FourCC,
                                 timestampNs: nat, fpsNumerator: nat, fpsDenominator: nat)

  /** What the NDI library is asked to send. */
  datatype VideoFrame = VideoFrame(bytes: seq<byte>, xres: nat, yres: nat, stride: nat, fourcc: FourCC,
                                   timecode: nat, rateN: nat, rateD: nat)

  predicate Sendable(frame: FrameInfo) {
    frame.data != null && frame.width != 0 && frame.height != 0 && frame.fourcc != OtherFormat
  }

  /** The first `words` words of t are those of s with their bytes exchanged. */
  predicate StartsSwapped(t: seq<byte>, s: seq<byte>, words: nat) {
    2 * words <= |t| && 2 * words <= |s| && t[..2 * words] == Swapped(s[..2 * words])
  }

  class VideoSender {
    var initialized: bool
    var hasAvx2: bool
    var buffer: array<byte>
    var framesSent: nat

    constructor (avx2: bool)
      ensures !initialized && hasAvx2 == avx2 && framesSent == 0 && fresh(buffer) && buffer.Length == 0
    {
      initialized, hasAvx2, framesSent := false, avx2, 0;
      buffer := new byte[0];
    }

    /** vector::resize when it grows: the old bytes stay in front, zeros follow. */
    method Grow(size: nat)
      modifies this`buffer
      ensures buffer.Length == Max(old(buffer.Length), size)
      ensures buffer == old(buffer) || fresh(buffer)
      ensures buffer[..old(buffer.Length)] == old(buffer[..])
    {
      if buffer.Length < size {
        var bigger := new byte[size](_ => 0);
        forall k | 0 <= k < buffer.Length { bigger[k] := buffer[k]; }
        buffer := bigger;
      }
    }

    /** Fills the buffer by whichever loop applies. */
    method FillBuffer(data: array<byte>, width: nat, height: nat)
      requires data != buffer && 2 * Times(width, height) <= data.Length && 2 * Times(width, height) <= buffer.Length
      modifies buffer
      ensures Converted(data[..], old(buffer[..]), buffer[..], PairWords(width, height))
    {
      if hasAvx2 && width % 16 == 0 {
        WholePairs(width, height);
        ConvertAvx2(data, buffer, width, height);
      } else {
        ConvertScalar(data, buffer, width, height);
      }
    }

    /**
     A frame is sent exactly when the sender is up, the frame has data and a size, and NDI knows
     the format. YUYV goes out as UYVY with the exchanged bytes, whichever loop made them.
     */
    method SendFrame(frame: FrameInfo) returns (sent: Option<VideoFrame>)
      requires frame.data != buffer
      requires frame.data != null && frame.fourcc == YUYV ==>
                 2 * Times(frame.width, frame.height) <= frame.data.Length
      modifies this`buffer, this`framesSent, buffer
      ensures sent.Some? <==> initialized && Sendable(frame)
      ensures framesSent == old(framesSent) + (if sent.Some? then 1 else 0)
      ensures sent.Some? ==>
                && (sent.value.xres, sent.value.yres) == (frame.width, frame.height)
                && sent.value.timecode == frame.timestampNs / 100
                && (sent.value.rateN, sent.value.rateD) == (frame.fpsNumerator, frame.fpsDenominator)
      ensures sent.Some? && frame.fourcc != YUYV ==>
                sent.value.bytes == frame.data[..] && sent.value.stride == frame.stride &&
                sent.value.fourcc == frame.fourcc && buffer == old(buffer) && buffer[..] == old(buffer[..])
      ensures sent.Some? && frame.fourcc == YUYV ==>
                sent.value.stride == 2 * frame.width && sent.value.fourcc == UYVY &&
                StartsSwapped(sent.value.bytes, frame.data[..], PairWords(frame.width, frame.height))
    {
      if !initialized || frame.data == null || frame.width == 0 || frame.height == 0 { return None; }
      var timecode := frame.timestampNs / 100;
      if frame.fourcc == YUYV {
        var pixels := Product(frame.width, frame.height);
        Grow(2 * pixels);
        ghost var before, words := buffer[..], PairWords(frame.width, frame.height);
        FillBuffer(frame.data, frame.width, frame.height);
        ConvertedIsSwapped(frame.data[..], before, buffer[..], words);
        assert StartsSwapped(buffer[..], frame.data[..], words);
        sent := Some(VideoFrame(buffer[..], frame.width, frame.height, frame.width * 2, UYVY,
                                timecode, frame.fpsNumerator, frame.fpsDenominator));
      } else if frame.fourcc == OtherFormat {
        return None;
      } else {
        sent := Some(VideoFrame(frame.data[..], frame.width, frame.height, frame.stride, frame.fourcc,
                                timecode, frame.fpsNumerator, frame.fpsDenominator));
      }
      framesSent := framesSent + 1;
    }
  }
}
