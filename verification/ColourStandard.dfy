/**
 How colours become samples: luma and colour differences of ITU-R BT.601-7 (section 2.5) and ITU-R
 BT.709-6 (section 3), from their luma weights alone, quantized to the nearest level of the limited
 (studio) or the full range. The decoders are measured against it.
 */
module ColourStandard {
  import opened Common
  import opened PixelLayouts

  datatype Rgb = Rgb(r: byte, g: byte, b: byte)

  /** The weights of red and blue in luma; green has the rest. */
  datatype Weights = Weights(r: real, b: real)

  const REC601 := Weights(0.299, 0.114)

  const REC709 := Weights(0.2126, 0.0722)

  function ExactLuma(k: Weights, c: Rgb): real {
    k.r * c.r as real + (1.0 - k.r - k.b) * c.g as real + k.b * c.b as real
  }

  /** The colour differences, scaled to the same span as a channel. */
  function BlueDifference(k: Weights, c: Rgb): real
    requires k.b < 1.0
  {
    (c.b as real - ExactLuma(k, c)) / (2.0 * (1.0 - k.b))
  }

  function RedDifference(k: Weights, c: Rgb): real
    requires k.r < 1.0
  {
    (c.r as real - ExactLuma(k, c)) / (2.0 * (1.0 - k.r))
  }

  /** No whole level is nearer to x. */
  predicate Nearest(level: int, x: real) { -0.5 <= level as real - x <= 0.5 }

  /** The sample of a colour: 219 luma and 224 chroma levels, or 255 of each; chroma is centred on 128. */
  predicate Encodes(k: Weights, full: bool, c: Rgb, p: Yuv)
    requires k.b < 1.0 && k.r < 1.0
  {
    var luma, blue, red := ExactLuma(k, c), BlueDifference(k, c), RedDifference(k, c);
    if full then Nearest(p.y, luma) && Nearest(p.u - 128, blue) && Nearest(p.v - 128, red)
    else
      && Nearest(p.y - 16, luma * 219.0 / 255.0)
      && Nearest(p.u - 128, blue * 224.0 / 255.0)
      && Nearest(p.v - 128, red * 224.0 / 255.0)
  }

  /** The nearest whole level, the lower one of two. */
  function Level(x: real): int { -(0.5 - x).Floor }

  /** A sample of a colour; BT.601 or BT.709, limited or full. */
  function Encoded(k: Weights, full: bool, c: Rgb): Yuv
    requires k == REC601 || k == REC709
  {
    var y, u, v := ExactLuma(k, c), BlueDifference(k, c), RedDifference(k, c);
    Rec601(c);
    Rec709(c);
    if full then Yuv(Level(y), 128 + Level(u), 128 + Level(v))
    else Yuv(16 + Level(y * 219.0 / 255.0), 128 + Level(u * 224.0 / 255.0), 128 + Level(v * 224.0 / 255.0))
  }

  /** Every colour has a sample in either standard and range. */
  lemma EveryColourEncodes(k: Weights, full: bool, c: Rgb)
    requires k == REC601 || k == REC709
    ensures Encodes(k, full, c, Encoded(k, full, c))
  {
  }

  /** An opaque pixel, every channel at most n levels off. */
  predicate Within(n: nat, c: Rgb, p: Bgra) {
    && p.a == 255
    && c.b - n <= p.b <= c.b + n && c.g - n <= p.g <= c.g + n && c.r - n <= p.r <= c.r + n
  }

  /** A colour is its luma and its differences. */
  lemma Rec601(c: Rgb)
    ensures var y, u, v := ExactLuma(REC601, c), BlueDifference(REC601, c), RedDifference(REC601, c);
            && 0.0 <= y <= 255.0 && -127.5 <= u <= 127.5 && -127.5 <= v <= 127.5
            && c.b as real == y + 1.772 * u && c.r as real == y + 1.402 * v
            && 0.587 * c.g as real == 0.587 * y - 0.202008 * u - 0.419198 * v
  {
  }

  lemma Rec709(c: Rgb)
    ensures var y, u, v := ExactLuma(REC709, c), BlueDifference(REC709, c), RedDifference(REC709, c);
            && 0.0 <= y <= 255.0 && -127.5 <= u <= 127.5 && -127.5 <= v <= 127.5
            && c.b as real == y + 1.8556 * u && c.r as real == y + 1.5748 * v
            && 0.7152 * c.g as real == 0.7152 * y - 0.13397432 * u - 0.33480248 * v
  {
  }
}
