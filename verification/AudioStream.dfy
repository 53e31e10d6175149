/**
 What the audio ring of the PipeWire output is for, as a value: a bounded queue of
 interleaved stereo samples that drops its oldest samples, between a writer of whole
 frames and a device callback that takes whole frames.

 The bound is an odd number of samples (the ring keeps one of its 9600 places empty), so
 an overflow leaves half a frame at the front and swaps the channels from there on.
 */
module AudioStream {
  /** Samples are only ever copied, so their 16-bit range plays no part. */
  type sample = int

  /** Evenness by recursion, which keeps the solver away from division. */
  ghost predicate Even(n: nat) { n == 0 || !Even(n - 1) }

  lemma {:induction false} EvenMeansDivisible(n: nat)
    ensures Even(n) <==> n % 2 == 0
  {
    if n == 0 {
    } else {
      EvenMeansDivisible(n - 1);
    }
  }

  lemma {:induction false} EvenSum(a: nat, b: nat)
    ensures Even(a + b) <==> (Even(a) <==> Even(b))
  {
    if b == 0 {
    } else {
      EvenSum(a, b - 1);
    }
  }

  lemma TwiceIsEven(k: nat)
    ensures Even(2 * k)
  {
    EvenSum(k, k);
  }

  function Newest<T>(s: seq<T>, n: nat): (r: seq<T>)
    ensures |r| == if |s| <= n then |s| else n
  {
    if |s| <= n then s else s[|s| - n..]
  }

  /** One device callback: where its samples came from in the input, the samples, and the silence after them. */
  datatype Chunk = Chunk(start: nat, samples: seq<sample>, silence: nat)

  /**
   The history since the device was opened. `lost` counts overwritten samples;
   `overflowed` says whether samples were lost since the ring was last empty.
   */
  datatype Stream = Stream(written: seq<sample>, contents: seq<sample>, lost: nat, overflowed: bool,
                           played: seq<Chunk>)

  const OPENED := Stream([], [], 0, false, [])

  function Write(bound: nat, s: Stream, input: seq<sample>): Stream {
    var all := s.contents + input;
    Stream(s.written + input, Newest(all, bound), s.lost + |all| - |Newest(all, bound)|,
           |all| > bound || s.overflowed, s.played)
  }

  function Play(s: Stream, frames: nat): Stream {
    var n := if 2 * frames <= |s.contents| then 2 * frames else |s.contents|;
    s.(contents := s.contents[n..],
       overflowed := s.overflowed && n < |s.contents|,
       played := s.played + [Chunk(if |s.written| >= |s.contents| then |s.written| - |s.contents| else 0,
                                   s.contents[..n], 2 * frames - n)])
  }

  datatype Op = WriteFrames(input: seq<sample>) | Callback(frames: nat)

  ghost predicate WholeFrames(ops: seq<Op>) {
    forall op :: op in ops && op.WriteFrames? ==> Even(|op.input|)
  }

  function Step(bound: nat, s: Stream, op: Op): Stream {
    match op
    case WriteFrames(input) => Write(bound, s, input)
    case Callback(frames) => Play(s, frames)
  }

  function Run(bound: nat, ops: seq<Op>): Stream {
    if ops == [] then OPENED else Step(bound, Run(bound, ops[..|ops| - 1]), ops[|ops| - 1])
  }

  function Samples(chunks: seq<Chunk>): seq<sample> {
    if chunks == [] then [] else Samples(chunks[..|chunks| - 1]) + chunks[|chunks| - 1].samples
  }

  function Inputs(ops: seq<Op>): seq<sample> {
    if ops == [] then []
    else Inputs(ops[..|ops| - 1]) + (if ops[|ops| - 1].WriteFrames? then ops[|ops| - 1].input else [])
  }

  /** Counts and parities: half a frame is in the ring exactly after an overflow. */
  ghost predicate Counts(bound: nat, s: Stream) {
    && |s.contents| <= bound && |s.contents| <= |s.written|
    && |s.written| == |Samples(s.played)| + s.lost + |s.contents|
    && Even(|s.written|)
    && (s.overflowed <==> !Even(|s.contents|))
    && (s.overflowed ==> s.lost > 0)
  }

  /** The samples in the ring are always the newest of the input. */
  predicate NewestOfInput(s: Stream) {
    |s.contents| <= |s.written| && s.contents == s.written[|s.written| - |s.contents|..]
  }

  /** A chunk is a piece of the input, then silence, in whole frames together. */
  ghost predicate ChunkOk(written: seq<sample>, c: Chunk) {
    && c.start + |c.samples| <= |written|
    && c.samples == written[c.start..c.start + |c.samples|]
    && Even(|c.samples| + c.silence)
  }

  ghost predicate WholeChunk(c: Chunk) { Even(c.start) && Even(|c.samples|) && Even(c.silence) }

  /** Everything played so far is the input without gaps, cut at frame boundaries. */
  ghost predicate InOrder(s: Stream) {
    s.written == Samples(s.played) + s.contents && (forall c :: c in s.played ==> WholeChunk(c))
  }

  ghost predicate Inv(bound: nat, s: Stream) {
    && Counts(bound, s)
    && NewestOfInput(s)
    && (forall c :: c in s.played ==> ChunkOk(s.written, c))
    && (s.lost == 0 ==> InOrder(s))
  }

  lemma WriteCounts(bound: nat, s: Stream, input: seq<sample>)
    requires !Even(bound) && Counts(bound, s) && Even(|input|)
    ensures Counts(bound, Write(bound, s, input))
  {
    var s', n := Write(bound, s, input), |s.contents| + |input|;
    EvenSum(|s.contents|, |input|);
    EvenSum(|s.written|, |input|);
    assert |s'.written| == |s.written| + |input|;
    if n <= bound {
      assert |s'.contents| == n && s'.lost == s.lost && s'.overflowed == s.overflowed;
    } else {
      assert |s'.contents| == bound && s'.lost == s.lost + n - bound && s'.overflowed;
    }
  }

  /** The part of the counts that the ring's positions show. */
  ghost predicate PhaseOk(bound: nat, s: Stream) {
    |s.contents| <= bound && (s.overflowed <==> !Even(|s.contents|))
  }

  lemma WriteKeepsPhase(bound: nat, s: Stream, input: seq<sample>)
    requires !Even(bound) && PhaseOk(bound, s) && Even(|input|)
    ensures PhaseOk(bound, Write(bound, s, input))
  {
    EvenSum(|s.contents|, |input|);
  }

  lemma PlayKeepsPhase(bound: nat, s: Stream, frames: nat)
    requires PhaseOk(bound, s)
    ensures PhaseOk(bound, Play(s, frames))
  {
    if 2 * frames <= |s.contents| {
      TwiceIsEven(frames);
      EvenSum(|Play(s, frames).contents|, 2 * frames);
    }
  }

  lemma SuffixExtends(w: seq<sample>, c: seq<sample>, input: seq<sample>)
    requires |c| <= |w| && c == w[|w| - |c|..]
    ensures c + input == (w + input)[|w + input| - |c + input|..]
  {
    assert (w + input)[|w| - |c|..] == w[|w| - |c|..] + input;
  }

  lemma WriteNewest(bound: nat, s: Stream, input: seq<sample>)
    requires NewestOfInput(s)
    ensures NewestOfInput(Write(bound, s, input))
  {
    var w, all := s.written + input, s.contents + input;
    SuffixExtends(s.written, s.contents, input);
    var r := Newest(all, bound);
    assert w[|w| - |all|..][|all| - |r|..] == w[|w| - |r|..];
  }

  lemma ChunkStays(written: seq<sample>, input: seq<sample>, c: Chunk)
    requires ChunkOk(written, c)
    ensures ChunkOk(written + input, c)
  {
    assert (written + input)[c.start..c.start + |c.samples|] == written[c.start..c.start + |c.samples|];
  }

  lemma WriteKeepsInv(bound: nat, s: Stream, input: seq<sample>)
    requires !Even(bound) && Inv(bound, s) && Even(|input|)
    ensures Inv(bound, Write(bound, s, input))
  {
    var s' := Write(bound, s, input);
    WriteCounts(bound, s, input);
    WriteNewest(bound, s, input);
    forall c | c in s'.played ensures ChunkOk(s'.written, c) {
      ChunkStays(s.written, input, c);
    }
    if s'.lost == 0 { WriteInOrder(bound, s, input); }
  }

  lemma WriteInOrder(bound: nat, s: Stream, input: seq<sample>)
    requires InOrder(s) && Write(bound, s, input).lost == 0
    ensures InOrder(Write(bound, s, input))
  {
    assert s.written + input == Samples(s.played) + (s.contents + input);
  }

  lemma PlayCounts(bound: nat, s: Stream, frames: nat)
    requires Counts(bound, s)
    ensures Counts(bound, Play(s, frames))
    ensures Samples(Play(s, frames).played) == Samples(s.played) + Play(s, frames).played[|s.played|].samples
  {
    var s' := Play(s, frames);
    assert s'.played[..|s'.played| - 1] == s.played;
    if |s'.contents| > 0 {
      assert |s.contents| == |s'.contents| + 2 * frames;
      TwiceIsEven(frames);
      EvenSum(|s'.contents|, 2 * frames);
    }
  }

  lemma PlayedChunk(bound: nat, s: Stream, frames: nat)
    requires Counts(bound, s) && NewestOfInput(s)
    ensures ChunkOk(s.written, Play(s, frames).played[|s.played|])
    ensures NewestOfInput(Play(s, frames))
    ensures Even(Play(s, frames).played[|s.played|].start) <==> Even(|s.contents|)
    ensures !s.overflowed ==> WholeChunk(Play(s, frames).played[|s.played|])
  {
    var c := Play(s, frames).played[|s.played|];
    assert |c.samples| + c.silence == 2 * frames;
    assert |s.written| == c.start + |s.contents|;
    TwiceIsEven(frames);
    EvenSum(c.start, |s.contents|);
    EvenSum(|c.samples|, c.silence);
  }

  lemma PlayKeepsInv(bound: nat, s: Stream, frames: nat)
    requires Inv(bound, s)
    ensures Inv(bound, Play(s, frames))
  {
    var s' := Play(s, frames);
    PlayCounts(bound, s, frames);
    PlayedChunk(bound, s, frames);
    forall c | c in s'.played ensures ChunkOk(s.written, c) {
      assert c in s.played || c == s'.played[|s.played|];
    }
    if s.lost == 0 { PlayInOrder(bound, s, frames); }
  }

  lemma Reassociate(a: seq<sample>, b: seq<sample>, c: seq<sample>)
    ensures a + (b + c) == (a + b) + c
  {
  }

  lemma PlayedThenRest(bound: nat, s: Stream, frames: nat)
    requires Counts(bound, s) && s.written == Samples(s.played) + s.contents
    ensures s.written == Samples(Play(s, frames).played) + Play(s, frames).contents
  {
    var c := Play(s, frames).played[|s.played|].samples;
    var rest := Play(s, frames).contents;
    PlayCounts(bound, s, frames);
    assert s.contents == c + rest;
    Reassociate(Samples(s.played), c, rest);
  }

  lemma PlayInOrder(bound: nat, s: Stream, frames: nat)
    requires Counts(bound, s) && NewestOfInput(s) && InOrder(s) && s.lost == 0
    ensures InOrder(Play(s, frames))
  {
    PlayedThenRest(bound, s, frames);
    PlayedChunk(bound, s, frames);
    var s' := Play(s, frames);
    forall d | d in s'.played ensures WholeChunk(d) {
      assert d in s.played || d == s'.played[|s.played|];
    }
  }

  lemma {:induction false} RunInv(bound: nat, ops: seq<Op>)
    requires !Even(bound) && WholeFrames(ops)
    ensures Inv(bound, Run(bound, ops))
    ensures Run(bound, ops).written == Inputs(ops)
  {
    if ops == [] {
    } else {
      var before, op := ops[..|ops| - 1], ops[|ops| - 1];
      RunInv(bound, before);
      match op
      case WriteFrames(input) => WriteKeepsInv(bound, Run(bound, before), input);
      case Callback(frames) => PlayKeepsInv(bound, Run(bound, before), frames);
    }
  }

  /** Every sample written was played, was overwritten, or is still in the ring. */
  lemma SamplesAreConserved(bound: nat, ops: seq<Op>)
    requires !Even(bound) && WholeFrames(ops)
    ensures var s := Run(bound, ops);
            && |Inputs(ops)| == |Samples(s.played)| + s.lost + |s.contents|
            && |s.contents| <= bound && |s.contents| <= |Inputs(ops)|
            && s.contents == Inputs(ops)[|Inputs(ops)| - |s.contents|..]
            && (forall c :: c in s.played ==> ChunkOk(Inputs(ops), c))
  {
    RunInv(bound, ops);
  }

  /** A callback is padded with silence only when it emptied the ring. */
  lemma SilenceOnlyWhenDry(s: Stream, frames: nat)
    ensures var c := Play(s, frames).played[|s.played|];
            && |c.samples| + c.silence == 2 * frames
            && (c.silence > 0 ==> Play(s, frames).contents == [] && !Play(s, frames).overflowed)
  {
  }

  // ---------------------------------------------------------------- when does it overflow

  /** A write into this state finds too little room. */
  predicate Overflows(bound: nat, s: Stream, op: Op) { op.WriteFrames? && |s.contents| + |op.input| > bound }

  /** Every write of the run found enough room. */
  predicate AllFit(bound: nat, ops: seq<Op>) {
    ops == [] ||
    (AllFit(bound, ops[..|ops| - 1]) && !Overflows(bound, Run(bound, ops[..|ops| - 1]), ops[|ops| - 1]))
  }

  /** Nothing was overwritten exactly when every write found room, which a caller can check before it writes. */
  lemma {:induction false} LosesNothingIffAllFit(bound: nat, ops: seq<Op>)
    ensures Run(bound, ops).lost == 0 <==> AllFit(bound, ops)
  {
    if ops == [] {
    } else {
      LosesNothingIffAllFit(bound, ops[..|ops| - 1]);
    }
  }

  /** Some write overflowed, and the ring has not been empty since. */
  predicate OverflowedSinceEmpty(bound: nat, ops: seq<Op>) {
    ops != [] &&
    var before := ops[..|ops| - 1];
    Overflows(bound, Run(bound, before), ops[|ops| - 1]) ||
    (OverflowedSinceEmpty(bound, before) && Run(bound, ops).contents != [])
  }

  lemma OverflowFills(bound: nat, s: Stream, op: Op)
    requires bound > 0
    ensures Overflows(bound, s, op) ==> Step(bound, s, op).overflowed && Step(bound, s, op).contents != []
    ensures !Overflows(bound, s, op) && (s.overflowed ==> s.contents != []) ==>
              (Step(bound, s, op).overflowed <==> s.overflowed && Step(bound, s, op).contents != [])
  {
  }

  /** The flag of the in-phase condition is a matter of the writes' room and the callbacks' demand. */
  lemma {:induction false} OverflowedMeans(bound: nat, ops: seq<Op>)
    requires bound > 0
    ensures Run(bound, ops).overflowed <==> OverflowedSinceEmpty(bound, ops)
    ensures Run(bound, ops).overflowed ==> Run(bound, ops).contents != []
  {
    if ops == [] {
    } else {
      var before := ops[..|ops| - 1];
      OverflowedMeans(bound, before);
      OverflowFills(bound, Run(bound, before), ops[|ops| - 1]);
    }
  }

  /** It happens: one write larger than the ring, of whole frames, puts the channels out of phase. */
  lemma OverflowHappens(bound: nat, input: seq<sample>)
    requires !Even(bound) && |input| == bound + 1
    ensures var ops := [WriteFrames(input)];
            WholeFrames(ops) && Run(bound, ops).overflowed && Run(bound, ops).lost == 1
  {
    var ops := [WriteFrames(input)];
    assert ops[..0] == [];
    assert Run(bound, ops[..0]) == OPENED;
  }

  // ---------------------------------------------------------------- order and phase

  /**
   Stereo alignment: a callback plays its samples in phase (left first) exactly when no write
   has overflowed since the ring was last empty.
   */
  lemma InPhaseIffNoOverflowSinceEmpty(bound: nat, ops: seq<Op>, frames: nat)
    requires !Even(bound) && WholeFrames(ops)
    ensures var s := Run(bound, ops);
            var c := Play(s, frames).played[|s.played|];
            && (Even(c.start) <==> !OverflowedSinceEmpty(bound, ops))
            && c.start + |s.contents| == |Inputs(ops)|
  {
    RunInv(bound, ops);
    OverflowedMeans(bound, ops);
    PlayedChunk(bound, Run(bound, ops), frames);
  }

  /**
   A run in which every write found room plays the input in order, left and right together,
   with silence only in whole frames and only where the ring ran dry.
   */
  lemma WithoutOverflowPlaysTheInput(bound: nat, ops: seq<Op>)
    requires !Even(bound) && WholeFrames(ops) && AllFit(bound, ops)
    ensures var s := Run(bound, ops);
            && Samples(s.played) <= Inputs(ops)
            && Samples(s.played) + s.contents == Inputs(ops)
            && (forall c :: c in s.played ==> WholeChunk(c))
  {
    RunInv(bound, ops);
    LosesNothingIffAllFit(bound, ops);
    var s := Run(bound, ops);
    assert s.written[..|Samples(s.played)|] == Samples(s.played);
  }
}
