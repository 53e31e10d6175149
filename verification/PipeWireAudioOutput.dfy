/**
 PipeWireAudioOutput: the ring buffer itself, updated in place under its lock by
 writeAudio and onProcess, proved to carry the `AudioStream`.
 */
module PipeWireAudioOutput {
  import opened Common
  import opened AudioStream

  /** 48000 * 2 / 10: about 100 ms of stereo at 48 kHz. One place stays empty. */
  const RING_SIZE: nat := 9600

  lemma RingSizeIsEven(n: nat)
    requires n == RING_SIZE
    ensures Even(n)
  {
    EvenMeansDivisible(n);
  }

  function Distance(size: nat, w: nat, r: nat): (n: nat)
    requires w < size && r < size
    ensures n < size
  {
    if w >= r then w - r else size - r + w
  }

  function Place(size: nat, r: nat, i: nat): (k: nat)
    requires r < size && i < size
    ensures k < size
  {
    if r + i < size then r + i else r + i - size
  }

  /** The samples from the read to the write position. */
  function Ring<T>(b: seq<T>, w: nat, r: nat): (s: seq<T>)
    requires w < |b| && r < |b|
    ensures |s| == Distance(|b|, w, r)
    ensures forall i :: 0 <= i < |s| ==> s[i] == b[Place(|b|, r, i)]
  {
    seq(Distance(|b|, w, r), i requires 0 <= i < Distance(|b|, w, r) => b[Place(|b|, r, i)])
  }

  function Mono(samples: seq<sample>, n: nat): (s: seq<sample>)
    requires n <= |samples|
    ensures |s| == 2 * n
  {
    if n == 0 then [] else Mono(samples, n - 1) + [samples[n - 1], samples[n - 1]]
  }

  ghost function FirstTwo(samples: seq<sample>, channels: nat, n: nat): (s: seq<sample>)
    requires channels >= 2 && Times(n, channels) <= |samples|
    ensures |s| == 2 * n
  {
    if n == 0 then []
    else FirstTwo(samples, channels, n - 1) + [samples[Times(n - 1, channels)], samples[Times(n - 1, channels) + 1]]
  }

  /** What the caller must supply: enough samples for the channel count it names. */
  ghost predicate Enough(samples: seq<sample>, channels: int, n: nat) {
    if channels == 1 then n <= |samples|
    else if channels > 2 then Times(n, channels) <= |samples|
    else 2 * n <= |samples|
  }

  /** Mono doubled, the first two of many channels, anything else taken as stereo. */
  ghost function Stereo(samples: seq<sample>, channels: int, n: nat): (s: seq<sample>)
    requires Enough(samples, channels, n)
    ensures |s| == 2 * n
  {
    if channels == 1 then Mono(samples, n)
    else if channels > 2 then FirstTwo(samples, channels, n)
    else samples[..2 * n]
  }

  /** Every frame of the mix is the left and right sample of the input frame in its place. */
  lemma {:induction false} StereoFrames(samples: seq<sample>, channels: int, n: nat, i: nat)
    requires Enough(samples, channels, n) && i < n
    ensures channels > 2 ==> i * channels + channels <= n * channels <= |samples|
    ensures Stereo(samples, channels, n)[2 * i] ==
            (if channels == 1 then samples[i] else if channels > 2 then samples[i * channels] else samples[2 * i])
    ensures Stereo(samples, channels, n)[2 * i + 1] ==
            (if channels == 1 then samples[i]
             else if channels > 2 then samples[i * channels + 1]
             else samples[2 * i + 1])
  {
    if channels > 2 {
      TimesIsProduct(i, channels);
      TimesIsProduct(n, channels);
      TimesApart(i, n, channels);
    }
    if i < n - 1 && (channels == 1 || channels > 2) { StereoFrames(samples, channels, n - 1, i); }
  }

  /** One step around the ring. */
  function Succ(k: nat, size: nat): (n: nat)
    requires k < size
    ensures n < size
  {
    if k + 1 == size then 0 else k + 1
  }

  lemma Wrap(k: nat, size: nat)
    requires k < size
    ensures (k + 1) % size == Succ(k, size)
  {
    if k + 1 < size { assert (k + 1) % size == k + 1; }
  }

  /** When the size is even, wrapping keeps the parity in step. */
  lemma SuccFlips(k: nat, size: nat)
    requires k < size && Even(size)
    ensures Even(Succ(k, size)) <==> !Even(k)
  {
  }

  /** With an even size and write position, the reader is odd exactly when half a frame is held. */
  lemma PhaseOfPositions(size: nat, w: nat, r: nat)
    requires w < size && r < size && Even(size) && Even(w)
    ensures Even(Distance(size, w, r)) <==> Even(r)
  {
    var n := Distance(size, w, r);
    EvenSum(r, n);
    EvenSum(size, w);
    assert r + n == w || r + n == size + w;
  }

  /** Writing one sample appends it and, when the ring is full, moves the reader on. */
  lemma PutOne<T>(b: seq<T>, w: nat, r: nat, x: T)
    requires |b| >= 2 && w < |b| && r < |b|
    ensures var w' := Succ(w, |b|);
            var r' := if w' == r then Succ(r, |b|) else r;
            && Ring(b[w := x], w', r') == Newest(Ring(b, w, r) + [x], |b| - 1)
  {
    if Succ(w, |b|) == r { PutIntoFull(b, w, r, x); } else { PutWithRoom(b, w, r, x); }
  }

  lemma PutWithRoom<T>(b: seq<T>, w: nat, r: nat, x: T)
    requires |b| >= 2 && w < |b| && r < |b| && Succ(w, |b|) != r
    ensures |Ring(b, w, r)| < |b| - 1
    ensures Ring(b[w := x], Succ(w, |b|), r) == Ring(b, w, r) + [x]
  {
    var all, after := Ring(b, w, r) + [x], Ring(b[w := x], Succ(w, |b|), r);
    assert |after| == |all|;
    forall i | 0 <= i < |all| ensures after[i] == all[i] {
      assert after[i] == b[w := x][Place(|b|, r, i)];
    }
  }

  lemma PutIntoFull<T>(b: seq<T>, w: nat, r: nat, x: T)
    requires |b| >= 2 && w < |b| && r < |b| && Succ(w, |b|) == r
    ensures |Ring(b, w, r)| == |b| - 1
    ensures Ring(b[w := x], r, Succ(r, |b|)) == (Ring(b, w, r) + [x])[1..]
  {
    var all, after := Ring(b, w, r) + [x], Ring(b[w := x], r, Succ(r, |b|));
    assert |after| == |all| - 1;
    forall i | 0 <= i < |after| ensures after[i] == all[i + 1] {
      assert after[i] == b[w := x][Place(|b|, Succ(r, |b|), i)];
      assert Place(|b|, Succ(r, |b|), i) == Place(|b|, r, i + 1);
    }
  }

  lemma TakeOne<T>(b: seq<T>, w: nat, r: nat)
    requires w < |b| && r < |b| && w != r
    ensures Ring(b, w, r)[0] == b[r] && Ring(b, w, Succ(r, |b|)) == Ring(b, w, r)[1..]
  {
  }

  lemma Flip(k: nat)
    ensures Even(k + 1) <==> !Even(k)
  {
  }

  lemma NewestTwice<T>(a: seq<T>, x: T, n: nat)
    requires n >= 1
    ensures Newest(Newest(a, n) + [x], n) == Newest(a + [x], n)
  {
  }

  lemma NewestStep<T>(before: seq<T>, write: seq<T>, i: nat, n: nat)
    requires i < |write| && n >= 1
    ensures Newest(before + write[..i + 1], n) == Newest(Newest(before + write[..i], n) + [write[i]], n)
  {
    NewestTwice(before + write[..i], write[i], n);
    assert (before + write[..i]) + [write[i]] == before + write[..i + 1];
  }

  /** The oldest of the samples on offer, as many as fit, then zeros. */
  predicate Filled(dst: seq<sample>, offered: seq<sample>, needed: nat) {
    var n := Min(needed, |offered|);
    needed <= |dst| && dst[..n] == offered[..n] && forall j :: n <= j < needed ==> dst[j] == 0
  }

  predicate SameFrom(n: nat, a: seq<sample>, b: seq<sample>) { n <= |a| == |b| && a[n..] == b[n..] }

  /** The samples of the last callback of a run. */
  function PlayedLast(s: Stream): seq<sample> {
    if s.played == [] then [] else s.played[|s.played| - 1].samples
  }

  lemma FilledAsPlayed(s: Stream, frames: nat, dst: seq<sample>)
    requires 2 * frames <= |dst| && Filled(dst, s.contents, 2 * frames)
    ensures Filled(dst, PlayedLast(Play(s, frames)), 2 * frames)
  {
  }

  class PipeWireAudioOutput {
    const buffer: array<sample>
    var writePos: nat
    var readPos: nat
    var isOpen: bool
    /** What has gone through the ring since the device was opened. */
    ghost var stream: Stream

    ghost function Bound(): int { buffer.Length - 1 }

    predicate RingOk()
      reads this
    {
      buffer.Length >= 2 && writePos < buffer.Length && readPos < buffer.Length
    }

    /** The samples in the ring, oldest first. */
    ghost function Held(): seq<sample>
      reads this, buffer
      requires RingOk()
    {
      Ring(buffer[..], writePos, readPos)
    }

    /** The positions and the buffer carry exactly the contents of the stream. */
    ghost predicate Valid()
      reads this, buffer
    {
      && RingOk()
      && Even(buffer.Length) && Even(writePos)
      && Held() == stream.contents
      && PhaseOk(Bound(), stream)
    }

    /**
     Whenever the lock is free, and no callback has overlapped an opening (AudioReopen): an odd
     read position, and only that, means an overflow since the ring was empty.
     */
    lemma ReadPositionTellsPhase()
      requires Valid()
      ensures writePos % 2 == 0
      ensures readPos % 2 == 1 <==> stream.overflowed
    {
      EvenMeansDivisible(writePos);
      EvenMeansDivisible(readPos);
      PhaseOfPositions(buffer.Length, writePos, readPos);
    }

    constructor ()
      ensures Valid() && !isOpen && stream == OPENED && buffer.Length == RING_SIZE
      ensures fresh(buffer)
    {
      buffer := new sample[RING_SIZE](_ => 0);
      writePos, readPos, isOpen := 0, 0, false;
      stream := OPENED;
      RingSizeIsEven(RING_SIZE);
    }

    method CloseDevice()
      requires Valid()
      modifies this`isOpen
      ensures Valid() && !isOpen
    {
      isOpen := false;
    }

    /**
     The three ways in which opening can fail are the environment's choice. Here no callback runs
     between connecting the stream and the end of the reset; AudioReopen says what one can do there.
     */
    method OpenDevice(loopCreated: bool, streamCreated: bool, connected: bool) returns (ok: bool)
      requires Valid()
      modifies this
      ensures Valid()
      ensures ok <==> loopCreated && streamCreated && connected
      ensures isOpen <==> ok
      ensures ok ==> stream == OPENED && writePos == 0 && readPos == 0
      ensures !ok ==> stream == old(stream) && writePos == old(writePos) && readPos == old(readPos)
    {
      if isOpen { CloseDevice(); }
      if !loopCreated { return false; }
      if !streamCreated { CloseDevice(); return false; }
      if !connected { CloseDevice(); return false; }
      writePos := 0;
      readPos := 0;
      isOpen := true;
      stream := OPENED;
      ok := true;
    }

    method UpMix(samples: seq<sample>, n: nat) returns (write: seq<sample>)
      requires n <= |samples|
      ensures write == Mono(samples, n)
    {
      var stereo := new sample[2 * n];
      for i := 0 to n
        invariant stereo[..2 * i] == Mono(samples, i)
      {
        StorePair(stereo, i, samples[i], samples[i]);
      }
      write := stereo[..];
    }

    method DownMix(samples: seq<sample>, channels: nat, n: nat) returns (write: seq<sample>)
      requires channels > 2 && Times(n, channels) <= |samples|
      ensures write == FirstTwo(samples, channels, n)
    {
      var stereo := new sample[2 * n];
      for i := 0 to n
        invariant Times(i, channels) <= Times(n, channels)
        invariant stereo[..2 * i] == FirstTwo(samples, channels, i)
      {
        TimesIsProduct(i, channels);
        TimesApart(i, n, channels);
        StorePair(stereo, i, samples[i * channels], samples[i * channels + 1]);
      }
      write := stereo[..];
    }

    method StorePair(stereo: array<sample>, i: nat, left: sample, right: sample)
      requires 2 * i + 1 < stereo.Length
      modifies stereo
      ensures stereo[..2 * (i + 1)] == old(stereo[..2 * i]) + [left, right]
    {
      stereo[i * 2] := left;
      stereo[i * 2 + 1] := right;
    }

    /** The write loop of writeAudio, under the lock. */
    method WriteSamples(write: seq<sample>)
      requires RingOk() && Even(buffer.Length)
      modifies this`writePos, this`readPos, buffer
      ensures RingOk()
      ensures Even(|write|) ==> (Even(writePos) <==> old(Even(writePos)))
      ensures Held() == Newest(old(Held()) + write, Bound())
    {
      ghost var before := Held();
      assert before + write[..0] == before;
      for i := 0 to |write|
        invariant RingOk()
        invariant Even(writePos) <==> (old(Even(writePos)) <==> Even(i))
        invariant Held() == Newest(before + write[..i], Bound())
      {
        SuccFlips(writePos, buffer.Length);
        WriteOne(write[i]);
        NewestStep(before, write, i, Bound());
        Flip(i);
      }
      assert write[..|write|] == write;
    }

    method WriteOne(x: sample)
      requires RingOk()
      modifies this`writePos, this`readPos, buffer
      ensures RingOk()
      ensures writePos == Succ(old(writePos), buffer.Length)
      ensures Held() == Newest(old(Held()) + [x], Bound())
    {
      ghost var b, w, r := buffer[..], writePos, readPos;
      PutOne(b, w, r, x);
      buffer[writePos] := x;
      writePos := Advance(writePos);
      if writePos == readPos {
        readPos := Advance(readPos);
      }
      assert buffer[..] == b[w := x];
    }

    method Advance(k: nat) returns (n: nat)
      requires k < buffer.Length
      ensures n == Succ(k, buffer.Length)
    {
      Wrap(k, buffer.Length);
      n := (k + 1) % buffer.Length;
    }

    method ToStereo(samples: seq<sample>, channels: int, n: nat) returns (write: seq<sample>)
      requires Enough(samples, channels, n)
      ensures write == Stereo(samples, channels, n)
    {
      if channels == 1 {
        write := UpMix(samples, n);
      } else if channels > 2 {
        write := DownMix(samples, channels, n);
      } else {
        write := samples[..2 * n];
      }
    }

    /** The locked part of writeAudio, with the history kept up to date. */
    method StoreFrames(write: seq<sample>)
      requires Valid() && Even(|write|)
      modifies this`writePos, this`readPos, this`stream, buffer
      ensures Valid() && stream == Write(Bound(), old(stream), write)
    {
      WriteKeepsPhase(Bound(), stream, write);
      WriteSamples(write);
      stream := Write(Bound(), stream, write);
    }

    method WriteAudio(samples: seq<sample>, channels: int, numSamples: nat) returns (ok: bool)
      requires Valid() && Enough(samples, channels, numSamples)
      modifies this`writePos, this`readPos, this`stream, buffer
      ensures Valid()
      ensures ok == isOpen
      ensures stream == if ok then Write(Bound(), old(stream), Stereo(samples, channels, numSamples)) else old(stream)
    {
      if !isOpen { return false; }
      var write := ToStereo(samples, channels, numSamples);
      TwiceIsEven(numSamples);
      StoreFrames(write);
      ok := true;
    }

    /**
     The device callback. `dst` is the memory of the dequeued buffer, null when there is no
     buffer or it carries no data; the frames to fill are limited by its size.
     */
    method OnProcess(requested: nat, dst: array?<sample>) returns (frames: nat)
      requires Valid() && dst != buffer
      modifies this`readPos, this`stream, dst
      ensures Valid()
      ensures dst == null ==> frames == 0 && readPos == old(readPos) && stream == old(stream)
      ensures dst != null ==> frames == Min(requested, dst.Length / 2) && stream == Play(old(stream), frames)
      ensures dst != null ==> Filled(dst[..], old(stream).contents, 2 * frames)
      ensures dst != null ==> SameFrom(2 * frames, dst[..], old(dst[..]))
      ensures dst != null ==> Filled(dst[..], PlayedLast(stream), 2 * frames)
    {
      if dst == null { return 0; }
      frames := Min(requested, dst.Length / 2);
      PlayFrames(dst, frames);
    }

    /** The locked part of onProcess, with the history kept up to date. */
    method PlayFrames(dst: array<sample>, frames: nat)
      requires Valid() && dst != buffer && 2 * frames <= dst.Length
      modifies this`readPos, this`stream, dst
      ensures Valid() && stream == Play(old(stream), frames)
      ensures Filled(dst[..], old(stream).contents, 2 * frames) && SameFrom(2 * frames, dst[..], old(dst[..]))
      ensures Filled(dst[..], PlayedLast(stream), 2 * frames)
    {
      PlayKeepsPhase(Bound(), stream, frames);
      var read := Deliver(dst, frames * 2);
      FilledAsPlayed(stream, frames, dst[..]);
      assert SameFrom(2 * frames, dst[..], old(dst[..]));
      stream := Play(stream, frames);
    }

    /** The part of onProcess under the lock: the oldest samples, then silence. */
    method Deliver(dst: array<sample>, needed: nat) returns (toRead: nat)
      requires RingOk() && dst != buffer && needed <= dst.Length
      modifies this`readPos, dst
      ensures RingOk()
      ensures toRead == Min(needed, |old(Held())|)
      ensures Held() == old(Held())[toRead..]
      ensures Filled(dst[..], old(Held()), needed)
      ensures dst[needed..] == old(dst[needed..])
    {
      var available := if writePos >= readPos then writePos - readPos else buffer.Length - readPos + writePos;
      toRead := Min(needed, available);
      ReadSamples(dst, toRead);
      assert dst[toRead..][needed - toRead..] == dst[needed..];
      Silence(dst, toRead, needed);
    }

    static method Silence(dst: array<sample>, from: nat, to: nat)
      requires from <= to <= dst.Length
      modifies dst
      ensures forall j :: from <= j < to ==> dst[j] == 0
      ensures dst[..from] == old(dst[..from]) && dst[to..] == old(dst[to..])
    {
      forall j | from <= j < to { dst[j] := 0; }
    }

    /** The read loop of onProcess, under the lock. */
    method ReadSamples(dst: array<sample>, toRead: nat)
      requires RingOk() && dst != buffer && toRead <= |Held()| && toRead <= dst.Length
      modifies this`readPos, dst
      ensures RingOk()
      ensures Held() == old(Held())[toRead..]
      ensures dst[..toRead] == old(Held())[..toRead]
      ensures dst[toRead..] == old(dst[toRead..])
    {
      for i := 0 to toRead
        invariant RingOk()
        invariant Held() == old(Held())[i..]
        invariant dst[..i] == old(Held())[..i]
        invariant dst[toRead..] == old(dst[toRead..])
      {
        TakeOne(buffer[..], writePos, readPos);
        dst[i] := buffer[readPos];
        readPos := Advance(readPos);
        assert dst[..i + 1] == dst[..i] + [dst[i]];
      }
    }
  }

  /** What the two threads may ask of an open device. */
  datatype Call =
    | Audio(samples: seq<sample>, channels: int, n: nat)
    | Process(requested: nat, room: nat)
    | ProcessWithoutBuffer

  ghost predicate Supplied(calls: seq<Call>) {
    forall c :: c in calls && c.Audio? ==> Enough(c.samples, c.channels, c.n)
  }

  /** The stream operation of a call: the stereo mix, or the frames asked for that there is room for. */
  ghost function OpsOf(calls: seq<Call>): seq<Op>
    requires Supplied(calls)
  {
    if calls == [] then []
    else
      var last := calls[|calls| - 1];
      OpsOf(calls[..|calls| - 1]) +
      match last
      case Audio(samples, channels, n) => [WriteFrames(Stereo(samples, channels, n))]
      case Process(requested, room) => [Callback(Min(requested, room / 2))]
      case ProcessWithoutBuffer => []
  }

  lemma {:induction false} OpsAreWholeFrames(calls: seq<Call>)
    requires Supplied(calls)
    ensures WholeFrames(OpsOf(calls))
  {
    if calls == [] {
    } else {
      var last := calls[|calls| - 1];
      OpsAreWholeFrames(calls[..|calls| - 1]);
      if last.Audio? { TwiceIsEven(last.n); }
    }
  }

  /** One call on the object is one operation on the stream. */
  method Perform(output: PipeWireAudioOutput, call: Call)
    requires output.Valid() && output.isOpen
    requires call.Audio? ==> Enough(call.samples, call.channels, call.n)
    modifies output, output.buffer
    ensures output.Valid() && output.isOpen
    ensures output.stream ==
            match call
            case Audio(samples, channels, n) => Write(output.Bound(), old(output.stream), Stereo(samples, channels, n))
            case Process(requested, room) => Play(old(output.stream), Min(requested, room / 2))
            case ProcessWithoutBuffer => old(output.stream)
  {
    match call {
      case Audio(samples, channels, n) => var _ := output.WriteAudio(samples, channels, n);
      case Process(requested, room) =>
        var dst := new sample[room];
        var _ := output.OnProcess(requested, dst);
      case ProcessWithoutBuffer => var _ := output.OnProcess(0, null);
    }
  }

  lemma RunOneMore(bound: nat, ops: seq<Op>, op: Op)
    ensures Run(bound, ops + [op]) == Step(bound, Run(bound, ops), op)
  {
    assert (ops + [op])[..|ops|] == ops;
  }

  /** The stream after one more call. */
  lemma CallIsStep(bound: nat, calls: seq<Call>)
    requires calls != [] && Supplied(calls)
    ensures var before := Run(bound, OpsOf(calls[..|calls| - 1]));
            Run(bound, OpsOf(calls)) ==
            match calls[|calls| - 1]
            case Audio(samples, channels, n) => Write(bound, before, Stereo(samples, channels, n))
            case Process(requested, room) => Play(before, Min(requested, room / 2))
            case ProcessWithoutBuffer => before
  {
    var ops := OpsOf(calls[..|calls| - 1]);
    match calls[|calls| - 1] {
      case Audio(samples, channels, n) => RunOneMore(bound, ops, WriteFrames(Stereo(samples, channels, n)));
      case Process(requested, room) => RunOneMore(bound, ops, Callback(Min(requested, room / 2)));
      case ProcessWithoutBuffer => assert ops + [] == ops;
    }
  }

  /**
   Any session of writes and callbacks on an open device: the ring has gone through the
   stream's run, so what the run promises holds of the samples the callbacks were given.
   */
  method Session(output: PipeWireAudioOutput, calls: seq<Call>)
    requires output.Valid() && output.isOpen && output.stream == OPENED && Supplied(calls)
    modifies output, output.buffer
    ensures output.Valid() && output.stream == Run(output.Bound(), OpsOf(calls))
    ensures var s := output.stream;
            |Inputs(OpsOf(calls))| == |Samples(s.played)| + s.lost + |output.Held()|
    ensures AllFit(output.Bound(), OpsOf(calls)) ==>
              Samples(output.stream.played) + output.Held() == Inputs(OpsOf(calls))
  {
    ghost var bound := output.Bound();
    for i := 0 to |calls|
      invariant output.Valid() && output.isOpen && output.stream == Run(bound, OpsOf(calls[..i]))
    {
      assert calls[..i + 1][..i] == calls[..i];
      Perform(output, calls[i]);
      CallIsStep(bound, calls[..i + 1]);
    }
    assert calls[..|calls|] == calls;
    OddBound(output.buffer.Length);
    OpsAreWholeFrames(calls);
    SamplesAreConserved(bound, OpsOf(calls));
    if AllFit(bound, OpsOf(calls)) { WithoutOverflowPlaysTheInput(bound, OpsOf(calls)); }
  }

  lemma OddBound(size: nat)
    requires size >= 1 && Even(size)
    ensures !Even(size - 1)
  {
    Flip(size - 1);
  }
}
