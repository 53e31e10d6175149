/**
 FrameQueue as an object: the arrays and indices updated by tryPush and tryPop when each
 call runs by itself. The contracts speak of the same `Contents` as the interleaved
 protocol, and the last lemmas show that a call is one uninterrupted run of the protocol.
 */
module FrameQueueObject {
  import opened Common
  import opened FrameQueueProtocol

  function Splice(pool: seq<byte>, at: nat, bytes: seq<byte>): seq<byte>
    requires at + |bytes| <= |pool|
  {
    pool[..at] + bytes + pool[at + |bytes|..]
  }

  /** The memory after a push that nothing interrupts. */
  ghost function PushAlone(cfg: Config, m: Mem, p: Push): Mem
    requires MemShape(cfg, m) && ValidPush(p)
  {
    if Next(cfg, m.tail) == m.head then m.(dropped := m.dropped + 1)
    else if !Copies(p) then m.(frames := m.frames[m.tail := p.frame], tail := Next(cfg, m.tail))
    else
      SlotInPool(cfg, m.tail);
      var at, n := Times(m.tail, cfg.frameSize), CopySize(cfg, p);
      m.(frames := m.frames[m.tail := p.frame.(data := Pool(at), size := n)],
         pool := Splice(m.pool, at, p.bytes[..n]),
         tail := Next(cfg, m.tail))
  }

  lemma PushAloneContents(cfg: Config, m: Mem, p: Push)
    requires MemShape(cfg, m) && QueueOk(cfg, m) && ValidPush(p)
    ensures var m' := PushAlone(cfg, m, p);
            var room := |Contents(cfg, m)| < cfg.capacity - 1;
            && MemShape(cfg, m') && QueueOk(cfg, m')
            && Contents(cfg, m') == (if room then Contents(cfg, m) + [Accepted(cfg, p)] else Contents(cfg, m))
            && m'.head == m.head
            && m'.dropped == m.dropped + (if room then 0 else 1)
            && (room <==> Next(cfg, m.tail) != m.head)
            && OnlyTailSlot(cfg, m, m'.(tail := m.tail, dropped := m.dropped))
  {
    FullIffOneSlotLeft(cfg, m);
    NextSlot(cfg, m.tail);
    SlotInPool(cfg, m.tail);
    var m' := PushAlone(cfg, m, p);
    if |Contents(cfg, m)| < cfg.capacity - 1 {
      var written := m'.(tail := m.tail);
      TailWriteInvisible(cfg, m, written);
      if Copies(p) {
        var at, n := Times(m.tail, cfg.frameSize), CopySize(cfg, p);
        assert m'.pool[at..at + n] == p.bytes[..n];
      }
      TailAdvances(cfg, written);
    } else {
      assert Contents(cfg, m') == Contents(cfg, m);
    }
  }

  /** The memory after a pop that nothing interrupts, and the record handed out. */
  function PopAlone(cfg: Config, m: Mem): (Mem, Option<Frame>)
    requires MemShape(cfg, m)
  {
    if m.head == m.tail then (m, None) else (m.(head := Next(cfg, m.head)), Some(m.frames[m.head]))
  }

  class FrameQueue {
    const frameSize: nat
    const capacity: nat
    const frames: array<Frame>
    const dataPool: array<byte>
    var head: nat
    var tail: nat
    var droppedFrames: nat

    ghost function Cfg(): Config { Config(capacity, frameSize) }

    ghost function Memory(): Mem
      reads this, frames, dataPool
    {
      Mem(frames[..], dataPool[..], head, tail, droppedFrames)
    }

    ghost predicate Valid()
      reads this, frames, dataPool
    {
      MemShape(Cfg(), Memory()) && QueueOk(Cfg(), Memory())
    }

    ghost function Queued(): seq<Item>
      reads this, frames, dataPool
      requires Valid()
    {
      Contents(Cfg(), Memory())
    }

    constructor (capacity: nat, frameSize: nat)
      requires capacity >= 1
      ensures Valid() && Queued() == [] && droppedFrames == 0
      ensures this.capacity == capacity && this.frameSize == frameSize
      ensures fresh(frames) && fresh(dataPool)
    {
      TimesIsProduct(capacity, frameSize);
      this.frameSize := frameSize;
      this.capacity := capacity;
      frames := new Frame[capacity](_ => EMPTY_FRAME);
      dataPool := new byte[capacity * frameSize](_ => 0);
      head, tail, droppedFrames := 0, 0, 0;
    }

    /** getDataPtr: where a slot's bytes begin in the pool; slots do not overlap. */
    method GetDataPtr(index: nat) returns (at: nat)
      requires index < capacity
      ensures at == Times(index, frameSize)
      ensures at + frameSize <= Times(capacity, frameSize)
      ensures forall other :: 0 <= other < capacity && other != index ==>
                at + frameSize <= Times(other, frameSize) || Times(other, frameSize) + frameSize <= at
    {
      TimesIsProduct(index, frameSize);
      at := index * frameSize;
      SlotInPool(Config(capacity, frameSize), index);
      forall other | 0 <= other < capacity && other != index
        ensures at + frameSize <= Times(other, frameSize) || Times(other, frameSize) + frameSize <= at
      {
        if index < other { SlotsDisjoint(Config(capacity, frameSize), index, other); }
        else { SlotsDisjoint(Config(capacity, frameSize), other, index); }
      }
    }

    method NextIndex(k: nat) returns (n: nat)
      requires k < capacity
      ensures n == Next(Cfg(), k)
    {
      NextIsRemainder(Cfg(), k);
      n := (k + 1) % capacity;
    }

    /** memcpy into the pool. */
    method CopyIn(dest: nat, bytes: seq<byte>)
      requires dest + |bytes| <= dataPool.Length
      modifies dataPool
      ensures dataPool[..] == Splice(old(dataPool[..]), dest, bytes)
    {
      forall j | 0 <= j < |bytes| { dataPool[dest + j] := bytes[j]; }
    }

    method TryPush(p: Push) returns (ok: bool)
      requires Valid() && ValidPush(p)
      modifies this`tail, this`droppedFrames, frames, dataPool
      ensures Memory() == PushAlone(Cfg(), old(Memory()), p)
      ensures Valid()
      ensures ok <==> |old(Queued())| < capacity - 1
      ensures Queued() == if ok then old(Queued()) + [Accepted(Cfg(), p)] else old(Queued())
      ensures droppedFrames == old(droppedFrames) + if ok then 0 else 1
      ensures OnlyTailSlot(Cfg(), old(Memory()), Memory().(tail := old(tail), dropped := old(droppedFrames)))
    {
      ghost var before := Memory();
      PushAloneContents(Cfg(), before, p);
      NextSlot(Cfg(), tail);
      var nextTail := NextIndex(tail);
      if nextTail == head {
        droppedFrames := droppedFrames + 1;
        return false;
      }
      frames[tail] := p.frame;
      var dest := GetDataPtr(tail);
      if p.frame.data.External? && p.frame.size > 0 {
        var copySize := Min(p.frame.size, frameSize);
        CopyIn(dest, p.bytes[..copySize]);
        frames[tail] := frames[tail].(data := Pool(dest));
        frames[tail] := frames[tail].(size := copySize);
      }
      assert frames[..] == PushAlone(Cfg(), before, p).frames;
      tail := nextTail;
      ok := true;
    }

    method TryPop() returns (frame: Option<Frame>)
      requires Valid()
      modifies this`head
      ensures (Memory(), frame) == PopAlone(Cfg(), old(Memory()))
      ensures Valid()
      ensures frame.Some? <==> old(Queued()) != []
      ensures frame.Some? ==> ItemOf(dataPool[..], frame.value) == old(Queued())[0] && Queued() == old(Queued())[1..]
      ensures frame.Some? && frame.value.data.Pool? ==>
                frame.value.data.offset == Times(old(head), frameSize) && frame.value.size <= frameSize
      ensures frame.Some? ==> Previous(Cfg(), head) == old(head)
      ensures frame.None? ==> head == old(head)
    {
      FullIffOneSlotLeft(Cfg(), Memory());
      if head == tail { return None; }
      HeadAdvances(Cfg(), Memory());
      NextSlot(Cfg(), head);
      assert RecordOk(Cfg(), Memory(), Slot(Cfg(), head, 0));
      frame := Some(frames[head]);
      head := NextIndex(head);
    }

    method Empty() returns (r: bool)
      requires Valid()
      ensures r <==> Queued() == []
    {
      FullIffOneSlotLeft(Cfg(), Memory());
      r := head == tail;
    }

    method Full() returns (r: bool)
      requires Valid()
      ensures r <==> |Queued()| == capacity - 1
    {
      FullIffOneSlotLeft(Cfg(), Memory());
      var nextTail := NextIndex(tail);
      r := nextTail == head;
    }

    method Size() returns (n: nat)
      requires Valid()
      ensures n == |Queued()|
    {
      n := if tail >= head then tail - head else capacity - head + tail;
    }
  }

  // ---------------------------------------------------------------- a call is a run of the protocol

  function ProducerSteps(n: nat): seq<Event> { seq(n, _ => Producer) }

  lemma StepThenMore(cfg: Config, s: State, n: nat)
    requires Inv(cfg, s) && n > 0
    ensures Inv(cfg, ProducerStep(cfg, s))
    ensures RunFrom(cfg, s, ProducerSteps(n)) == RunFrom(cfg, ProducerStep(cfg, s), ProducerSteps(n - 1))
  {
    StepInv(cfg, s, Producer);
    assert ProducerSteps(n)[1..] == ProducerSteps(n - 1);
  }

  lemma SpliceOne(pool: seq<byte>, at: nat, bytes: seq<byte>)
    requires bytes != [] && at + |bytes| <= |pool|
    ensures Splice(pool[at := bytes[0]], at + 1, bytes[1..]) == Splice(pool, at, bytes)
  {
    assert bytes == [bytes[0]] + bytes[1..];
  }

  ghost predicate Copying(cfg: Config, s: State) {
    && s.producer.PCopy? && s.producer.k <= CopySize(cfg, s.producer.p) <= |s.producer.p.bytes|
    && Times(s.producer.t, cfg.frameSize) + CopySize(cfg, s.producer.p) <= |s.m.pool|
  }

  /** The state once the copy under way is complete. */
  ghost function AfterCopy(cfg: Config, s: State): State
    requires Copying(cfg, s)
  {
    var PCopy(p, t, k) := s.producer;
    s.(m := s.m.(pool := Splice(s.m.pool, Times(t, cfg.frameSize) + k, p.bytes[k..CopySize(cfg, p)])),
       producer := PCopy(p, t, CopySize(cfg, p)))
  }

  lemma OneByteOnTheWay(cfg: Config, s: State)
    requires MemShape(cfg, s.m) && Copying(cfg, s) && s.producer.k < CopySize(cfg, s.producer.p)
    ensures Copying(cfg, ProducerStep(cfg, s)) && ProducerStep(cfg, s).producer.k == s.producer.k + 1
    ensures AfterCopy(cfg, ProducerStep(cfg, s)) == AfterCopy(cfg, s)
  {
    var PCopy(p, t, k) := s.producer;
    var n, at := CopySize(cfg, p), Times(t, cfg.frameSize);
    SpliceOne(s.m.pool, at + k, p.bytes[k..n]);
    assert p.bytes[k..n][0] == p.bytes[k] && p.bytes[k..n][1..] == p.bytes[k + 1..n];
  }

  /** The bytes copied one at a time add up to one block copy. */
  lemma {:induction false} CopyAlone(cfg: Config, s: State, rest: nat)
    requires Inv(cfg, s) && Copying(cfg, s)
    ensures Inv(cfg, AfterCopy(cfg, s))
    ensures RunFrom(cfg, s, ProducerSteps(CopySize(cfg, s.producer.p) - s.producer.k + rest))
         == RunFrom(cfg, AfterCopy(cfg, s), ProducerSteps(rest))
    decreases CopySize(cfg, s.producer.p) - s.producer.k
  {
    if s.producer.k == CopySize(cfg, s.producer.p) {
      assert AfterCopy(cfg, s) == s by {
        assert Splice(s.m.pool, Times(s.producer.t, cfg.frameSize) + s.producer.k, []) == s.m.pool;
      }
    } else {
      OneByteOnTheWay(cfg, s);
      StepThenMore(cfg, s, CopySize(cfg, s.producer.p) - s.producer.k + rest);
      CopyAlone(cfg, ProducerStep(cfg, s), rest);
    }
  }

  /** How many atomic steps an uninterrupted push takes. */
  function PushLength(cfg: Config, m: Mem, p: Push): nat
    requires MemShape(cfg, m)
  {
    if Next(cfg, m.tail) == m.head then 3
    else if Copies(p) then CopySize(cfg, p) + 7
    else 4
  }

  /** The two index loads decide between counting a drop and writing the slot. */
  function AfterLoads(cfg: Config, s: State, p: Push): State
    requires MemShape(cfg, s.m)
  {
    s.(attempts := s.attempts + 1,
       producer := if Next(cfg, s.m.tail) == s.m.head then PCountDrop(p) else PWriteRecord(p, s.m.tail))
  }

  lemma LoadsAlone(cfg: Config, s: State, p: Push, n: nat)
    requires Inv(cfg, s) && s.producer.PIdle? && ValidPush(p) && n >= 2
    ensures Inv(cfg, AfterLoads(cfg, s, p))
    ensures RunFrom(cfg, s, [CallPush(p)] + ProducerSteps(n)) ==
            RunFrom(cfg, AfterLoads(cfg, s, p), ProducerSteps(n - 2))
  {
    var s0 := Apply(cfg, s, CallPush(p));
    StepInv(cfg, s, CallPush(p));
    assert ([CallPush(p)] + ProducerSteps(n))[1..] == ProducerSteps(n);
    StepThenMore(cfg, s0, n);
    StepThenMore(cfg, ProducerStep(cfg, s0), n - 1);
  }

  lemma DropAlone(cfg: Config, s: State)
    requires Inv(cfg, s) && s.producer.PCountDrop?
    ensures var last := RunFrom(cfg, s, ProducerSteps(1));
            last.m == s.m.(dropped := s.m.dropped + 1) && last.producer.PIdle?
  {
    StepThenMore(cfg, s, 1);
  }

  lemma WriteAlone(cfg: Config, s: State)
    requires Inv(cfg, s) && s.producer.PWriteRecord? && Next(cfg, s.m.tail) != s.m.head && !Copies(s.producer.p)
    ensures var last := RunFrom(cfg, s, ProducerSteps(2));
            last.m == PushAlone(cfg, s.m, s.producer.p) && last.producer.PIdle?
  {
    StepThenMore(cfg, s, 2);
    StepThenMore(cfg, ProducerStep(cfg, s), 1);
  }

  lemma WriteAndCopyAlone(cfg: Config, s: State)
    requires Inv(cfg, s) && s.producer.PWriteRecord? && Next(cfg, s.m.tail) != s.m.head && Copies(s.producer.p)
    ensures var last := RunFrom(cfg, s, ProducerSteps(CopySize(cfg, s.producer.p) + 5));
            last.m == PushAlone(cfg, s.m, s.producer.p) && last.producer.PIdle?
  {
    StepThenMore(cfg, s, CopySize(cfg, s.producer.p) + 5);
    SlotInPool(cfg, s.m.tail);
    CopiedPushAlone(cfg, ProducerStep(cfg, s));
  }

  /** tryPush as an object method is the protocol's push with no step of the consumer in between. */
  lemma TryPushIsProtocolRun(cfg: Config, s: State, p: Push)
    requires Inv(cfg, s) && s.producer.PIdle? && ValidPush(p)
    ensures var last := RunFrom(cfg, s, [CallPush(p)] + ProducerSteps(PushLength(cfg, s.m, p)));
            last.m == PushAlone(cfg, s.m, p) && last.producer.PIdle?
  {
    LoadsAlone(cfg, s, p, PushLength(cfg, s.m, p));
    if Next(cfg, s.m.tail) == s.m.head {
      DropAlone(cfg, AfterLoads(cfg, s, p));
    } else if Copies(p) {
      WriteAndCopyAlone(cfg, AfterLoads(cfg, s, p));
    } else {
      WriteAlone(cfg, AfterLoads(cfg, s, p));
    }
  }

  lemma CopiedPushAlone(cfg: Config, s: State)
    requires Inv(cfg, s) && s.producer.PCopy? && s.producer.k == 0
    ensures Copying(cfg, s)
    ensures var PCopy(p, t, _) := s.producer;
            var n, at := CopySize(cfg, p), Times(t, cfg.frameSize);
            var last := RunFrom(cfg, s, ProducerSteps(n + 4));
            && last.producer.PIdle?
            && last.m == s.m.(frames := s.m.frames[t := p.frame.(data := Pool(at), size := n)],
                              pool := Splice(s.m.pool, at, p.bytes[..n]),
                              tail := Next(cfg, t))
  {
    var PCopy(p, t, _) := s.producer;
    SlotInPool(cfg, t);
    CopyAlone(cfg, s, 4);
    assert p.bytes[0..CopySize(cfg, p)] == p.bytes[..CopySize(cfg, p)];
    AfterCopyRun(cfg, AfterCopy(cfg, s));
  }

  lemma AfterCopyRun(cfg: Config, s: State)
    requires Inv(cfg, s) && s.producer.PCopy? && s.producer.k == CopySize(cfg, s.producer.p)
    ensures var PCopy(p, t, n) := s.producer;
            var last := RunFrom(cfg, s, ProducerSteps(4));
            && last.producer.PIdle?
            && last.m == s.m.(frames := s.m.frames[t := p.frame.(data := Pool(Times(t, cfg.frameSize)), size := n)],
                              tail := Next(cfg, t))
  {
    StepThenMore(cfg, s, 4);
    PointersThenCommit(cfg, ProducerStep(cfg, s));
  }

  lemma PointersThenCommit(cfg: Config, s: State)
    requires Inv(cfg, s) && s.producer.PWriteData?
    ensures var PWriteData(p, t) := s.producer;
            var last, f := RunFrom(cfg, s, ProducerSteps(3)), s.m.frames[t];
            && last.producer.PIdle?
            && last.m == s.m.(frames := s.m.frames[t := f.(data := Pool(Times(t, cfg.frameSize)),
                                                           size := CopySize(cfg, p))],
                              tail := Next(cfg, t))
  {
    StepThenMore(cfg, s, 3);
    PointerThenCommit(cfg, ProducerStep(cfg, s));
  }

  lemma PointerThenCommit(cfg: Config, s: State)
    requires Inv(cfg, s) && s.producer.PWriteSize?
    ensures var PWriteSize(p, t) := s.producer;
            var last := RunFrom(cfg, s, ProducerSteps(2));
            && last.producer.PIdle?
            && last.m == s.m.(frames := s.m.frames[t := s.m.frames[t].(size := CopySize(cfg, p))], tail := Next(cfg, t))
  {
    StepThenMore(cfg, s, 2);
    StepThenMore(cfg, ProducerStep(cfg, s), 1);
  }

  function ConsumerSteps(n: nat): seq<Event> { seq(n, _ => Consumer) }

  lemma StepThenMoreConsumer(cfg: Config, s: State, n: nat)
    requires Inv(cfg, s) && n > 0
    ensures Inv(cfg, ConsumerStep(cfg, s))
    ensures RunFrom(cfg, s, ConsumerSteps(n)) == RunFrom(cfg, ConsumerStep(cfg, s), ConsumerSteps(n - 1))
  {
    StepInv(cfg, s, Consumer);
    assert ConsumerSteps(n)[1..] == ConsumerSteps(n - 1);
  }

  /** tryPop as an object method is the protocol's pop with no step of the producer in between. */
  lemma TryPopIsProtocolRun(cfg: Config, s: State)
    requires Inv(cfg, s) && s.consumer.CIdle?
    ensures var (m', frame) := PopAlone(cfg, s.m);
            var last := RunFrom(cfg, s, [CallPop] + ConsumerSteps(if frame.None? then 2 else 5));
            last.m == m' && last.consumer.CIdle? && last.held == if frame.None? then s.held else frame
  {
    var n := if s.m.head == s.m.tail then 2 else 5;
    var s0 := Apply(cfg, s, CallPop);
    StepInv(cfg, s, CallPop);
    assert ([CallPop] + ConsumerSteps(n))[1..] == ConsumerSteps(n);
    StepThenMoreConsumer(cfg, s0, n);
    var s1 := ConsumerStep(cfg, s0);
    StepThenMoreConsumer(cfg, s1, n - 1);
    if n == 5 { ReadAlone(cfg, ConsumerStep(cfg, s1)); }
  }

  lemma ReadAlone(cfg: Config, s: State)
    requires Inv(cfg, s) && s.consumer.CReadPointer?
    ensures var last := RunFrom(cfg, s, ConsumerSteps(3));
            && last.m == s.m.(head := Next(cfg, s.m.head)) && last.consumer.CIdle?
            && last.held == Some(s.m.frames[s.m.head])
  {
    StepThenMoreConsumer(cfg, s, 3);
    ReadRestAlone(cfg, ConsumerStep(cfg, s));
  }

  lemma ReadRestAlone(cfg: Config, s: State)
    requires Inv(cfg, s) && s.consumer.CReadRest?
    ensures var CReadRest(h, data, size) := s.consumer;
            var last := RunFrom(cfg, s, ConsumerSteps(2));
            && last.m == s.m.(head := Next(cfg, h)) && last.consumer.CIdle?
            && last.held == Some(s.m.frames[h].(data := data, size := size))
  {
    StepThenMoreConsumer(cfg, s, 2);
    HeadStoreAlone(cfg, ConsumerStep(cfg, s));
  }

  lemma HeadStoreAlone(cfg: Config, s: State)
    requires Inv(cfg, s) && s.consumer.CStoreHead?
    ensures var last := RunFrom(cfg, s, ConsumerSteps(1));
            && last.m == s.m.(head := Next(cfg, s.consumer.h)) && last.consumer.CIdle?
            && last.held == Some(s.consumer.f)
  {
    StepThenMoreConsumer(cfg, s, 1);
  }
}
