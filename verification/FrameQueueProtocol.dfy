/**
 The lock-free single-producer, single-consumer frame queue as a protocol.

 One producer and one consumer share a memory (`Mem`). Every atomic access of the
 source is one step, the copy of the frame bytes is one step per byte, and a schedule
 is any sequence of events, so `Run` covers every interleaving. Each index has a
 single writer and is published with release and read with acquire, so sequentially
 consistent steps are a sound picture of the memory order.
 */
module FrameQueueProtocol {
  import opened Common

  datatype VideoFormat = VideoFormat(width: int, height: int, stride: int, pixelFormat: string,
                                     fpsNumerator: nat, fpsDenominator: nat)

  /** Where a frame's data pointer leads: nowhere, to the pusher's memory, or into the pool. */
  datatype Pointer = Null | External | Pool(offset: nat)

  datatype Frame = Frame(data: Pointer, size: nat, timestampNs: int, format: VideoFormat,
                         bufferIndex: nat, needsConversion: bool)

  const EMPTY_FRAME := Frame(Null, 0, 0, VideoFormat(0, 0, 0, "", 0, 0), 0, false)

  datatype Config = Config(capacity: nat, frameSize: nat)

  predicate ValidConfig(cfg: Config) { cfg.capacity >= 1 }

  /** The shared memory of the queue. */
  datatype Mem = Mem(frames: seq<Frame>, pool: seq<byte>, head: nat, tail: nat, dropped: nat)

  /** The argument of a push: the record, and the bytes readable behind its data pointer. */
  datatype Push = Push(frame: Frame, bytes: seq<byte>)

  predicate ValidPush(p: Push) {
    !p.frame.data.Pool? && (p.frame.data.External? ==> |p.bytes| >= p.frame.size)
  }

  // ---------------------------------------------------------------- what is queued

  /** A queued frame as a value: the record without its address, and the bytes it leads to. */
  datatype Item = Item(inPool: bool, frame: Frame, bytes: seq<byte>)

  function ItemOf(pool: seq<byte>, f: Frame): Item {
    if f.data.Pool? && f.data.offset + f.size <= |pool|
    then Item(true, f.(data := Null), pool[f.data.offset..f.data.offset + f.size])
    else Item(false, f, [])
  }

  predicate Copies(p: Push) { p.frame.data.External? && p.frame.size > 0 }

  function CopySize(cfg: Config, p: Push): nat { Min(p.frame.size, cfg.frameSize) }

  /** What the documentation promises of a push: the record and the first bytes of its data. */
  function Accepted(cfg: Config, p: Push): Item
    requires ValidPush(p)
  {
    if Copies(p)
    then Item(true, p.frame.(data := Null, size := CopySize(cfg, p)), p.bytes[..CopySize(cfg, p)])
    else Item(false, p.frame, [])
  }

  function AllAccepted(cfg: Config, ps: seq<Push>): (items: seq<Item>)
    requires forall p :: p in ps ==> ValidPush(p)
    ensures |items| == |ps|
    ensures forall i :: 0 <= i < |ps| ==> items[i] == Accepted(cfg, ps[i])
  {
    seq(|ps|, i requires 0 <= i < |ps| => Accepted(cfg, ps[i]))
  }

  ghost predicate MemShape(cfg: Config, m: Mem) {
    && ValidConfig(cfg)
    && |m.frames| == cfg.capacity
    && |m.pool| == Times(cfg.capacity, cfg.frameSize)
    && m.head < cfg.capacity && m.tail < cfg.capacity
  }

  /** size(): the distance from head to tail around the ring. */
  function Count(cfg: Config, m: Mem): (n: nat)
    requires MemShape(cfg, m)
    ensures n < cfg.capacity
  {
    if m.tail >= m.head then m.tail - m.head else cfg.capacity - m.head + m.tail
  }

  /** The slot reached by walking i places on from slot h. */
  function Slot(cfg: Config, h: nat, i: nat): (k: nat)
    requires h < cfg.capacity && i <= cfg.capacity
    ensures k < cfg.capacity
  {
    if h + i < cfg.capacity then h + i else h + i - cfg.capacity
  }

  /** One slot on around the ring. */
  function Next(cfg: Config, k: nat): (n: nat)
    requires ValidConfig(cfg)
  {
    if k + 1 == cfg.capacity then 0 else k + 1
  }

  /** The source computes it with a remainder. */
  lemma NextIsRemainder(cfg: Config, k: nat)
    requires k < cfg.capacity
    ensures Next(cfg, k) == (k + 1) % cfg.capacity
  {
    if k + 1 < cfg.capacity { assert (k + 1) % cfg.capacity == k + 1; }
  }

  function Previous(cfg: Config, k: nat): nat
    requires k < cfg.capacity
  {
    if k == 0 then cfg.capacity - 1 else k - 1
  }

  /** The abstract queue, read off the memory from head to tail. */
  function Contents(cfg: Config, m: Mem): (items: seq<Item>)
    requires MemShape(cfg, m)
    ensures |items| == Count(cfg, m)
    ensures forall i :: 0 <= i < |items| ==> items[i] == ItemOf(m.pool, m.frames[Slot(cfg, m.head, i)])
  {
    seq(Count(cfg, m), i requires 0 <= i < Count(cfg, m) => ItemOf(m.pool, m.frames[Slot(cfg, m.head, i)]))
  }

  // ---------------------------------------------------------------- the two threads

  /** Where the producer is inside tryPush. */
  datatype Producer =
    | PIdle
    | PLoadTail(p: Push)
    | PLoadHead(p: Push, t: nat)
    | PCountDrop(p: Push)
    | PWriteRecord(p: Push, t: nat)
    | PCopy(p: Push, t: nat, k: nat)
    | PWriteData(p: Push, t: nat)
    | PWriteSize(p: Push, t: nat)
    | PStoreTail(p: Push, t: nat)

  /** Where the consumer is inside tryPop; the record is read in two parts. */
  datatype Consumer =
    | CIdle
    | CLoadHead
    | CLoadTail(h: nat)
    | CReadPointer(h: nat)
    | CReadRest(h: nat, data: Pointer, size: nat)
    | CStoreHead(h: nat, f: Frame)

  /**
   The shared memory, both threads, and four auxiliary records: the pushes that
   committed, the frames handed out (as their reader sees them on return), the frame the
   consumer holds, and how many pushes were attempted.
   */
  datatype State = State(m: Mem, producer: Producer, consumer: Consumer,
                         pushed: seq<Push>, popped: seq<Item>, held: Option<Frame>, attempts: nat)

  ghost function Initial(cfg: Config): State {
    State(Mem(seq(cfg.capacity, _ => EMPTY_FRAME), seq(Times(cfg.capacity, cfg.frameSize), _ => 0), 0, 0, 0),
          PIdle, CIdle, [], [], None, 0)
  }

  datatype Event = CallPush(p: Push) | Producer | CallPop | Consumer

  ghost function ProducerStep(cfg: Config, s: State): State
    requires MemShape(cfg, s.m)
  {
    var m := s.m;
    match s.producer
    case PIdle => s
    case PLoadTail(p) => s.(producer := PLoadHead(p, m.tail))
    case PLoadHead(p, t) =>
      s.(producer := if Next(cfg, t) == m.head then PCountDrop(p) else PWriteRecord(p, t))
    case PCountDrop(p) => s.(m := m.(dropped := m.dropped + 1), producer := PIdle)
    case PWriteRecord(p, t) =>
      if t >= cfg.capacity then s else
      s.(m := m.(frames := m.frames[t := p.frame]),
         producer := if Copies(p) then PCopy(p, t, 0) else PStoreTail(p, t))
    case PCopy(p, t, k) =>
      if k >= CopySize(cfg, p) then s.(producer := PWriteData(p, t))
      else if Times(t, cfg.frameSize) + k >= |m.pool| || k >= |p.bytes| then s
      else s.(m := m.(pool := m.pool[Times(t, cfg.frameSize) + k := p.bytes[k]]), producer := PCopy(p, t, k + 1))
    case PWriteData(p, t) =>
      if t >= cfg.capacity then s else
      s.(m := m.(frames := m.frames[t := m.frames[t].(data := Pool(Times(t, cfg.frameSize)))]),
         producer := PWriteSize(p, t))
    case PWriteSize(p, t) =>
      if t >= cfg.capacity then s else
      s.(m := m.(frames := m.frames[t := m.frames[t].(size := CopySize(cfg, p))]), producer := PStoreTail(p, t))
    case PStoreTail(p, t) =>
      s.(m := m.(tail := Next(cfg, t)), producer := PIdle, pushed := s.pushed + [p])
  }

  function ConsumerStep(cfg: Config, s: State): State
    requires MemShape(cfg, s.m)
  {
    var m := s.m;
    match s.consumer
    case CIdle => s
    case CLoadHead => s.(consumer := CLoadTail(m.head))
    case CLoadTail(h) => s.(consumer := if h == m.tail then CIdle else CReadPointer(h))
    case CReadPointer(h) =>
      if h >= cfg.capacity then s else
      s.(consumer := CReadRest(h, m.frames[h].data, m.frames[h].size))
    case CReadRest(h, data, size) =>
      if h >= cfg.capacity then s else
      s.(consumer := CStoreHead(h, m.frames[h].(data := data, size := size)))
    case CStoreHead(h, f) =>
      s.(m := m.(head := Next(cfg, h)), consumer := CIdle,
         popped := s.popped + [ItemOf(m.pool, f)], held := Some(f))
  }

  /** One event; an event its thread is not ready for leaves the state alone. */
  ghost function Apply(cfg: Config, s: State, e: Event): State
    requires MemShape(cfg, s.m)
  {
    match e
    case CallPush(p) =>
      if s.producer.PIdle? && ValidPush(p) then s.(producer := PLoadTail(p), attempts := s.attempts + 1) else s
    case Producer => ProducerStep(cfg, s)
    case CallPop => if s.consumer.CIdle? then s.(consumer := CLoadHead) else s
    case Consumer => ConsumerStep(cfg, s)
  }

  // ---------------------------------------------------------------- invariant

  /** A record in a slot leads into that slot's own part of the pool, or not into the pool. */
  ghost predicate RecordOk(cfg: Config, m: Mem, k: nat)
    requires MemShape(cfg, m) && k < cfg.capacity
  {
    m.frames[k].data.Pool? ==> m.frames[k].data.offset == Times(k, cfg.frameSize) && m.frames[k].size <= cfg.frameSize
  }

  ghost predicate QueueOk(cfg: Config, m: Mem)
    requires MemShape(cfg, m)
  {
    forall i :: 0 <= i < Count(cfg, m) ==> RecordOk(cfg, m, Slot(cfg, m.head, i))
  }

  ghost predicate Copied(cfg: Config, m: Mem, p: Push, t: nat, k: nat)
    requires MemShape(cfg, m) && t < cfg.capacity
  {
    && ValidPush(p) && Copies(p) && k <= CopySize(cfg, p)
    && Times(t, cfg.frameSize) + k <= |m.pool|
    && m.pool[Times(t, cfg.frameSize)..Times(t, cfg.frameSize) + k] == p.bytes[..k]
  }

  ghost predicate ProducerOk(cfg: Config, s: State)
    requires MemShape(cfg, s.m)
  {
    var m := s.m;
    match s.producer
    case PIdle => true
    case PLoadTail(p) => ValidPush(p)
    case PLoadHead(p, t) => ValidPush(p) && t == m.tail
    case PCountDrop(p) => ValidPush(p)
    case PWriteRecord(p, t) => ValidPush(p) && t == m.tail && Count(cfg, m) + 1 < cfg.capacity
    case PCopy(p, t, k) =>
      t == m.tail && Count(cfg, m) + 1 < cfg.capacity && m.frames[t] == p.frame && Copied(cfg, m, p, t, k)
    case PWriteData(p, t) =>
      && t == m.tail && Count(cfg, m) + 1 < cfg.capacity && m.frames[t] == p.frame
      && Copied(cfg, m, p, t, CopySize(cfg, p))
    case PWriteSize(p, t) =>
      && t == m.tail && Count(cfg, m) + 1 < cfg.capacity
      && m.frames[t] == p.frame.(data := Pool(Times(t, cfg.frameSize)))
      && Copied(cfg, m, p, t, CopySize(cfg, p))
    case PStoreTail(p, t) =>
      && ValidPush(p) && t == m.tail && Count(cfg, m) + 1 < cfg.capacity
      && RecordOk(cfg, m, t) && ItemOf(m.pool, m.frames[t]) == Accepted(cfg, p)
  }

  predicate ConsumerOk(cfg: Config, s: State)
    requires MemShape(cfg, s.m)
  {
    var m := s.m;
    match s.consumer
    case CIdle => true
    case CLoadHead => true
    case CLoadTail(h) => h == m.head
    case CReadPointer(h) => h == m.head && Count(cfg, m) > 0
    case CReadRest(h, data, size) =>
      h == m.head && Count(cfg, m) > 0 && data == m.frames[h].data && size == m.frames[h].size
    case CStoreHead(h, f) => h == m.head && Count(cfg, m) > 0 && f == m.frames[h]
  }

  /** The frame the consumer holds still leads to the bytes it led to when it was popped. */
  ghost predicate HeldOk(cfg: Config, s: State)
    requires MemShape(cfg, s.m)
  {
    match s.held
    case None => s.popped == []
    case Some(f) =>
      && s.popped != [] && ItemOf(s.m.pool, f) == s.popped[|s.popped| - 1]
      && (f.data.Pool? ==>
           f.data.offset == Times(Previous(cfg, s.m.head), cfg.frameSize) && f.size <= cfg.frameSize)
  }

  ghost predicate HistoryOk(cfg: Config, s: State)
    requires MemShape(cfg, s.m)
  {
    && (forall p :: p in s.pushed ==> ValidPush(p))
    && AllAccepted(cfg, s.pushed) == s.popped + Contents(cfg, s.m)
    && s.attempts == |s.pushed| + s.m.dropped + (if s.producer.PIdle? then 0 else 1)
  }

  ghost predicate Inv(cfg: Config, s: State) {
    && MemShape(cfg, s.m)
    && QueueOk(cfg, s.m)
    && ProducerOk(cfg, s)
    && ConsumerOk(cfg, s)
    && HeldOk(cfg, s)
    && HistoryOk(cfg, s)
  }

  // ---------------------------------------------------------------- ring arithmetic

  lemma NextSlot(cfg: Config, k: nat)
    requires k < cfg.capacity
    ensures Next(cfg, k) == Slot(cfg, k, 1) < cfg.capacity
    ensures Previous(cfg, Next(cfg, k)) == k
  {
  }

  /** Two different slots share no byte of the pool, and every slot lies inside it. */
  lemma SlotsDisjoint(cfg: Config, a: nat, b: nat)
    requires a < b < cfg.capacity
    ensures Times(a, cfg.frameSize) + cfg.frameSize <= Times(b, cfg.frameSize)
    ensures Times(b, cfg.frameSize) + cfg.frameSize <= Times(cfg.capacity, cfg.frameSize)
  {
    TimesApart(a, b, cfg.frameSize);
    TimesApart(b, cfg.capacity, cfg.frameSize);
  }

  lemma SlotInPool(cfg: Config, k: nat)
    requires k < cfg.capacity
    ensures Times(k, cfg.frameSize) + cfg.frameSize <= Times(cfg.capacity, cfg.frameSize)
  {
    TimesApart(k, cfg.capacity, cfg.frameSize);
  }

  /** Full means: the queue holds all but one of its slots. */
  lemma FullIffOneSlotLeft(cfg: Config, m: Mem)
    requires MemShape(cfg, m)
    ensures Next(cfg, m.tail) == m.head <==> Count(cfg, m) + 1 == cfg.capacity
    ensures m.head == m.tail <==> Count(cfg, m) == 0
  {
    NextSlot(cfg, m.tail);
  }

  // ---------------------------------------------------------------- frame of the tail slot

  /** Byte j of the pool belongs to slot k. */
  ghost predicate InSlot(cfg: Config, k: nat, j: int) {
    Times(k, cfg.frameSize) <= j < Times(k, cfg.frameSize) + cfg.frameSize
  }

  /** m' differs from m at most in the slot at tail: its record and its part of the pool. */
  ghost predicate OnlyTailSlot(cfg: Config, m: Mem, m': Mem)
    requires MemShape(cfg, m)
  {
    && m'.head == m.head && m'.tail == m.tail && m'.dropped == m.dropped
    && |m'.frames| == |m.frames| && |m'.pool| == |m.pool|
    && (forall k :: 0 <= k < cfg.capacity && k != m.tail ==> m'.frames[k] == m.frames[k])
    && (forall j :: 0 <= j < |m.pool| && !InSlot(cfg, m.tail, j) ==> m'.pool[j] == m.pool[j])
  }

  /** A record that leads into another slot keeps its item while the tail slot is written. */
  lemma ItemElsewhere(cfg: Config, m: Mem, m': Mem, f: Frame, k: nat)
    requires MemShape(cfg, m) && OnlyTailSlot(cfg, m, m') && k < cfg.capacity && k != m.tail
    requires f.data.Pool? ==> f.data.offset == Times(k, cfg.frameSize) && f.size <= cfg.frameSize
    ensures ItemOf(m'.pool, f) == ItemOf(m.pool, f)
  {
    if f.data.Pool? {
      SlotInPool(cfg, k);
      if k < m.tail { SlotsDisjoint(cfg, k, m.tail); } else { SlotsDisjoint(cfg, m.tail, k); }
      assert m'.pool[f.data.offset..f.data.offset + f.size] == m.pool[f.data.offset..f.data.offset + f.size];
    }
  }

  lemma TailWriteInvisible(cfg: Config, m: Mem, m': Mem)
    requires MemShape(cfg, m) && OnlyTailSlot(cfg, m, m') && QueueOk(cfg, m)
    ensures MemShape(cfg, m') && QueueOk(cfg, m') && Contents(cfg, m') == Contents(cfg, m)
  {
    forall i | 0 <= i < Count(cfg, m)
      ensures Slot(cfg, m.head, i) != m.tail
      ensures Contents(cfg, m')[i] == Contents(cfg, m)[i]
    {
      assert RecordOk(cfg, m, Slot(cfg, m.head, i));
      ItemElsewhere(cfg, m, m', m.frames[Slot(cfg, m.head, i)], Slot(cfg, m.head, i));
    }
    forall i | 0 <= i < Count(cfg, m')
      ensures RecordOk(cfg, m', Slot(cfg, m'.head, i))
    {
      assert RecordOk(cfg, m, Slot(cfg, m.head, i));
    }
  }

  /**
   The always-empty slot at work: while there is room for the write in progress, the slot
   the consumer last released is not the slot being written.
   */
  lemma TailWriteKeepsOthers(cfg: Config, s: State, m': Mem)
    requires Inv(cfg, s) && OnlyTailSlot(cfg, s.m, m') && Count(cfg, s.m) + 1 < cfg.capacity
    ensures MemShape(cfg, m') && QueueOk(cfg, m') && Contents(cfg, m') == Contents(cfg, s.m)
    ensures ConsumerOk(cfg, s.(m := m')) && HeldOk(cfg, s.(m := m'))
  {
    TailWriteInvisible(cfg, s.m, m');
    if s.held.Some? {
      assert Previous(cfg, s.m.head) != s.m.tail;
      ItemElsewhere(cfg, s.m, m', s.held.value, Previous(cfg, s.m.head));
    }
  }

  // ---------------------------------------------------------------- the two commits

  lemma TailAdvances(cfg: Config, m: Mem)
    requires MemShape(cfg, m) && QueueOk(cfg, m) && Count(cfg, m) + 1 < cfg.capacity && RecordOk(cfg, m, m.tail)
    ensures var m' := m.(tail := Next(cfg, m.tail));
            && MemShape(cfg, m') && QueueOk(cfg, m')
            && Contents(cfg, m') == Contents(cfg, m) + [ItemOf(m.pool, m.frames[m.tail])]
  {
    NextSlot(cfg, m.tail);
    var m' := m.(tail := Next(cfg, m.tail));
    var n := Count(cfg, m);
    assert Count(cfg, m') == n + 1 && Slot(cfg, m.head, n) == m.tail;
    forall i | 0 <= i < n + 1
      ensures RecordOk(cfg, m', Slot(cfg, m'.head, i))
    {
      if i < n { assert RecordOk(cfg, m, Slot(cfg, m.head, i)); }
    }
  }

  lemma HeadAdvances(cfg: Config, m: Mem)
    requires MemShape(cfg, m) && QueueOk(cfg, m) && Count(cfg, m) > 0
    ensures var m' := m.(head := Next(cfg, m.head));
            && MemShape(cfg, m') && QueueOk(cfg, m')
            && Contents(cfg, m') == Contents(cfg, m)[1..]
            && Contents(cfg, m)[0] == ItemOf(m.pool, m.frames[m.head])
  {
    NextSlot(cfg, m.head);
    var m' := m.(head := Next(cfg, m.head));
    assert Count(cfg, m') == Count(cfg, m) - 1;
    forall i | 0 <= i < Count(cfg, m')
      ensures Slot(cfg, m'.head, i) == Slot(cfg, m.head, i + 1)
      ensures RecordOk(cfg, m', Slot(cfg, m'.head, i))
    {
      assert RecordOk(cfg, m, Slot(cfg, m.head, i + 1));
    }
  }

  // ---------------------------------------------------------------- every step keeps the invariant

  lemma InitialInv(cfg: Config)
    requires ValidConfig(cfg)
    ensures Inv(cfg, Initial(cfg))
  {
    SlotInPool(cfg, 0);
  }

  lemma RecordWriteInv(cfg: Config, s: State)
    requires Inv(cfg, s) && s.producer.PWriteRecord?
    ensures Inv(cfg, ProducerStep(cfg, s))
    ensures Contents(cfg, ProducerStep(cfg, s).m) == Contents(cfg, s.m)
  {
    var s' := ProducerStep(cfg, s);
    SlotInPool(cfg, s.m.tail);
    TailWriteKeepsOthers(cfg, s, s'.m);
  }

  /** One more byte of the frame is in its slot. */
  lemma CopiedGrows(cfg: Config, m: Mem, p: Push, t: nat, k: nat)
    requires MemShape(cfg, m) && t < cfg.capacity && Copied(cfg, m, p, t, k) && k < CopySize(cfg, p)
    ensures var at := Times(t, cfg.frameSize);
            && at + k < |m.pool| && k < |p.bytes|
            && Copied(cfg, m.(pool := m.pool[at + k := p.bytes[k]]), p, t, k + 1)
  {
    SlotInPool(cfg, t);
    var at := Times(t, cfg.frameSize);
    var after := m.pool[at + k := p.bytes[k]];
    assert after[at..at + k + 1] == m.pool[at..at + k] + [p.bytes[k]];
    assert p.bytes[..k + 1] == p.bytes[..k] + [p.bytes[k]];
  }

  lemma ByteInTailSlot(cfg: Config, m: Mem, k: nat, x: byte)
    requires MemShape(cfg, m) && k < cfg.frameSize
    ensures var at := Times(m.tail, cfg.frameSize) + k;
            at < |m.pool| && OnlyTailSlot(cfg, m, m.(pool := m.pool[at := x]))
  {
    SlotInPool(cfg, m.tail);
  }

  lemma OneByteInv(cfg: Config, s: State)
    requires Inv(cfg, s) && s.producer.PCopy? && s.producer.k < CopySize(cfg, s.producer.p)
    ensures Inv(cfg, ProducerStep(cfg, s))
    ensures Contents(cfg, ProducerStep(cfg, s).m) == Contents(cfg, s.m)
  {
    var PCopy(p, t, k) := s.producer;
    var s', at := ProducerStep(cfg, s), Times(t, cfg.frameSize) + k;
    CopiedGrows(cfg, s.m, p, t, k);
    ByteInTailSlot(cfg, s.m, k, p.bytes[k]);
    assert s' == s.(m := s.m.(pool := s.m.pool[at := p.bytes[k]]), producer := PCopy(p, t, k + 1));
    TailWriteKeepsOthers(cfg, s, s'.m);
  }

  lemma ByteCopyInv(cfg: Config, s: State)
    requires Inv(cfg, s) && s.producer.PCopy?
    ensures Inv(cfg, ProducerStep(cfg, s))
    ensures Contents(cfg, ProducerStep(cfg, s).m) == Contents(cfg, s.m)
  {
    if s.producer.k < CopySize(cfg, s.producer.p) { OneByteInv(cfg, s); }
  }

  lemma PointerWriteInv(cfg: Config, s: State)
    requires Inv(cfg, s) && (s.producer.PWriteData? || s.producer.PWriteSize?)
    ensures Inv(cfg, ProducerStep(cfg, s))
    ensures Contents(cfg, ProducerStep(cfg, s).m) == Contents(cfg, s.m)
  {
    var s' := ProducerStep(cfg, s);
    SlotInPool(cfg, s.m.tail);
    assert OnlyTailSlot(cfg, s.m, s'.m);
    TailWriteKeepsOthers(cfg, s, s'.m);
    assert s'.m.pool == s.m.pool;
  }

  lemma ProducerCommitInv(cfg: Config, s: State)
    requires Inv(cfg, s) && s.producer.PStoreTail?
    ensures Inv(cfg, ProducerStep(cfg, s))
    ensures Contents(cfg, ProducerStep(cfg, s).m) == Contents(cfg, s.m) + [Accepted(cfg, s.producer.p)]
  {
    var s' := ProducerStep(cfg, s);
    TailAdvances(cfg, s.m);
    assert forall p :: p in s'.pushed ==> p in s.pushed || p == s.producer.p;
    assert AllAccepted(cfg, s'.pushed) == AllAccepted(cfg, s.pushed) + [Accepted(cfg, s.producer.p)];
  }

  /** The record just popped is the one the consumer holds from now on. */
  lemma PopHolds(cfg: Config, s: State)
    requires Inv(cfg, s) && s.consumer.CStoreHead?
    ensures MemShape(cfg, ConsumerStep(cfg, s).m) && HeldOk(cfg, ConsumerStep(cfg, s))
    ensures ProducerOk(cfg, ConsumerStep(cfg, s))
  {
    NextSlot(cfg, s.m.head);
    assert RecordOk(cfg, s.m, Slot(cfg, s.m.head, 0));
  }

  /** Moving the first of q to the end of a changes nothing in their concatenation. */
  lemma MoveAcross<T>(a: seq<T>, q: seq<T>)
    requires q != []
    ensures (a + [q[0]]) + q[1..] == a + q
  {
  }

  lemma PopRecorded(cfg: Config, s: State)
    requires MemShape(cfg, s.m) && QueueOk(cfg, s.m) && ConsumerOk(cfg, s) && HistoryOk(cfg, s)
    requires s.consumer.CStoreHead?
    ensures MemShape(cfg, ConsumerStep(cfg, s).m) && HistoryOk(cfg, ConsumerStep(cfg, s))
    ensures Contents(cfg, ConsumerStep(cfg, s).m) == Contents(cfg, s.m)[1..]
    ensures ConsumerStep(cfg, s).popped == s.popped + [Contents(cfg, s.m)[0]]
  {
    HeadAdvances(cfg, s.m);
    MoveAcross(s.popped, Contents(cfg, s.m));
  }

  /** Popping moves the head past the oldest slot; a push under way only gains room. */
  lemma ConsumerCommitInv(cfg: Config, s: State)
    requires Inv(cfg, s) && s.consumer.CStoreHead?
    ensures Inv(cfg, ConsumerStep(cfg, s))
    ensures Contents(cfg, ConsumerStep(cfg, s).m) == Contents(cfg, s.m)[1..]
    ensures ConsumerStep(cfg, s).popped == s.popped + [Contents(cfg, s.m)[0]]
  {
    HeadAdvances(cfg, s.m);
    PopHolds(cfg, s);
    PopRecorded(cfg, s);
  }

  // ---------------------------------------------------------------- refinement of a bounded FIFO

  predicate PushCommits(s: State, e: Event) { e.Producer? && s.producer.PStoreTail? }

  predicate PopCommits(s: State, e: Event) { e.Consumer? && s.consumer.CStoreHead? }

  /**
   What one event may do to a FIFO of at most capacity - 1 items: a push appends at its
   tail store, a pop takes the front at its head store, nothing else changes it; a push
   turns to failure exactly when the queue is full at its load of head, a pop exactly
   when the queue is empty at its load of tail.
   */
  ghost predicate FifoStep(cfg: Config, s: State, e: Event, s': State)
    requires MemShape(cfg, s.m) && MemShape(cfg, s'.m)
  {
    var q, q' := Contents(cfg, s.m), Contents(cfg, s'.m);
    && (PushCommits(s, e) ==>
         ValidPush(s.producer.p) && |q| < cfg.capacity - 1 && q' == q + [Accepted(cfg, s.producer.p)]
         && s'.pushed == s.pushed + [s.producer.p] && s'.popped == s.popped)
    && (PopCommits(s, e) ==>
         q != [] && q' == q[1..] && s'.popped == s.popped + [q[0]] && s'.pushed == s.pushed)
    && (!PushCommits(s, e) && !PopCommits(s, e) ==>
         q' == q && s'.pushed == s.pushed && s'.popped == s.popped)
    && (e.Producer? && s.producer.PLoadHead? ==> (s'.producer.PCountDrop? <==> |q| == cfg.capacity - 1))
    && (e.Consumer? && s.consumer.CLoadTail? ==> (s'.consumer.CIdle? <==> q == []))
    && s'.m.dropped == s.m.dropped + (if e.Producer? && s.producer.PCountDrop? then 1 else 0)
  }

  lemma ConsumerRefinesFifo(cfg: Config, s: State)
    requires Inv(cfg, s)
    ensures Inv(cfg, ConsumerStep(cfg, s)) && FifoStep(cfg, s, Consumer, ConsumerStep(cfg, s))
  {
    if s.consumer.CStoreHead? { ConsumerCommitInv(cfg, s); } else { ReadRefinesFifo(cfg, s); }
  }

  /** Up to the store of the head nothing that the other thread sees changes. */
  lemma ReadRefinesFifo(cfg: Config, s: State)
    requires Inv(cfg, s) && !s.consumer.CStoreHead?
    ensures Inv(cfg, ConsumerStep(cfg, s)) && FifoStep(cfg, s, Consumer, ConsumerStep(cfg, s))
  {
    FullIffOneSlotLeft(cfg, s.m);
    assert ConsumerStep(cfg, s) == s.(consumer := ConsumerStep(cfg, s).consumer);
  }

  /** Up to the decision whether there is room. */
  lemma LoadRefinesFifo(cfg: Config, s: State)
    requires Inv(cfg, s)
    requires s.producer.PIdle? || s.producer.PLoadTail? || s.producer.PLoadHead? || s.producer.PCountDrop?
    ensures Inv(cfg, ProducerStep(cfg, s)) && FifoStep(cfg, s, Producer, ProducerStep(cfg, s))
  {
    FullIffOneSlotLeft(cfg, s.m);
    if s.producer.PCountDrop? {
      assert Contents(cfg, s.m.(dropped := s.m.dropped + 1)) == Contents(cfg, s.m);
    }
  }

  lemma ProducerRefinesFifo(cfg: Config, s: State)
    requires Inv(cfg, s)
    ensures Inv(cfg, ProducerStep(cfg, s)) && FifoStep(cfg, s, Producer, ProducerStep(cfg, s))
  {
    match s.producer
    case PWriteRecord(p, t) => RecordWriteInv(cfg, s);
    case PCopy(p, t, k) => ByteCopyInv(cfg, s);
    case PWriteData(p, t) => PointerWriteInv(cfg, s);
    case PWriteSize(p, t) => PointerWriteInv(cfg, s);
    case PStoreTail(p, t) => ProducerCommitInv(cfg, s);
    case _ => LoadRefinesFifo(cfg, s);
  }

  /** The refinement: every step of every interleaving is a step of the bounded FIFO. */
  lemma StepRefinesFifo(cfg: Config, s: State, e: Event)
    requires Inv(cfg, s)
    ensures Inv(cfg, Apply(cfg, s, e)) && FifoStep(cfg, s, e, Apply(cfg, s, e))
  {
    match e
    case CallPush(p) =>
    case CallPop =>
    case Consumer => ConsumerRefinesFifo(cfg, s);
    case Producer => ProducerRefinesFifo(cfg, s);
  }

  lemma StepInv(cfg: Config, s: State, e: Event)
    requires Inv(cfg, s)
    ensures Inv(cfg, Apply(cfg, s, e))
  {
    StepRefinesFifo(cfg, s, e);
  }

  // ---------------------------------------------------------------- whole runs

  /** The state after a schedule, from a given state. */
  ghost function RunFrom(cfg: Config, s: State, schedule: seq<Event>): State
    requires Inv(cfg, s)
    decreases |schedule|
  {
    if schedule == [] then s
    else
      StepInv(cfg, s, schedule[0]);
      RunFrom(cfg, Apply(cfg, s, schedule[0]), schedule[1..])
  }

  ghost function Run(cfg: Config, schedule: seq<Event>): State
    requires ValidConfig(cfg)
  {
    InitialInv(cfg);
    RunFrom(cfg, Initial(cfg), schedule)
  }

  lemma {:induction false} RunFromKeepsInv(cfg: Config, s: State, schedule: seq<Event>)
    requires Inv(cfg, s)
    ensures Inv(cfg, RunFrom(cfg, s, schedule))
    ensures |RunFrom(cfg, s, schedule).popped| >= |s.popped|
    decreases |schedule|
  {
    if schedule == [] {
    } else {
      StepInv(cfg, s, schedule[0]);
      StepRefinesFifo(cfg, s, schedule[0]);
      RunFromKeepsInv(cfg, Apply(cfg, s, schedule[0]), schedule[1..]);
    }
  }

  /**
   Under every interleaving: what was popped is exactly a prefix of what was pushed, in
   order, the rest is in the queue, and every attempt is popped, queued, counted as
   dropped or still under way.
   */
  lemma NothingLostOrReordered(cfg: Config, schedule: seq<Event>)
    requires ValidConfig(cfg)
    ensures var s := Run(cfg, schedule);
            && MemShape(cfg, s.m)
            && (forall p :: p in s.pushed ==> ValidPush(p))
            && s.popped + Contents(cfg, s.m) == AllAccepted(cfg, s.pushed)
            && |Contents(cfg, s.m)| <= cfg.capacity - 1
            && s.attempts == |s.popped| + |Contents(cfg, s.m)| + s.m.dropped + (if s.producer.PIdle? then 0 else 1)
  {
    InitialInv(cfg);
    RunFromKeepsInv(cfg, Initial(cfg), schedule);
    var s := Run(cfg, schedule);
    assert |AllAccepted(cfg, s.pushed)| == |s.popped + Contents(cfg, s.m)|;
  }

  lemma {:induction false} RunSplits(cfg: Config, s: State, a: seq<Event>, b: seq<Event>)
    requires Inv(cfg, s)
    ensures Inv(cfg, RunFrom(cfg, s, a))
    ensures RunFrom(cfg, s, a + b) == RunFrom(cfg, RunFrom(cfg, s, a), b)
    decreases |a|
  {
    if a == [] {
      assert a + b == b;
    } else {
      StepInv(cfg, s, a[0]);
      RunSplits(cfg, Apply(cfg, s, a[0]), a[1..], b);
      assert (a + b)[1..] == a[1..] + b;
    }
  }

  /** Which frame the consumer holds changes only when a pop commits. */
  lemma {:induction false} HeldUntilNextPop(cfg: Config, s: State, later: seq<Event>)
    requires Inv(cfg, s)
    requires |RunFrom(cfg, s, later).popped| == |s.popped|
    ensures RunFrom(cfg, s, later).held == s.held && RunFrom(cfg, s, later).popped == s.popped
    decreases |later|
  {
    if later == [] {
    } else {
      var s' := Apply(cfg, s, later[0]);
      StepRefinesFifo(cfg, s, later[0]);
      RunFromKeepsInv(cfg, s', later[1..]);
      HeldUntilNextPop(cfg, s', later[1..]);
    }
  }

  /**
   A pushed frame with data comes out with all of its record but the pointer and the size, which
   lead to the first bytes of that data in the pool; one without data comes out as it is.
   */
  predicate LeadsToPushed(cfg: Config, p: Push, f: Frame, pool: seq<byte>) {
    if p.frame.data.External? && p.frame.size > 0 then
      && f.data.Pool? && f.size == Min(p.frame.size, cfg.frameSize)
      && f.data.offset + f.size <= |pool| && f.size <= |p.bytes|
      && pool[f.data.offset..f.data.offset + f.size] == p.bytes[..f.size]
      && f == p.frame.(data := f.data, size := f.size)
    else f == p.frame
  }

  /**
   The pointer handed out by a pop leads to the bytes that were pushed, at the moment of
   the pop and after any later events of both threads, until another pop commits. The
   n-th frame popped is the n-th frame pushed.
   */
  lemma PoppedBytesStayPut(cfg: Config, schedule: seq<Event>, later: seq<Event>)
    requires ValidConfig(cfg)
    requires Run(cfg, schedule).popped != []
    requires |Run(cfg, schedule + later).popped| == |Run(cfg, schedule).popped|
    ensures var s, s' := Run(cfg, schedule), Run(cfg, schedule + later);
            var n := |s.popped|;
            && s.held.Some? && s'.held == s.held
            && n <= |s.pushed| && ValidPush(s.pushed[n - 1])
            && ItemOf(s'.m.pool, s.held.value) == Accepted(cfg, s.pushed[n - 1])
            && LeadsToPushed(cfg, s.pushed[n - 1], s.held.value, s'.m.pool)
  {
    InitialInv(cfg);
    var s := Run(cfg, schedule);
    RunFromKeepsInv(cfg, Initial(cfg), schedule);
    RunSplits(cfg, Initial(cfg), schedule, later);
    RunFromKeepsInv(cfg, s, later);
    HeldUntilNextPop(cfg, s, later);
    var n := |s.popped|;
    assert AllAccepted(cfg, s.pushed)[n - 1] == (s.popped + Contents(cfg, s.m))[n - 1] == s.popped[n - 1];
  }
}
