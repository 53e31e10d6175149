/**
 BufferIndexQueue: the frame queue's protocol carrying one integer per slot. Instead of
 proving the protocol again, every step is shown to be one or two steps of the frame
 queue on records that hold nothing but the index.
 */
module BufferIndexQueueProtocol {
  import opened Common
  import F = FrameQueueProtocol

  datatype Pusher =
    | QIdle
    | QLoadTail(i: nat)
    | QLoadHead(i: nat, t: nat)
    | QWrite(i: nat, t: nat)
    | QStoreTail(i: nat, t: nat)

  datatype Popper = RIdle | RLoadHead | RLoadTail(h: nat) | RRead(h: nat) | RStoreHead(h: nat, i: nat)

  /** The shared memory, both threads, and what was attempted, pushed, refused and popped so far. */
  datatype Queue = Queue(indices: seq<nat>, head: nat, tail: nat, pusher: Pusher, popper: Popper,
                         attempts: nat, pushed: seq<nat>, refused: nat, popped: seq<nat>)

  datatype Event = CallPush(i: nat) | Pusher | CallPop | Popper

  function Initial(capacity: nat): Queue {
    Queue(seq(capacity, _ => 0), 0, 0, QIdle, RIdle, 0, [], 0, [])
  }

  function Apply(capacity: nat, q: Queue, e: Event): Queue
    requires capacity >= 1 && |q.indices| == capacity
  {
    match e
    case CallPush(i) => if q.pusher.QIdle? then q.(pusher := QLoadTail(i), attempts := q.attempts + 1) else q
    case CallPop => if q.popper.RIdle? then q.(popper := RLoadHead) else q
    case Pusher => (
      match q.pusher
      case QIdle => q
      case QLoadTail(i) => q.(pusher := QLoadHead(i, q.tail))
      case QLoadHead(i, t) =>
        if F.Next(Cfg(capacity), t) == q.head then q.(pusher := QIdle, refused := q.refused + 1)
        else q.(pusher := QWrite(i, t))
      case QWrite(i, t) =>
        if t >= capacity then q else q.(indices := q.indices[t := i], pusher := QStoreTail(i, t))
      case QStoreTail(i, t) => q.(tail := F.Next(Cfg(capacity), t), pusher := QIdle, pushed := q.pushed + [i])
    )
    case Popper => (
      match q.popper
      case RIdle => q
      case RLoadHead => q.(popper := RLoadTail(q.head))
      case RLoadTail(h) => q.(popper := if h == q.tail then RIdle else RRead(h))
      case RRead(h) => if h >= capacity then q else q.(popper := RStoreHead(h, q.indices[h]))
      case RStoreHead(h, i) => q.(head := F.Next(Cfg(capacity), h), popper := RIdle, popped := q.popped + [i])
    )
  }

  // ---------------------------------------------------------------- the same state as a frame queue

  function Record(i: nat): F.Frame { F.EMPTY_FRAME.(bufferIndex := i) }

  function AsPush(i: nat): F.Push { F.Push(Record(i), []) }

  function AsItem(i: nat): F.Item { F.Item(false, Record(i), []) }

  function Records(s: seq<nat>): seq<F.Frame> { seq(|s|, k requires 0 <= k < |s| => Record(s[k])) }

  function Pushes(s: seq<nat>): seq<F.Push> { seq(|s|, k requires 0 <= k < |s| => AsPush(s[k])) }

  function Items(s: seq<nat>): seq<F.Item> { seq(|s|, k requires 0 <= k < |s| => AsItem(s[k])) }

  function Cfg(capacity: nat): F.Config { F.Config(capacity, 0) }

  function AsProducer(p: Pusher): F.Producer {
    match p
    case QIdle => F.PIdle
    case QLoadTail(i) => F.PLoadTail(AsPush(i))
    case QLoadHead(i, t) => F.PLoadHead(AsPush(i), t)
    case QWrite(i, t) => F.PWriteRecord(AsPush(i), t)
    case QStoreTail(i, t) => F.PStoreTail(AsPush(i), t)
  }

  function AsConsumer(r: Popper): F.Consumer {
    match r
    case RIdle => F.CIdle
    case RLoadHead => F.CLoadHead
    case RLoadTail(h) => F.CLoadTail(h)
    case RRead(h) => F.CReadPointer(h)
    case RStoreHead(h, i) => F.CStoreHead(h, Record(i))
  }

  function Embed(q: Queue): F.State {
    F.State(F.Mem(Records(q.indices), [], q.head, q.tail, q.refused),
            AsProducer(q.pusher), AsConsumer(q.popper), Pushes(q.pushed), Items(q.popped),
            if q.popped == [] then None else Some(Record(q.popped[|q.popped| - 1])),
            q.attempts)
  }

  /** The frame queue's steps for one step here: a refusal and a read take two. */
  function Translate(capacity: nat, q: Queue, e: Event): seq<F.Event>
    requires capacity >= 1
  {
    match e
    case CallPush(i) => [F.CallPush(AsPush(i))]
    case CallPop => [F.CallPop]
    case Pusher =>
      if q.pusher.QLoadHead? && F.Next(Cfg(capacity), q.pusher.t) == q.head then [F.Producer, F.Producer]
      else [F.Producer]
    case Popper => if q.popper.RRead? then [F.Consumer, F.Consumer] else [F.Consumer]
  }

  ghost predicate Inv(capacity: nat, q: Queue) {
    capacity >= 1 && |q.indices| == capacity && F.Inv(Cfg(capacity), Embed(q))
  }

  lemma OneStep(cfg: F.Config, s: F.State, a: F.Event)
    requires F.Inv(cfg, s)
    ensures F.Inv(cfg, F.Apply(cfg, s, a)) && F.RunFrom(cfg, s, [a]) == F.Apply(cfg, s, a)
  {
    F.StepInv(cfg, s, a);
    assert [a][1..] == [];
  }

  lemma TwoSteps(cfg: F.Config, s: F.State, a: F.Event, b: F.Event)
    requires F.Inv(cfg, s)
    ensures F.Inv(cfg, F.Apply(cfg, s, a))
    ensures F.Inv(cfg, F.Apply(cfg, F.Apply(cfg, s, a), b))
    ensures F.RunFrom(cfg, s, [a, b]) == F.Apply(cfg, F.Apply(cfg, s, a), b)
  {
    F.StepInv(cfg, s, a);
    OneStep(cfg, F.Apply(cfg, s, a), b);
    assert [a, b][1..] == [b];
  }

  /** The frame queue's state after the translated steps. */
  ghost function Simulated(capacity: nat, q: Queue, e: Event): F.State
    requires Fits(capacity, q)
  {
    TimesIsProduct(capacity, 0);
    var cfg, s, es := Cfg(capacity), Embed(q), Translate(capacity, q, e);
    if |es| == 1 then F.Apply(cfg, s, es[0]) else F.Apply(cfg, F.Apply(cfg, s, es[0]), es[1])
  }

  predicate Fits(capacity: nat, q: Queue) {
    && capacity >= 1 && |q.indices| == capacity && q.head < capacity && q.tail < capacity
    && (q.pusher.QWrite? ==> q.pusher.t < capacity)
    && (q.popper.RRead? ==> q.popper.h < capacity)
  }

  lemma PusherSimulated(capacity: nat, q: Queue)
    requires Fits(capacity, q)
    ensures Embed(Apply(capacity, q, Pusher)) == Simulated(capacity, q, Pusher)
  {
    var q' := Apply(capacity, q, Pusher);
    if q.pusher.QWrite? { assert Records(q'.indices) == Records(q.indices)[q.pusher.t := Record(q.pusher.i)]; }
    if q.pusher.QStoreTail? { assert Pushes(q'.pushed) == Pushes(q.pushed) + [AsPush(q.pusher.i)]; }
  }

  lemma PopperSimulated(capacity: nat, q: Queue)
    requires Fits(capacity, q)
    ensures Embed(Apply(capacity, q, Popper)) == Simulated(capacity, q, Popper)
  {
    var q' := Apply(capacity, q, Popper);
    if q.popper.RStoreHead? { assert Items(q'.popped) == Items(q.popped) + [AsItem(q.popper.i)]; }
  }

  lemma SimulatedIsRun(capacity: nat, q: Queue, e: Event)
    requires Inv(capacity, q) && Fits(capacity, q)
    ensures F.RunFrom(Cfg(capacity), Embed(q), Translate(capacity, q, e)) == Simulated(capacity, q, e)
    ensures F.Inv(Cfg(capacity), Simulated(capacity, q, e))
  {
    var cfg, s, es := Cfg(capacity), Embed(q), Translate(capacity, q, e);
    if |es| == 1 { OneStep(cfg, s, es[0]); } else { TwoSteps(cfg, s, es[0], es[1]); }
  }

  /** The step-by-step refinement. */
  lemma StepIsFrameQueueSteps(capacity: nat, q: Queue, e: Event)
    requires Inv(capacity, q)
    ensures Embed(Apply(capacity, q, e)) == F.RunFrom(Cfg(capacity), Embed(q), Translate(capacity, q, e))
    ensures Inv(capacity, Apply(capacity, q, e))
  {
    SimulatedIsRun(capacity, q, e);
    match e {
      case CallPush(i) =>
      case CallPop =>
      case Pusher => PusherSimulated(capacity, q);
      case Popper => PopperSimulated(capacity, q);
    }
  }

  lemma InitialInv(capacity: nat)
    requires capacity >= 1
    ensures Inv(capacity, Initial(capacity))
  {
    TimesIsProduct(capacity, 0);
    assert Embed(Initial(capacity)) == F.Initial(Cfg(capacity)) by {
      assert Records(Initial(capacity).indices) == F.Initial(Cfg(capacity)).m.frames;
    }
    F.InitialInv(Cfg(capacity));
  }

  ghost function RunFrom(capacity: nat, q: Queue, schedule: seq<Event>): (last: Queue)
    requires Inv(capacity, q)
    ensures Inv(capacity, last)
    decreases |schedule|
  {
    if schedule == [] then q
    else
      StepIsFrameQueueSteps(capacity, q, schedule[0]);
      RunFrom(capacity, Apply(capacity, q, schedule[0]), schedule[1..])
  }

  /** The indices in the ring, oldest first. */
  function Waiting(capacity: nat, q: Queue): (w: seq<nat>)
    requires |q.indices| == capacity && q.head < capacity && q.tail < capacity
  {
    if q.head <= q.tail then q.indices[q.head..q.tail] else q.indices[q.head..] + q.indices[..q.tail]
  }

  /** As many wait as the frame queue counts. */
  lemma WaitingAreCounted(capacity: nat, q: Queue)
    requires Inv(capacity, q)
    ensures q.head < capacity && q.tail < capacity
    ensures |Waiting(capacity, q)| == F.Count(Cfg(capacity), Embed(q).m) == |F.Contents(Cfg(capacity), Embed(q).m)|
  {
  }

  /**
   A push is refused exactly when capacity - 1 indices wait as it loads head, a pop comes back
   empty-handed exactly when none wait as it loads tail, and nothing else refuses.
   */
  lemma RefusedExactlyWhenFull(capacity: nat, q: Queue, e: Event)
    requires Inv(capacity, q)
    ensures q.head < capacity && q.tail < capacity
    ensures var q', n := Apply(capacity, q, e), |Waiting(capacity, q)|;
            && (e.Pusher? && q.pusher.QLoadHead? ==> (q'.pusher.QIdle? <==> n == capacity - 1))
            && (e.Popper? && q.popper.RLoadTail? ==> (q'.popper.RIdle? <==> n == 0))
            && q'.refused == q.refused + (if e.Pusher? && q.pusher.QLoadHead? && n == capacity - 1 then 1 else 0)
  {
    WaitingAreCounted(capacity, q);
    F.FullIffOneSlotLeft(Cfg(capacity), Embed(q).m);
  }

  /** Under every interleaving the indices come out exactly as they went in, and every attempt is accounted for. */
  lemma IndicesComeOutInOrder(capacity: nat, schedule: seq<Event>)
    requires capacity >= 1
    ensures Inv(capacity, Initial(capacity))
    ensures var q := RunFrom(capacity, Initial(capacity), schedule);
            && q.head < capacity && q.tail < capacity
            && q.popped + Waiting(capacity, q) == q.pushed
            && |Waiting(capacity, q)| < capacity
            && q.attempts == |q.popped| + |Waiting(capacity, q)| + q.refused + (if q.pusher.QIdle? then 0 else 1)
  {
    InitialInv(capacity);
    WaitingComeNext(capacity, RunFrom(capacity, Initial(capacity), schedule));
  }

  /** A waiting index is the one that the frame queue's record carries. */
  lemma WaitingInRing(capacity: nat, q: Queue, k: nat)
    requires Inv(capacity, q) && q.head < capacity && q.tail < capacity && k < |Waiting(capacity, q)|
    ensures k < |F.Contents(Cfg(capacity), Embed(q).m)|
    ensures F.Contents(Cfg(capacity), Embed(q).m)[k].frame.bufferIndex == Waiting(capacity, q)[k]
  {
    var cfg, m := Cfg(capacity), Embed(q).m;
    WaitingAreCounted(capacity, q);
    assert F.Contents(cfg, m)[k] == F.ItemOf(m.pool, m.frames[F.Slot(cfg, q.head, k)]);
  }

  /** Popped and then waiting indices are the pushed ones. */
  lemma WaitingComeNext(capacity: nat, q: Queue)
    requires Inv(capacity, q)
    ensures q.head < capacity && q.tail < capacity && q.popped + Waiting(capacity, q) == q.pushed
    ensures |Waiting(capacity, q)| < capacity
    ensures q.attempts == |q.popped| + |Waiting(capacity, q)| + q.refused + (if q.pusher.QIdle? then 0 else 1)
  {
    var cfg, s := Cfg(capacity), Embed(q);
    var all, got, left := F.AllAccepted(cfg, s.pushed), s.popped, F.Contents(cfg, s.m);
    assert all == got + left;
    WaitingAreCounted(capacity, q);
    forall k | 0 <= k < |q.pushed|
      ensures (q.popped + Waiting(capacity, q))[k] == q.pushed[k]
    {
      assert all[k].frame.bufferIndex == q.pushed[k] by { assert s.pushed[k] == AsPush(q.pushed[k]); }
      if k < |got| {
        assert got[k].frame.bufferIndex == q.popped[k];
      } else {
        WaitingInRing(capacity, q, k - |got|);
      }
    }
  }
}
