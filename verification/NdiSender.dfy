/**
 NdiSender and the shared NDI library: senders are initialized, shut down, moved and
 destroyed in any order, and the reference count follows them.
 */
module NdiSender {
  /** The fields of a sender that the count depends on; instance 0 is none. */
  datatype Fields = Fields(initialized: bool, instance: nat)

  /** Every sender that exists, those that are counted, and which sender owns each live instance. */
  datatype Ledger = Ledger(fields: map<NdiSender, Fields>, active: set<NdiSender>,
                           owner: map<nat, NdiSender>, next: nat)

  /** A sender is initialized exactly when it is counted, and then owns a live instance. */
  ghost predicate EntryOk(l: Ledger, s: NdiSender)
    requires s in l.fields
  {
    var f := l.fields[s];
    && (f.initialized <==> s in l.active)
    && (f.initialized <==> f.instance != 0)
    && (f.initialized ==> f.instance in l.owner && l.owner[f.instance] == s)
  }

  /** A live instance has been handed out before, and has one owner, which knows it. */
  ghost predicate OwnerOk(l: Ledger, x: nat)
    requires x in l.owner
  {
    var s := l.owner[x];
    0 < x < l.next && s in l.active && s in l.fields && l.fields[s].instance == x
  }

  ghost predicate Consistent(l: Ledger) {
    && l.active <= l.fields.Keys && l.next > 0
    && (forall s {:trigger EntryOk(l, s)} :: s in l.fields ==> EntryOk(l, s))
    && (forall x {:trigger OwnerOk(l, x)} :: x in l.owner ==> OwnerOk(l, x))
  }

  /** A sender that was not initialized now owns the newest instance. */
  ghost function Acquired(l: Ledger, s: NdiSender): (l': Ledger)
    ensures s in l.fields ==> l'.fields.Keys == l.fields.Keys
  {
    Ledger(l.fields[s := Fields(true, l.next)], l.active + {s}, l.owner[l.next := s], l.next + 1)
  }

  lemma AcquiredConsistent(l: Ledger, s: NdiSender)
    requires Consistent(l) && s in l.fields && !l.fields[s].initialized
    ensures Consistent(Acquired(l, s)) && |Acquired(l, s).active| == |l.active| + 1
    ensures Acquired(l, s).fields.Keys == l.fields.Keys
  {
    assert EntryOk(l, s);
    forall x | x in l.owner ensures l.owner[x] in l.active && x < l.next { assert OwnerOk(l, x); }
    EntriesKept(l, Acquired(l, s), s, s);
  }

  /** Senders other than a and b, and their instances, are as consistent as they were. */
  lemma EntriesKept(l: Ledger, l': Ledger, a: NdiSender, b: NdiSender)
    requires Consistent(l) && l'.next >= l.next
    requires forall s :: s in l'.fields && s != a && s != b ==>
               s in l.fields && l'.fields[s] == l.fields[s] && (s in l'.active <==> s in l.active)
    requires forall s :: s in l.fields && s != a && s != b ==> s in l'.fields
    requires forall x :: x in l.owner && l.owner[x] != a && l.owner[x] != b ==>
               x in l'.owner && l'.owner[x] == l.owner[x]
    requires forall x :: x in l'.owner && l'.owner[x] != a && l'.owner[x] != b ==>
               x in l.owner && l'.owner[x] == l.owner[x]
    ensures forall s :: s in l'.fields && s != a && s != b ==> EntryOk(l', s)
    ensures forall x :: x in l'.owner && l'.owner[x] != a && l'.owner[x] != b ==> OwnerOk(l', x)
  {
    forall s | s in l'.fields && s != a && s != b ensures EntryOk(l', s) { assert EntryOk(l, s); }
    forall x | x in l'.owner && l'.owner[x] != a && l'.owner[x] != b ensures OwnerOk(l', x) { assert OwnerOk(l, x); }
  }

  /** An initialized sender gave its instance back. */
  ghost function Released(l: Ledger, s: NdiSender): (l': Ledger)
    requires s in l.fields
    ensures l'.fields.Keys == l.fields.Keys
  {
    Ledger(l.fields[s := Fields(false, 0)], l.active - {s}, l.owner - {l.fields[s].instance}, l.next)
  }

  lemma ReleasedConsistent(l: Ledger, s: NdiSender)
    requires Consistent(l) && s in l.fields && l.fields[s].initialized
    ensures Consistent(Released(l, s)) && |Released(l, s).active| == |l.active| - 1
    ensures Released(l, s).fields.Keys == l.fields.Keys
  {
    assert EntryOk(l, s);
    forall x | x in l.owner && l.owner[x] == s ensures x == l.fields[s].instance { assert OwnerOk(l, x); }
    EntriesKept(l, Released(l, s), s, s);
  }

  /** The instance of one sender, if it has one, went over to another. */
  ghost function Moved(l: Ledger, from: NdiSender, to: NdiSender): (l': Ledger)
    requires from in l.fields
    ensures to in l.fields ==> l'.fields.Keys == l.fields.Keys
  {
    var f := l.fields[from];
    Ledger(l.fields[to := f][from := Fields(false, 0)],
           if f.initialized then l.active - {from} + {to} else l.active,
           if f.initialized then l.owner[f.instance := to] else l.owner, l.next)
  }

  lemma MovedConsistent(l: Ledger, from: NdiSender, to: NdiSender)
    requires Consistent(l) && from in l.fields && to in l.fields && from != to && !l.fields[to].initialized
    ensures Consistent(Moved(l, from, to)) && |Moved(l, from, to).active| == |l.active|
    ensures Moved(l, from, to).fields.Keys == l.fields.Keys && Moved(l, from, to).owner.Keys == l.owner.Keys
  {
    var l', x := Moved(l, from, to), l.fields[from].instance;
    assert EntryOk(l, from) && EntryOk(l, to);
    if l.fields[from].initialized {
      assert OwnerOk(l, x);
      ReplaceOne(l.active, from, to);
    }
    forall y | y in l.owner && (l.owner[y] == from || l.owner[y] == to) ensures y == x && l.fields[from].initialized {
      assert OwnerOk(l, y);
    }
    EntriesKept(l, l', from, to);
  }

  lemma ReplaceOne<T>(s: set<T>, out: T, into: T)
    requires out in s && into !in s
    ensures |s - {out} + {into}| == |s|
  {
    assert |s - {out}| == |s| - 1;
  }

  /** A sender came into existence. */
  ghost function Added(l: Ledger, s: NdiSender): Ledger { l.(fields := l.fields[s := Fields(false, 0)]) }

  /** A sender that owns nothing went out of existence. */
  ghost function Dropped(l: Ledger, s: NdiSender): Ledger { l.(fields := l.fields - {s}) }

  lemma AddedConsistent(l: Ledger, s: NdiSender)
    requires Consistent(l) && s !in l.fields
    ensures Consistent(Added(l, s)) && Added(l, s).fields.Keys == l.fields.Keys + {s}
  {
    forall x | x in l.owner ensures l.owner[x] in l.active { assert OwnerOk(l, x); }
    EntriesKept(l, Added(l, s), s, s);
  }

  lemma DroppedConsistent(l: Ledger, s: NdiSender)
    requires Consistent(l) && s in l.fields && !l.fields[s].initialized
    ensures Consistent(Dropped(l, s)) && Dropped(l, s).fields.Keys == l.fields.Keys - {s} && s !in l.active
  {
    assert EntryOk(l, s);
    forall x | x in l.owner ensures l.owner[x] in l.active { assert OwnerOk(l, x); }
    EntriesKept(l, Dropped(l, s), s, s);
  }

  lemma NoSendersNoOwners(l: Ledger)
    requires Consistent(l) && l.fields.Keys == {}
    ensures l.active == {} && l.owner.Keys == {}
  {
    forall x | x in l.owner ensures l.owner[x] in l.active { assert OwnerOk(l, x); }
  }

  /** The process-wide state: the static counter, and the library behind it. */
  class NdiLibrary {
    var refCount: int
    var up: bool
    var live: set<nat>
    var nextInstance: nat
    ghost var book: Ledger

    /** The ledger is consistent, and it is what the library and the senders themselves say. */
    ghost predicate Valid()
      reads this, book.fields.Keys
    {
      && refCount == |book.active| && (up <==> refCount > 0)
      && live == book.owner.Keys && nextInstance == book.next
      && Consistent(book)
      && (forall s :: s in book.fields ==> s.library == this && book.fields[s] == Fields(s.initialized, s.instance))
    }

    /** The ledger says of every sender but one what that sender says itself. */
    ghost predicate OthersRecorded(s0: NdiSender)
      reads this`book, book.fields.Keys - {s0}
    {
      forall s :: s in book.fields ==>
        s.library == this && (s != s0 ==> book.fields[s] == Fields(s.initialized, s.instance))
    }

    lemma AllRecorded(s0: NdiSender)
      requires refCount == |book.active| && (up <==> refCount > 0)
      requires live == book.owner.Keys && nextInstance == book.next && Consistent(book)
      requires OthersRecorded(s0) && (s0 in book.fields ==> book.fields[s0] == Fields(s0.initialized, s0.instance))
      ensures Valid()
    {
    }

    constructor ()
      ensures Valid() && book.fields == map[] && refCount == 0 && !up && live == {}
    {
      refCount, up, live, nextInstance := 0, false, {}, 1;
      book := Ledger(map[], {}, map[], 1);
    }
  }

  class NdiSender {
    const library: NdiLibrary
    var initialized: bool
    var framesSent: nat
    /** The native sender, 0 for none. */
    var instance: nat

    constructor (library: NdiLibrary)
      requires library.Valid()
      modifies library`book
      ensures library.Valid() && this.library == library && !initialized
      ensures library.book == Added(old(library.book), this) && this !in old(library.book).fields
    {
      this.library := library;
      initialized, framesSent, instance := false, 0, 0;
      new;
      AddedConsistent(library.book, this);
      library.book := Added(library.book, this);
    }

    /** Counts one more user; only the first one starts the library; `starts` is its answer. */
    method LoadNdiLibrary(starts: bool) returns (ok: bool)
      requires library.up <==> library.refCount > 0
      requires library.refCount >= 0
      modifies library`refCount, library`up
      ensures library.up <==> library.refCount > 0
      ensures library.refCount == old(library.refCount) + if ok then 1 else 0
      ensures ok <==> old(library.up) || starts
    {
      if library.refCount > 0 {
        library.refCount := library.refCount + 1;
        return true;
      }
      if !starts { return false; }
      library.up := true;
      library.refCount := library.refCount + 1;
      ok := true;
    }

    method CreateSender(creates: bool) returns (ok: bool)
      requires library.up && library.nextInstance > 0
      modifies this`instance, library`live, library`nextInstance
      ensures ok <==> instance != 0
      ensures ok <==> creates
      ensures ok ==> instance == old(library.nextInstance) && library.live == old(library.live) + {instance}
                     && library.nextInstance == old(library.nextInstance) + 1
      ensures !ok ==> library.live == old(library.live) && library.nextInstance == old(library.nextInstance)
    {
      if !creates { instance := 0; return false; }
      instance := library.nextInstance;
      library.live, library.nextInstance := library.live + {instance}, library.nextInstance + 1;
      ok := true;
    }

    /** Gives up the instance, which must be live, and one use of the library, which must be up. */
    method Cleanup()
      requires library.up && library.refCount > 0
      requires instance != 0 ==> instance in library.live
      modifies this`instance, library`live, library`refCount, library`up
      ensures instance == 0
      ensures library.live == if old(instance) == 0 then old(library.live) else old(library.live) - {old(instance)}
      ensures library.refCount == old(library.refCount) - 1
      ensures library.up <==> library.refCount > 0
    {
      if instance != 0 {
        library.live := library.live - {instance};
        instance := 0;
      }
      library.refCount := library.refCount - 1;
      if library.refCount == 0 { library.up := false; }
    }

    /** The library and an instance, or neither. */
    method Acquire(starts: bool, creates: bool) returns (ok: bool)
      requires instance == 0 && library.nextInstance > 0 && library.refCount >= 0
      requires library.up <==> library.refCount > 0
      modifies this`instance, library`refCount, library`up, library`live, library`nextInstance
      ensures ok <==> instance != 0
      ensures ok <==> (old(library.up) || starts) && creates
      ensures !ok ==> library.refCount == old(library.refCount) && library.up == old(library.up)
                      && library.live == old(library.live) && library.nextInstance == old(library.nextInstance)
      ensures ok ==> library.refCount == old(library.refCount) + 1 && library.up
                     && instance == old(library.nextInstance) && library.live == old(library.live) + {instance}
                     && library.nextInstance == old(library.nextInstance) + 1
    {
      var loaded := LoadNdiLibrary(starts);
      if !loaded { return false; }
      ok := CreateSender(creates);
      if !ok { Cleanup(); }
    }

    /** A sender that has just acquired the newest instance is initialized and enters the ledger. */
    method Enter()
      requires this in library.book.fields && !library.book.fields[this].initialized
      requires Consistent(library.book) && library.refCount == |library.book.active| + 1 && library.up
      requires library.live == library.book.owner.Keys + {instance}
      requires instance == library.book.next && library.nextInstance == library.book.next + 1
      requires library.OthersRecorded(this)
      modifies this`initialized, library`book
      ensures library.Valid() && initialized && library.book == Acquired(old(library.book), this)
    {
      AcquiredConsistent(library.book, this);
      initialized := true;
      library.book := Acquired(library.book, this);
    }

    /** `starts` and `creates` say whether NDI starts and an instance can be had, should they be asked for. */
    method Initialize(starts: bool, creates: bool) returns (ok: bool)
      requires library.Valid() && this in library.book.fields
      modifies this, library
      ensures library.Valid() && ok == initialized
      ensures ok <==> old(initialized) || ((old(library.up) || starts) && creates)
      ensures old(initialized) || !ok ==> library.book == old(library.book)
      ensures !old(initialized) && ok ==> library.book == Acquired(old(library.book), this)
      ensures framesSent == old(framesSent)
      ensures old(initialized) ==> ok && instance == old(instance)
    {
      if initialized { return true; }
      assert library.OthersRecorded(this);
      assert instance == 0 by { assert EntryOk(library.book, this); }
      ok := Acquire(starts, creates);
      if ok { Enter(); } else { library.AllRecorded(this); }
    }

    method Shutdown()
      requires library.Valid() && this in library.book.fields
      modifies this, library
      ensures library.Valid() && !initialized && instance == 0
      ensures library.book == if old(initialized) then Released(old(library.book), this) else old(library.book)
      ensures library.book.fields.Keys == old(library.book).fields.Keys
      ensures library.book.active == old(library.book).active - {this}
      ensures framesSent == old(framesSent)
    {
      assert EntryOk(library.book, this);
      if !initialized { return; }
      ReleasedConsistent(library.book, this);
      Cleanup();
      initialized := false;
      library.book := Released(library.book, this);
    }

    /** Takes over the other sender's instance without touching the count. */
    method TakeOver(other: NdiSender)
      requires library.Valid() && this in library.book.fields && other in library.book.fields && this != other
      requires !initialized
      modifies this, other, library`book
      ensures library.Valid()
      ensures library.book == Moved(old(library.book), other, this)
      ensures initialized == old(other.initialized) && instance == old(other.instance)
      ensures framesSent == old(other.framesSent) && !other.initialized && other.instance == 0
    {
      MovedConsistent(library.book, other, this);
      initialized := other.initialized;
      framesSent := other.framesSent;
      instance := other.instance;
      other.instance := 0;
      other.initialized := false;
      library.book := Moved(library.book, other, this);
    }

    /** The move constructor. */
    constructor MoveFrom(other: NdiSender)
      requires other.library.Valid() && other in other.library.book.fields
      modifies other, other.library`book
      ensures library == other.library && library.Valid()
      ensures this in library.book.fields && library.book.fields.Keys == old(other.library.book).fields.Keys + {this}
      ensures initialized == old(other.initialized) && !other.initialized && instance == old(other.instance)
      ensures |library.book.active| == |old(other.library.book).active|
      ensures framesSent == old(other.framesSent)
    {
      library := other.library;
      initialized, framesSent, instance := false, 0, 0;
      new;
      AddedConsistent(library.book, this);
      library.book := Added(library.book, this);
      MovedConsistent(library.book, other, this);
      TakeOver(other);
    }

    /** Move assignment: nothing for itself, else shut down first. */
    method MoveAssign(other: NdiSender)
      requires library.Valid() && this in library.book.fields && other in library.book.fields
      modifies this, other, library
      ensures library.Valid()
      ensures this == other ==> initialized == old(initialized) && library.book == old(library.book)
      ensures this != other ==>
                var before := old(library.book);
                library.book == Moved(if old(initialized) then Released(before, this) else before, other, this)
      ensures this != other ==> initialized == old(other.initialized) && !other.initialized
                                && framesSent == old(other.framesSent)
    {
      if this != other {
        Shutdown();
        TakeOver(other);
      }
    }

    /** A sender that owns nothing leaves the ledger. */
    ghost method Leave()
      requires library.Valid() && this in library.book.fields && !initialized
      modifies library`book
      ensures library.Valid() && library.book == Dropped(old(library.book), this)
      ensures library.book.fields.Keys == old(library.book).fields.Keys - {this}
    {
      DroppedConsistent(library.book, this);
      library.book := Dropped(library.book, this);
    }

    /** The destructor. */
    method Destroy()
      requires library.Valid() && this in library.book.fields
      modifies this, library
      ensures library.Valid()
      ensures library.book.fields.Keys == old(library.book).fields.Keys - {this}
      ensures library.book.active == old(library.book).active - {this}
    {
      Shutdown();
      Leave();
    }
  }

  datatype Call = Create | CreateByMove | Init(starts: bool, creates: bool) | Shut | Assign | Remove

  /** A call that neither creates nor destroys a sender. */
  method Use(library: NdiLibrary, call: Call, s: NdiSender, t: NdiSender)
    requires library.Valid() && s in library.book.fields && t in library.book.fields
    modifies library, s, t
    ensures library.Valid() && library.book.fields.Keys == old(library.book).fields.Keys
  {
    if call.Init? {
      var _ := s.Initialize(call.starts, call.creates);
    } else if call == Shut {
      s.Shutdown();
    } else {
      s.MoveAssign(t);
    }
  }

  /** A new sender, by itself or moved from an existing one. */
  method Add(library: NdiLibrary, from: NdiSender?) returns (s: NdiSender)
    requires library.Valid() && (from != null ==> from in library.book.fields)
    modifies library`book, from
    ensures library.Valid() && fresh(s) && library.book.fields.Keys == old(library.book).fields.Keys + {s}
  {
    if from == null {
      s := new NdiSender(library);
    } else {
      s := new NdiSender.MoveFrom(from);
    }
  }

  /** One call on any of the existing senders. */
  method Perform(library: NdiLibrary, call: Call, existing: set<NdiSender>) returns (left: set<NdiSender>)
    requires library.Valid() && library.book.fields.Keys == existing
    modifies library, existing
    ensures library.Valid() && library.book.fields.Keys == left && fresh(left - existing)
  {
    if call == Create || existing == {} {
      var n := Add(library, null);
      return existing + {n};
    }
    var s: NdiSender, t: NdiSender :| s in existing && t in existing;
    left := existing;
    if call == CreateByMove {
      var n := Add(library, s);
      left := existing + {n};
    } else if call == Remove {
      s.Destroy();
      left := existing - {s};
    } else {
      Use(library, call, s, t);
    }
  }

  method DestroyAll(library: NdiLibrary, all: set<NdiSender>)
    requires library.Valid() && library.book.fields.Keys == all
    modifies library, all
    ensures library.Valid() && library.book.fields.Keys == {}
  {
    var existing := all;
    while existing != {}
      invariant library.Valid() && library.book.fields.Keys == existing <= all
      decreases |existing|
    {
      var s: NdiSender :| s in existing;
      s.Destroy();
      existing := existing - {s};
    }
  }

  /** Whatever was called on whichever senders, destroying them all leaves the library down and no instance live. */
  method AnySession(library: NdiLibrary, calls: seq<Call>)
    requires library.Valid() && library.book.fields == map[]
    modifies library
    ensures library.Valid() && library.refCount == 0 && !library.up && library.live == {}
  {
    var existing: set<NdiSender> := {};
    for i := 0 to |calls|
      invariant library.Valid() && library.book.fields.Keys == existing && fresh(existing)
    {
      existing := Perform(library, calls[i], existing);
    }
    DestroyAll(library, existing);
    NoSendersNoOwners(library.book);
  }
}
