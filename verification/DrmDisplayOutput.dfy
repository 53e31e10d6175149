/**
 The DRM display: which kernel objects it holds, over any sequence of opening, displaying
 and closing, when any kernel call may fail.

 The kernel keeps the sets of live objects. A release requires its object to be live, so
 a double release would not verify; the ledger says that what is live is exactly what the
 fields record, each object in one field.
 */
module DrmDisplayOutput {
  import opened Common
  import Scaling = DisplayScaling

  /** Zero stands for "none" in every identifier, as in the source. */
  datatype Framebuffer = Framebuffer(fbId: nat, handle: nat, mapping: nat, size: nat, pitch: nat,
                                     width: nat, height: nat)

  const NO_BUFFER := Framebuffer(0, 0, 0, 0, 0, 0, 0)

  datatype Mode = Mode(hdisplay: nat, vdisplay: nat)

  /** What a call says about its frame; the bytes play no part here. */
  datatype Frame = Frame(width: nat, height: nat, format: Scaling.PixelFormat, stride: nat)

  /** The one-to-one blit of the frame writes at least one pixel (DisplayScaling.DrawsIff). */
  predicate Draws(f: Frame) { Scaling.Draws(f.format, f.stride, f.width, f.height) }

  // ---------------------------------------------------------------- what the kernel answers

  /** The kernel's answers while one buffer is created, framed, looked up for mapping, and mapped. */
  datatype BufferAnswers = BufferAnswers(dumb: bool, pitch: nat, size: nat, addFb: bool, mapDumb: bool, mmap: bool)

  predicate AllGood(a: BufferAnswers) { a.dumb && a.addFb && a.mapDumb && a.mmap }

  /** The kernel's answers while a display is opened; CRTC and plane ids are 0 when there is none. */
  datatype Opening = Opening(connector: bool, connected: bool, ownEncoder: bool, encoders: seq<bool>, crtc: nat,
                             savedCrtc: bool, mode: Option<Mode>, plane: nat,
                             first: BufferAnswers, second: BufferAnswers, setCrtc: bool)

  predicate HasOutput(a: Opening) { a.connector && a.connected && (a.ownEncoder || true in a.encoders) && a.crtc != 0 }

  predicate Opens(a: Opening) {
    HasOutput(a) && a.mode.Some? && AllGood(a.first) && AllGood(a.second) && a.setCrtc
  }

  /** A buffer whose objects are gone; its size stays recorded. */
  function Emptied(f: Framebuffer): Framebuffer { f.(fbId := 0, handle := 0, mapping := 0) }

  /** A source buffer is taken for created when its recorded size fits, mapped or not. */
  predicate SizeRecorded(f: Framebuffer, width: nat, height: nat) { f.width == width && f.height == height }

  // ---------------------------------------------------------------- the ledger

  predicate Apart(fields: seq<nat>, i: nat, j: nat)
    requires i < |fields| && j < |fields|
  {
    fields[i] != 0 && i != j ==> fields[i] != fields[j]
  }

  predicate HeldLive(live: set<nat>, fields: seq<nat>, i: nat)
    requires i < |fields|
  {
    fields[i] != 0 ==> fields[i] in live
  }

  predicate Found(fields: seq<nat>, x: nat) { x != 0 && x in fields }

  /** live is exactly the set of the non-zero fields, and no two fields hold the same object. */
  ghost predicate Recorded(live: set<nat>, fields: seq<nat>) {
    && (forall i, j {:trigger Apart(fields, i, j)} :: 0 <= i < |fields| && 0 <= j < |fields| ==> Apart(fields, i, j))
    && (forall i {:trigger HeldLive(live, fields, i)} :: 0 <= i < |fields| ==> HeldLive(live, fields, i))
    && (forall x {:trigger Found(fields, x)} :: x in live ==> Found(fields, x))
  }

  lemma RecordedSet(live: set<nat>, fields: seq<nat>, k: nat, x: nat)
    requires Recorded(live, fields) && k < |fields| && fields[k] == 0 && x != 0 && x !in live
    ensures Recorded(live + {x}, fields[k := x])
  {
    var after := fields[k := x];
    forall i, j | 0 <= i < |fields| && 0 <= j < |fields| ensures Apart(after, i, j) {
      assert Apart(fields, i, j) && HeldLive(live, fields, i) && HeldLive(live, fields, j);
    }
    forall i | 0 <= i < |fields| ensures HeldLive(live + {x}, after, i) { assert HeldLive(live, fields, i); }
    forall y | y in live + {x} ensures Found(after, y) {
      if y in live {
        assert Found(fields, y);
        var i :| 0 <= i < |fields| && fields[i] == y;
        assert after[i] == y;
      } else {
        assert after[k] == y;
      }
    }
  }

  lemma RecordedClear(live: set<nat>, fields: seq<nat>, k: nat)
    requires Recorded(live, fields) && k < |fields| && fields[k] != 0
    ensures fields[k] in live
    ensures Recorded(live - {fields[k]}, fields[k := 0])
  {
    var after, rest := fields[k := 0], live - {fields[k]};
    assert HeldLive(live, fields, k);
    forall i, j | 0 <= i < |fields| && 0 <= j < |fields| ensures Apart(after, i, j) { assert Apart(fields, i, j); }
    forall i | 0 <= i < |fields| ensures HeldLive(rest, after, i) {
      assert HeldLive(live, fields, i) && Apart(fields, k, i);
    }
    forall y | y in rest ensures Found(after, y) {
      assert Found(fields, y);
      var i :| 0 <= i < |fields| && fields[i] == y;
      assert after[i] == y;
    }
  }

  lemma LiveIsFound(live: set<nat>, fields: seq<nat>, x: nat)
    requires Recorded(live, fields) && x in live
    ensures x != 0 && exists i :: 0 <= i < |fields| && fields[i] == x
  {
    assert Found(fields, x);
  }

  lemma RecordedNone(live: set<nat>, fields: seq<nat>)
    requires Recorded(live, fields) && forall i :: 0 <= i < |fields| ==> fields[i] == 0
    ensures live == {}
  {
    forall x | x in live ensures false { LiveIsFound(live, fields, x); }
  }

  function Handles(frames: seq<Framebuffer>): (s: seq<nat>)
    ensures |s| == |frames| && forall i :: 0 <= i < |s| ==> s[i] == frames[i].handle
  {
    seq(|frames|, i requires 0 <= i < |frames| => frames[i].handle)
  }

  function FbIds(frames: seq<Framebuffer>): (s: seq<nat>)
    ensures |s| == |frames| && forall i :: 0 <= i < |s| ==> s[i] == frames[i].fbId
  {
    seq(|frames|, i requires 0 <= i < |frames| => frames[i].fbId)
  }

  function Maps(frames: seq<Framebuffer>): (s: seq<nat>)
    ensures |s| == |frames| && forall i :: 0 <= i < |s| ==> s[i] == frames[i].mapping
  {
    seq(|frames|, i requires 0 <= i < |frames| => frames[i].mapping)
  }

  /** A mapping is as long as its buffer. */
  predicate SizeKnown(maps: map<nat, nat>, f: Framebuffer) {
    f.mapping != 0 ==> f.mapping in maps && maps[f.mapping] == f.size
  }

  ghost predicate Sized(maps: map<nat, nat>, frames: seq<Framebuffer>) {
    forall k {:trigger SizeKnown(maps, frames[k])} :: 0 <= k < |frames| ==> SizeKnown(maps, frames[k])
  }

  lemma SizedUpdate(maps: map<nat, nat>, frames: seq<Framebuffer>, k: nat, f: Framebuffer)
    requires Sized(maps, frames) && k < |frames| && SizeKnown(maps, f)
    ensures Sized(maps, frames[k := f])
  {
    var next := frames[k := f];
    forall j | 0 <= j < |next| ensures SizeKnown(maps, next[j]) {
      if j != k { assert SizeKnown(maps, frames[j]); }
    }
  }

  lemma SizedMapped(maps: map<nat, nat>, frames: seq<Framebuffer>, k: nat, address: nat)
    requires Sized(maps, frames) && k < |frames| && address !in maps
    ensures Sized(maps[address := frames[k].size], frames[k := frames[k].(mapping := address)])
  {
    var after, f := maps[address := frames[k].size], frames[k].(mapping := address);
    var next := frames[k := f];
    forall j | 0 <= j < |next| ensures SizeKnown(after, next[j]) {
      if j != k { assert SizeKnown(maps, frames[j]); }
    }
  }

  lemma SizedUnmapped(maps: map<nat, nat>, frames: seq<Framebuffer>, k: nat)
    requires Sized(maps, frames) && k < |frames| && frames[k].mapping != 0
    requires Recorded(maps.Keys, Maps(frames))
    ensures frames[k].mapping in maps && maps[frames[k].mapping] == frames[k].size
    ensures Sized(maps - {frames[k].mapping}, frames[k := frames[k].(mapping := 0)])
  {
    var after, f := maps - {frames[k].mapping}, frames[k].(mapping := 0);
    assert SizeKnown(maps, frames[k]);
    var next := frames[k := f];
    forall j | 0 <= j < |next| ensures SizeKnown(after, next[j]) {
      if j != k { assert SizeKnown(maps, frames[j]) && Apart(Maps(frames), k, j); }
    }
  }

  predicate OnlyHolds(live: set<nat>, field: nat) { live == if field != 0 then {field} else {} }

  class Kernel {
    var handles: set<nat>
    var fbs: set<nat>
    /** Live mappings and their lengths. */
    var maps: map<nat, nat>
    var connectors: set<nat>
    var encoders: set<nat>
    var crtcs: set<nat>
    var nextId: nat

    ghost predicate Valid()
      reads this
    {
      && nextId > 0
      && (forall x :: x in handles || x in fbs || x in maps ==> 0 < x < nextId)
      && (forall x :: x in connectors || x in encoders || x in crtcs ==> 0 < x < nextId)
    }

    ghost predicate NothingLive()
      reads this
    {
      handles == {} && fbs == {} && maps == map[] && connectors == {} && encoders == {} && crtcs == {}
    }

    constructor ()
      ensures Valid() && NothingLive()
    {
      handles, fbs, maps, connectors, encoders, crtcs, nextId := {}, {}, map[], {}, {}, {}, 1;
    }

    method CreateDumb(granted: bool) returns (handle: nat)
      requires Valid()
      modifies this`handles, this`nextId
      ensures Valid() && handle !in old(handles) && (granted <==> handle != 0)
      ensures handles == if handle != 0 then old(handles) + {handle} else old(handles)
    {
      if !granted { return 0; }
      handle := nextId;
      handles, nextId := handles + {nextId}, nextId + 1;
    }

    method AddFb(granted: bool) returns (id: nat)
      requires Valid()
      modifies this`fbs, this`nextId
      ensures Valid() && id !in old(fbs) && (granted <==> id != 0)
      ensures fbs == if id != 0 then old(fbs) + {id} else old(fbs)
    {
      if !granted { return 0; }
      id := nextId;
      fbs, nextId := fbs + {nextId}, nextId + 1;
    }

    method Mmap(size: nat, granted: bool) returns (address: nat)
      requires Valid()
      modifies this`maps, this`nextId
      ensures Valid() && address !in old(maps) && (granted <==> address != 0)
      ensures maps == if address != 0 then old(maps)[address := size] else old(maps)
    {
      if !granted { return 0; }
      address := nextId;
      maps, nextId := maps[nextId := size], nextId + 1;
    }

    method Munmap(address: nat, size: nat)
      requires Valid() && address in maps && maps[address] == size
      modifies this`maps
      ensures Valid() && maps == old(maps) - {address}
    {
      maps := maps - {address};
    }

    method RmFb(id: nat)
      requires Valid() && id in fbs
      modifies this`fbs
      ensures Valid() && fbs == old(fbs) - {id}
    {
      fbs := fbs - {id};
    }

    method DestroyDumb(handle: nat)
      requires Valid() && handle in handles
      modifies this`handles
      ensures Valid() && handles == old(handles) - {handle}
    {
      handles := handles - {handle};
    }

    method GetConnector(granted: bool) returns (c: nat)
      requires Valid()
      modifies this`connectors, this`nextId
      ensures Valid() && c !in old(connectors) && (granted <==> c != 0)
      ensures connectors == if c != 0 then old(connectors) + {c} else old(connectors)
    {
      if !granted { return 0; }
      c := nextId;
      connectors, nextId := connectors + {nextId}, nextId + 1;
    }

    method FreeConnector(c: nat)
      requires Valid() && c in connectors
      modifies this`connectors
      ensures Valid() && connectors == old(connectors) - {c}
    {
      connectors := connectors - {c};
    }

    method GetEncoder(granted: bool) returns (e: nat)
      requires Valid()
      modifies this`encoders, this`nextId
      ensures Valid() && e !in old(encoders) && (granted <==> e != 0)
      ensures encoders == if e != 0 then old(encoders) + {e} else old(encoders)
    {
      if !granted { return 0; }
      e := nextId;
      encoders, nextId := encoders + {nextId}, nextId + 1;
    }

    method FreeEncoder(e: nat)
      requires Valid() && e in encoders
      modifies this`encoders
      ensures Valid() && encoders == old(encoders) - {e}
    {
      encoders := encoders - {e};
    }

    method GetCrtc(granted: bool) returns (c: nat)
      requires Valid()
      modifies this`crtcs, this`nextId
      ensures Valid() && c !in old(crtcs) && (granted <==> c != 0)
      ensures crtcs == if c != 0 then old(crtcs) + {c} else old(crtcs)
    {
      if !granted { return 0; }
      c := nextId;
      crtcs, nextId := crtcs + {nextId}, nextId + 1;
    }

    method FreeCrtc(c: nat)
      requires Valid() && c in crtcs
      modifies this`crtcs
      ensures Valid() && crtcs == old(crtcs) - {c}
    {
      crtcs := crtcs - {c};
    }
  }

  class DrmDisplay {
    const kernel: Kernel
    /** fb_[0], fb_[1], then source_fb_[0], source_fb_[1]. */
    const frames: array<Framebuffer>
    var displays: nat
    var connector: nat
    var encoder: nat
    var savedCrtc: nat
    var crtcId: nat
    var mode: Option<Mode>
    var planeId: nat
    var hasUniversalPlanes: bool
    var currentFb: nat
    var currentDisplay: int

    /** The buffer objects that are live are those recorded in the four framebuffers. */
    ghost predicate BuffersOk()
      reads this, kernel, frames
    {
      && kernel.Valid()
      && frames.Length == 4
      && Recorded(kernel.handles, Handles(frames[..]))
      && Recorded(kernel.fbs, FbIds(frames[..]))
      && Recorded(kernel.maps.Keys, Maps(frames[..]))
      && Sized(kernel.maps, frames[..])
    }

    ghost predicate Valid()
      reads this, kernel, frames
    {
      && BuffersOk()
      && OnlyHolds(kernel.connectors, connector)
      && OnlyHolds(kernel.encoders, encoder)
      && OnlyHolds(kernel.crtcs, savedCrtc)
      && (savedCrtc != 0 ==> crtcId != 0 && connector != 0)
      && (mode.Some? ==> connector != 0)
      && currentFb < 2
    }

    /** Every field of the display says "none". */
    ghost predicate Closed()
      reads this, frames
    {
      && connector == 0 && encoder == 0 && savedCrtc == 0 && crtcId == 0 && mode == None && planeId == 0
      && frames.Length == 4
      && (forall k :: 0 <= k < 4 ==> frames[k].mapping == 0 && frames[k].fbId == 0 && frames[k].handle == 0)
    }

    constructor (kernel: Kernel, displays: nat, universalPlanes: bool)
      requires kernel.Valid() && kernel.NothingLive()
      ensures Valid() && Closed() && this.kernel == kernel && this.displays == displays
      ensures hasUniversalPlanes == universalPlanes && currentFb == 0
      ensures fresh(frames) && forall k :: 0 <= k < 4 ==> frames[k] == NO_BUFFER
    {
      this.kernel := kernel;
      this.displays := displays;
      frames := new Framebuffer[4](_ => NO_BUFFER);
      connector, encoder, savedCrtc, crtcId, mode, planeId := 0, 0, 0, 0, None, 0;
      hasUniversalPlanes, currentFb, currentDisplay := universalPlanes, 0, -1;
    }

    /** Buffer k changed, but neither its mapping nor its size. */
    lemma StillSized(before: seq<Framebuffer>, k: nat)
      requires |before| == frames.Length && k < |before| && frames[..] == before[k := frames[k]]
      requires Sized(kernel.maps, before)
      requires frames[k].mapping == before[k].mapping && (frames[k].mapping == 0 || frames[k].size == before[k].size)
      ensures Sized(kernel.maps, frames[..])
    {
      assert SizeKnown(kernel.maps, before[k]);
      SizedUpdate(kernel.maps, before, k, frames[k]);
    }

    method ReleaseMap(k: nat)
      requires BuffersOk() && k < 4
      modifies frames, kernel`maps
      ensures BuffersOk()
      ensures frames[..] == old(frames[..])[k := old(frames[k]).(mapping := 0)]
    {
      if frames[k].mapping != 0 {
        RecordedClear(kernel.maps.Keys, Maps(frames[..]), k);
        SizedUnmapped(kernel.maps, frames[..], k);
        kernel.Munmap(frames[k].mapping, frames[k].size);
        ghost var before := frames[..];
        frames[k] := frames[k].(mapping := 0);
        assert frames[..] == before[k := frames[k]];
        assert Maps(frames[..]) == Maps(before)[k := 0];
        assert Handles(frames[..]) == Handles(before) && FbIds(frames[..]) == FbIds(before);
      }
    }

    method ReleaseFb(k: nat)
      requires BuffersOk() && k < 4
      modifies frames, kernel`fbs
      ensures BuffersOk()
      ensures frames[..] == old(frames[..])[k := old(frames[k]).(fbId := 0)]
    {
      if frames[k].fbId != 0 {
        RecordedClear(kernel.fbs, FbIds(frames[..]), k);
        kernel.RmFb(frames[k].fbId);
        ghost var before := frames[..];
        frames[k] := frames[k].(fbId := 0);
        StillSized(before, k);
        assert FbIds(frames[..]) == FbIds(before)[k := 0];
        assert Handles(frames[..]) == Handles(before) && Maps(frames[..]) == Maps(before);
      }
    }

    method ReleaseHandle(k: nat)
      requires BuffersOk() && k < 4
      modifies frames, kernel`handles
      ensures BuffersOk()
      ensures frames[..] == old(frames[..])[k := old(frames[k]).(handle := 0)]
    {
      if frames[k].handle != 0 {
        RecordedClear(kernel.handles, Handles(frames[..]), k);
        kernel.DestroyDumb(frames[k].handle);
        ghost var before := frames[..];
        frames[k] := frames[k].(handle := 0);
        StillSized(before, k);
        assert Handles(frames[..]) == Handles(before)[k := 0];
        assert FbIds(frames[..]) == FbIds(before) && Maps(frames[..]) == Maps(before);
      }
    }

    method ReleaseBuffer(k: nat)
      requires BuffersOk() && k < 4
      modifies frames, kernel`maps, kernel`fbs, kernel`handles
      ensures BuffersOk()
      ensures frames[..] == old(frames[..])[k := Emptied(old(frames[k]))]
    {
      ReleaseMap(k);
      ReleaseFb(k);
      ReleaseHandle(k);
    }

    method CreateDumbFor(k: nat, width: nat, height: nat, a: BufferAnswers) returns (ok: bool)
      requires BuffersOk() && k < 4 && frames[k].handle == 0 && frames[k].mapping == 0
      modifies frames, kernel`handles, kernel`nextId
      ensures BuffersOk() && ok == a.dumb
      ensures !ok ==> frames[..] == old(frames[..])
      ensures ok ==> frames[k].handle != 0
      ensures ok ==>
                frames[..] == old(frames[..])[k := old(frames[k]).(handle := frames[k].handle, pitch := a.pitch,
                                                                   size := a.size, width := width, height := height)]
    {
      var handle := kernel.CreateDumb(a.dumb);
      if handle == 0 { return false; }
      RecordedSet(old(kernel.handles), Handles(frames[..]), k, handle);
      ghost var before := frames[..];
      frames[k] := frames[k].(handle := handle, pitch := a.pitch, size := a.size, width := width, height := height);
      StillSized(before, k);
      assert Handles(frames[..]) == Handles(before)[k := handle];
      assert FbIds(frames[..]) == FbIds(before) && Maps(frames[..]) == Maps(before);
      ok := true;
    }

    method AddFbFor(k: nat, a: BufferAnswers) returns (ok: bool)
      requires BuffersOk() && k < 4 && frames[k].fbId == 0
      modifies frames, kernel`fbs, kernel`nextId
      ensures BuffersOk() && ok == a.addFb
      ensures frames[..] == old(frames[..])[k := old(frames[k]).(fbId := frames[k].fbId)]
      ensures ok <==> frames[k].fbId != 0
    {
      var id := kernel.AddFb(a.addFb);
      if id == 0 { return false; }
      RecordedSet(old(kernel.fbs), FbIds(frames[..]), k, id);
      ghost var before := frames[..];
      frames[k] := frames[k].(fbId := id);
      StillSized(before, k);
      assert FbIds(frames[..]) == FbIds(before)[k := id];
      assert Handles(frames[..]) == Handles(before) && Maps(frames[..]) == Maps(before);
      ok := true;
    }

    method MmapFor(k: nat, a: BufferAnswers) returns (ok: bool)
      requires BuffersOk() && k < 4 && frames[k].mapping == 0
      modifies frames, kernel`maps, kernel`nextId
      ensures BuffersOk() && ok == a.mmap
      ensures frames[..] == old(frames[..])[k := old(frames[k]).(mapping := frames[k].mapping)]
      ensures ok <==> frames[k].mapping != 0
    {
      var address := kernel.Mmap(frames[k].size, a.mmap);
      if address == 0 { return false; }
      RecordedSet(old(kernel.maps.Keys), Maps(frames[..]), k, address);
      ghost var before := frames[..];
      SizedMapped(old(kernel.maps), before, k, address);
      frames[k] := frames[k].(mapping := address);
      assert frames[..] == before[k := frames[k]];
      assert kernel.maps.Keys == old(kernel.maps.Keys) + {address};
      assert Maps(frames[..]) == Maps(before)[k := address];
      assert Handles(frames[..]) == Handles(before) && FbIds(frames[..]) == FbIds(before);
      ok := true;
    }

    /** The source buffers are not the business of the display buffers' creation. */
    twostate predicate SourcesKept()
      reads this, frames
    {
      frames.Length == 4 && frames[2] == old(frames[2]) && frames[3] == old(frames[3])
    }

    /** The handles of the buffers up to and including i go; what else they hold stays recorded. */
    method DropHandles(n: nat)
      requires BuffersOk() && n <= 2
      modifies frames, kernel`handles
      ensures BuffersOk()
      ensures forall k :: 0 <= k < 4 ==>
                frames[k] == if k < n then old(frames[k]).(handle := 0) else old(frames[k])
    {
      for j := 0 to n
        invariant BuffersOk()
        invariant forall k :: 0 <= k < 4 ==>
                    frames[k] == if k < j then old(frames[k]).(handle := 0) else old(frames[k])
      {
        ReleaseHandle(j);
      }
    }

    /** A buffer without framebuffer and handle, and without its mapping if `mapped`. */
    static function Dropped(f: Framebuffer, mapped: bool): Framebuffer {
      if mapped then Emptied(f) else f.(fbId := 0, handle := 0)
    }

    method DropBuffers(n: nat, mapped: bool)
      requires BuffersOk() && n <= 2
      modifies frames, kernel`maps, kernel`fbs, kernel`handles
      ensures BuffersOk()
      ensures forall k :: 0 <= k < 4 ==> frames[k] == if k < n then Dropped(old(frames[k]), mapped) else old(frames[k])
    {
      for j := 0 to n
        invariant BuffersOk()
        invariant forall k :: 0 <= k < 4 ==>
                    frames[k] == if k < j then Dropped(old(frames[k]), mapped) else old(frames[k])
      {
        if mapped { ReleaseMap(j); }
        ReleaseFb(j);
        ReleaseHandle(j);
      }
    }

    /** Display buffer i is complete and of the mode's size. */
    ghost predicate Complete(i: nat, m: Mode)
      requires i < frames.Length
      reads this, frames
    {
      frames[i].mapping != 0 && frames[i].fbId != 0 && frames[i].handle != 0 &&
      frames[i].width == m.hdisplay && frames[i].height == m.vdisplay
    }

    /**
     What the rollback leaves of a buffer: never its handle; its framebuffer id, unless the buffer
     under way had got one; its mapping, unless it was the last call, mapping that buffer, that failed.
     */
    static predicate RolledBack(f: Framebuffer, was: Framebuffer, a: BufferAnswers) {
      && f.handle == 0
      && f.fbId == (if a.dumb && a.addFb then 0 else was.fbId)
      && f.mapping == (if a.dumb && a.addFb && a.mapDumb then 0 else was.mapping)
    }

    /** One display buffer, or the rollback of the branch that failed. */
    method CreateFramebuffer(i: nat, m: Mode, a: BufferAnswers) returns (ok: bool)
      requires BuffersOk() && i < 2 && frames[i] == Emptied(frames[i])
      modifies frames, kernel`maps, kernel`fbs, kernel`handles, kernel`nextId
      ensures BuffersOk() && SourcesKept() && ok == AllGood(a)
      ensures ok ==> Complete(i, m)
      ensures ok || i == 0 ==> frames[1 - i] == old(frames[1 - i])
      ensures !ok ==> RolledBack(frames[0], old(frames[0]), a) && RolledBack(frames[i], old(frames[i]), a)
    {
      ok := CreateDumbFor(i, m.hdisplay, m.vdisplay, a);
      if !ok { DropHandles(i); return; }
      ok := AddFbFor(i, a);
      if !ok { DropHandles(i + 1); return; }
      if !a.mapDumb { DropBuffers(i + 1, false); return false; }
      ok := MmapFor(i, a);
      if !ok { DropBuffers(i + 1, true); }
    }

    /**
     Both display buffers, or the partial rollback of the branch that failed: some of those
     branches leave mappings and framebuffer ids behind, all of them still recorded.
     */
    method CreateFramebuffers(m: Mode, first: BufferAnswers, second: BufferAnswers) returns (ok: bool)
      requires BuffersOk() && frames[0] == Emptied(frames[0]) && frames[1] == Emptied(frames[1])
      modifies frames, kernel`maps, kernel`fbs, kernel`handles, kernel`nextId
      ensures BuffersOk() && SourcesKept() && ok == (AllGood(first) && AllGood(second))
      ensures ok ==> Complete(0, m) && Complete(1, m)
      ensures !ok ==> frames[0].handle == 0 && frames[1] == Emptied(frames[1])
      ensures !ok ==> (frames[0].fbId != 0 <==> AllGood(first) && !(second.dumb && second.addFb))
      ensures !ok ==> (frames[0].mapping != 0 <==> AllGood(first) && !(second.dumb && second.addFb && second.mapDumb))
    {
      ok := CreateFramebuffer(0, m, first);
      if !ok { return; }
      ok := CreateFramebuffer(1, m, second);
    }

    /**
     A source buffer of the stream's size. A size already recorded counts as created, whether the
     buffer is mapped or not; otherwise success means a complete buffer.
     */
    method CreateSourceFramebuffer(width: nat, height: nat, index: nat, a: BufferAnswers) returns (ok: bool)
      requires BuffersOk() && index < 2
      modifies frames, kernel`maps, kernel`fbs, kernel`handles, kernel`nextId
      ensures BuffersOk()
      ensures var f, f' := old(frames[2 + index]), frames[2 + index];
              && (SizeRecorded(f, width, height) ==> ok && f' == f)
              && (!SizeRecorded(f, width, height) ==>
                    && ok == AllGood(a) == (f'.mapping != 0)
                    && (ok ==> f'.fbId != 0 && f'.handle != 0)
                    && (if a.dumb then SizeRecorded(f', width, height) else f' == Emptied(f)))
      ensures forall j :: 0 <= j < 4 && j != 2 + index ==> frames[j] == old(frames[j])
    {
      var k := 2 + index;
      if frames[k].width == width && frames[k].height == height { return true; }
      ReleaseBuffer(k);
      ok := CreateDumbFor(k, width, height, a);
      if !ok { return false; }
      ok := AddFbFor(k, a);
      if !ok { return false; }
      if !a.mapDumb { return false; }
      ok := MmapFor(k, a);
    }

    twostate predicate SameSetup()
      reads this
    {
      displays == old(displays) && hasUniversalPlanes == old(hasUniversalPlanes) && currentFb == old(currentFb)
    }

    /** Puts the saved CRTC back. */
    method RestoreCrtc()
      requires Valid()
      modifies this`savedCrtc, kernel`crtcs
      ensures Valid() && savedCrtc == 0
    {
      if savedCrtc != 0 && crtcId != 0 && connector != 0 {
        kernel.FreeCrtc(savedCrtc);
        savedCrtc := 0;
      }
    }

    /** Encoder, then connector, with the mode that lies inside the connector. */
    method FreeOutput()
      requires Valid() && savedCrtc == 0
      modifies this`encoder, this`connector, this`mode, kernel`encoders, kernel`connectors
      ensures Valid() && encoder == 0 && connector == 0 && mode == None
    {
      if encoder != 0 {
        kernel.FreeEncoder(encoder);
        encoder := 0;
      }
      if connector != 0 {
        kernel.FreeConnector(connector);
        connector := 0;
      }
      mode := None;
    }

    /** Gives back everything that is recorded, in the source's order. */
    method Cleanup()
      requires Valid()
      modifies this, frames, kernel
      ensures Valid() && Closed() && kernel.NothingLive()
      ensures SameSetup() && currentDisplay == old(currentDisplay)
      ensures forall k :: 0 <= k < 4 ==> frames[k] == Emptied(old(frames[k]))
    {
      RestoreCrtc();
      ReleaseAll();
      FreeOutput();
      crtcId := 0;
      planeId := 0;
    }

    method ReleaseAll()
      requires BuffersOk()
      modifies frames, kernel`maps, kernel`fbs, kernel`handles
      ensures BuffersOk()
      ensures kernel.handles == {} && kernel.fbs == {} && kernel.maps == map[]
      ensures forall k :: 0 <= k < 4 ==> frames[k] == Emptied(old(frames[k]))
    {
      for i := 0 to 2
        invariant BuffersOk()
        invariant forall k :: 0 <= k < 4 ==>
                    frames[k] == if k < i || 2 <= k < 2 + i then Emptied(old(frames[k])) else old(frames[k])
      {
        ReleaseBuffer(i);
        ReleaseBuffer(2 + i);
      }
      NoneRecordedNoneLive();
    }

    lemma NoneRecordedNoneLive()
      requires BuffersOk()
      requires forall k :: 0 <= k < 4 ==> frames[k].mapping == 0 && frames[k].fbId == 0 && frames[k].handle == 0
      ensures kernel.handles == {} && kernel.fbs == {} && kernel.maps == map[]
    {
      RecordedNone(kernel.handles, Handles(frames[..]));
      RecordedNone(kernel.fbs, FbIds(frames[..]));
      RecordedNone(kernel.maps.Keys, Maps(frames[..]));
    }

    method CloseDisplay()
      requires Valid()
      modifies this, frames, kernel
      ensures Valid() && Closed() && kernel.NothingLive() && currentDisplay == -1
      ensures SameSetup()
      ensures forall k :: 0 <= k < 4 ==> frames[k] == Emptied(old(frames[k]))
    {
      Cleanup();
      currentDisplay := -1;
    }

    /** The connector's own encoder, or the first of its encoders that can be had. */
    method AcquireEncoder(own: bool, others: seq<bool>)
      requires Valid() && encoder == 0
      modifies this`encoder, kernel`encoders, kernel`nextId
      ensures Valid() && (encoder != 0 <==> own || true in others)
    {
      encoder := kernel.GetEncoder(own);
      var i := 0;
      while i < |others| && encoder == 0
        invariant i <= |others| && Valid()
        invariant encoder != 0 <==> own || true in others[..i]
      {
        encoder := kernel.GetEncoder(others[i]);
        i := i + 1;
      }
      assert encoder == 0 ==> others[..i] == others;
    }

    /** The connector, if it is there and connected, and an encoder; an unconnected connector stays, recorded. */
    method AcquireConnector(a: Opening) returns (ok: bool)
      requires Valid() && Closed()
      modifies this`connector, this`encoder, kernel`connectors, kernel`encoders, kernel`nextId
      ensures Valid() && ok == (a.connector && a.connected && (a.ownEncoder || true in a.encoders))
      ensures if ok then connector != 0 && encoder != 0 else encoder == 0
    {
      connector := kernel.GetConnector(a.connector);
      if connector == 0 || !a.connected { return false; }
      AcquireEncoder(a.ownEncoder, a.encoders);
      if encoder == 0 {
        kernel.FreeConnector(connector);
        connector := 0;
        return false;
      }
      ok := true;
    }

    /** Connector, encoder and CRTC; on failure at most an unconnected connector stays, recorded. */
    method AcquireOutput(a: Opening) returns (ok: bool)
      requires Valid() && Closed()
      modifies this`connector, this`encoder, this`crtcId, this`savedCrtc,
               kernel`connectors, kernel`encoders, kernel`crtcs, kernel`nextId
      ensures Valid() && ok == HasOutput(a)
      ensures ok ==> connector != 0 && encoder != 0 && crtcId != 0 && (savedCrtc != 0 <==> a.savedCrtc)
      ensures !ok ==> encoder == 0 && savedCrtc == 0 && crtcId == 0
    {
      ok := AcquireConnector(a);
      if !ok { return false; }
      crtcId := a.crtc;
      if crtcId == 0 {
        kernel.FreeEncoder(encoder);
        kernel.FreeConnector(connector);
        encoder, connector := 0, 0;
        return false;
      }
      savedCrtc := kernel.GetCrtc(a.savedCrtc);
    }

    /** An open display: an output, a mode, and two mapped buffers of its size. */
    ghost predicate Ready()
      reads this, frames
    {
      && connector != 0 && encoder != 0 && crtcId != 0 && mode.Some? && frames.Length == 4
      && Complete(0, mode.value) && Complete(1, mode.value)
    }

    /** Mode, plane, framebuffers and the first mode setting, once there is an output. */
    method PrepareScreen(a: Opening) returns (ok: bool)
      requires Valid() && connector != 0 && encoder != 0 && crtcId != 0 && planeId == 0
      requires frames[0] == Emptied(frames[0]) && frames[1] == Emptied(frames[1])
      modifies this`mode, this`planeId, frames, kernel`maps, kernel`fbs, kernel`handles, kernel`nextId
      ensures Valid() && SourcesKept()
      ensures ok == (a.mode.Some? && AllGood(a.first) && AllGood(a.second) && a.setCrtc)
      ensures ok ==> Ready() && mode == a.mode && planeId == if hasUniversalPlanes then a.plane else 0
    {
      mode := a.mode;
      if mode == None { return false; }
      if hasUniversalPlanes { planeId := a.plane; }
      ok := CreateFramebuffers(mode.value, a.first, a.second);
      ok := ok && a.setCrtc;
    }

    /** The screen, or everything given back. */
    method PrepareOrCleanUp(a: Opening) returns (ok: bool)
      requires Valid() && connector != 0 && encoder != 0 && crtcId != 0 && planeId == 0
      requires frames[0] == Emptied(frames[0]) && frames[1] == Emptied(frames[1])
      requires frames[2] == Emptied(frames[2]) && frames[3] == Emptied(frames[3])
      modifies this, frames, kernel
      ensures Valid() && SameSetup() && currentDisplay == old(currentDisplay) && SourcesKept()
      ensures ok == (a.mode.Some? && AllGood(a.first) && AllGood(a.second) && a.setCrtc)
      ensures if ok then Ready() && planeId == (if hasUniversalPlanes then a.plane else 0) else Closed()
      ensures ok ==> savedCrtc == old(savedCrtc)
    {
      ok := PrepareScreen(a);
      if !ok { Cleanup(); }
    }

    /** Output and screen, or everything but an unconnected connector given back. */
    method Acquire(a: Opening) returns (ok: bool)
      requires Valid() && Closed()
      modifies this, frames, kernel
      ensures Valid() && SameSetup() && currentDisplay == old(currentDisplay) && ok == Opens(a)
      ensures frames[2] == old(frames[2]) && frames[3] == old(frames[3])
      ensures ok ==> Ready() && (savedCrtc != 0 <==> a.savedCrtc)
      ensures ok ==> planeId == if hasUniversalPlanes then a.plane else 0
      ensures !ok ==> mode == None && encoder == 0 && savedCrtc == 0
                      && forall k :: 0 <= k < 4 ==> frames[k] == Emptied(frames[k])
    {
      ok := AcquireOutput(a);
      if !ok { return false; }
      ok := PrepareOrCleanUp(a);
    }

    /** Closes whatever is open and opens this display. */
    method Reopen(displayId: nat, a: Opening) returns (ok: bool)
      requires Valid()
      modifies this, frames, kernel
      ensures Valid() && SameSetup() && currentDisplay == displayId && ok == Opens(a)
      ensures frames[2] == Emptied(old(frames[2])) && frames[3] == Emptied(old(frames[3]))
      ensures ok ==> Ready() && (savedCrtc != 0 <==> a.savedCrtc)
      ensures ok ==> planeId == if hasUniversalPlanes then a.plane else 0
      ensures !ok ==> mode == None && encoder == 0 && savedCrtc == 0
                      && forall k :: 0 <= k < 4 ==> frames[k] == Emptied(frames[k])
    {
      CloseDisplay();
      currentDisplay := displayId;
      ok := Acquire(a);
    }

    method OpenDisplay(displayId: int, a: Opening) returns (ok: bool)
      requires Valid()
      modifies this, frames, kernel
      ensures Valid() && SameSetup()
      ensures ok <==> 0 <= displayId < displays && Opens(a)
      ensures !(0 <= displayId < displays) ==> unchanged(this) && unchanged(frames) && unchanged(kernel)
      ensures 0 <= displayId < displays ==>
                && currentDisplay == displayId
                && frames[2] == Emptied(old(frames[2])) && frames[3] == Emptied(old(frames[3]))
      ensures ok ==> Ready() && (savedCrtc != 0 <==> a.savedCrtc)
      ensures ok ==> planeId == if hasUniversalPlanes then a.plane else 0
      ensures !ok && 0 <= displayId < displays ==>
                mode == None && encoder == 0 && savedCrtc == 0
                && forall k :: 0 <= k < 4 ==> frames[k] == Emptied(frames[k])
    {
      if displayId < 0 || displayId >= displays { return false; }
      ok := Reopen(displayId, a);
    }

    /** A frame can be shown: there is an output and a mode, and the next display buffer is mapped. */
    ghost predicate CanShow()
      requires frames.Length == 4 && currentFb < 2
      reads this, frames
    {
      connector != 0 && mode.Some? && frames[1 - currentFb].mapping != 0
    }

    /**
     The hardware path is taken into a source buffer whose size fits but which is not mapped: a
     creation failed after its size was recorded, or the display was closed since.
     */
    ghost predicate Unmapped(width: nat, height: nat)
      requires frames.Length == 4 && currentFb < 2
      reads this, frames
    {
      && planeId != 0 && hasUniversalPlanes
      && SizeRecorded(frames[3 - currentFb], width, height) && frames[3 - currentFb].mapping == 0
    }

    lemma MappedIsLive(k: nat)
      requires BuffersOk() && k < 4 && frames[k].mapping != 0
      ensures frames[k].mapping in kernel.maps
    {
      assert HeldLive(kernel.maps.Keys, Maps(frames[..]), k);
    }

    /** The hardware path's blit target: none when the source buffer cannot be had. */
    method SourceTarget(width: nat, height: nat, index: nat, a: BufferAnswers) returns (target: Option<nat>)
      requires Valid() && index < 2
      modifies frames, kernel`maps, kernel`fbs, kernel`handles, kernel`nextId
      ensures Valid()
      ensures forall k :: 0 <= k < 4 && k != 2 + index ==> frames[k] == old(frames[k])
      ensures var f, f' := old(frames[2 + index]), frames[2 + index];
              && (target == None <==> !SizeRecorded(f, width, height) && !AllGood(a))
              && (target == Some(0) <==> SizeRecorded(f, width, height) && f.mapping == 0)
              && (!SizeRecorded(f, width, height) ==> (f'.mapping != 0 <==> AllGood(a)))
              && (a.dumb || SizeRecorded(f, width, height) ==> SizeRecorded(f', width, height))
      ensures target.Some? ==> target.value == frames[2 + index].mapping
      ensures target.Some? && target.value != 0 ==> target.value in kernel.maps
    {
      var created := CreateSourceFramebuffer(width, height, index, a);
      if !created { return None; }
      target := Some(frames[2 + index].mapping);
      if frames[2 + index].mapping != 0 { MappedIsLive(2 + index); }
    }

    /** The hardware path has a source buffer to blit into: there is a plane, and the buffer can be had. */
    ghost predicate HasSource(f: Frame, a: BufferAnswers)
      requires frames.Length == 4 && currentFb < 2
      reads this, frames
    {
      planeId != 0 && hasUniversalPlanes && (SizeRecorded(frames[3 - currentFb], f.width, f.height) || AllGood(a))
    }

    /**
     The hardware path, where there is one: the blit into the source buffer, if that can be had,
     and then the plane, if it can be set.
     */
    method ShowOnPlane(nextFb: nat, f: Frame, a: BufferAnswers, planeSet: bool) returns (shown: bool, blits: seq<nat>)
      requires Valid() && nextFb == 1 - currentFb
      modifies frames, kernel`maps, kernel`fbs, kernel`handles, kernel`nextId
      ensures Valid() && shown == (old(HasSource(f, a)) && planeSet)
      ensures blits == if old(HasSource(f, a)) then [frames[2 + nextFb].mapping] else []
      ensures blits == [0] <==> old(Unmapped(f.width, f.height))
      ensures blits == [] || blits == [0] || (|blits| == 1 && blits[0] in kernel.maps)
      ensures forall k :: 0 <= k < 4 && k != 2 + nextFb ==> frames[k] == old(frames[k])
      ensures planeId != 0 && hasUniversalPlanes ==>
                SourceAfter(old(frames[2 + nextFb]), frames[2 + nextFb], f.width, f.height, a)
    {
      if planeId == 0 || !hasUniversalPlanes { return false, []; }
      var target := SourceTarget(f.width, f.height, nextFb, a);
      if target == None { return false, []; }
      shown, blits := planeSet, [target.value];
    }

    /** A frame that is not refused, for display buffer `nextFb` and its source buffer. */
    method ShowIn(nextFb: nat, f: Frame, a: BufferAnswers, planeSet: bool)
      returns (outcome: Outcome, blits: seq<nat>, scanout: nat)
      requires Valid() && nextFb == 1 - currentFb && frames[nextFb].mapping != 0
      modifies this`currentFb, frames, kernel`maps, kernel`fbs, kernel`handles, kernel`nextId
      ensures Valid()
      ensures outcome == if Draws(f) && old(Unmapped(f.width, f.height)) then NullWrite else Shown
      ensures outcome == Shown ==> blits != [] && forall m :: m in blits ==> m in kernel.maps || (m == 0 && !Draws(f))
      ensures outcome == NullWrite ==> blits == [0]
      ensures outcome != Shown ==> scanout == 0
      ensures outcome == Shown ==> PaintedAndShown(old(HasSource(f, a)), planeSet, nextFb, blits, scanout)
      ensures currentFb == if outcome == Shown then nextFb else old(currentFb)
      ensures forall k :: 0 <= k < 4 && k != 2 + nextFb ==> frames[k] == old(frames[k])
      ensures planeId != 0 && hasUniversalPlanes ==>
                SourceAfter(old(frames[2 + nextFb]), frames[2 + nextFb], f.width, f.height, a)
    {
      var shown;
      shown, blits := ShowOnPlane(nextFb, f, a, planeSet);
      if Draws(f) && blits == [0] { return NullWrite, blits, 0; }
      scanout := frames[2 + nextFb].fbId;
      if !shown {
        blits := blits + [frames[nextFb].mapping];
        scanout := frames[nextFb].fbId;
      }
      Flip(nextFb);
      outcome := Shown;
    }

    /**
     Which buffers have been painted, and which one is on display: the source buffer on the plane,
     or the display buffer by a page flip.
     */
    ghost predicate PaintedAndShown(source: bool, planeSet: bool, nextFb: nat, blits: seq<nat>, scanout: nat)
      requires frames.Length == 4 && nextFb < 2
      reads this, frames
    {
      && blits == (if source then [frames[2 + nextFb].mapping] else [])
                  + (if source && planeSet then [] else [frames[nextFb].mapping])
      && scanout == frames[if source && planeSet then 2 + nextFb else nextFb].fbId
    }

    lemma MappingsApart(j: nat, k: nat)
      requires BuffersOk() && j < 4 && k < 4 && j != k && frames[j].mapping != 0
      ensures frames[j].mapping != frames[k].mapping
    {
      assert Apart(Maps(frames[..]), j, k);
    }

    /** The next display buffer, which is mapped, becomes the current one. */
    method Flip(nextFb: nat)
      requires Valid() && nextFb < 2 && frames[nextFb].mapping != 0
      modifies this`currentFb
      ensures Valid() && currentFb == nextFb && frames[nextFb].mapping in kernel.maps
    {
      MappedIsLive(nextFb);
      currentFb := nextFb;
    }

    /**
     One frame: hardware scaling through a source buffer, or software scaling; `blits` lists the
     mappings that blits are given, and `scanout` is the framebuffer that is put on display. Every
     blit goes into a live mapping unless the hardware path meets an unmapped source buffer; then a
     frame that draws anything is written through a null pointer. A frame that is
     shown has been painted into the display buffer exactly when there is no source buffer or the
     plane cannot be set, into the source buffer exactly when there is one, and what is on display
     is one that has been painted.
     */
    method DisplayFrame(f: Frame, a: BufferAnswers, planeSet: bool)
      returns (outcome: Outcome, blits: seq<nat>, scanout: nat)
      requires Valid()
      modifies this`currentFb, frames, kernel`maps, kernel`fbs, kernel`handles, kernel`nextId
      ensures Valid()
      ensures outcome == Refused <==> !old(CanShow())
      ensures outcome == NullWrite <==> old(CanShow()) && Draws(f) && old(Unmapped(f.width, f.height))
      ensures outcome == Shown ==> blits != [] && forall m :: m in blits ==> m in kernel.maps || (m == 0 && !Draws(f))
      ensures outcome == NullWrite ==> blits == [0]
      ensures outcome != Shown ==> scanout == 0
      ensures outcome == Shown ==>
                var source, next := frames[3 - old(currentFb)], frames[1 - old(currentFb)];
                && (next.mapping in blits <==> !(old(HasSource(f, a)) && planeSet))
                && (source.mapping in blits <==> old(HasSource(f, a)))
                && scanout == if old(HasSource(f, a)) && planeSet then source.fbId else next.fbId
      ensures outcome == Refused ==> blits == [] && unchanged(frames) && unchanged(kernel)
      ensures currentFb == if outcome == Shown then 1 - old(currentFb) else old(currentFb)
      ensures forall k :: 0 <= k < 4 && k != 3 - old(currentFb) ==> frames[k] == old(frames[k])
      ensures outcome == Shown && planeId != 0 && hasUniversalPlanes ==>
                SourceAfter(old(frames[3 - currentFb]), frames[3 - old(currentFb)], f.width, f.height, a)
    {
      if connector == 0 || mode == None { return Refused, [], 0; }
      var nextFb := 1 - currentFb;
      if frames[nextFb].mapping == 0 { return Refused, [], 0; }
      outcome, blits, scanout := ShowIn(nextFb, f, a, planeSet);
      MappingsApart(nextFb, 2 + nextFb);
    }
  }

  /** What a frame leaves in its source buffer. */
  predicate SourceAfter(f: Framebuffer, f': Framebuffer, width: nat, height: nat, a: BufferAnswers) {
    && (a.dumb || SizeRecorded(f, width, height) ==> SizeRecorded(f', width, height))
    && (!SizeRecorded(f, width, height) ==> (f'.mapping != 0 <==> AllGood(a)))
  }

  datatype Outcome = Refused | Shown | NullWrite

  datatype Call =
    | Open(displayId: int, answers: Opening)
    | Display(frame: Frame, buffer: BufferAnswers, planeSet: bool)
    | Close

  /** Whatever was called and whatever failed, closing leaves nothing behind. */
  method AnySession(display: DrmDisplay, calls: seq<Call>)
    requires display.Valid()
    modifies display, display.frames, display.kernel
    ensures display.Valid() && display.Closed() && display.kernel.NothingLive()
  {
    for i := 0 to |calls|
      invariant display.Valid()
    {
      match calls[i] {
        case Open(id, answers) => var _ := display.OpenDisplay(id, answers);
        case Display(f, buffer, planeSet) => var _, _, _ := display.DisplayFrame(f, buffer, planeSet);
        case Close => display.CloseDisplay();
      }
    }
    display.CloseDisplay();
  }

  // ---------------------------------------------------------------- reaching the unmapped source buffer

  const GRANTED := BufferAnswers(true, 0, 0, true, true, true)

  const WITH_PLANE := Opening(true, true, true, [], 1, true, Some(Mode(1920, 1080)), 1, GRANTED, GRANTED, true)

  /** An open display shows two frames of a size new to both source buffers: both sizes are recorded. */
  method ShowTwice(display: DrmDisplay, f: Frame, first: BufferAnswers)
    requires display.Valid() && display.Ready() && display.planeId != 0 && display.hasUniversalPlanes && first.dumb
    requires display.currentFb == 0
    requires !SizeRecorded(display.frames[2], f.width, f.height) && !SizeRecorded(display.frames[3], f.width, f.height)
    modifies display`currentFb, display.frames, display.kernel
    ensures display.Valid() && display.Ready() && display.currentFb == 0
    ensures SizeRecorded(display.frames[2], f.width, f.height) && SizeRecorded(display.frames[3], f.width, f.height)
    ensures display.frames[3].mapping == 0 <==> !AllGood(first)
  {
    var outcome, blits, scanout := display.DisplayFrame(f, first, true);
    outcome, blits, scanout := display.DisplayFrame(f, GRANTED, true);
  }

  method OpenWithPlane() returns (display: DrmDisplay)
    ensures fresh(display) && fresh(display.kernel) && fresh(display.frames)
    ensures display.Valid() && display.Ready() && display.planeId != 0 && display.hasUniversalPlanes
    ensures display.currentFb == 0 && display.displays == 1
    ensures display.frames[2] == NO_BUFFER && display.frames[3] == NO_BUFFER
  {
    var kernel := new Kernel();
    display := new DrmDisplay(kernel, 1, true);
    var ok := display.OpenDisplay(0, WITH_PLANE);
  }

  /**
   Any failure after the buffer itself was granted reaches the null pointer, with the first size
   shown: two frames later the size is found recorded and the buffer is not mapped.
   */
  method SizeOutlivesFailure(f: Frame, first: BufferAnswers) returns (outcome: Outcome)
    requires (f.width, f.height) != (0, 0) && first.dumb && !AllGood(first)
    ensures outcome == if Draws(f) then NullWrite else Shown
  {
    var display := OpenWithPlane();
    ShowTwice(display, f, first);
    var blits, scanout;
    outcome, blits, scanout := display.DisplayFrame(f, GRANTED, true);
  }

  /** So does closing and opening again, with no failure at all. */
  method SizeOutlivesClose(f: Frame) returns (outcome: Outcome)
    requires (f.width, f.height) != (0, 0)
    ensures outcome == if Draws(f) then NullWrite else Shown
  {
    var display := OpenWithPlane();
    ShowTwice(display, f, GRANTED);
    var ok := display.OpenDisplay(0, WITH_PLANE);
    var blits, scanout;
    outcome, blits, scanout := display.DisplayFrame(f, GRANTED, true);
  }
}
