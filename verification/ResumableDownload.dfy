/**
 Downloading an object to a local file, resuming a partial transfer.

 Bytes go to `<dst>.part`, whose sidecar `<dst>.part.meta` names the object they belong to. The process may
 be killed before any file operation and run again, and the object may change between runs.
 */
module ResumableDownload {
  import opened Basics

  /** A version of the remote object; the identity is its ETag or Last-Modified, if it has either. */
  datatype RemoteObject = RemoteObject(identity: Option<string>, content: Bytes)

  /** What a sidecar file holds: something that does not decode, or an identity and a size. */
  datatype MetaFile = Torn | Meta(identity: Option<string>, size: nat)

  datatype Disk = Disk(dst: Option<Bytes>, part: Option<Bytes>, meta: Option<MetaFile>)

  /** How a range read ends: with at most `count` of the bytes asked for, or by raising. */
  datatype RangeReply = Bytes(count: nat) | Error

  datatype Outcome = Finished | Raised | Killed

  predicate Names(m: MetaFile, o: RemoteObject) {
    m == Meta(o.identity, |o.content|)
  }

  /** The bytes a call keeps: those of a part whose sidecar names the object and which is not too long. */
  function Kept(d: Disk, o: RemoteObject, resume: bool): Basics.Bytes {
    if resume && d.part.Some? && d.meta.Some? && Names(d.meta.value, o) && |d.part.value| <= |o.content|
    then d.part.value else []
  }

  // ----- the invariant of the two files -----

  ghost predicate PrefixOfNamed(part: Basics.Bytes, m: MetaFile, world: set<RemoteObject>) {
    exists o :: o in world && Names(m, o) && part <= o.content
  }

  /** A non-empty part whose sidecar decodes is a prefix of an object that the sidecar names. */
  ghost predicate PartInv(d: Disk, world: set<RemoteObject>) {
    d.part.Some? && d.part.value != [] && d.meta.Some? && d.meta.value.Meta? ==>
      PrefixOfNamed(d.part.value, d.meta.value, world)
  }

  /** Equal identity and size mean equal bytes. */
  ghost predicate Faithful(world: set<RemoteObject>) {
    forall o, p :: o in world && p in world && o.identity == p.identity && |o.content| == |p.content|
      ==> o.content == p.content
  }

  /** Among faithful versions, what a call keeps is always a prefix of the object it downloads. */
  lemma KeptIsGenuine(d: Disk, o: RemoteObject, resume: bool, world: set<RemoteObject>)
    requires PartInv(d, world) && Faithful(world) && o in world
    ensures Kept(d, o, resume) <= o.content
  {
    if Kept(d, o, resume) != [] {
      var p :| p in world && Names(d.meta.value, p) && d.part.value <= p.content;
      assert p.content == o.content;
    }
  }

  /** What a call that finishes leaves at the destination, when its range reads gave `got` bytes. */
  function Result(kept: Basics.Bytes, o: RemoteObject, got: nat): Basics.Bytes
    requires |kept| + got <= |o.content|
  {
    kept + o.content[|kept|..|kept| + got]
  }

  /** The result is the object exactly when the kept bytes were its prefix and no byte was missed. */
  lemma ResultIsObject(kept: Basics.Bytes, o: RemoteObject, got: nat)
    requires |kept| + got <= |o.content|
    ensures Result(kept, o, got) == o.content <==> kept <= o.content && |kept| + got == |o.content|
  {
    var r := Result(kept, o, got);
    if r == o.content {
      assert kept == r[..|kept|];
    }
    if kept <= o.content && |kept| + got == |o.content| {
      assert o.content == o.content[..|kept|] + o.content[|kept|..];
    }
  }

  /** Objects without ETag and Last-Modified are told apart by size alone, so two of equal size can be
      stitched together: the hypothesis of faithful identities is needed. */
  lemma AnonymousObjectsStitch() returns (d: Disk, old_: RemoteObject, new_: RemoteObject)
    ensures PartInv(d, {old_, new_}) && old_.identity == new_.identity == None
    ensures Result(Kept(d, new_, true), new_, |new_.content| - |Kept(d, new_, true)|) != new_.content
    ensures Result(Kept(d, new_, true), new_, |new_.content| - |Kept(d, new_, true)|) != old_.content
  {
    old_, new_ := RemoteObject(None, [1, 1]), RemoteObject(None, [2, 2]);
    d := Disk(None, Some([1]), Some(Meta(None, 2)));
    assert [1] <= old_.content && Names(d.meta.value, old_);
    assert Kept(d, new_, true) == [1];
    assert Result([1], new_, 1) == [1, 2];
  }

  /** Writing the sidecar of a new object before the old part is unlinked would break the invariant at
      that moment, even when versions are faithful. */
  lemma MetaBeforeUnlinkIsUnsafe() returns (d: Disk, o: RemoteObject, world: set<RemoteObject>)
    ensures PartInv(d, world) && Faithful(world) && o in world
    ensures !PartInv(d.(meta := Some(Meta(o.identity, |o.content|))), world)
  {
    var a := RemoteObject(Some("a"), [1, 1]);
    o := RemoteObject(Some("b"), [2, 2]);
    world := {a, o};
    d := Disk(None, Some([1]), Some(Meta(Some("a"), 2)));
    assert [1] <= a.content && Names(d.meta.value, a);
    var e := d.(meta := Some(Meta(o.identity, 2)));
    forall p | p in world && Names(e.meta.value, p) ensures !(e.part.value <= p.content) {
      assert p == o;
      assert e.part.value[0] != p.content[0];
    }
  }

  lemma ResultGrows(kept: Basics.Bytes, o: RemoteObject, got: nat, more: nat)
    requires |kept| + got + more <= |o.content|
    ensures var at := |kept| + got;
            Result(kept, o, got + more) == Result(kept, o, got) + o.content[at..at + more]
  {
    var at := |kept| + got;
    assert o.content[|kept|..at + more] == o.content[|kept|..at] + o.content[at..at + more];
  }

  /** One round of streaming: `data` joins what is pending, and the first `n` bytes of that reach the part. */
  lemma StreamStep(part: Basics.Bytes, pending: Basics.Bytes, kept: Basics.Bytes, o: RemoteObject, got: nat,
                   more: nat, n: nat)
    requires |kept| + got + more <= |o.content| && part + pending == Result(kept, o, got)
    requires n <= |pending| + more
    ensures var ahead := pending + o.content[|kept| + got..|kept| + got + more];
            (part + ahead[..n]) + ahead[n..] == Result(kept, o, got + more)
  {
    var data := o.content[|kept| + got..|kept| + got + more];
    var ahead := pending + data;
    calc {
      (part + ahead[..n]) + ahead[n..];
      { SplitBack(part, ahead, n); }
      part + ahead;
      { ConcatAssoc(part, pending, data); }
      (part + pending) + data;
      { ResultGrows(kept, o, got, more); }
      Result(kept, o, got + more);
    }
  }

  lemma PartWithin(part: Basics.Bytes, pending: Basics.Bytes, kept: Basics.Bytes, o: RemoteObject, got: nat)
    requires |kept| + got <= |o.content| && part + pending == Result(kept, o, got)
    ensures part <= Result(kept, o, got)
  {
  }

  lemma NothingRead(kept: Basics.Bytes, o: RemoteObject)
    requires |kept| <= |o.content|
    ensures Result(kept, o, 0) == kept
  {
  }

  lemma SplitBack(part: Basics.Bytes, ahead: Basics.Bytes, n: nat)
    requires n <= |ahead|
    ensures (part + ahead[..n]) + ahead[n..] == part + ahead
  {
    assert ahead[..n] + ahead[n..] == ahead;
  }

  lemma ConcatAssoc(a: Basics.Bytes, b: Basics.Bytes, c: Basics.Bytes)
    ensures a + (b + c) == (a + b) + c
  {
  }

  // ----- the files, and the call -----

  /** An in-bounds range read that succeeds returns at least one byte, though perhaps not all. */
  ghost predicate NoEmptyRead(net: nat -> RangeReply) {
    forall k :: net(k).Bytes? ==> net(k).count >= 1
  }

  /** How far `k` range reads bring a call that starts at `start`; each asks for `chunk` bytes or what is left. */
  function Offset(size: nat, start: nat, chunk: nat, net: nat -> RangeReply, k: nat): (at: nat)
    requires start <= size
    ensures start <= at <= size
  {
    if k == 0 then start
    else
      var at := Offset(size, start, chunk, net, k - 1);
      at + if net(k - 1).Bytes? then Min(net(k - 1).count, Min(chunk, size - at)) else 0
  }

  /** The call makes the k-th range read: bytes are missing, and every read before it brought some. */
  ghost predicate Made(size: nat, start: nat, chunk: nat, net: nat -> RangeReply, k: nat)
    requires start <= size
  {
    Offset(size, start, chunk, net, k) < size && forall j: nat :: j < k ==> net(j).Bytes? && net(j).count >= 1
  }

  /** `k` reads have been made, each brought bytes, and the call stands at `at`. */
  ghost predicate Reading(size: nat, start: nat, chunk: nat, net: nat -> RangeReply, k: nat, at: nat)
    requires start <= size
  {
    at == Offset(size, start, chunk, net, k) && forall j: nat :: j < k ==> net(j).Bytes? && net(j).count >= 1
  }

  lemma ReadingStarts(size: nat, start: nat, chunk: nat, net: nat -> RangeReply)
    requires start <= size
    ensures Reading(size, start, chunk, net, 0, start)
  {
  }

  lemma ReadingStep(size: nat, start: nat, chunk: nat, net: nat -> RangeReply, k: nat, at: nat)
    requires start <= size && Reading(size, start, chunk, net, k, at) && at < size
    ensures Made(size, start, chunk, net, k)
    ensures net(k).Bytes? && net(k).count >= 1 ==>
              Reading(size, start, chunk, net, k + 1, at + Min(net(k).count, Min(chunk, size - at)))
  {
  }

  ghost predicate ReadRaises(size: nat, start: nat, chunk: nat, net: nat -> RangeReply)
    requires start <= size
  {
    exists k: nat :: Made(size, start, chunk, net, k) && net(k).Error?
  }

  /** Every range read that is made brings bytes. */
  ghost predicate Fed(size: nat, start: nat, chunk: nat, net: nat -> RangeReply)
    requires start <= size
  {
    forall k: nat :: Made(size, start, chunk, net, k) ==> net(k).Bytes? && net(k).count >= 1
  }

  lemma {:induction false} OffsetGrows(size: nat, start: nat, chunk: nat, net: nat -> RangeReply, k: nat, j: nat)
    requires start <= size && k <= j
    ensures Offset(size, start, chunk, net, k) <= Offset(size, start, chunk, net, j)
    decreases j
  {
    if k < j {
      OffsetGrows(size, start, chunk, net, k, j - 1);
    }
  }

  lemma RaisesThere(size: nat, start: nat, chunk: nat, net: nat -> RangeReply, k: nat)
    requires start <= size && Made(size, start, chunk, net, k) && net(k).Error?
    ensures ReadRaises(size, start, chunk, net)
  {
  }

  /** All bytes have come: no further read is made. */
  lemma ReadsComplete(size: nat, start: nat, chunk: nat, net: nat -> RangeReply, k: nat)
    requires start <= size && Reading(size, start, chunk, net, k, size)
    ensures !ReadRaises(size, start, chunk, net) && Fed(size, start, chunk, net)
  {
    forall j: nat | Made(size, start, chunk, net, j) ensures j < k {
      if j >= k {
        OffsetGrows(size, start, chunk, net, k, j);
        assert false;
      }
    }
  }

  /** A read came back empty: the reading ends there. */
  lemma ReadsEndEmpty(size: nat, start: nat, chunk: nat, net: nat -> RangeReply, k: nat)
    requires start <= size && Made(size, start, chunk, net, k) && net(k) == RangeReply.Bytes(0)
    ensures !ReadRaises(size, start, chunk, net) && !Fed(size, start, chunk, net)
  {
    forall j: nat | Made(size, start, chunk, net, j) ensures j <= k {
    }
  }

  /** `file` holds what was kept, followed by bytes of `o`; all of them if `complete`. */
  ghost predicate Delivered(file: Option<Basics.Bytes>, kept: Basics.Bytes, o: RemoteObject, complete: bool) {
    file.Some? && exists got :: 0 <= got <= |o.content| - |kept| && file.value == Result(kept, o, got)
                                && (complete ==> |kept| + got == |o.content|)
  }

  /** One of the range reads raises that a call makes which finds `d`. */
  ghost predicate Raises(d: Disk, o: RemoteObject, resume: bool, chunk: nat, net: nat -> RangeReply) {
    ReadRaises(|o.content|, |Kept(d, o, resume)|, chunk, net)
  }

  /** All of them bring bytes. */
  ghost predicate Feeds(d: Disk, o: RemoteObject, resume: bool, chunk: nat, net: nat -> RangeReply) {
    Fed(|o.content|, |Kept(d, o, resume)|, chunk, net)
  }

  /** One destination path with its part and sidecar files. */
  class Files {
    var dst: Option<Basics.Bytes>
    var part: Option<Basics.Bytes>
    var meta: Option<MetaFile>

    ghost function State(): Disk
      reads this
    {
      Disk(dst, part, meta)
    }

    constructor (dst: Option<Basics.Bytes>)
      ensures State() == Disk(dst, None, None)
    {
      this.dst, this.part, this.meta := dst, None, None;
    }

    /** Where the call stands when it may start fresh: nothing is left of an earlier attempt that could
        be taken for part of `o`. */
    ghost predicate Fresh(o: RemoteObject)
      reads this
    {
      part.None? && meta == Some(Meta(o.identity, |o.content|))
    }

    /** Start over: unlink the part, unlink the sidecar, write the new sidecar. The write first truncates.
        `life` counts the file operations left before the process is killed. */
    method Restart(o: RemoteObject, life: nat, ghost world: set<RemoteObject>) returns (alive: bool, left: nat)
      requires PartInv(State(), world)
      modifies this`part, this`meta
      ensures PartInv(State(), world)
      ensures alive ==> Fresh(o)
      ensures part == (if life >= 1 then None else old(part))
      ensures life < 2 ==> meta == old(meta)
      ensures life == 2 ==> meta.None?
      ensures life == 3 ==> meta == Some(Torn)
      ensures alive <==> life >= 4
      ensures alive ==> left == life - 4
    {
      alive, left := false, 0;
      if life < 1 { return; }
      part := None;
      if life < 2 { return; }
      meta := None;
      if life < 3 { return; }
      meta := Some(Torn);
      if life < 4 { return; }
      meta := Some(Meta(o.identity, |o.content|));
      alive, left := true, life - 4;
    }

    /** Stream the rest of `o` behind the `start` bytes that the part already holds. Written bytes reach
        the disk when the buffer is flushed: after the k-th write, `flush(k)` more of them do. */
    method Stream(o: RemoteObject, start: nat, chunk: nat, life: nat, net: nat -> RangeReply, flush: nat -> nat)
      returns (outcome: Outcome, left: nat, offset: nat)
      requires part.Some? && |part.value| == start <= |o.content| && chunk >= 1
      modifies this`part
      ensures part.Some? && start <= offset <= |o.content|
      ensures part.value <= Result(old(part.value), o, offset - start)
      ensures !outcome.Killed? ==> part.value == Result(old(part.value), o, offset - start)
      ensures outcome.Finished? ==> (offset == |o.content| <==> Fed(|o.content|, start, chunk, net))
      ensures !outcome.Killed? ==> (outcome.Raised? <==> ReadRaises(|o.content|, start, chunk, net))
      ensures life >= |o.content| - start + 1 ==> !outcome.Killed?
      ensures !outcome.Killed? ==> left + |o.content| - start + 1 >= life
    {
      hide Result, Fed, ReadRaises, Reading, Made;
      ghost var before := part.value;
      var size := |o.content|;
      NothingRead(before, o);
      ReadingStarts(size, start, chunk, net);
      var pending: Basics.Bytes := [];
      var k: nat := 0;
      offset, left, outcome := start, life, Finished;
      while offset < size
        invariant start <= offset <= size && part.Some?
        invariant part.value + pending == Result(before, o, offset - start)
        invariant outcome.Finished?
        invariant Reading(size, start, chunk, net, k, offset)
        invariant life == left + k && k <= offset - start
        decreases size - offset
      {
        var end := Min(offset + chunk, size) - 1;
        ReadingStep(size, start, chunk, net, k, offset);
        if net(k).Error? {
          RaisesThere(size, start, chunk, net, k);
          outcome := Raised;
          break;
        }
        var data := o.content[offset..offset + Min(net(k).count, end + 1 - offset)];
        assert |data| == Min(net(k).count, Min(chunk, size - offset));
        PartWithin(part.value, pending, before, o, offset - start);
        if data == [] {
          ReadsEndEmpty(size, start, chunk, net, k);
          break;
        }
        if left == 0 {
          return Killed, 0, offset;
        }
        left := left - 1;
        ghost var was := pending;
        pending := pending + data;
        var n := Min(flush(k), |pending|);
        StreamStep(part.value, was, before, o, offset - start, |data|, n);
        offset := offset + |data|;
        part := Some(part.value + pending[..n]);
        pending := pending[n..];
        k := k + 1;
      }
      PartWithin(part.value, pending, before, o, offset - start);
      if offset == size {
        ReadsComplete(size, start, chunk, net, k);
      }
      if left == 0 {
        return Killed, 0, offset;
      }
      left := left - 1;
      part := Some(part.value + pending);
    }

    /** The object is fetched at once and written in place: the file is opened, which empties it, and then
        written. */
    method WriteInPlace(o: RemoteObject, life: nat, net: nat -> RangeReply, flush: nat -> nat)
      returns (outcome: Outcome, touched: bool)
      modifies this`dst
      ensures outcome == if net(0).Error? then Raised else if life >= 2 then Finished else Killed
      ensures touched <==> !net(0).Error? && life >= 1
      ensures dst == if touched then Some(InPlace(o, life, flush)) else old(dst)
    {
      if net(0).Error? {
        return Raised, false;
      }
      if life < 1 {
        return Killed, false;
      }
      dst := Some(o.content[..Min(flush(0), |o.content|)]);
      if life < 2 {
        return Killed, true;
      }
      dst := Some(o.content);
      return Finished, true;
    }

    /** The whole call. `probed` says that the size is known and the backend reads ranges; otherwise the
        object is written in place. `touched` says whether the destination was written. */
    method Download(o: RemoteObject, probed: bool, resume: bool, chunk: nat, life: nat, net: nat -> RangeReply,
                    flush: nat -> nat, ghost world: set<RemoteObject>)
      returns (outcome: Outcome, touched: bool)
      requires PartInv(State(), world) && o in world && chunk >= 1
      modifies this
      ensures !probed || Kept(old(State()), o, resume) <= o.content ==> PartInv(State(), world)
      ensures !touched ==> dst == old(dst)
      ensures outcome.Finished? ==> touched
      ensures outcome.Raised? ==> !touched
      ensures probed && touched ==> part.None? && Delivered(dst, Kept(old(State()), o, resume), o, Feeds(old(State()), o, resume, chunk, net))
      ensures probed && touched ==> !Raises(old(State()), o, resume, chunk, net)
      ensures probed && !outcome.Killed? ==> (outcome.Raised? <==> Raises(old(State()), o, resume, chunk, net))
      ensures probed && life >= |o.content| + 8 ==> !outcome.Killed?
      ensures probed && outcome.Finished? ==> meta.None?
      ensures probed && outcome.Raised? ==> Delivered(part, Kept(old(State()), o, resume), o, false)
      ensures !probed ==> part == old(part) && meta == old(meta)
      ensures !probed && touched ==> dst == Some(InPlace(o, life, flush))
      ensures !probed ==> (touched <==> !net(0).Error? && life >= 1)
      ensures !probed ==> (outcome.Killed? <==> !net(0).Error? && life <= 1)
    {
      ghost var kept := Kept(State(), o, resume);
      if !probed {
        outcome, touched := WriteInPlace(o, life, net, flush);
        return;
      }
      touched := false;
      var size := |o.content|;
      var offset, left := 0, life;
      if resume && part.Some? {
        var prev := meta;
        if prev.Some? && prev.value.Meta? && prev.value.identity == o.identity && prev.value.size == size
           && |part.value| <= size {
          offset := |part.value|;
        }
      }
      if offset == 0 {
        var alive, rest := Restart(o, left, world);
        if !alive { return Killed, false; }
        left := rest;
      }
      if left == 0 { return Killed, false; }
      left := left - 1;
      if offset == 0 {
        part := Some([]);
      }
      assert part == Some(kept) && meta == Some(Meta(o.identity, size));
      var streamed;
      outcome, left, streamed := Stream(o, offset, chunk, left, net, flush);
      if kept <= o.content {
        ResultWithin(kept, o, streamed - offset);
        assert Names(meta.value, o) && part.value <= o.content;
        assert PrefixOfNamed(part.value, meta.value, world);
      }
      if !outcome.Finished? { return; }
      if left == 0 { return Killed, false; }
      left := left - 1;
      dst, part, touched := part, None, true;
      assert dst.value == Result(kept, o, streamed - offset);
      if left == 0 { return Killed, true; }
      meta := None;
    }
  }

  /** What writing in place leaves when the process lives for so many operations. */
  function InPlace(o: RemoteObject, life: nat, flush: nat -> nat): Basics.Bytes {
    if life >= 2 then o.content else o.content[..Min(flush(0), |o.content|)]
  }

  /** One run of the program: which version it meets, how it is configured, and when it is killed. */
  datatype Call = Call(o: RemoteObject, probed: bool, resume: bool, chunk: nat, life: nat,
                       net: nat -> RangeReply, flush: nat -> nat)

  ghost predicate Sound(c: Call, world: set<RemoteObject>) {
    c.o in world && c.chunk >= 1 && NoEmptyRead(c.net)
  }

  /** The process lives long enough, and no reply is an error. */
  ghost predicate Healthy(c: Call) {
    c.life >= |c.o.content| + 8 && forall k :: c.net(k).Bytes?
  }

  lemma HealthyRuns(c: Call, d: Disk)
    requires Healthy(c)
    ensures !Raises(d, c.o, c.resume, c.chunk, c.net) && !c.net(0).Error? && c.life >= |c.o.content| + 8
  {
  }

  lemma SoundFeeds(c: Call, d: Disk)
    requires NoEmptyRead(c.net) && !Raises(d, c.o, c.resume, c.chunk, c.net)
    ensures Feeds(d, c.o, c.resume, c.chunk, c.net)
  {
  }

  /** The call wrote the destination in place, and the process was killed while some of the bytes were not yet
      on disk. */
  predicate TornInPlace(c: Call) {
    !c.probed && !c.net(0).Error? && c.life == 1 && c.flush(0) < |c.o.content|
  }

  /** What a delivered file is, when what was kept is genuine. */
  lemma DeliveredIsObject(file: Option<Basics.Bytes>, kept: Basics.Bytes, o: RemoteObject)
    requires kept <= o.content && Delivered(file, kept, o, true)
    ensures file == Some(o.content)
  {
    ResultIsObject(kept, o, |o.content| - |kept|);
  }

  /** A destination written in place is the whole object exactly unless the call was torn. */
  lemma InPlaceIsWhole(c: Call)
    requires !c.probed && !c.net(0).Error? && c.life >= 1
    ensures InPlace(c.o, c.life, c.flush) == c.o.content <==> !TornInPlace(c)
  {
    if TornInPlace(c) {
      assert |InPlace(c.o, c.life, c.flush)| < |c.o.content|;
    }
  }

  /** Any number of runs, each killed, failing or finishing, over faithful versions that change between
      them, whether or not their probes succeed: the two files stay consistent; the destination is what it was
      if no run wrote it, and otherwise it is the whole version that the last run to write it met, exactly
      unless that run was torn. After a run that finishes it is the version that run met. */
  method Session(f: Files, calls: seq<Call>, ghost world: set<RemoteObject>)
    returns (outcomes: seq<Outcome>, last: Option<nat>)
    requires PartInv(f.State(), world) && Faithful(world)
    requires forall c :: c in calls ==> Sound(c, world)
    modifies f
    ensures |outcomes| == |calls| && PartInv(f.State(), world)
    ensures last.None? ==> f.dst == old(f.dst)
    ensures last.Some? ==> last.value < |calls| && f.dst.Some? && !outcomes[last.value].Raised?
    ensures last.Some? ==> (f.dst == Some(calls[last.value].o.content) <==> !TornInPlace(calls[last.value]))
    ensures last.Some? && TornInPlace(calls[last.value]) ==>
              f.dst.value < calls[last.value].o.content && outcomes[last.value].Killed?
    ensures forall i :: 0 <= i < |calls| && outcomes[i].Finished? ==> last.Some? && i <= last.value
    ensures forall i :: 0 <= i < |calls| && Healthy(calls[i]) ==> outcomes[i].Finished?
    ensures calls != [] && outcomes[|calls| - 1].Finished? ==> f.dst == Some(calls[|calls| - 1].o.content)
  {
    hide Healthy, Raises, Feeds, Kept, PartInv, Delivered;
    outcomes, last := [], None;
    for i := 0 to |calls|
      invariant |outcomes| == i && PartInv(f.State(), world)
      invariant last.None? ==> f.dst == old(f.dst)
      invariant last.Some? ==> last.value < i && f.dst.Some? && !outcomes[last.value].Raised?
      invariant last.Some? ==> (f.dst == Some(calls[last.value].o.content) <==> !TornInPlace(calls[last.value]))
      invariant last.Some? && TornInPlace(calls[last.value]) ==>
                  f.dst.value < calls[last.value].o.content && outcomes[last.value].Killed?
      invariant forall j :: 0 <= j < i && outcomes[j].Finished? ==> last.Some? && j <= last.value
      invariant forall j :: 0 <= j < i && Healthy(calls[j]) ==> outcomes[j].Finished?
      invariant i > 0 && outcomes[i - 1].Finished? ==> f.dst == Some(calls[i - 1].o.content)
    {
      var c := calls[i];
      assert Sound(c, world);
      ghost var kept := Kept(f.State(), c.o, c.resume);
      KeptIsGenuine(f.State(), c.o, c.resume, world);
      ghost var before := f.State();
      if Healthy(c) {
        HealthyRuns(c, before);
      }
      var outcome, touched := f.Download(c.o, c.probed, c.resume, c.chunk, c.life, c.net, c.flush, world);
      if touched {
        last := Some(i);
        if c.probed {
          SoundFeeds(c, before);
          DeliveredIsObject(f.dst, kept, c.o);
        } else {
          InPlaceIsWhole(c);
        }
      }
      outcomes := outcomes + [outcome];
    }
  }

  /** Such a run really leaves a file that is neither the old one nor any version of the object. */
  method TornDownload() returns (f: Files, o: RemoteObject, outcome: Outcome)
    ensures fresh(f) && outcome.Killed? && f.dst == Some([1]) && o.content == [1, 2]
  {
    o := RemoteObject(Some("v"), [1, 2]);
    f := new Files(Some([9, 9, 9]));
    var touched;
    outcome, touched := f.Download(o, false, true, 1, 1, k => RangeReply.Bytes(1), k => 1, {o});
    assert o.content[..1] == [1];
  }

  lemma ResultWithin(kept: Basics.Bytes, o: RemoteObject, got: nat)
    requires |kept| + got <= |o.content| && kept <= o.content
    ensures Result(kept, o, got) <= o.content
  {
    assert Result(kept, o, got) == o.content[..|kept| + got];
  }
}
