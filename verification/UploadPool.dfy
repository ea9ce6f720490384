/**
 Any number of multipart uploads that share one transfer budget.

 Each upload owns a source, a read lock and a pool of workers. A worker takes a slot of the shared
 budget, then the read lock of its own source, reads one chunk, numbers it, gives the lock back, sends
 the chunk, and gives the slot back. A schedule is any list of worker steps, so a fact about every
 schedule holds for every interleaving.
 */
module UploadPool {
  import opened Basics

  /** What the service answers for one stored part (an entity tag, say). */
  type Reply = string

  /** Where a worker is in its loop. */
  datatype Phase =
    | WantSlot
    | WantLock                              // holds a slot
    | Reading                               // holds a slot and the read lock
    | Sending(number: nat, chunk: Bytes)    // holds a slot
    | Returned                              // saw the end of the source
    | Raised                                // failed, or was cancelled

  datatype Part = Part(data: Bytes, reply: Reply)

  /** One call of `upload_parts`. `sent` records the chunks in the order they were numbered, and
      `stored` is what the service holds, including parts whose acknowledgement was lost. */
  datatype Upload = Upload(
    source: Bytes,
    part: nat,
    cursor: nat,
    lock: Option<nat>,
    workers: seq<Phase>,
    partNumber: nat,
    sent: seq<Bytes>,
    results: map<nat, Reply>,
    stored: map<nat, Part>,
    failing: bool)

  /** One step of one worker. `Read` may be shorter than the part size; `Stop` is a cancellation being
      delivered, which first joins a disk read in progress. A request that fails or is cancelled may
      still have landed at the service. */
  datatype Act =
    | TakeSlot
    | TakeLock
    | Read(count: nat)
    | SeeEnd
    | FailRead
    | Send(reply: Reply)
    | FailSend(landed: Option<Reply>)
    | Stop(drained: nat, landed: Option<Reply>)

  predicate Live(p: Phase) {
    !p.Returned? && !p.Raised?
  }

  function Holds(p: Phase): nat {
    if p.WantLock? || p.Reading? || p.Sending? then 1 else 0
  }

  /** The most one read can return. */
  function Window(u: Upload): nat {
    Min(u.part, Max(0, |u.source| - u.cursor))
  }

  predicate CanWork(u: Upload, w: nat, a: Act) {
    && w < |u.workers|
    && u.cursor <= |u.source|
    && var p := u.workers[w];
       match a
       case TakeSlot => p.WantSlot?
       case TakeLock => p.WantLock? && u.lock.None?
       case Read(count) => p.Reading? && 1 <= count <= Window(u)
       case SeeEnd => p.Reading? && u.cursor == |u.source|
       case FailRead => p.Reading?
       case Send(_) => p.Sending?
       case FailSend(_) => p.Sending?
       case Stop(drained, _) => u.failing && Live(p) && (if p.Reading? then drained <= Window(u) else drained == 0)
  }

  function Land(stored: map<nat, Part>, p: Phase, landed: Option<Reply>): map<nat, Part> {
    if p.Sending? && landed.Some? then stored[p.number := Part(p.chunk, landed.value)] else stored
  }

  function Work(u: Upload, w: nat, a: Act): Upload
    requires CanWork(u, w, a)
  {
    var p := u.workers[w];
    match a
    case TakeSlot => u.(workers := u.workers[w := WantLock])
    case TakeLock => u.(workers := u.workers[w := Reading], lock := Some(w))
    case Read(count) =>
      var chunk := u.source[u.cursor..u.cursor + count];
      u.(workers := u.workers[w := Sending(u.partNumber + 1, chunk)], lock := None,
         cursor := u.cursor + count, partNumber := u.partNumber + 1, sent := u.sent + [chunk])
    case SeeEnd => u.(workers := u.workers[w := Returned], lock := None)
    case FailRead => u.(workers := u.workers[w := Raised], lock := None, failing := true)
    case Send(reply) =>
      u.(workers := u.workers[w := WantSlot], results := u.results[p.number := reply],
         stored := u.stored[p.number := Part(p.chunk, reply)])
    case FailSend(landed) =>
      u.(workers := u.workers[w := Raised], stored := Land(u.stored, p, landed), failing := true)
    case Stop(drained, landed) =>
      u.(workers := u.workers[w := Raised], lock := if p.Reading? then None else u.lock,
         cursor := u.cursor + drained, stored := Land(u.stored, p, landed))
  }

  /** Slots given back (or, if negative, taken) by a worker in phase `p`. */
  function Freed(p: Phase, a: Act): int {
    match a
    case TakeSlot => -1
    case TakeLock => 0
    case Read(_) => 0
    case Stop(_, _) => Holds(p)
    case _ => 1
  }

  // ----- what every step of one upload keeps -----

  ghost predicate SendsPart(p: Phase, n: nat) {
    p.Sending? && p.number == n
  }

  ghost predicate InFlight(u: Upload, n: nat) {
    exists w :: 0 <= w < |u.workers| && SendsPart(u.workers[w], n)
  }

  ghost predicate Settled(u: Upload, n: nat) {
    n in u.results || InFlight(u, n)
  }

  ghost predicate LockInv(u: Upload) {
    && (u.lock.Some? ==> u.lock.value < |u.workers|)
    && forall w :: 0 <= w < |u.workers| ==> (u.workers[w].Reading? <==> u.lock == Some(w))
  }

  /** Parts in flight carry what was numbered, and no number is used twice. */
  ghost predicate FlightInv(u: Upload) {
    && |u.sent| == u.partNumber
    && (forall w :: 0 <= w < |u.workers| && u.workers[w].Sending? ==>
          && 1 <= u.workers[w].number <= u.partNumber
          && u.workers[w].chunk == u.sent[u.workers[w].number - 1]
          && u.workers[w].number !in u.results)
    && (forall w, v | 0 <= w < |u.workers| && 0 <= v < |u.workers| && w != v ::
          u.workers[w].Sending? && u.workers[v].Sending? ==> u.workers[w].number != u.workers[v].number)
  }

  /** An acknowledged number is stored at the service with exactly the chunk it was given. */
  ghost predicate StoreInv(u: Upload) {
    && |u.sent| == u.partNumber
    && forall n :: n in u.results ==>
         1 <= n <= u.partNumber && n in u.stored && u.stored[n] == Part(u.sent[n - 1], u.results[n])
  }

  /** Until something fails no number is forgotten. */
  ghost predicate NoneLostInv(u: Upload) {
    !u.failing ==> forall n :: 1 <= n <= u.partNumber ==> Settled(u, n)
  }

  /** The numbered chunks are a division of what was read. */
  ghost predicate ReadInv(u: Upload) {
    && u.part >= 1
    && u.cursor <= |u.source|
    && (forall i :: 0 <= i < |u.sent| ==> 1 <= |u.sent[i]| <= u.part)
    && (!u.failing ==> Flatten(u.sent) == u.source[..u.cursor])
  }

  ghost predicate EndInv(u: Upload) {
    forall w :: 0 <= w < |u.workers| ==>
      && (u.workers[w].Raised? ==> u.failing)
      && (u.workers[w].Returned? && !u.failing ==> u.cursor == |u.source|)
  }

  ghost predicate UploadInv(u: Upload) {
    && (|u.workers| >= 1 || u.failing)
    && LockInv(u)
    && FlightInv(u)
    && StoreInv(u)
    && NoneLostInv(u)
    && ReadInv(u)
    && EndInv(u)
  }

  lemma WorkKeepsSource(u: Upload, w: nat, a: Act)
    requires CanWork(u, w, a)
    ensures Work(u, w, a).source == u.source && Work(u, w, a).part == u.part
  {
  }

  lemma WorkKeepsLock(u: Upload, w: nat, a: Act)
    requires CanWork(u, w, a) && LockInv(u)
    ensures LockInv(Work(u, w, a))
  {
  }

  lemma WorkKeepsFlight(u: Upload, w: nat, a: Act)
    requires CanWork(u, w, a) && FlightInv(u) && StoreInv(u)
    ensures FlightInv(Work(u, w, a))
  {
    var v := Work(u, w, a);
    var p, q := u.workers[w], v.workers[w];
    assert q.Sending? ==> q.number == u.partNumber + 1 == v.partNumber && q.chunk == v.sent[u.partNumber];
    forall x | 0 <= x < |v.workers| && x != w ensures v.workers[x] == u.workers[x] {
    }
    forall i | 0 <= i < |u.sent| ensures v.sent[i] == u.sent[i] {
    }
    forall n | n in v.results && n !in u.results ensures p.Sending? && n == p.number {
    }
    hide Work, CanWork, StoreInv;
  }

  lemma WorkKeepsStore(u: Upload, w: nat, a: Act)
    requires CanWork(u, w, a) && FlightInv(u) && StoreInv(u)
    ensures StoreInv(Work(u, w, a))
  {
  }

  lemma WorkKeepsNoneLost(u: Upload, w: nat, a: Act)
    requires CanWork(u, w, a) && FlightInv(u) && NoneLostInv(u)
    ensures NoneLostInv(Work(u, w, a))
  {
    var v := Work(u, w, a);
    if !v.failing {
      forall n | 1 <= n <= v.partNumber ensures Settled(v, n) {
        if n == u.partNumber + 1 {
          assert SendsPart(v.workers[w], n);
        } else {
          assert Settled(u, n);
          if n !in u.results {
            var x :| 0 <= x < |u.workers| && SendsPart(u.workers[x], n);
            assert x == w || SendsPart(v.workers[x], n);
          }
        }
      }
    }
  }

  lemma WorkKeepsRead(u: Upload, w: nat, a: Act)
    requires CanWork(u, w, a) && ReadInv(u)
    ensures ReadInv(Work(u, w, a))
  {
    if a.Read? {
      FlattenAppend(u.sent, u.source[u.cursor..u.cursor + a.count]);
      assert u.source[..u.cursor] + u.source[u.cursor..u.cursor + a.count] == u.source[..u.cursor + a.count];
    }
  }

  /** Every step of every worker keeps the upload's invariant. */
  lemma WorkKeepsUpload(u: Upload, w: nat, a: Act)
    requires CanWork(u, w, a) && UploadInv(u)
    ensures UploadInv(Work(u, w, a))
  {
    WorkKeepsLock(u, w, a);
    WorkKeepsFlight(u, w, a);
    WorkKeepsStore(u, w, a);
    WorkKeepsNoneLost(u, w, a);
    WorkKeepsRead(u, w, a);
  }

  // ----- the parts of a source that is read in full windows -----

  /** A buffered file returns a full window unless it is at its end. */
  predicate FullRead(u: Upload, a: Act) {
    a.Read? && u.cursor <= |u.source| ==> a.count == Window(u)
  }

  /** Part `n`, counted from one, of a source cut every `part` bytes. */
  function Slice(source: Bytes, part: nat, n: nat): Bytes
    requires n >= 1
  {
    var start := (n - 1) * part;
    if 0 <= start < |source| then source[start..Min(start + part, |source|)] else []
  }

  ghost predicate Tiled(u: Upload) {
    !u.failing ==>
      && u.cursor == Min(u.partNumber * u.part, |u.source|)
      && forall i :: 0 <= i < |u.sent| ==> u.sent[i] == Slice(u.source, u.part, i + 1)
  }

  /** A full window read where `n` windows end is slice n + 1. */
  lemma NextSlice(source: Bytes, part: nat, n: nat, cursor: nat, count: nat)
    requires cursor == Min(n * part, |source|) < |source| && count == Min(part, |source| - cursor)
    ensures cursor + count == Min((n + 1) * part, |source|)
    ensures source[cursor..cursor + count] == Slice(source, part, n + 1)
  {
    assert (n + 1) * part == n * part + part;
  }

  lemma WorkKeepsTiled(u: Upload, w: nat, a: Act)
    requires CanWork(u, w, a) && UploadInv(u) && Tiled(u) && FullRead(u, a)
    ensures Tiled(Work(u, w, a))
  {
    hide Slice, LockInv, StoreInv, NoneLostInv, EndInv;
    if a.Read? && !u.failing {
      NextSlice(u.source, u.part, u.partNumber, u.cursor, a.count);
    }
  }

  // ----- what a normal return means -----

  /** `upload_parts` returns normally: every worker saw the end and nothing was raised. */
  ghost predicate ReturnsNormally(u: Upload) {
    !u.failing && forall w :: 0 <= w < |u.workers| ==> u.workers[w].Returned?
  }

  /** `out` lists the values of `results` by increasing key. */
  ghost predicate InKeyOrder(results: map<nat, Reply>, order: seq<nat>, out: seq<Reply>) {
    && |out| == |order|
    && (forall i, j :: 0 <= i < j < |order| ==> order[i] < order[j])
    && (forall n :: n in results <==> n in order)
    && (forall i :: 0 <= i < |order| ==> order[i] in results && out[i] == results[order[i]])
  }

  /** The results by increasing part number, which is what the call returns. */
  method CollectResults(u: Upload) returns (order: seq<nat>, out: seq<Reply>)
    requires StoreInv(u)
    ensures InKeyOrder(u.results, order, out)
  {
    order, out := [], [];
    for n := 1 to u.partNumber + 1
      invariant |out| == |order|
      invariant forall i, j :: 0 <= i < j < |order| ==> order[i] < order[j]
      invariant forall k :: k in order <==> k in u.results && k < n
      invariant forall i :: 0 <= i < |order| ==> order[i] < n && order[i] in u.results && out[i] == u.results[order[i]]
    {
      if n in u.results {
        order := order + [n];
        out := out + [u.results[n]];
      }
    }
  }

  lemma {:induction false} DistinctFit(order: seq<nat>, k: nat)
    requires forall i, j :: 0 <= i < j < |order| ==> order[i] < order[j]
    requires forall n :: n in order <==> 1 <= n <= k
    ensures |order| == k
    ensures forall i :: 0 <= i < |order| ==> order[i] == i + 1
  {
    if k == 0 {
      assert forall i :: 0 <= i < |order| ==> order[i] in order;
    } else {
      assert k in order;
      var last := |order| - 1;
      assert order[last] in order;
      assert order[last] == k;
      var front := order[..last];
      forall n ensures n in front <==> 1 <= n <= k - 1 {
        if 1 <= n <= k - 1 {
          assert n in order;
          var i :| 0 <= i < |order| && order[i] == n;
          assert front[i] == n;
        }
        if n in front {
          var i :| 0 <= i < |front| && front[i] == n;
          assert order[i] in order && order[i] < order[last];
        }
      }
      DistinctFit(front, k - 1);
    }
  }

  /** A normal return: the numbers are 1..k without a gap, the replies come back in that order, every
      part is stored as sent, and the parts in order are the whole source. */
  lemma NormalReturn(u: Upload, order: seq<nat>, out: seq<Reply>)
    requires UploadInv(u) && ReturnsNormally(u) && InKeyOrder(u.results, order, out)
    ensures |out| == |u.sent| == u.partNumber
    ensures forall n :: n in u.results <==> 1 <= n <= |out|
    ensures forall n :: 1 <= n <= |out| ==> n in u.stored && u.stored[n] == Part(u.sent[n - 1], out[n - 1])
    ensures Flatten(u.sent) == u.source
  {
    forall n ensures n in order <==> 1 <= n <= u.partNumber {
      if 1 <= n <= u.partNumber {
        assert Settled(u, n);
      }
    }
    DistinctFit(order, u.partNumber);
    assert u.workers[0].Returned?;
    assert u.source[..u.cursor] == u.source;
  }

  /** The k slices of a source that needs k windows: all but the last are full, the last is not empty. */
  lemma SliceLength(source: Bytes, part: nat, n: nat, k: nat)
    requires 1 <= n <= k && |Slice(source, part, k)| >= 1
    ensures (k - 1) * part < |source|
    ensures n < k ==> |Slice(source, part, n)| == part
  {
    if n < k {
      StepAtMost(n - 1, k - 1, part);
      assert (n - 1) * part >= 0;
    }
  }

  /** With full reads, part n carries exactly bytes [(n-1) * part, min(n * part, size)): every part but
      the last is full, and the last one is not empty. */
  lemma NormalReturnTiled(u: Upload, order: seq<nat>, out: seq<Reply>, n: nat)
    requires UploadInv(u) && Tiled(u) && ReturnsNormally(u) && InKeyOrder(u.results, order, out)
    requires 1 <= n <= |out|
    ensures n in u.stored && u.stored[n] == Part(Slice(u.source, u.part, n), out[n - 1])
    ensures (|out| - 1) * u.part < |u.source| <= |out| * u.part
    ensures n < |out| ==> |u.stored[n].data| == u.part
  {
    hide UploadInv, Tiled, ReturnsNormally, InKeyOrder, Slice, Flatten;
    NormalReturn(u, order, out);
    TiledPart(u, |out|, n);
    TiledPart(u, |out|, |out|);
    SliceLength(u.source, u.part, n, |out|);
  }

  lemma TiledPart(u: Upload, k: nat, n: nat)
    requires UploadInv(u) && Tiled(u) && ReturnsNormally(u) && 1 <= n <= k == |u.sent|
    ensures |u.source| <= k * u.part
    ensures u.sent[n - 1] == Slice(u.source, u.part, n) && |u.sent[n - 1]| >= 1
  {
    hide LockInv, StoreInv, NoneLostInv, Slice;
    assert u.workers[0].Returned?;
    assert u.sent[n - 1] == Slice(u.source, u.part, n - 1 + 1);
  }
}
