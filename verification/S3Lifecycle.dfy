/**
 One multipart upload to S3: create, upload the parts, then complete; or, when anything raises, abort.

 The call is a coroutine, so a cancellation can land at any of its waits. The creation request is
 shielded: a cancelled call still waits for its upload id in order to abort it. Worker steps are the ones
 of `UploadPool`, in any order.
 */
module S3Lifecycle {
  import opened Basics
  import U = UploadPool
  import T = TransferBudget

  const S3_MIN_PART_SIZE: nat := 5 * 1024 * 1024

  /** The part size of an upload: a size of None or zero asks for the default, and S3 asks for 5 MiB. */
  function PartSize(chunkSize: Option<nat>, default: nat): (part: nat)
    ensures part >= 5242880
    ensures chunkSize.Some? && chunkSize.value >= 5242880 ==> part == chunkSize.value
    ensures chunkSize.Some? && 0 < chunkSize.value < 5242880 ==> part == 5242880
    ensures (chunkSize.None? || chunkSize.value == 0) && default >= 5242880 ==> part == default
    ensures (chunkSize.None? || chunkSize.value == 0) && default < 5242880 ==> part == 5242880
  {
    Max(if chunkSize.Some? && chunkSize.value > 0 then chunkSize.value else default, S3_MIN_PART_SIZE)
  }

  type PartId = (nat, U.Reply)

  datatype Creation =
    | Pending
    | Made(id: nat)
    | Refused       // the request raised
    | Withdrawn     // the request itself was cancelled

  datatype Stage = Creating | Uploading | Completing | Recovering | Aborting | Succeeded | Failed

  /** The call, and what the service did with its requests: the id it created, the part list of the
      complete request, whether it completed, and whether an abort was issued. */
  datatype Call = Call(
    stage: Stage,
    creation: Creation,
    uploadId: Option<nat>,
    upload: U.Upload,
    cancels: nat,
    created: Option<nat>,
    requested: Option<seq<PartId>>,
    completed: bool,
    abortTried: bool)

  /** `landed` is what the service did for a request whose reply never arrived. */
  datatype Event =
    | Create(id: nat)
    | RefuseCreate(landed: Option<nat>)
    | Wake
    | Work(worker: nat, act: U.Act)
    | Join(order: seq<nat>)
    | CompleteOk
    | CompleteFails(effective: bool)
    | AbortDone
    | Cancel(landed: Option<nat>)

  predicate Over(c: Call) {
    c.stage.Succeeded? || c.stage.Failed?
  }

  ghost predicate CanStep(c: Call, e: Event) {
    match e
    case Create(_) => c.creation.Pending? && !Over(c)
    case RefuseCreate(_) => c.creation.Pending? && !Over(c)
    case Wake => (c.stage.Creating? || c.stage.Recovering?) && (c.creation.Made? || c.creation.Refused?)
    case Work(w, a) => c.stage.Uploading? && U.CanWork(c.upload, w, a) && U.FullRead(c.upload, a)
    case Join(order) =>
      && c.stage.Uploading? && T.Finished(c.upload)
      && (!c.upload.failing ==> U.InKeyOrder(c.upload.results, order, Replies(c.upload, order)))
    case CompleteOk => c.stage.Completing?
    case CompleteFails(_) => c.stage.Completing?
    case AbortDone => c.stage.Aborting?
    case Cancel(_) => !Over(c)
  }

  /** The replies recorded for these numbers, each under its number. */
  ghost function Listed(u: U.Upload, order: seq<nat>): seq<PartId> {
    seq(|order|, i requires 0 <= i < |order| => (order[i], Replies(u, order)[i]))
  }

  function Abort(c: Call): Call {
    c.(stage := Aborting, abortTried := true)
  }

  ghost function Step(c: Call, e: Event): Call
    requires CanStep(c, e)
  {
    match e
    case Create(id) => c.(creation := Made(id), created := Some(id))
    case RefuseCreate(landed) => c.(creation := Refused, created := landed)
    case Wake =>
      if c.creation.Refused? then
        c.(stage := Failed)
      else if c.stage.Creating? then
        c.(stage := Uploading, uploadId := Some(c.creation.id))
      else
        Abort(c.(uploadId := Some(c.creation.id)))
    case Work(w, a) => c.(upload := U.Work(c.upload, w, a))
    case Join(order) =>
      if c.upload.failing then Abort(c)
      else c.(stage := Completing, requested := Some(Listed(c.upload, order)))
    case CompleteOk => c.(stage := Succeeded, completed := true)
    case CompleteFails(effective) => Abort(c.(completed := effective))
    case AbortDone => c.(stage := Failed)
    case Cancel(landed) =>
      var d := c.(cancels := c.cancels + 1);
      match c.stage
      case Creating => d.(stage := Recovering)
      case Recovering =>
        if c.creation.Pending? then d.(stage := Failed, creation := Withdrawn, created := landed)
        else d.(stage := Failed)
      case Uploading => d.(upload := c.upload.(failing := true))
      case Completing => Abort(d.(completed := landed.Some?))
      case _ => d.(stage := Failed)
  }

  // ----- what every step keeps -----

  ghost predicate Quiet(u: U.Upload) {
    forall w :: 0 <= w < |u.workers| ==> !u.workers[w].Sending?
  }

  /** Entry `n`, counted from one: part `n`, as it is stored, which is full unless it is the last. */
  ghost predicate GoodPart(parts: seq<PartId>, u: U.Upload, n: nat) {
    && 1 <= n <= |parts| && parts[n - 1].0 == n
    && n in u.stored && u.stored[n] == U.Part(U.Slice(u.source, u.part, n), parts[n - 1].1)
    && (n < |parts| ==> |u.stored[n].data| == u.part)
  }

  /** A part list that S3 accepts and that amounts to the whole source: numbers 1..k, each stored with
      the listed reply, every part but the last full. */
  ghost predicate GoodList(parts: seq<PartId>, u: U.Upload) {
    && |parts| == |u.sent| >= 1
    && Flatten(u.sent) == u.source
    && forall n :: 1 <= n <= |parts| ==> GoodPart(parts, u, n)
  }

  ghost predicate UploadOk(u: U.Upload) {
    && U.UploadInv(u) && U.Tiled(u)
    && S3_MIN_PART_SIZE <= u.part <= |u.source|
  }

  ghost predicate StageInv(c: Call) {
    match c.stage
    case Creating => c.uploadId.None?
    case Recovering => c.uploadId.None? && c.cancels >= 1
    case Uploading => true
    case Completing => Quiet(c.upload) && c.requested.Some?
    case Aborting => Quiet(c.upload) && c.abortTried
    case Succeeded => c.completed && c.requested.Some?
    case Failed => (c.abortTried || c.creation.Refused? || c.cancels >= 2) && (c.uploadId.Some? ==> c.abortTried)
  }

  /** No part, complete or abort request has been made. */
  ghost predicate Untouched(c: Call) {
    c.requested.None? && !c.abortTried && !c.completed && Quiet(c.upload)
  }

  ghost predicate Inv(c: Call) {
    && UploadOk(c.upload)
    && StageInv(c)
    && (c.creation.Made? ==> c.created == Some(c.creation.id))
    && (c.creation.Pending? ==> c.created.None? && (c.stage.Creating? || c.stage.Recovering?))
    && (c.creation.Withdrawn? ==> c.stage.Failed? && c.cancels >= 2)
    && (c.creation.Refused? ==> c.uploadId.None? && c.requested.None? && !c.abortTried && !c.completed)
    && (c.uploadId.Some? ==> c.creation == Made(c.uploadId.value))
    && (c.stage.Uploading? || c.stage.Completing? || c.stage.Aborting? || c.stage.Succeeded? ==> c.uploadId.Some?)
    && (c.requested.Some? ==> GoodList(c.requested.value, c.upload))
    && (c.completed ==> c.requested.Some?)
    && (c.completed || c.abortTried ==> c.uploadId.Some?)
    && (c.stage.Creating? || c.stage.Recovering? ==> Untouched(c))
    && (c.requested.Some? ==> c.stage.Completing? || c.stage.Aborting? || Over(c))
    && ((c.requested.Some? || c.abortTried) ==> Quiet(c.upload) && !c.stage.Uploading?)
  }

  ghost function Replies(u: U.Upload, order: seq<nat>): seq<U.Reply> {
    seq(|order|, i requires 0 <= i < |order| => if order[i] in u.results then u.results[order[i]] else "")
  }

  lemma ListedPart(u: U.Upload, order: seq<nat>, n: nat)
    requires UploadOk(u) && U.ReturnsNormally(u) && U.InKeyOrder(u.results, order, Replies(u, order))
    requires 1 <= n <= |order|
    ensures order[n - 1] == n
    ensures n in u.stored && u.stored[n] == U.Part(U.Slice(u.source, u.part, n), u.results[n])
    ensures n < |order| ==> |u.stored[n].data| == u.part
  {
    var out := Replies(u, order);
    U.NormalReturn(u, order, out);
    U.DistinctFit(order, |order|);
    U.NormalReturnTiled(u, order, out, n);
  }

  lemma ListedWhole(u: U.Upload, order: seq<nat>)
    requires UploadOk(u) && U.ReturnsNormally(u) && U.InKeyOrder(u.results, order, Replies(u, order))
    ensures |order| == |u.sent| >= 1 && Flatten(u.sent) == u.source
  {
    U.NormalReturn(u, order, Replies(u, order));
    assert u.sent == [] ==> Flatten(u.sent) == [];
  }

  lemma JoinListsParts(u: U.Upload, order: seq<nat>)
    requires UploadOk(u) && U.ReturnsNormally(u) && U.InKeyOrder(u.results, order, Replies(u, order))
    ensures GoodList(Listed(u, order), u)
  {
    hide UploadOk, U.ReturnsNormally, U.Slice;
    ListedWhole(u, order);
    var parts := Listed(u, order);
    forall n | 1 <= n <= |parts| ensures GoodPart(parts, u, n) {
      ListedPart(u, order, n);
      assert parts[n - 1] == (order[n - 1], u.results[order[n - 1]]);
    }
    hide U.InKeyOrder, GoodPart, Listed;
  }

  lemma JoinKeepsInv(c: Call, order: seq<nat>)
    requires Inv(c) && CanStep(c, Join(order))
    ensures Inv(Step(c, Join(order)))
  {
    hide U.UploadInv, U.Tiled, U.InKeyOrder, GoodList, Listed;
    var u := c.upload;
    forall w | 0 <= w < |u.workers| ensures !u.workers[w].Sending? {
      assert !U.Live(u.workers[w]);
    }
    if !u.failing {
      T.FinishedReturns(u);
      JoinListsParts(u, order);
    }
  }

  lemma StepKeepsInv(c: Call, e: Event)
    requires Inv(c) && CanStep(c, e)
    ensures Inv(Step(c, e))
  {
    hide U.UploadInv, U.Tiled, GoodList;
    match e
    case Work(w, a) =>
      U.WorkKeepsUpload(c.upload, w, a);
      U.WorkKeepsTiled(c.upload, w, a);
    case Join(order) => JoinKeepsInv(c, order);
    case Cancel(_) =>
      T.CancelKeepsUpload(c.upload);
      assert U.Tiled(c.upload) ==> U.Tiled(c.upload.(failing := true)) by {
        TiledWhenFailing(c.upload.(failing := true));
      }
    case Create(_) =>
    case RefuseCreate(_) =>
    case Wake =>
    case CompleteOk =>
    case CompleteFails(_) =>
    case AbortDone =>
  }

  lemma TiledWhenFailing(u: U.Upload)
    requires u.failing
    ensures U.Tiled(u)
  {
  }

  // ----- whole calls -----

  ghost function Initial(source: Bytes, part: nat, workers: nat): Call {
    Call(Creating, Pending, None, T.Fresh(T.Job(source, |source|, part, true), workers), 0, None, None, false, false)
  }

  ghost predicate Valid(c: Call, run: seq<Event>)
    decreases |run|
  {
    run == [] || (CanStep(c, run[0]) && Valid(Step(c, run[0]), run[1..]))
  }

  ghost function Exec(c: Call, run: seq<Event>): Call
    requires Valid(c, run)
    decreases |run|
  {
    if run == [] then c else Exec(Step(c, run[0]), run[1..])
  }

  lemma {:induction false} RunKeepsInv(c: Call, run: seq<Event>)
    requires Inv(c) && Valid(c, run)
    ensures Inv(Exec(c, run))
    decreases |run|
  {
    hide Inv;
    if run != [] {
      StepKeepsInv(c, run[0]);
      RunKeepsInv(Step(c, run[0]), run[1..]);
    }
  }

  ghost predicate Leaked(c: Call) {
    c.created.Some? && !c.completed && !c.abortTried
  }

  lemma StepKeepsSource(c: Call, e: Event)
    requires CanStep(c, e)
    ensures Step(c, e).upload.source == c.upload.source && Step(c, e).upload.part == c.upload.part
  {
    if e.Work? {
      U.WorkKeepsSource(c.upload, e.worker, e.act);
    }
    hide U.Work, U.CanWork, U.InKeyOrder, Listed, Replies;
  }

  lemma {:induction false} RunKeepsSource(c: Call, run: seq<Event>)
    requires Valid(c, run)
    ensures Exec(c, run).upload.source == c.upload.source && Exec(c, run).upload.part == c.upload.part
    decreases |run|
  {
    if run != [] {
      hide Step, CanStep;
      StepKeepsSource(c, run[0]);
      RunKeepsSource(Step(c, run[0]), run[1..]);
    }
  }

  /** Every state of every call: the complete request lists all parts of the source, contiguous, ascending
      and at least 5 MiB but for the last; while it or an abort is out no part is in flight. */
  lemma EveryCall(source: Bytes, part: nat, workers: nat, run: seq<Event>)
    requires S3_MIN_PART_SIZE <= part <= |source|
    requires Valid(Initial(source, part, workers), run)
    ensures var c := Exec(Initial(source, part, workers), run);
            && c.upload.source == source && c.upload.part == part >= S3_MIN_PART_SIZE
            && (c.requested.Some? ==> GoodList(c.requested.value, c.upload))
            && (c.requested.Some? || c.abortTried ==> Quiet(c.upload))
            && (c.stage.Succeeded? ==> c.completed && c.requested.Some?)
  {
    T.FreshInv(T.Job(source, |source|, part, true), workers);
    RunKeepsInv(Initial(source, part, workers), run);
    RunKeepsSource(Initial(source, part, workers), run);
  }

  /** With at most one cancellation, wherever it lands, an id the service created is completed or an
      abort for it was issued, unless the reply that carried the id was lost. */
  lemma NoIdLeaks(source: Bytes, part: nat, workers: nat, run: seq<Event>)
    requires S3_MIN_PART_SIZE <= part <= |source|
    requires Valid(Initial(source, part, workers), run)
    requires var c := Exec(Initial(source, part, workers), run); Over(c) && c.cancels <= 1
    ensures var c := Exec(Initial(source, part, workers), run);
            Leaked(c) <==> c.creation.Refused? && c.created.Some?
  {
    T.FreshInv(T.Job(source, |source|, part, true), workers);
    RunKeepsInv(Initial(source, part, workers), run);
  }

  /** The call was cancelled while it waited, already cancelled, for its upload id. */
  ghost predicate GaveUp(c: Call, run: seq<Event>)
    requires Valid(c, run)
    decreases |run|
  {
    run != [] && ((run[0].Cancel? && c.stage.Recovering?) || GaveUp(Step(c, run[0]), run[1..]))
  }

  lemma LastStep(c: Call, e: Event)
    requires Inv(c) && !Over(c) && CanStep(c, e)
    ensures var d := Step(c, e);
            if Over(d) then d.uploadId.None? <==> d.creation.Refused? || (e.Cancel? && c.stage.Recovering?)
            else !(e.Cancel? && c.stage.Recovering?)
  {
    StepKeepsInv(c, e);
    hide UploadOk, GoodList, Quiet, U.Work, U.CanWork, U.InKeyOrder, Listed, Replies;
  }

  lemma NothingAfter(c: Call, run: seq<Event>)
    requires Over(c) && Valid(c, run)
    ensures run == []
  {
  }

  lemma {:induction false} IdLearntExactly(c: Call, run: seq<Event>)
    requires Inv(c) && !Over(c) && Valid(c, run) && Over(Exec(c, run))
    ensures Exec(c, run).uploadId.None? <==> Exec(c, run).creation.Refused? || GaveUp(c, run)
    decreases |run|
  {
    var d := Step(c, run[0]);
    StepKeepsInv(c, run[0]);
    LastStep(c, run[0]);
    hide Inv, Step;
    if Over(d) {
      NothingAfter(d, run[1..]);
    } else {
      hide CanStep;
      IdLearntExactly(d, run[1..]);
    }
  }

  /** However often it is cancelled: when a call is over, an id that the service created is neither completed
      nor aborted exactly if the reply that carried it was lost, or the call was cancelled in the wait for it
      that follows its first cancellation; which is to say that the call never learnt the id. */
  lemma LeaksExactly(source: Bytes, part: nat, workers: nat, run: seq<Event>)
    requires S3_MIN_PART_SIZE <= part <= |source|
    requires Valid(Initial(source, part, workers), run) && Over(Exec(Initial(source, part, workers), run))
    ensures var c := Exec(Initial(source, part, workers), run);
            && (Leaked(c) <==> c.created.Some? && c.uploadId.None?)
            && (Leaked(c) <==> c.created.Some? && (c.creation.Refused? || GaveUp(Initial(source, part, workers), run)))
  {
    T.FreshInv(T.Job(source, |source|, part, true), workers);
    RunKeepsInv(Initial(source, part, workers), run);
    IdLearntExactly(Initial(source, part, workers), run);
  }

  // ----- when a call succeeds -----

  /** A cancellation, a creation, part or complete request that raises, or a read that does. */
  predicate Disturbs(e: Event) {
    e.Cancel? || e.RefuseCreate? || e.CompleteFails? || (e.Work? && (e.act.FailRead? || e.act.FailSend?))
  }

  ghost predicate Undisturbed(run: seq<Event>) {
    forall i :: 0 <= i < |run| ==> !Disturbs(run[i])
  }

  /** On the way to success. */
  ghost predicate OnCourse(c: Call) {
    && (c.stage.Creating? || c.stage.Uploading? || c.stage.Completing? || c.stage.Succeeded?)
    && !c.creation.Refused? && !c.upload.failing && !c.abortTried && (c.completed <==> c.stage.Succeeded?)
  }

  /** On the way to an exception. */
  ghost predicate OffCourse(c: Call) {
    || c.stage.Recovering? || c.stage.Aborting? || c.stage.Failed?
    || ((c.stage.Creating? || c.stage.Uploading?) && (c.creation.Refused? || c.upload.failing))
  }

  lemma CourseStep(c: Call, e: Event)
    requires Inv(c) && CanStep(c, e)
    ensures OnCourse(c) && !Disturbs(e) ==> OnCourse(Step(c, e))
    ensures OnCourse(c) && Disturbs(e) ==> OffCourse(Step(c, e))
    ensures OffCourse(c) ==> OffCourse(Step(c, e))
  {
    hide UploadOk, GoodList, Quiet, U.InKeyOrder, Listed, Replies;
  }

  /** From a course that is kept, success; from one that is left, none. */
  lemma {:induction false} CourseHolds(c: Call, run: seq<Event>)
    requires Inv(c) && Valid(c, run) && (OnCourse(c) || OffCourse(c))
    ensures OnCourse(Exec(c, run)) <==> OnCourse(c) && Undisturbed(run)
    ensures OffCourse(Exec(c, run)) <==> !(OnCourse(c) && Undisturbed(run))
    decreases |run|
  {
    Apart(c);
    if run != [] {
      var d := Step(c, run[0]);
      StepKeepsInv(c, run[0]);
      CourseStep(c, run[0]);
      Apart(d);
      assert Undisturbed(run) <==> !Disturbs(run[0]) && Undisturbed(run[1..]) by {
        assert forall i :: 0 < i < |run| ==> run[i] == run[1..][i - 1];
      }
      hide Inv, Step, CanStep, OnCourse, OffCourse, Undisturbed, Disturbs;
      CourseHolds(d, run[1..]);
    }
  }

  lemma Apart(c: Call)
    ensures !(OnCourse(c) && OffCourse(c))
  {
  }

  /** A call that is over succeeded, and the service completed its upload, exactly if it had workers, was never
      cancelled, and none of its requests and reads raised; and an abort is tried only after something did. */
  lemma SucceedsExactly(source: Bytes, part: nat, workers: nat, run: seq<Event>)
    requires S3_MIN_PART_SIZE <= part <= |source|
    requires Valid(Initial(source, part, workers), run)
    ensures var c := Exec(Initial(source, part, workers), run);
            && (Over(c) ==> (c.stage.Succeeded? <==> workers >= 1 && Undisturbed(run)))
            && (c.stage.Succeeded? ==> c.completed && c.requested.Some? && !c.abortTried)
            && (c.abortTried ==> workers == 0 || !Undisturbed(run))
  {
    var c := Initial(source, part, workers);
    T.FreshInv(T.Job(source, |source|, part, true), workers);
    CourseHolds(c, run);
    RunKeepsInv(c, run);
    hide Exec, Valid;
  }

  /** As long as such a call is not over it can go on, without anything failing or being cancelled. */
  lemma GoesOn(c: Call) returns (e: Event)
    requires Inv(c) && OnCourse(c) && !Over(c)
    ensures CanStep(c, e) && !Disturbs(e)
  {
    hide GoodList, U.Tiled, Quiet;
    match c.stage
    case Creating => e := if c.creation.Pending? then Create(0) else Wake;
    case Uploading =>
      if w :| 0 <= w < |c.upload.workers| && U.Live(c.upload.workers[w]) {
        var v, a := WorkerMoves(c.upload, w);
        e := Work(v, a);
      } else {
        T.FinishedReturns(c.upload);
        var order := NumbersInOrder(c.upload);
        e := Join(order);
      }
    case Completing => e := CompleteOk;
  }

  /** A worker that is not finished can move, or waits for a lock whose holder can. */
  lemma WorkerMoves(u: U.Upload, w: nat) returns (v: nat, a: U.Act)
    requires U.UploadInv(u) && w < |u.workers| && U.Live(u.workers[w])
    ensures U.CanWork(u, v, a) && U.FullRead(u, a) && !a.FailRead? && !a.FailSend?
  {
    if u.workers[w].WantSlot? {
      v, a := w, U.TakeSlot;
    } else {
      v, a := T.HolderMoves(u, w);
    }
  }

  /** The numbers of a call whose workers have all returned are 1..k. */
  lemma NumbersInOrder(u: U.Upload) returns (order: seq<nat>)
    requires U.UploadInv(u) && U.ReturnsNormally(u)
    ensures U.InKeyOrder(u.results, order, Replies(u, order))
  {
    order := seq(u.partNumber, i => i + 1);
    forall n ensures n in u.results <==> n in order {
      if 1 <= n <= u.partNumber {
        assert U.Settled(u, n) && order[n - 1] == n;
      }
    }
  }

  function StageWeight(s: Stage): nat {
    match s
    case Creating => 5
    case Recovering => 4
    case Uploading => 4
    case Completing => 3
    case Aborting => 2
    case _ => 0
  }

  function Measure(c: Call): nat {
    T.UploadMeasure(c.upload) + StageWeight(c.stage) + if c.creation.Pending? then 1 else 0
  }

  /** Every event brings the call nearer to its end, but for a cancellation while the workers are already being
      stopped. */
  lemma StepDecreases(c: Call, e: Event)
    requires CanStep(c, e)
    ensures Measure(Step(c, e)) < Measure(c) || (e.Cancel? && c.stage.Uploading? && c.upload.failing)
    ensures Measure(Step(c, e)) <= Measure(c)
  {
    if e.Work? {
      T.WorkDecreases(c.upload, e.worker, e.act);
    }
    hide U.Work, U.CanWork, U.InKeyOrder, Listed, Replies, U.FullRead;
  }

  function NotCancel(e: Event): nat {
    if e.Cancel? then 0 else 1
  }

  /** No call goes on for ever: what happens to it, however often it is cancelled, is bounded by the bytes and the
      workers that it starts with. */
  lemma {:induction false} CallsEnd(c: Call, run: seq<Event>)
    requires Valid(c, run)
    ensures Total(run, NotCancel) + Measure(Exec(c, run)) <= Measure(c)
    decreases |run|
  {
    if run != [] {
      StepDecreases(c, run[0]);
      CallsEnd(Step(c, run[0]), run[1..]);
      hide Step, CanStep, Measure;
    }
  }

  /** A second cancellation during recovery does leak an id that the service has created. */
  lemma SecondCancellationLeaks(source: Bytes, part: nat, workers: nat) returns (run: seq<Event>)
    requires S3_MIN_PART_SIZE <= part <= |source|
    ensures Valid(Initial(source, part, workers), run)
    ensures var c := Exec(Initial(source, part, workers), run);
            Over(c) && c.cancels == 2 && c.creation == Made(7) && Leaked(c)
  {
    var c := Initial(source, part, workers);
    var c1 := Step(c, Cancel(None));
    var c2 := Step(c1, Create(7));
    var c3 := Step(c2, Cancel(None));
    run := [Cancel(None), Create(7), Cancel(None)];
    assert run[1..] == [Create(7), Cancel(None)];
    assert run[1..][1..] == [Cancel(None)];
    assert run[1..][1..][1..] == [];
    assert Valid(c3, []) && Exec(c3, []) == c3;
    assert Valid(c2, run[1..][1..]) && Exec(c2, run[1..][1..]) == c3;
    assert Valid(c1, run[1..]) && Exec(c1, run[1..]) == c3;
  }

  /** The part list of the complete request: numbers and replies, by increasing number. */
  method ListParts(u: U.Upload) returns (order: seq<nat>, parts: seq<PartId>)
    requires U.StoreInv(u)
    ensures U.InKeyOrder(u.results, order, Replies(u, order))
    ensures |parts| == |order| && forall i :: 0 <= i < |order| ==> parts[i] == (order[i], Replies(u, order)[i])
  {
    var out;
    order, out := U.CollectResults(u);
    assert out == Replies(u, order);
    parts := [];
    for i := 0 to |order|
      invariant |parts| == i && forall j :: 0 <= j < i ==> parts[j] == (order[j], out[j])
    {
      parts := parts + [(order[i], out[i])];
    }
  }

  // ----- the call as an object -----

  lemma HasStore(c: Call)
    requires Inv(c)
    ensures U.StoreInv(c.upload)
  {
  }

  /** What joining the workers comes to. */
  lemma JoinStep(c: Call, order: seq<nat>, parts: seq<PartId>)
    requires Inv(c) && c.stage.Uploading? && T.Finished(c.upload)
    requires !c.upload.failing ==>
               U.InKeyOrder(c.upload.results, order, Replies(c.upload, order)) && |parts| == |order|
               && forall i :: 0 <= i < |order| ==> parts[i] == (order[i], Replies(c.upload, order)[i])
    ensures CanStep(c, Join(order)) && Inv(Step(c, Join(order)))
    ensures Step(c, Join(order)) == if c.upload.failing then Abort(c) else c.(stage := Completing, requested := Some(parts))
  {
    StepKeepsInv(c, Join(order));
    hide Inv;
    if !c.upload.failing {
      assert parts == Listed(c.upload, order);
    }
  }

  /** One call, with what the service did; a method is what happens at one of its waits. */
  class Multipart {
    var stage: Stage
    var creation: Creation
    var uploadId: Option<nat>
    var upload: U.Upload
    ghost var cancels: nat
    ghost var created: Option<nat>
    ghost var requested: Option<seq<PartId>>
    ghost var completed: bool
    ghost var abortTried: bool

    ghost function State(): Call
      reads this
    {
      Call(stage, creation, uploadId, upload, cancels, created, requested, completed, abortTried)
    }

    ghost predicate Good()
      reads this
    {
      Inv(State())
    }

    constructor (source: Bytes, part: nat, workers: nat)
      requires S3_MIN_PART_SIZE <= part <= |source|
      ensures Good() && State() == Initial(source, part, workers)
    {
      stage, creation, uploadId := Creating, Pending, None;
      upload := T.Fresh(T.Job(source, |source|, part, true), workers);
      cancels, created, requested, completed, abortTried := 0, None, None, false, false;
      new;
      T.FreshInv(T.Job(source, |source|, part, true), workers);
    }

    method CreationReturns(id: nat)
      requires Good() && CanStep(State(), Create(id))
      modifies this
      ensures Good() && State() == Step(old(State()), Create(id))
    {
      hide Inv;
      StepKeepsInv(State(), Create(id));
      creation, created := Made(id), Some(id);
    }

    method CreationRaises(ghost landed: Option<nat>)
      requires Good() && CanStep(State(), RefuseCreate(landed))
      modifies this
      ensures Good() && State() == Step(old(State()), RefuseCreate(landed))
    {
      hide Inv;
      StepKeepsInv(State(), RefuseCreate(landed));
      creation, created := Refused, landed;
    }

    /** The call resumes behind its wait for the creation: to upload, to abort what it was too late to use,
        or to raise. */
    method Resume()
      requires Good() && CanStep(State(), Wake)
      modifies this
      ensures Good() && State() == Step(old(State()), Wake)
    {
      hide Inv;
      StepKeepsInv(State(), Wake);
      if creation.Refused? {
        stage := Failed;
        return;
      }
      uploadId := Some(creation.id);
      if stage.Creating? {
        stage := Uploading;
      } else {
        stage, abortTried := Aborting, true;
      }
    }

    method WorkerSteps(w: nat, a: U.Act)
      requires Good() && CanStep(State(), Work(w, a))
      modifies this
      ensures Good() && State() == Step(old(State()), Work(w, a))
    {
      hide Inv;
      StepKeepsInv(State(), Work(w, a));
      upload := U.Work(upload, w, a);
    }

    /** All workers have ended: complete with the parts in order, or abort if one of them raised. */
    method JoinWorkers() returns (order: seq<nat>, parts: seq<PartId>)
      requires Good() && stage.Uploading? && T.Finished(upload)
      modifies this
      ensures Good() && CanStep(old(State()), Join(order)) && State() == Step(old(State()), Join(order))
      ensures !old(upload).failing ==> requested == Some(parts)
    {
      hide Inv, Step, CanStep, U.StoreInv, U.InKeyOrder, T.Finished, Replies;
      HasStore(State());
      order, parts := [], [];
      if !upload.failing {
        order, parts := ListParts(upload);
      }
      JoinStep(State(), order, parts);
      if upload.failing {
        stage, abortTried := Aborting, true;
      } else {
        stage, requested := Completing, Some(parts);
      }
    }

    method CompleteReturns()
      requires Good() && CanStep(State(), CompleteOk)
      modifies this
      ensures Good() && State() == Step(old(State()), CompleteOk)
    {
      hide Inv;
      StepKeepsInv(State(), CompleteOk);
      stage, completed := Succeeded, true;
    }

    method CompleteRaises(ghost effective: bool)
      requires Good() && CanStep(State(), CompleteFails(effective))
      modifies this
      ensures Good() && State() == Step(old(State()), CompleteFails(effective))
    {
      hide Inv;
      StepKeepsInv(State(), CompleteFails(effective));
      completed := effective;
      stage, abortTried := Aborting, true;
    }

    /** The abort request has ended, one way or the other; the exception goes on. */
    method AbortEnds()
      requires Good() && CanStep(State(), AbortDone)
      modifies this
      ensures Good() && State() == Step(old(State()), AbortDone)
    {
      hide Inv;
      StepKeepsInv(State(), AbortDone);
      stage := Failed;
    }

    /** A cancellation lands at whatever the call is waiting for. */
    method CancelCall(ghost landed: Option<nat>)
      requires Good() && CanStep(State(), Cancel(landed))
      modifies this
      ensures Good() && State() == Step(old(State()), Cancel(landed))
    {
      hide Inv;
      StepKeepsInv(State(), Cancel(landed));
      cancels := cancels + 1;
      if stage.Creating? {
        stage := Recovering;
      } else if stage.Uploading? {
        upload := upload.(failing := true);
      } else if stage.Completing? {
        completed := landed.Some?;
        stage, abortTried := Aborting, true;
      } else {
        if stage.Recovering? && creation.Pending? {
          creation, created := Withdrawn, landed;
        }
        stage := Failed;
      }
    }
  }
}
