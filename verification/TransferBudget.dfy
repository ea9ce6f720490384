/**
 The budget that all transfers of an event loop share.

 A pool holds the free slots, the range reads that want or hold a slot, the uploads that have begun and
 the ones still to begin. `Apply` is one step of the whole system; a list of enabled steps is a run.
 */
module TransferBudget {
  import opened Basics
  import opened UploadPool

  datatype Limits = Limits(floor: nat, ceiling: nat, minRangeSize: nat, perFileCap: nat)

  /** What the constructor demands; it raises ValueError otherwise. */
  predicate ValidLimits(l: Limits) {
    1 <= l.floor <= l.ceiling && l.minRangeSize >= 1 && l.perFileCap >= 1
  }

  /** A call of `upload_parts` that has not begun. */
  datatype Job = Job(source: Bytes, size: nat, part: nat, parallel: bool)

  datatype Pool = Pool(free: int, busy: nat, ranges: nat, backlog: seq<Job>, uploads: seq<Upload>)

  datatype Action =
    | Begin(active: nat)                  // `active` is active_files when the workers are counted
    | StartRead
    | EndRead
    | Cancel(upload: nat)
    | Step(upload: nat, worker: nat, act: Act)

  function PartCount(j: Job): nat {
    if j.part >= 1 then Max(1, (j.size + j.part - 1) / j.part) else 1
  }

  /** How many workers a call starts, or None where it divides by zero. `TransferScopes.SeesNoneExactly` says when
      a call finds that no file is active. */
  function WorkerCount(l: Limits, active: nat, j: Job): (n: Option<nat>)
    requires ValidLimits(l)
    ensures n.None? <==> j.parallel && active == 0
    ensures n.Some? ==> 1 <= n.value <= l.perFileCap && n.value <= PartCount(j)
    ensures !j.parallel ==> n == Some(1)
  {
    if !j.parallel then Some(1)
    else if active == 0 then None
    else Some(Min(l.perFileCap, Min(Max(1, l.floor / active), PartCount(j))))
  }

  /** The parts of a job are just enough for its bytes; an empty one has one. */
  lemma PartsAreEnough(j: Job)
    requires j.part >= 1
    ensures j.size > 0 ==> (PartCount(j) - 1) * j.part < j.size <= PartCount(j) * j.part
    ensures j.size == 0 ==> PartCount(j) == 1
  {
    var q := (j.size + j.part - 1) / j.part;
    ShareOf(j.size + j.part - 1, j.part, q);
    NextMultiple(q, j.part);
    if j.size > 0 {
      NextMultiple(q - 1, j.part);
      ShareOf(j.size + j.part - 1, j.part, 0);
    }
  }

  lemma NextMultiple(n: int, c: int)
    ensures (n + 1) * c == n * c + c
  {
  }

  /** A parallel call starts the largest number of workers, at least one, that the cap, its parts and its share of
      the floor allow. */
  lemma WorkerCountIsShare(l: Limits, active: nat, j: Job)
    requires ValidLimits(l) && j.parallel && active >= 1
    ensures var n := WorkerCount(l, active, j).value;
            && (n == 1 || n * active <= l.floor)
            && (n == l.perFileCap || n == PartCount(j) || (n + 1) * active > l.floor)
  {
    ShareOf(l.floor, active, WorkerCount(l, active, j).value);
  }

  /** The workers that a call starts; none if it raises before that. */
  function Started(l: Limits, active: nat, j: Job): (n: nat)
    requires ValidLimits(l)
    ensures n <= l.perFileCap && n <= PartCount(j)
    ensures n == 0 <==> j.parallel && active == 0
  {
    var n := WorkerCount(l, active, j);
    if n.None? then 0 else n.value
  }

  /** An upload that begins; without workers it has raised. */
  function Fresh(j: Job, workers: nat): Upload {
    Upload(j.source, j.part, 0, None, seq(workers, _ => WantSlot), 0, [], map[], map[], workers == 0)
  }

  predicate Finished(u: Upload) {
    forall w :: 0 <= w < |u.workers| ==> !Live(u.workers[w])
  }

  predicate CanAct(l: Limits, s: Pool, a: Action) {
    match a
    case Begin(active) => s.backlog != [] && ValidLimits(l)
    case StartRead => s.ranges > 0 && s.free > 0
    case EndRead => s.busy > 0
    case Cancel(i) => i < |s.uploads| && !s.uploads[i].failing && !Finished(s.uploads[i])
    case Step(i, w, act) => i < |s.uploads| && CanWork(s.uploads[i], w, act) && (act.TakeSlot? ==> s.free > 0)
  }

  function Apply(l: Limits, s: Pool, a: Action): Pool
    requires CanAct(l, s, a)
  {
    match a
    case Begin(active) =>
      s.(backlog := s.backlog[1..],
         uploads := s.uploads + [Fresh(s.backlog[0], Started(l, active, s.backlog[0]))])
    case StartRead => s.(ranges := s.ranges - 1, busy := s.busy + 1, free := s.free - 1)
    case EndRead => s.(busy := s.busy - 1, free := s.free + 1)
    case Cancel(i) => s.(uploads := s.uploads[i := s.uploads[i].(failing := true)])
    case Step(i, w, act) =>
      s.(free := s.free + Freed(s.uploads[i].workers[w], act),
         uploads := s.uploads[i := Work(s.uploads[i], w, act)])
  }

  // ----- slots are conserved -----

  function Held(u: Upload): nat {
    Total(u.workers, Holds)
  }

  ghost predicate Inv(l: Limits, s: Pool) {
    && ValidLimits(l)
    && s.free >= 0
    && s.free + s.busy + Total(s.uploads, Held) == l.ceiling
    && (forall j :: j in s.backlog ==> j.part >= 1)
    && (forall i :: 0 <= i < |s.uploads| ==> UploadInv(s.uploads[i]))
    && (forall i :: 0 <= i < |s.uploads| ==> |s.uploads[i].workers| <= l.perFileCap)
  }

  lemma {:induction false} FreshWorkers(n: nat, f: Phase -> nat)
    ensures Total(seq(n, _ => WantSlot), f) == n * f(WantSlot)
  {
    if n > 0 {
      assert seq(n, _ => WantSlot)[1..] == seq((n - 1) as nat, _ => WantSlot);
      FreshWorkers(n - 1, f);
      assert n * f(WantSlot) == (n - 1) * f(WantSlot) + f(WantSlot);
    }
  }

  lemma FreshInv(j: Job, n: nat)
    requires j.part >= 1
    ensures UploadInv(Fresh(j, n)) && Tiled(Fresh(j, n)) && Held(Fresh(j, n)) == 0
  {
    FreshWorkers(n, Holds);
  }

  lemma WorkMovesSlots(u: Upload, w: nat, a: Act)
    requires CanWork(u, w, a)
    ensures Held(Work(u, w, a)) + Freed(u.workers[w], a) == Held(u)
  {
    TotalUpdate(u.workers, w, Work(u, w, a).workers[w], Holds);
  }

  lemma ActKeepsSlots(l: Limits, s: Pool, a: Action)
    requires CanAct(l, s, a) && Inv(l, s)
    ensures var t := Apply(l, s, a); t.free + t.busy + Total(t.uploads, Held) == l.ceiling && t.free >= 0
  {
    match a
    case Begin(active) =>
      var n := Started(l, active, s.backlog[0]);
      FreshInv(s.backlog[0], n);
      TotalAppend(s.uploads, Fresh(s.backlog[0], n), Held);
    case StartRead =>
    case EndRead =>
    case Cancel(i) => TotalUpdate(s.uploads, i, s.uploads[i].(failing := true), Held);
    case Step(i, w, act) =>
      WorkMovesSlots(s.uploads[i], w, act);
      TotalUpdate(s.uploads, i, Work(s.uploads[i], w, act), Held);
  }

  lemma CancelKeepsUpload(u: Upload)
    requires UploadInv(u)
    ensures UploadInv(u.(failing := true))
  {
    assert forall n :: InFlight(u, n) ==> InFlight(u.(failing := true), n);
  }

  /** Every step keeps the invariant. */
  lemma ActKeepsInv(l: Limits, s: Pool, a: Action)
    requires CanAct(l, s, a) && Inv(l, s)
    ensures Inv(l, Apply(l, s, a))
  {
    hide UploadInv;
    ActKeepsSlots(l, s, a);
    var t := Apply(l, s, a);
    match a
    case Begin(active) => FreshInv(s.backlog[0], Started(l, active, s.backlog[0]));
    case Cancel(i) => CancelKeepsUpload(s.uploads[i]);
    case Step(i, w, act) => WorkKeepsUpload(s.uploads[i], w, act);
    case _ =>
  }

  // ----- memory -----

  function Chunk(p: Phase): nat {
    if p.Sending? then |p.chunk| else 0
  }

  /** Bytes read and not yet sent by one upload. */
  function Buffered(u: Upload): nat {
    Total(u.workers, Chunk)
  }

  lemma BufferedBySlots(u: Upload, most: nat)
    requires UploadInv(u) && u.part <= most
    ensures Buffered(u) <= Held(u) * most
  {
    forall w | 0 <= w < |u.workers| ensures Chunk(u.workers[w]) <= Holds(u.workers[w]) * most {
      if u.workers[w].Sending? {
        assert u.workers[w].chunk == u.sent[u.workers[w].number - 1];
      }
    }
    TotalBound(u.workers, Chunk, Holds, most);
  }

  lemma {:induction false} HeldAtMost(ws: seq<Phase>)
    ensures Total(ws, Holds) <= |ws|
  {
    if ws != [] {
      HeldAtMost(ws[1..]);
    }
  }

  /** In a good state slots in use never exceed the ceiling, one upload never holds more than the
      per-file cap, and buffered upload bytes are at most the ceiling times the largest part. */
  lemma Bounds(l: Limits, s: Pool, most: nat)
    requires Inv(l, s) && forall i :: 0 <= i < |s.uploads| ==> s.uploads[i].part <= most
    ensures s.busy + Total(s.uploads, Held) <= l.ceiling
    ensures forall i :: 0 <= i < |s.uploads| ==> Held(s.uploads[i]) <= l.perFileCap
    ensures Total(s.uploads, Buffered) <= l.ceiling * most
  {
    hide UploadInv;
    forall i | 0 <= i < |s.uploads|
      ensures Held(s.uploads[i]) <= l.perFileCap && Buffered(s.uploads[i]) <= Held(s.uploads[i]) * most
    {
      HeldAtMost(s.uploads[i].workers);
      BufferedBySlots(s.uploads[i], most);
    }
    TotalBound(s.uploads, Buffered, Held, most);
    MulAtMost(Total(s.uploads, Held), l.ceiling, most);
  }

  // ----- every run ends -----

  function Weight(p: Phase): nat {
    match p
    case Sending(_, _) => 4
    case WantSlot => 3
    case WantLock => 2
    case Reading => 1
    case _ => 0
  }

  function UploadMeasure(u: Upload): nat {
    4 * Max(0, |u.source| - u.cursor) + Total(u.workers, Weight) + if u.failing then 0 else 1
  }

  function JobMeasure(j: Job): nat {
    4 * |j.source| + 3 * PartCount(j) + 2
  }

  /** Unread bytes, worker phases, and what has not begun. */
  function Measure(s: Pool): nat {
    2 * s.ranges + s.busy + Total(s.backlog, JobMeasure) + Total(s.uploads, UploadMeasure)
  }

  lemma WorkDecreases(u: Upload, w: nat, a: Act)
    requires CanWork(u, w, a)
    ensures UploadMeasure(Work(u, w, a)) < UploadMeasure(u)
  {
    TotalUpdate(u.workers, w, Work(u, w, a).workers[w], Weight);
  }

  lemma ActDecreases(l: Limits, s: Pool, a: Action)
    requires CanAct(l, s, a)
    ensures Measure(Apply(l, s, a)) < Measure(s)
  {
    match a
    case Begin(active) =>
      var j := s.backlog[0];
      var n := Started(l, active, j);
      FreshWorkers(n, Weight);
      TotalAppend(s.uploads, Fresh(j, n), UploadMeasure);
    case StartRead =>
    case EndRead =>
    case Cancel(i) => TotalUpdate(s.uploads, i, s.uploads[i].(failing := true), UploadMeasure);
    case Step(i, w, act) =>
      WorkDecreases(s.uploads[i], w, act);
      TotalUpdate(s.uploads, i, Work(s.uploads[i], w, act), UploadMeasure);
  }

  // ----- no state is a deadlock -----

  predicate AllDone(s: Pool) {
    && s.backlog == [] && s.ranges == 0 && s.busy == 0
    && forall i :: 0 <= i < |s.uploads| ==> Finished(s.uploads[i])
  }

  /** A step that neither fails nor cancels anything. */
  predicate Progress(a: Action) {
    !a.Cancel? && !(a.Step? && (a.act.FailRead? || a.act.FailSend? || a.act.Stop?))
  }

  /** A worker that holds a slot can move, or waits for a lock whose holder can. */
  lemma HolderMoves(u: Upload, w: nat) returns (v: nat, a: Act)
    requires UploadInv(u) && w < |u.workers| && Holds(u.workers[w]) > 0
    ensures CanWork(u, v, a) && FullRead(u, a) && !a.TakeSlot? && !a.FailRead? && !a.FailSend? && !a.Stop?
  {
    v := w;
    if u.workers[w].Sending? {
      a := Send("");
    } else if u.lock.None? {
      a := TakeLock;
    } else {
      v := u.lock.value;
      a := if u.cursor == |u.source| then SeeEnd else Read(Window(u));
    }
  }

  /** Unless everything is done, some step is possible without failing or cancelling anything. */
  lemma NoDeadlock(l: Limits, s: Pool) returns (a: Action)
    requires Inv(l, s) && !AllDone(s)
    ensures CanAct(l, s, a) && Progress(a)
  {
    if s.backlog != [] {
      a := Begin(1);
    } else if s.busy > 0 {
      a := EndRead;
    } else if Total(s.uploads, Held) > 0 {
      var i := TotalWitness(s.uploads, Held);
      var w := TotalWitness(s.uploads[i].workers, Holds);
      var v, act := HolderMoves(s.uploads[i], w);
      a := Step(i, v, act);
    } else if s.ranges > 0 {
      a := StartRead;
    } else {
      var i: nat :| i < |s.uploads| && !Finished(s.uploads[i]);
      var u := s.uploads[i];
      var w: nat :| w < |u.workers| && Live(u.workers[w]);
      TotalAtLeast(s.uploads, i, Held);
      TotalAtLeast(u.workers, w, Holds);
      a := Step(i, w, TakeSlot);
    }
  }

  // ----- whole runs -----

  predicate Valid(l: Limits, s: Pool, run: seq<Action>)
    decreases |run|
  {
    run == [] || (CanAct(l, s, run[0]) && Valid(l, Apply(l, s, run[0]), run[1..]))
  }

  function Exec(l: Limits, s: Pool, run: seq<Action>): Pool
    requires Valid(l, s, run)
    decreases |run|
  {
    if run == [] then s else Exec(l, Apply(l, s, run[0]), run[1..])
  }

  function Initial(l: Limits, ranges: nat, jobs: seq<Job>): Pool {
    Pool(l.ceiling, 0, ranges, jobs, [])
  }

  /** The source and part size of the i-th upload, begun or not. */
  function PlanOf(s: Pool, i: nat): (Bytes, nat)
    requires i < |s.uploads| + |s.backlog|
  {
    if i < |s.uploads| then (s.uploads[i].source, s.uploads[i].part)
    else (s.backlog[i - |s.uploads|].source, s.backlog[i - |s.uploads|].part)
  }

  lemma {:induction false} RunKeepsInv(l: Limits, s: Pool, run: seq<Action>)
    requires Inv(l, s) && Valid(l, s, run)
    ensures Inv(l, Exec(l, s, run))
    decreases |run|
  {
    hide Inv, Apply, CanAct;
    if run != [] {
      ActKeepsInv(l, s, run[0]);
      RunKeepsInv(l, Apply(l, s, run[0]), run[1..]);
    }
  }

  /** No run is longer than the measure of its first state. */
  lemma {:induction false} RunsEnd(l: Limits, s: Pool, run: seq<Action>)
    requires Valid(l, s, run)
    ensures |run| + Measure(Exec(l, s, run)) <= Measure(s)
    decreases |run|
  {
    hide Measure, Apply, CanAct;
    if run != [] {
      ActDecreases(l, s, run[0]);
      RunsEnd(l, Apply(l, s, run[0]), run[1..]);
    }
  }

  lemma ActKeepsPlans(l: Limits, s: Pool, a: Action, i: nat)
    requires CanAct(l, s, a) && i < |s.uploads| + |s.backlog|
    ensures var t := Apply(l, s, a);
            |t.uploads| + |t.backlog| == |s.uploads| + |s.backlog| && PlanOf(t, i) == PlanOf(s, i)
  {
  }

  lemma {:induction false} RunKeepsPlans(l: Limits, s: Pool, run: seq<Action>, i: nat)
    requires Valid(l, s, run) && i < |s.uploads| + |s.backlog|
    ensures var t := Exec(l, s, run);
            |t.uploads| + |t.backlog| == |s.uploads| + |s.backlog| && PlanOf(t, i) == PlanOf(s, i)
    decreases |run|
  {
    if run != [] {
      ActKeepsPlans(l, s, run[0], i);
      hide Apply, CanAct, PlanOf;
      RunKeepsPlans(l, Apply(l, s, run[0]), run[1..], i);
    }
  }

  lemma {:induction false} RunKeepsCount(l: Limits, s: Pool, run: seq<Action>)
    requires Valid(l, s, run)
    ensures |Exec(l, s, run).uploads| + |Exec(l, s, run).backlog| == |s.uploads| + |s.backlog|
    decreases |run|
  {
    if run != [] {
      RunKeepsCount(l, Apply(l, s, run[0]), run[1..]);
    }
  }

  predicate FullReads(l: Limits, s: Pool, run: seq<Action>)
    requires Valid(l, s, run)
    decreases |run|
  {
    run == [] || (
      && (run[0].Step? ==> FullRead(s.uploads[run[0].upload], run[0].act))
      && FullReads(l, Apply(l, s, run[0]), run[1..]))
  }

  lemma {:induction false} RunTiles(l: Limits, s: Pool, run: seq<Action>)
    requires Inv(l, s) && Valid(l, s, run) && FullReads(l, s, run)
    requires forall i :: 0 <= i < |s.uploads| ==> Tiled(s.uploads[i])
    ensures forall i :: 0 <= i < |Exec(l, s, run).uploads| ==> Tiled(Exec(l, s, run).uploads[i])
    decreases |run|
  {
    if run != [] {
      var a := run[0];
      ActKeepsInv(l, s, a);
      match a {
        case Begin(active) => FreshInv(s.backlog[0], Started(l, active, s.backlog[0]));
        case Step(i, w, act) => WorkKeepsTiled(s.uploads[i], w, act);
        case _ =>
      }
      RunTiles(l, Apply(l, s, a), run[1..]);
    }
  }

  ghost predicate ValidJobs(jobs: seq<Job>) {
    forall j :: j in jobs ==> j.part >= 1
  }

  lemma InitialInv(l: Limits, ranges: nat, jobs: seq<Job>)
    requires ValidLimits(l) && ValidJobs(jobs)
    ensures Inv(l, Initial(l, ranges, jobs))
  {
  }

  /** For every schedule of any number of uploads: an upload that returns normally has stored its whole
      source under the numbers 1..k, and hands back the replies in that order. */
  lemma EveryScheduleUploads(l: Limits, ranges: nat, jobs: seq<Job>, run: seq<Action>, i: nat,
                             order: seq<nat>, out: seq<Reply>)
    requires ValidLimits(l) && ValidJobs(jobs) && Valid(l, Initial(l, ranges, jobs), run)
    requires var t := Exec(l, Initial(l, ranges, jobs), run);
             i < |t.uploads| && ReturnsNormally(t.uploads[i]) && InKeyOrder(t.uploads[i].results, order, out)
    ensures var u := Exec(l, Initial(l, ranges, jobs), run).uploads[i];
            && i < |jobs| && |out| == |u.sent|
            && Flatten(u.sent) == jobs[i].source
            && (forall n :: n in u.results <==> 1 <= n <= |out|)
            && (forall n :: 1 <= n <= |out| ==> n in u.stored && u.stored[n] == Part(u.sent[n - 1], out[n - 1]))
  {
    hide UploadInv, Apply, CanAct, ReturnsNormally, InKeyOrder;
    var s := Initial(l, ranges, jobs);
    InitialInv(l, ranges, jobs);
    RunKeepsInv(l, s, run);
    RunKeepsCount(l, s, run);
    RunKeepsPlans(l, s, run, i);
    hide Exec, Valid;
    NormalReturn(Exec(l, s, run).uploads[i], order, out);
  }

  /** When reads are full as well, part n of that upload is bytes [(n-1) * part, min(n * part, size)). */
  lemma EveryScheduleTiles(l: Limits, ranges: nat, jobs: seq<Job>, run: seq<Action>, i: nat,
                           order: seq<nat>, out: seq<Reply>, n: nat)
    requires ValidLimits(l) && ValidJobs(jobs) && Valid(l, Initial(l, ranges, jobs), run)
    requires FullReads(l, Initial(l, ranges, jobs), run)
    requires var t := Exec(l, Initial(l, ranges, jobs), run);
             i < |t.uploads| && ReturnsNormally(t.uploads[i]) && InKeyOrder(t.uploads[i].results, order, out)
    requires 1 <= n <= |out|
    ensures var u := Exec(l, Initial(l, ranges, jobs), run).uploads[i];
            && i < |jobs|
            && n in u.stored && u.stored[n] == Part(Slice(jobs[i].source, jobs[i].part, n), out[n - 1])
            && (|out| - 1) * jobs[i].part < |jobs[i].source| <= |out| * jobs[i].part
  {
    hide UploadInv, Tiled, Apply, CanAct, ReturnsNormally, InKeyOrder, Slice;
    var s := Initial(l, ranges, jobs);
    InitialInv(l, ranges, jobs);
    RunKeepsInv(l, s, run);
    RunKeepsCount(l, s, run);
    RunKeepsPlans(l, s, run, i);
    RunTiles(l, s, run);
    hide Exec, Valid;
    NormalReturnTiled(Exec(l, s, run).uploads[i], order, out, n);
  }

  /** The action makes upload `i` raise: it cancels it, a read or a part of it fails, or it begins without workers. */
  predicate Hits(l: Limits, s: Pool, a: Action, i: nat)
    requires CanAct(l, s, a)
  {
    match a
    case Begin(active) => i == |s.uploads| && Started(l, active, s.backlog[0]) == 0
    case Cancel(j) => i == j
    case Step(j, _, act) => i == j && (act.FailRead? || act.FailSend?)
    case _ => false
  }

  ghost predicate Disturbed(l: Limits, s: Pool, run: seq<Action>, i: nat)
    requires Valid(l, s, run)
    decreases |run|
  {
    run != [] && (Hits(l, s, run[0], i) || Disturbed(l, Apply(l, s, run[0]), run[1..], i))
  }

  predicate FailingAt(s: Pool, i: nat) {
    i < |s.uploads| && s.uploads[i].failing
  }

  lemma ActFails(l: Limits, s: Pool, a: Action, i: nat)
    requires CanAct(l, s, a)
    ensures FailingAt(Apply(l, s, a), i) <==> FailingAt(s, i) || Hits(l, s, a, i)
  {
  }

  lemma {:induction false} FailsExactly(l: Limits, s: Pool, run: seq<Action>, i: nat)
    requires Valid(l, s, run)
    ensures FailingAt(Exec(l, s, run), i) <==> FailingAt(s, i) || Disturbed(l, s, run, i)
    decreases |run|
  {
    if run != [] {
      ActFails(l, s, run[0], i);
      hide Apply, CanAct, Hits, FailingAt;
      FailsExactly(l, Apply(l, s, run[0]), run[1..], i);
    }
  }

  /** When all is done, a call has returned normally exactly if it began with workers, nobody cancelled it, and none
      of its reads and parts failed; whatever happened to the others. */
  lemma NormalExactly(l: Limits, ranges: nat, jobs: seq<Job>, run: seq<Action>, i: nat)
    requires ValidLimits(l) && ValidJobs(jobs) && Valid(l, Initial(l, ranges, jobs), run) && i < |jobs|
    requires AllDone(Exec(l, Initial(l, ranges, jobs), run))
    ensures var t := Exec(l, Initial(l, ranges, jobs), run);
            i < |t.uploads| && (ReturnsNormally(t.uploads[i]) <==> !Disturbed(l, Initial(l, ranges, jobs), run, i))
  {
    var s := Initial(l, ranges, jobs);
    InitialInv(l, ranges, jobs);
    RunKeepsInv(l, s, run);
    RunKeepsCount(l, s, run);
    FailsExactly(l, s, run, i);
    var t := Exec(l, s, run);
    hide Exec, Valid, Disturbed;
    assert |t.uploads| == |jobs|;
    FinishedReturns(t.uploads[i]);
  }

  lemma FinishedReturns(u: Upload)
    requires UploadInv(u) && Finished(u)
    ensures ReturnsNormally(u) <==> !u.failing
  {
    forall w | 0 <= w < |u.workers| && !u.failing ensures u.workers[w].Returned? {
      assert !Live(u.workers[w]);
    }
  }

  lemma DoneGivesBack(l: Limits, s: Pool)
    requires Inv(l, s) && AllDone(s)
    ensures s.free == l.ceiling
  {
    hide UploadInv;
    if Total(s.uploads, Held) > 0 {
      var i := TotalWitness(s.uploads, Held);
      var w := TotalWitness(s.uploads[i].workers, Holds);
      assert false;
    }
  }

  /** A run that cannot be continued has finished every upload and every read, and given every slot
      back; and no run is longer than the measure of what there was to do. */
  lemma MaximalRunsFinish(l: Limits, ranges: nat, jobs: seq<Job>, run: seq<Action>)
    requires ValidLimits(l) && ValidJobs(jobs) && Valid(l, Initial(l, ranges, jobs), run)
    requires var t := Exec(l, Initial(l, ranges, jobs), run); forall a :: Progress(a) ==> !CanAct(l, t, a)
    ensures var t := Exec(l, Initial(l, ranges, jobs), run); AllDone(t) && t.free == l.ceiling
    ensures |run| <= Measure(Initial(l, ranges, jobs))
  {
    hide UploadInv, Apply, Measure;
    var s := Initial(l, ranges, jobs);
    InitialInv(l, ranges, jobs);
    RunKeepsInv(l, s, run);
    RunsEnd(l, s, run);
    var t := Exec(l, s, run);
    var left: nat := Measure(t);
    assert |run| + left <= Measure(s);
    hide Exec, Valid, CanAct;
    if !AllDone(t) {
      var a := NoDeadlock(l, t);
      assert false;
    }
    DoneGivesBack(l, t);
  }
}
