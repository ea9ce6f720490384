/**
 Running the items of a stream with a fixed number of workers: a producer feeds a bounded queue and, however
 the stream ends, closes it with one sentinel per worker; the main coroutine joins the queue, then the
 workers, then the producer.
 */
module CliQueue {
  import opened Basics

  /** Items are numbered as the stream yields them; None is a sentinel. */
  type Slot = Option<nat>

  datatype Producer =
    | Iterating
    | Putting                               // holds the item yielded last
    | Closing(sentinels: nat, raised: bool) // has put that many sentinels; over when it has put them all

  datatype Worker = Idle | Running(item: nat) | Left

  datatype Main = Joining | Gathering | Awaiting | Returned | Raised

  /** `supply` bounds what the stream has left to yield, `taken` counts the items that left the queue, and
      `finished` lists the items in the order in which they ended. */
  datatype State = State(
    supply: nat,
    producer: Producer,
    discovered: nat,
    queue: seq<Slot>,
    taken: nat,
    workers: seq<Worker>,
    succeeded: nat,
    failures: seq<nat>,
    finished: seq<nat>,
    main: Main)

  datatype Action =
    | Yield
    | EndStream(raised: bool)
    | Put
    | Close
    | Get(w: nat)
    | Finish(w: nat, ok: bool)
    | Proceed

  function Capacity(s: State): nat {
    2 * |s.workers|
  }

  function Busy(w: Worker): nat {
    if w.Running? then 1 else 0
  }

  function HasLeft(w: Worker): nat {
    if w.Left? then 1 else 0
  }

  /** Items in the queue or being run, and sentinels in the queue. */
  function Unfinished(s: State): nat {
    |s.queue| + Total(s.workers, Busy)
  }

  predicate ProducerOver(s: State) {
    s.producer.Closing? && s.producer.sentinels == |s.workers|
  }

  ghost predicate CanAct(s: State, a: Action) {
    match a
    case Yield => s.producer.Iterating? && s.supply > 0
    case EndStream(_) => s.producer.Iterating?
    case Put => s.producer.Putting? && |s.queue| < Capacity(s) && s.discovered > 0
    case Close => s.producer.Closing? && s.producer.sentinels < |s.workers| && |s.queue| < Capacity(s)
    case Get(w) => w < |s.workers| && s.workers[w].Idle? && s.queue != []
    case Finish(w, _) => w < |s.workers| && s.workers[w].Running?
    case Proceed =>
      match s.main
      case Joining => Unfinished(s) == 0
      case Gathering => forall w :: 0 <= w < |s.workers| ==> s.workers[w].Left?
      case Awaiting => ProducerOver(s)
      case _ => false
  }

  ghost function Apply(s: State, a: Action): State
    requires CanAct(s, a)
  {
    match a
    case Yield => s.(supply := s.supply - 1, producer := Putting, discovered := s.discovered + 1)
    case EndStream(raised) => s.(producer := Closing(0, raised))
    case Put => s.(producer := Iterating, queue := s.queue + [Some(s.discovered - 1)])
    case Close => s.(producer := s.producer.(sentinels := s.producer.sentinels + 1), queue := s.queue + [None])
    case Get(w) =>
      var slot := s.queue[0];
      if slot.None? then s.(queue := s.queue[1..], workers := s.workers[w := Left])
      else s.(queue := s.queue[1..], workers := s.workers[w := Running(slot.value)], taken := s.taken + 1)
    case Finish(w, ok) =>
      var item := s.workers[w].item;
      s.(workers := s.workers[w := Idle], finished := s.finished + [item],
         succeeded := s.succeeded + (if ok then 1 else 0), failures := if ok then s.failures else s.failures + [item])
    case Proceed =>
      s.(main := match s.main
                 case Joining => Gathering
                 case Gathering => Awaiting
                 case _ => if s.producer.Closing? && s.producer.raised then Raised else Returned)
  }

  // ----- what every step keeps -----

  /** Items that were put into the queue. */
  function PutItems(s: State): int {
    if s.producer.Putting? then s.discovered - 1 else s.discovered
  }

  /** The queue holds the items that follow those taken, in order, and behind them nothing but sentinels. */
  ghost predicate QueueInv(s: State) {
    && s.taken <= PutItems(s) <= s.taken + |s.queue|
    && (forall j :: 0 <= j < PutItems(s) - s.taken ==> s.queue[j] == Some(s.taken + j))
    && (forall j :: PutItems(s) - s.taken <= j < |s.queue| ==> s.queue[j].None?)
  }

  /** Every sentinel that was put is still queued or has sent one worker home. */
  ghost predicate SentinelInv(s: State) {
    var waiting := s.taken + |s.queue| - PutItems(s);
    && (!s.producer.Closing? ==> waiting == 0 && Total(s.workers, HasLeft) == 0)
    && (s.producer.Closing? ==> waiting + Total(s.workers, HasLeft) == s.producer.sentinels <= |s.workers|)
    && (Total(s.workers, HasLeft) > 0 ==> s.taken == s.discovered)
  }

  function RunsItem(i: nat): Worker -> nat {
    (w: Worker) => if w == Running(i) then 1 else 0
  }

  function IsItem(i: nat): nat -> nat {
    (j: nat) => if i == j then 1 else 0
  }

  /** How often item `i` was started. */
  function Starts(s: State, i: nat): nat {
    Total(s.workers, RunsItem(i)) + Total(s.finished, IsItem(i))
  }

  ghost predicate OnceInv(s: State) {
    forall i: nat :: Starts(s, i) == if i < s.taken then 1 else 0
  }

  ghost predicate CountInv(s: State) {
    && |s.finished| + Total(s.workers, Busy) == s.taken
    && s.succeeded + |s.failures| == |s.finished|
  }

  /** What is reported as failed did end, and not as often again. */
  ghost predicate FailureInv(s: State) {
    forall i: nat :: Total(s.failures, IsItem(i)) <= Total(s.finished, IsItem(i))
  }

  ghost predicate MainInv(s: State) {
    && (s.main.Awaiting? || s.main.Returned? || s.main.Raised? ==>
          forall w :: 0 <= w < |s.workers| ==> s.workers[w].Left?)
    && (s.main.Returned? || s.main.Raised? ==> ProducerOver(s) && (s.main.Raised? <==> s.producer.raised))
  }

  ghost predicate Inv(s: State) {
    && |s.workers| >= 1
    && |s.queue| <= Capacity(s)
    && QueueInv(s) && SentinelInv(s) && OnceInv(s) && CountInv(s) && FailureInv(s) && MainInv(s)
  }

  lemma ActKeepsQueue(s: State, a: Action)
    requires Inv(s) && CanAct(s, a)
    ensures QueueInv(Apply(s, a)) && |Apply(s, a).queue| <= Capacity(Apply(s, a))
  {
    hide OnceInv, CountInv, MainInv, FailureInv;
  }

  lemma ActKeepsSentinels(s: State, a: Action)
    requires Inv(s) && CanAct(s, a)
    ensures SentinelInv(Apply(s, a))
  {
    hide OnceInv, CountInv, MainInv, FailureInv;
    match a
    case Get(w) => TotalUpdate(s.workers, w, Apply(s, a).workers[w], HasLeft);
    case Finish(w, _) => TotalUpdate(s.workers, w, Idle, HasLeft);
    case _ =>
  }

  lemma ActKeepsOnce(s: State, a: Action)
    requires Inv(s) && CanAct(s, a)
    ensures OnceInv(Apply(s, a))
  {
    hide SentinelInv, CountInv, MainInv, FailureInv;
    var t := Apply(s, a);
    forall i: nat ensures Starts(t, i) == if i < t.taken then 1 else 0 {
      assert Starts(s, i) == if i < s.taken then 1 else 0;
      match a
      case Get(w) => TotalUpdate(s.workers, w, t.workers[w], RunsItem(i));
      case Finish(w, _) =>
        TotalUpdate(s.workers, w, Idle, RunsItem(i));
        TotalAppend(s.finished, s.workers[w].item, IsItem(i));
      case _ =>
    }
  }

  lemma ActKeepsCounts(s: State, a: Action)
    requires Inv(s) && CanAct(s, a)
    ensures CountInv(Apply(s, a))
  {
    hide SentinelInv, OnceInv, MainInv, QueueInv, FailureInv;
    match a
    case Get(w) => TotalUpdate(s.workers, w, Apply(s, a).workers[w], Busy);
    case Finish(w, _) => TotalUpdate(s.workers, w, Idle, Busy);
    case _ =>
  }

  lemma ActKeepsFailures(s: State, a: Action)
    requires FailureInv(s) && CanAct(s, a)
    ensures FailureInv(Apply(s, a))
  {
    var t := Apply(s, a);
    if a.Finish? {
      forall i: nat ensures Total(t.failures, IsItem(i)) <= Total(t.finished, IsItem(i)) {
        TotalAppend(s.finished, s.workers[a.w].item, IsItem(i));
        TotalAppend(s.failures, s.workers[a.w].item, IsItem(i));
      }
    }
  }

  /** Every step of the producer, a worker or the main coroutine keeps the invariant. */
  lemma ActKeepsInv(s: State, a: Action)
    requires Inv(s) && CanAct(s, a)
    ensures Inv(Apply(s, a))
  {
    ActKeepsQueue(s, a);
    ActKeepsSentinels(s, a);
    ActKeepsOnce(s, a);
    ActKeepsCounts(s, a);
    ActKeepsFailures(s, a);
    hide QueueInv, SentinelInv, OnceInv, CountInv, FailureInv;
  }

  // ----- when it is over -----

  lemma {:induction false} AllLeft(workers: seq<Worker>)
    requires forall w :: 0 <= w < |workers| ==> workers[w].Left?
    ensures Total(workers, HasLeft) == |workers| && Total(workers, Busy) == 0
    ensures forall i: nat :: Total(workers, RunsItem(i)) == 0
  {
    if workers != [] {
      AllLeft(workers[1..]);
    }
  }

  ghost predicate Over(s: State) {
    s.main.Returned? || s.main.Raised?
  }

  /** At the end the queue is empty, every item discovered was run exactly once, and each counts as a
      success or a failure; an exception of the stream is raised, after all that. */
  lemma OverMeansAllRun(s: State)
    requires Inv(s) && Over(s)
    ensures s.queue == [] && s.succeeded + |s.failures| == s.discovered
    ensures forall i: nat :: Total(s.finished, IsItem(i)) == if i < s.discovered then 1 else 0
    ensures forall i: nat :: Total(s.failures, IsItem(i)) <= 1
    ensures s.main.Raised? <==> s.producer.raised
  {
    AllLeft(s.workers);
    forall i: nat ensures Total(s.finished, IsItem(i)) == if i < s.discovered then 1 else 0 {
      assert Starts(s, i) == if i < s.taken then 1 else 0;
    }
  }

  // ----- no state is a deadlock, and every run ends -----

  lemma {:induction false} NoneBusy(workers: seq<Worker>) returns (w: nat)
    requires Total(workers, Busy) == 0 && Total(workers, HasLeft) < |workers|
    ensures w < |workers| && workers[w].Idle?
  {
    if workers[0].Idle? {
      w := 0;
    } else {
      w := NoneBusy(workers[1..]);
      w := w + 1;
    }
  }

  lemma {:induction false} EveryoneLeft(workers: seq<Worker>)
    requires Total(workers, HasLeft) >= |workers|
    ensures Total(workers, HasLeft) == |workers| && forall w :: 0 <= w < |workers| ==> workers[w].Left?
  {
    if workers != [] {
      LeftAtMost(workers[1..]);
      EveryoneLeft(workers[1..]);
    }
  }

  lemma {:induction false} LeftAtMost(workers: seq<Worker>)
    ensures Total(workers, HasLeft) <= |workers|
  {
    if workers != [] {
      LeftAtMost(workers[1..]);
    }
  }

  /** With an idle queue and nobody at work, the producer or the main coroutine can move. */
  lemma QuietMoves(s: State) returns (a: Action)
    requires Inv(s) && !Over(s) && s.queue == [] && Total(s.workers, Busy) == 0
    ensures CanAct(s, a)
  {
    hide OnceInv, CountInv, FailureInv;
    match s.producer
    case Iterating => a := EndStream(false);
    case Putting => a := Put;
    case Closing(k, _) =>
      if k < |s.workers| {
        a := Close;
      } else {
        EveryoneLeft(s.workers);
        a := Proceed;
      }
  }

  /** Until the main coroutine has returned or raised, some step is possible. */
  lemma NoDeadlock(s: State) returns (a: Action)
    requires Inv(s) && !Over(s)
    ensures CanAct(s, a)
  {
    hide OnceInv, CountInv, FailureInv;
    if Total(s.workers, Busy) > 0 {
      var w := TotalWitness(s.workers, Busy);
      a := Finish(w, true);
    } else if s.queue == [] {
      a := QuietMoves(s);
    } else if Total(s.workers, HasLeft) < |s.workers| {
      var w := NoneBusy(s.workers);
      a := Get(w);
    } else {
      assert false;
    }
  }

  function SlotWeight(slot: Slot): nat {
    if slot.None? then 1 else 2
  }

  function ProducerWeight(s: State): nat {
    match s.producer
    case Iterating => 2 * |s.workers| + 1
    case Putting => 2 * |s.workers| + 4
    case Closing(k, _) => 2 * Max(0, |s.workers| - k)
  }

  function MainWeight(m: Main): nat {
    match m
    case Joining => 3
    case Gathering => 2
    case Awaiting => 1
    case _ => 0
  }

  function Measure(s: State): nat {
    4 * s.supply + ProducerWeight(s) + Total(s.queue, SlotWeight) + Total(s.workers, Busy) + MainWeight(s.main)
  }

  lemma ActDecreases(s: State, a: Action)
    requires CanAct(s, a)
    ensures Measure(Apply(s, a)) < Measure(s)
  {
    match a
    case Put => TotalAppend(s.queue, Some((s.discovered - 1) as nat), SlotWeight);
    case Close => TotalAppend(s.queue, None, SlotWeight);
    case Get(w) => TotalUpdate(s.workers, w, Apply(s, a).workers[w], Busy);
    case Finish(w, _) => TotalUpdate(s.workers, w, Idle, Busy);
    case _ =>
  }

  // ----- whole runs -----

  function Initial(supply: nat, workers: nat): State {
    State(supply, Iterating, 0, [], 0, seq(workers, _ => Idle), 0, [], [], Joining)
  }

  lemma {:induction false} AllIdle(n: nat, f: Worker -> nat)
    requires f(Idle) == 0
    ensures Total(seq(n, _ => Idle), f) == 0
  {
    if n > 0 {
      assert seq(n, _ => Idle)[1..] == seq((n - 1) as nat, _ => Idle);
      AllIdle(n - 1, f);
    }
  }

  lemma InitialInv(supply: nat, workers: nat)
    requires workers >= 1
    ensures Inv(Initial(supply, workers))
  {
    AllIdle(workers, Busy);
    AllIdle(workers, HasLeft);
    var s := Initial(supply, workers);
    forall i: nat ensures Starts(s, i) == 0 {
      AllIdle(workers, RunsItem(i));
    }
  }

  ghost predicate Valid(s: State, run: seq<Action>)
    decreases |run|
  {
    run == [] || (CanAct(s, run[0]) && Valid(Apply(s, run[0]), run[1..]))
  }

  ghost function Exec(s: State, run: seq<Action>): State
    requires Valid(s, run)
    decreases |run|
  {
    if run == [] then s else Exec(Apply(s, run[0]), run[1..])
  }

  lemma {:induction false} RunKeepsInv(s: State, run: seq<Action>)
    requires Inv(s) && Valid(s, run)
    ensures Inv(Exec(s, run)) && |run| + Measure(Exec(s, run)) <= Measure(s)
    decreases |run|
  {
    hide Inv, Apply, CanAct, Measure;
    if run != [] {
      ActKeepsInv(s, run[0]);
      ActDecreases(s, run[0]);
      RunKeepsInv(Apply(s, run[0]), run[1..]);
    }
  }

  // ----- what is reported -----

  function EndsWell(a: Action): nat {
    if a.Finish? && a.ok then 1 else 0
  }

  /** The items that ended with an exception, in the order in which they did. */
  ghost function FailedItems(s: State, run: seq<Action>): seq<nat>
    requires Valid(s, run)
    decreases |run|
  {
    if run == [] then []
    else FailedBy(s, run[0]) + FailedItems(Apply(s, run[0]), run[1..])
  }

  /** What one action adds to it. */
  function FailedBy(s: State, a: Action): seq<nat> {
    if a.Finish? && !a.ok && a.w < |s.workers| && s.workers[a.w].Running? then [s.workers[a.w].item] else []
  }

  lemma ActRecords(s: State, a: Action)
    requires CanAct(s, a)
    ensures var t := Apply(s, a);
            && t.succeeded == s.succeeded + EndsWell(a) && t.failures == s.failures + FailedBy(s, a)
            && (s.producer.Closing? ==> !a.EndStream? && t.producer.Closing? && t.producer.raised == s.producer.raised)
            && (!s.producer.Closing? ==> (t.producer.Closing? <==> a.EndStream?)
                                         && (a.EndStream? ==> t.producer.raised == a.raised))
  {
  }

  /** What is reported is what happened: each success is counted, and each failure listed with its item. */
  lemma {:induction false} RunRecords(s: State, run: seq<Action>)
    requires Valid(s, run)
    ensures var t := Exec(s, run);
            t.succeeded == s.succeeded + Total(run, EndsWell) && t.failures == s.failures + FailedItems(s, run)
    decreases |run|
  {
    if run != [] {
      var t := Apply(s, run[0]);
      ActRecords(s, run[0]);
      RunRecords(t, run[1..]);
      hide Apply, CanAct, EndsWell, FailedBy;
      assert Total(run, EndsWell) == EndsWell(run[0]) + Total(run[1..], EndsWell);
      hide Total;
    }
  }

  /** The exception of the stream is kept for the end. */
  lemma {:induction false} RunKeepsException(s: State, run: seq<Action>)
    requires Valid(s, run)
    ensures var t := Exec(s, run);
            && (!s.producer.Closing? && t.producer.Closing? ==> (t.producer.raised <==> EndStream(true) in run))
            && (s.producer.Closing? ==> t.producer.Closing? && t.producer.raised == s.producer.raised
                                        && EndStream(true) !in run)
    decreases |run|
  {
    if run != [] {
      ActRecords(s, run[0]);
      RunKeepsException(Apply(s, run[0]), run[1..]);
      hide Apply, CanAct, EndsWell, FailedBy;
      assert run == [run[0]] + run[1..];
      assert EndStream(true) in run <==> run[0] == EndStream(true) || EndStream(true) in run[1..];
    }
  }

  /** Every run, over a stream of at most `supply` items that may raise at any point: no item is started
      twice; no run is longer than the measure; and one that cannot be continued is over, with every item
      discovered run exactly once and reported as the success or the failure that it was, and the exception of
      the stream raised if there was one. */
  lemma EveryRun(supply: nat, workers: nat, run: seq<Action>)
    requires workers >= 1 && Valid(Initial(supply, workers), run)
    ensures var s := Exec(Initial(supply, workers), run);
            && (forall i: nat :: Starts(s, i) <= 1)
            && |s.queue| <= 2 * workers
            && |run| <= Measure(Initial(supply, workers))
            && ((forall a :: !CanAct(s, a)) ==> Over(s))
            && s.succeeded == Total(run, EndsWell) && s.failures == FailedItems(Initial(supply, workers), run)
            && (Over(s) ==> s.queue == [] && s.succeeded + |s.failures| == s.discovered
                            && (s.main.Raised? <==> EndStream(true) in run)
                            && forall i: nat :: Total(s.finished, IsItem(i)) == if i < s.discovered then 1 else 0)
  {
    InitialInv(supply, workers);
    RunKeepsInv(Initial(supply, workers), run);
    RunRecords(Initial(supply, workers), run);
    RunKeepsException(Initial(supply, workers), run);
    var s := Exec(Initial(supply, workers), run);
    OverIsClosed(s);
    RunKeepsWorkers(Initial(supply, workers), run);
    hide FailedItems, EndsWell, Total, Exec, Valid, CanAct, Apply, Starts, QueueInv, SentinelInv, CountInv, FailureInv, MainInv, Over, Measure;
    if !Over(s) {
      var a := NoDeadlock(s);
    } else {
      OverMeansAllRun(s);
    }
  }

  lemma {:induction false} RunKeepsWorkers(s: State, run: seq<Action>)
    requires Valid(s, run)
    ensures |Exec(s, run).workers| == |s.workers|
    decreases |run|
  {
    if run != [] {
      RunKeepsWorkers(Apply(s, run[0]), run[1..]);
    }
  }

  lemma OverIsClosed(s: State)
    requires Inv(s)
    ensures Over(s) ==> s.producer.Closing? && (s.main.Raised? <==> s.producer.raised)
  {
  }

  /** All items leave the queue before any worker does. */
  lemma ItemsBeforeSentinels(s: State, w: nat)
    requires Inv(s) && w < |s.workers| && s.workers[w].Left?
    ensures s.taken == s.discovered && forall j :: 0 <= j < |s.queue| ==> s.queue[j].None?
  {
    TotalAtLeast(s.workers, w, HasLeft);
  }

  // ----- the runner as an object -----

  /** The queue, the counters and the tasks; a method is what one of them does between two waits. */
  class Runner {
    var supply: nat
    var producer: Producer
    var discovered: nat
    var queue: seq<Slot>
    ghost var taken: nat
    var workers: seq<Worker>
    var succeeded: nat
    var failures: seq<nat>
    ghost var finished: seq<nat>
    var main: Main

    ghost function Abstract(): State
      reads this
    {
      State(supply, producer, discovered, queue, taken, workers, succeeded, failures, finished, main)
    }

    ghost predicate Good()
      reads this
    {
      Inv(Abstract())
    }

    constructor (supply: nat, concurrency: int)
      ensures Good() && Abstract() == Initial(supply, Max(1, concurrency))
    {
      this.supply, producer, discovered, queue, taken := supply, Iterating, 0, [], 0;
      workers := seq(Max(1, concurrency) as nat, _ => Idle);
      succeeded, failures, finished, main := 0, [], [], Joining;
      new;
      InitialInv(supply, Max(1, concurrency));
    }

    method NextItem()
      requires Good() && CanAct(Abstract(), Yield)
      modifies this
      ensures Good() && Abstract() == Apply(old(Abstract()), Yield)
    {
      hide Inv;
      ActKeepsInv(Abstract(), Yield);
      supply := supply - 1;
      discovered := discovered + 1;
      producer := Putting;
    }

    method StreamEnds(raised: bool)
      requires Good() && CanAct(Abstract(), EndStream(raised))
      modifies this
      ensures Good() && Abstract() == Apply(old(Abstract()), EndStream(raised))
    {
      hide Inv;
      ActKeepsInv(Abstract(), EndStream(raised));
      producer := Closing(0, raised);
    }

    method PutItem()
      requires Good() && CanAct(Abstract(), Put)
      modifies this
      ensures Good() && Abstract() == Apply(old(Abstract()), Put)
    {
      hide Inv;
      ActKeepsInv(Abstract(), Put);
      queue := queue + [Some(discovered - 1)];
      producer := Iterating;
    }

    method PutSentinel()
      requires Good() && CanAct(Abstract(), Close)
      modifies this
      ensures Good() && Abstract() == Apply(old(Abstract()), Close)
    {
      hide Inv;
      ActKeepsInv(Abstract(), Close);
      queue := queue + [None];
      producer := producer.(sentinels := producer.sentinels + 1);
    }

    /** A worker gets what is at the head of the queue: an item to run, or leave to go. */
    method GetNext(w: nat)
      requires Good() && CanAct(Abstract(), Get(w))
      modifies this
      ensures Good() && Abstract() == Apply(old(Abstract()), Get(w))
    {
      hide Inv;
      ActKeepsInv(Abstract(), Get(w));
      var slot := queue[0];
      queue := queue[1..];
      if slot.None? {
        workers := workers[w := Left];
        return;
      }
      workers := workers[w := Running(slot.value)];
      taken := taken + 1;
    }

    method ItemEnds(w: nat, ok: bool)
      requires Good() && CanAct(Abstract(), Finish(w, ok))
      modifies this
      ensures Good() && Abstract() == Apply(old(Abstract()), Finish(w, ok))
    {
      hide Inv;
      ActKeepsInv(Abstract(), Finish(w, ok));
      var item := workers[w].item;
      if ok {
        succeeded := succeeded + 1;
      } else {
        failures := failures + [item];
      }
      finished := finished + [item];
      workers := workers[w := Idle];
    }

    /** What the main coroutine waits for has happened. */
    method MainProceeds()
      requires Good() && CanAct(Abstract(), Proceed)
      modifies this
      ensures Good() && Abstract() == Apply(old(Abstract()), Proceed)
    {
      hide Inv;
      ActKeepsInv(Abstract(), Proceed);
      if main.Joining? {
        main := Gathering;
      } else if main.Gathering? {
        main := Awaiting;
      } else {
        main := if producer.raised then Raised else Returned;
      }
    }
  }
}
