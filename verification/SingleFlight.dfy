/**
 Many callers reading through the cache at once. A miss takes the lock of its key and looks again before it
 fetches, so that concurrent misses of one key amount to a single fetch.
 */
module SingleFlight {
  import opened Basics

  type Key = Bytes

  datatype Phase =
    | Looking
    | WantLock
    | Rechecking            // holds the lock of its key
    | Fetching              // holds it
    | Storing(data: Bytes)  // holds it
    | Got(data: Bytes)
    | Failed

  datatype Caller = Caller(key: Key, phase: Phase)

  /** What is cached, who holds which lock, and, per key, how many fetches were started and how many times
      one was needed again: it failed, or its value was not kept, or was dropped. */
  datatype State = State(
    cached: map<Key, Bytes>,
    locks: map<Key, nat>,
    callers: seq<Caller>,
    starts: map<Key, nat>,
    wasted: map<Key, nat>)

  datatype Action =
    | Call(key: Key)
    | Look(c: nat)
    | Lock(c: nat)
    | Recheck(c: nat)
    | Fetched(c: nat, data: Bytes)
    | FetchFails(c: nat)
    | Stored(c: nat, retained: bool)
    | Cancel(c: nat)
    | LateStore(key: Key, data: Bytes)   // the store of a cancelled caller takes effect after all
    | Drop(key: Key)                     // evicted, expired, deleted or cleared

  function Count(m: map<Key, nat>, k: Key): nat {
    if k in m then m[k] else 0
  }

  predicate Holds(p: Phase) {
    p.Rechecking? || p.Fetching? || p.Storing?
  }

  predicate At(s: State, c: nat) {
    c < |s.callers|
  }

  predicate CanAct(s: State, a: Action) {
    match a
    case Call(_) => true
    case Look(c) => At(s, c) && s.callers[c].phase.Looking?
    case Lock(c) => At(s, c) && s.callers[c].phase.WantLock? && s.callers[c].key !in s.locks
    case Recheck(c) => At(s, c) && s.callers[c].phase.Rechecking?
    case Fetched(c, _) => At(s, c) && s.callers[c].phase.Fetching?
    case FetchFails(c) => At(s, c) && s.callers[c].phase.Fetching?
    case Stored(c, _) => At(s, c) && s.callers[c].phase.Storing?
    case Cancel(c) => At(s, c) && !s.callers[c].phase.Got? && !s.callers[c].phase.Failed?
    case LateStore(_, _) => true
    case Drop(k) => k in s.cached
  }

  predicate ByCaller(a: Action) {
    !a.Call? && !a.LateStore? && !a.Drop?
  }

  /** Where a step of its own takes a caller. */
  function PhaseAfter(s: State, a: Action): Phase
    requires CanAct(s, a) && ByCaller(a)
  {
    var k := s.callers[a.c].key;
    match a
    case Look(_) => if k in s.cached then Got(s.cached[k]) else WantLock
    case Lock(_) => Rechecking
    case Recheck(_) => if k in s.cached then Got(s.cached[k]) else Fetching
    case Fetched(_, data) => Storing(data)
    case Stored(c, _) => Got(s.callers[c].phase.data)
    case _ => Failed
  }

  /** The lock is given back on every way out of the block that holds it. */
  function LocksAfter(s: State, a: Action): map<Key, nat>
    requires CanAct(s, a) && ByCaller(a)
  {
    var caller := s.callers[a.c];
    if a.Lock? then s.locks[caller.key := a.c]
    else if Holds(caller.phase) && !Holds(PhaseAfter(s, a)) then s.locks - {caller.key}
    else s.locks
  }

  /** The table drops the old value of a key even when it does not retain the new one. */
  function CachedAfter(s: State, a: Action): map<Key, Bytes>
    requires CanAct(s, a)
  {
    match a
    case Stored(c, retained) =>
      var k := s.callers[c].key;
      if retained then s.cached[k := s.callers[c].phase.data] else s.cached - {k}
    case LateStore(k, data) => s.cached[k := data]
    case Drop(k) => s.cached - {k}
    case _ => s.cached
  }

  function StartsAfter(s: State, a: Action): map<Key, nat>
    requires CanAct(s, a) && ByCaller(a)
  {
    var k := s.callers[a.c].key;
    if a.Recheck? && PhaseAfter(s, a).Fetching? then s.starts[k := Count(s.starts, k) + 1] else s.starts
  }

  predicate Wastes(s: State, a: Action)
    requires CanAct(s, a) && ByCaller(a)
  {
    var p := s.callers[a.c].phase;
    (p.Fetching? || p.Storing?) && (PhaseAfter(s, a).Failed? || (a.Stored? && !a.retained))
  }

  function Add(m: map<Key, nat>, k: Key): map<Key, nat> {
    m[k := Count(m, k) + 1]
  }

  function Apply(s: State, a: Action): State
    requires CanAct(s, a)
  {
    match a
    case Call(k) => s.(callers := s.callers + [Caller(k, Looking)])
    case LateStore(_, _) => s.(cached := CachedAfter(s, a))
    case Drop(k) => s.(cached := CachedAfter(s, a), wasted := Add(s.wasted, k))
    case _ =>
      var k := s.callers[a.c].key;
      State(CachedAfter(s, a), LocksAfter(s, a), s.callers[a.c := Caller(k, PhaseAfter(s, a))], StartsAfter(s, a),
            if Wastes(s, a) then Add(s.wasted, k) else s.wasted)
  }

  // ----- what every step keeps -----

  /** The lock of a key is held by the one caller that is inside. */
  ghost predicate LockInv(s: State) {
    && (forall k :: k in s.locks ==> s.locks[k] < |s.callers| && s.callers[s.locks[k]].key == k
                                     && Holds(s.callers[s.locks[k]].phase))
    && (forall c :: 0 <= c < |s.callers| && Holds(s.callers[c].phase) ==>
          s.callers[c].key in s.locks && s.locks[s.callers[c].key] == c)
  }

  predicate InFlight(s: State, k: Key) {
    k in s.locks && s.locks[k] < |s.callers| && !s.callers[s.locks[k]].phase.Rechecking?
  }

  function One(b: bool): nat {
    if b then 1 else 0
  }

  /** Every fetch but one was needed again because an earlier one had gone to waste. */
  ghost predicate StartInv(s: State) {
    forall k :: Count(s.starts, k) <= Count(s.wasted, k) + One(k in s.cached || InFlight(s, k))
  }

  ghost predicate Inv(s: State) {
    LockInv(s) && StartInv(s)
  }

  /** The key of a caller's step is the only one it concerns. */
  ghost predicate OnlyKey(s: State, t: State, k: Key) {
    forall j :: j != k ==>
      && Count(t.starts, j) == Count(s.starts, j) && Count(t.wasted, j) == Count(s.wasted, j)
      && (j in t.cached <==> j in s.cached) && (j in s.cached ==> t.cached[j] == s.cached[j])
      && (j in t.locks <==> j in s.locks) && (j in s.locks ==> t.locks[j] == s.locks[j])
  }

  lemma StepOfOne(s: State, a: Action)
    requires CanAct(s, a) && ByCaller(a)
    ensures a.c < |s.callers| == |Apply(s, a).callers|
    ensures Apply(s, a).callers == s.callers[a.c := Caller(s.callers[a.c].key, PhaseAfter(s, a))]
    ensures OnlyKey(s, Apply(s, a), s.callers[a.c].key)
  {
    hide PhaseAfter;
  }

  /** A caller takes its lock, gives it back, or does neither. */
  lemma OneKeepsLock(s: State, t: State, c: nat, q: Phase)
    requires LockInv(s) && c < |s.callers|
    requires t.callers == s.callers[c := Caller(s.callers[c].key, q)]
    requires var k, p := s.callers[c].key, s.callers[c].phase;
             || (Holds(p) == Holds(q) && t.locks == s.locks)
             || (!Holds(p) && Holds(q) && k !in s.locks && t.locks == s.locks[k := c])
             || (Holds(p) && !Holds(q) && t.locks == s.locks - {k})
    ensures LockInv(t)
  {
    hide Holds;
  }

  lemma ActKeepsLock(s: State, a: Action)
    requires LockInv(s) && CanAct(s, a)
    ensures LockInv(Apply(s, a))
  {
    if ByCaller(a) {
      assert a.Lock? ==> Holds(PhaseAfter(s, a)) && !Holds(s.callers[a.c].phase);
      assert !a.Lock? && !Holds(s.callers[a.c].phase) ==> !Holds(PhaseAfter(s, a));
      hide LockInv, PhaseAfter, CachedAfter, StartsAfter, Wastes, Holds;
      OneKeepsLock(s, Apply(s, a), a.c, PhaseAfter(s, a));
    }
  }

  /** A step inside one caller, seen from key `k`. */
  lemma ActKeepsStarts(s: State, a: Action, k: Key)
    requires Inv(s) && CanAct(s, a)
    ensures var t := Apply(s, a); Count(t.starts, k) <= Count(t.wasted, k) + One(k in t.cached || InFlight(t, k))
  {
    assert Count(s.starts, k) <= Count(s.wasted, k) + One(k in s.cached || InFlight(s, k));
    hide StartInv, Inv;
    if a.Call? || a.LateStore? || a.Drop? {
    } else if s.callers[a.c].key == k {
      OwnKeyKeepsStarts(s, a);
    } else {
      OtherKeyKeepsStarts(s, a, k);
    }
  }

  lemma OwnKeyKeepsStarts(s: State, a: Action)
    requires LockInv(s) && CanAct(s, a) && ByCaller(a)
    requires var k := s.callers[a.c].key; Count(s.starts, k) <= Count(s.wasted, k) + One(k in s.cached || InFlight(s, k))
    ensures var t, k := Apply(s, a), s.callers[a.c].key;
            Count(t.starts, k) <= Count(t.wasted, k) + One(k in t.cached || InFlight(t, k))
  {
  }

  lemma OtherKeyKeepsStarts(s: State, a: Action, k: Key)
    requires LockInv(s) && CanAct(s, a) && ByCaller(a) && s.callers[a.c].key != k
    ensures var t := Apply(s, a);
            && Count(t.starts, k) == Count(s.starts, k) && Count(t.wasted, k) == Count(s.wasted, k)
            && (k in t.cached <==> k in s.cached) && (InFlight(t, k) <==> InFlight(s, k))
  {
    StepOfOne(s, a);
    assert a.c < |s.callers|;
    hide Apply, CanAct, Holds;
  }

  lemma ActKeepsInv(s: State, a: Action)
    requires Inv(s) && CanAct(s, a)
    ensures Inv(Apply(s, a))
  {
    ActKeepsLock(s, a);
    forall k ensures var t := Apply(s, a); Count(t.starts, k) <= Count(t.wasted, k) + One(k in t.cached || InFlight(t, k)) {
      ActKeepsStarts(s, a, k);
    }
    hide Apply, LockInv, InFlight;
  }

  /** A caller that waits for a lock can have it, or its holder can go on. */
  lemma NoDeadlock(s: State, c: nat) returns (a: Action)
    requires Inv(s) && c < |s.callers| && !s.callers[c].phase.Got? && !s.callers[c].phase.Failed?
    ensures CanAct(s, a) && !a.Cancel? && !a.FetchFails? && !a.Drop? && !a.Call? && !a.LateStore?
  {
    var key := s.callers[c].key;
    var d := if s.callers[c].phase.WantLock? && key in s.locks then s.locks[key] else c;
    match s.callers[d].phase
    case Looking => a := Look(d);
    case WantLock => a := Lock(d);
    case Rechecking => a := Recheck(d);
    case Fetching => a := Fetched(d, []);
    case Storing(_) => a := Stored(d, true);
  }

  // ----- whole runs -----

  const START := State(map[], map[], [], map[], map[])

  predicate Valid(s: State, run: seq<Action>)
    decreases |run|
  {
    run == [] || (CanAct(s, run[0]) && Valid(Apply(s, run[0]), run[1..]))
  }

  function Exec(s: State, run: seq<Action>): State
    requires Valid(s, run)
    decreases |run|
  {
    if run == [] then s else Exec(Apply(s, run[0]), run[1..])
  }

  lemma {:induction false} RunKeepsInv(s: State, run: seq<Action>)
    requires Inv(s) && Valid(s, run)
    ensures Inv(Exec(s, run))
    decreases |run|
  {
    hide Inv, Apply, CanAct;
    if run != [] {
      ActKeepsInv(s, run[0]);
      RunKeepsInv(Apply(s, run[0]), run[1..]);
    }
  }

  /** A caller of `k` goes on to fetch. */
  predicate Fetches(s: State, a: Action, k: Key)
    requires CanAct(s, a)
  {
    && ByCaller(a) && s.callers[a.c].key == k && a.c < |Apply(s, a).callers|
    && !s.callers[a.c].phase.Fetching? && Apply(s, a).callers[a.c].phase.Fetching?
  }

  /** A fetch of `k` fails, or is cancelled, or its value is not kept or is dropped. */
  predicate Loses(s: State, a: Action, k: Key)
    requires CanAct(s, a)
  {
    match a
    case FetchFails(c) => s.callers[c].key == k
    case Stored(c, retained) => s.callers[c].key == k && !retained
    case Cancel(c) => s.callers[c].key == k && (s.callers[c].phase.Fetching? || s.callers[c].phase.Storing?)
    case Drop(j) => j == k
    case _ => false
  }

  /** How often `k` is fetched in a run. */
  function FetchCount(s: State, run: seq<Action>, k: Key): nat
    requires Valid(s, run)
    decreases |run|
  {
    if run == [] then 0 else One(Fetches(s, run[0], k)) + FetchCount(Apply(s, run[0]), run[1..], k)
  }

  /** How many of the fetches go to waste. */
  function Losses(s: State, run: seq<Action>, k: Key): nat
    requires Valid(s, run)
    decreases |run|
  {
    if run == [] then 0 else One(Loses(s, run[0], k)) + Losses(Apply(s, run[0]), run[1..], k)
  }

  /** The two counters are what they are named for. */
  lemma ActCounts(s: State, a: Action, k: Key)
    requires CanAct(s, a)
    ensures Count(Apply(s, a).starts, k) == Count(s.starts, k) + One(Fetches(s, a, k))
    ensures Count(Apply(s, a).wasted, k) == Count(s.wasted, k) + One(Loses(s, a, k))
  {
  }

  lemma {:induction false} CountersCount(s: State, run: seq<Action>, k: Key)
    requires Valid(s, run)
    ensures Count(Exec(s, run).starts, k) == Count(s.starts, k) + FetchCount(s, run, k)
    ensures Count(Exec(s, run).wasted, k) == Count(s.wasted, k) + Losses(s, run, k)
    decreases |run|
  {
    if run != [] {
      ActCounts(s, run[0], k);
      hide Count, CanAct, Apply, Fetches, Loses;
      CountersCount(Apply(s, run[0]), run[1..], k);
    }
  }

  ghost predicate NothingWasted(run: seq<Action>) {
    forall a :: a in run ==> !a.FetchFails? && !a.Cancel? && !a.Drop? && (a.Stored? ==> a.retained)
  }

  lemma {:induction false} NoLosses(s: State, run: seq<Action>, k: Key)
    requires Valid(s, run) && NothingWasted(run)
    ensures Losses(s, run, k) == 0
    decreases |run|
  {
    if run != [] {
      assert run[0] in run && NothingWasted(run[1..]);
      NoLosses(Apply(s, run[0]), run[1..], k);
    }
  }

  /** However many callers ask for a key at once, it is fetched at most once more than fetches of it fail, are
      cancelled, or have their value refused or dropped; in a run without any of that, at most once. */
  lemma StampedeFetchesOnce(run: seq<Action>, k: Key)
    requires Valid(START, run)
    ensures FetchCount(START, run, k) <= Losses(START, run, k) + 1
    ensures NothingWasted(run) ==> FetchCount(START, run, k) <= 1
  {
    RunKeepsInv(START, run);
    CountersCount(START, run, k);
    if NothingWasted(run) {
      NoLosses(START, run, k);
    }
    hide Exec, Valid, Losses, FetchCount;
    assert StartInv(Exec(START, run));
  }

  /** A caller that finds its key cached has it at once, whoever holds the lock; and so has one that finds it under
      the lock. */
  lemma CachedIsServed(s: State, a: Action)
    requires CanAct(s, a) && (a.Look? || a.Recheck?) && s.callers[a.c].key in s.cached
    ensures Apply(s, a).callers[a.c].phase == Got(s.cached[s.callers[a.c].key])
  {
  }

  // ----- callers get on -----

  function Rank(p: Phase): nat {
    match p
    case Looking => 0
    case WantLock => 1
    case Rechecking => 2
    case Fetching => 3
    case Storing(_) => 4
    case _ => 5
  }

  function StepsOf(c: nat): Action -> nat {
    (a: Action) => if ByCaller(a) && a.c == c then 1 else 0
  }

  function RankAt(s: State, c: nat): nat {
    if c < |s.callers| then Rank(s.callers[c].phase) else 0
  }

  lemma ActAdvances(s: State, a: Action, c: nat)
    requires CanAct(s, a)
    ensures RankAt(s, c) + StepsOf(c)(a) <= RankAt(Apply(s, a), c)
  {
  }

  /** No caller goes through more than five steps of its own. */
  lemma {:induction false} CallersGetOn(s: State, run: seq<Action>, c: nat)
    requires Valid(s, run)
    ensures RankAt(s, c) + Total(run, StepsOf(c)) <= RankAt(Exec(s, run), c) <= 5
    decreases |run|
  {
    if run != [] {
      ActAdvances(s, run[0], c);
      CallersGetOn(Apply(s, run[0]), run[1..], c);
      hide Apply, CanAct, RankAt, StepsOf;
    }
  }

  predicate FailedAt(s: State, c: nat) {
    c < |s.callers| && s.callers[c].phase.Failed?
  }

  lemma ActFails(s: State, a: Action, c: nat)
    requires CanAct(s, a)
    ensures FailedAt(Apply(s, a), c) <==> FailedAt(s, c) || a == FetchFails(c) || a == Cancel(c)
  {
  }

  /** A caller gets an exception exactly if its own fetch fails or it is cancelled itself, whatever happens to
      others that wait for the same key; so one that has done its steps otherwise has got something. */
  lemma {:induction false} FailsExactly(s: State, run: seq<Action>, c: nat)
    requires Valid(s, run)
    ensures FailedAt(Exec(s, run), c) <==> FailedAt(s, c) || FetchFails(c) in run || Cancel(c) in run
    decreases |run|
  {
    if run != [] {
      ActFails(s, run[0], c);
      FailsExactly(Apply(s, run[0]), run[1..], c);
      hide Apply, CanAct, FailedAt;
      assert run == [run[0]] + run[1..];
    }
  }

  // ----- callers get what is there -----

  ghost predicate Genuine(s: State, content: Key -> Bytes) {
    && (forall k :: k in s.cached ==> s.cached[k] == content(k))
    && (forall c :: 0 <= c < |s.callers| && (s.callers[c].phase.Got? || s.callers[c].phase.Storing?) ==>
          s.callers[c].phase.data == content(s.callers[c].key))
  }

  /** A fetch brings the content of its key; so does a store that lands late. */
  predicate Brings(s: State, a: Action, content: Key -> Bytes)
    requires CanAct(s, a)
  {
    (a.Fetched? ==> a.data == content(s.callers[a.c].key)) && (a.LateStore? ==> a.data == content(a.key))
  }

  lemma CallerIsGenuine(s: State, a: Action, content: Key -> Bytes, c: nat)
    requires Genuine(s, content) && CanAct(s, a) && Brings(s, a, content) && c < |Apply(s, a).callers|
    ensures var x := Apply(s, a).callers[c]; x.phase.Got? || x.phase.Storing? ==> x.phase.data == content(x.key)
  {
    if ByCaller(a) && a.c != c {
      StepOfOne(s, a);
      hide Apply, CanAct;
    }
  }

  lemma ActKeepsGenuine(s: State, a: Action, content: Key -> Bytes)
    requires Genuine(s, content) && CanAct(s, a) && Brings(s, a, content)
    ensures Genuine(Apply(s, a), content)
  {
    var t := Apply(s, a);
    forall c | 0 <= c < |t.callers| && (t.callers[c].phase.Got? || t.callers[c].phase.Storing?)
      ensures t.callers[c].phase.data == content(t.callers[c].key)
    {
      CallerIsGenuine(s, a, content, c);
    }
    CacheIsGenuine(s, a, content);
    hide Apply;
  }

  lemma CacheIsGenuine(s: State, a: Action, content: Key -> Bytes)
    requires Genuine(s, content) && CanAct(s, a) && Brings(s, a, content)
    ensures forall k :: k in Apply(s, a).cached ==> Apply(s, a).cached[k] == content(k)
  {
  }

  predicate AllBring(s: State, run: seq<Action>, content: Key -> Bytes)
    requires Valid(s, run)
    decreases |run|
  {
    run == [] || (Brings(s, run[0], content) && AllBring(Apply(s, run[0]), run[1..], content))
  }

  /** Every caller that gets something gets the content of its key, fetched by itself or by another. */
  lemma {:induction false} RunIsGenuine(s: State, run: seq<Action>, content: Key -> Bytes)
    requires Genuine(s, content) && Valid(s, run) && AllBring(s, run, content)
    ensures Genuine(Exec(s, run), content)
    decreases |run|
  {
    hide Genuine, Apply, CanAct, Brings;
    if run != [] {
      ActKeepsGenuine(s, run[0], content);
      RunIsGenuine(Apply(s, run[0]), run[1..], content);
    }
  }

  // ----- the cache front as an object -----

  /** The cached values, the locks and the callers; a method is what one caller does between two waits. */
  class Front {
    var cached: map<Key, Bytes>
    var locks: map<Key, nat>
    var callers: seq<Caller>
    ghost var starts: map<Key, nat>
    ghost var wasted: map<Key, nat>

    ghost function Abstract(): State
      reads this
    {
      State(cached, locks, callers, starts, wasted)
    }

    ghost predicate Good()
      reads this
    {
      Inv(Abstract())
    }

    constructor ()
      ensures Good() && Abstract() == START
    {
      cached, locks, callers, starts, wasted := map[], map[], [], map[], map[];
    }

    method Begin(key: Key)
      requires Good()
      modifies this
      ensures Good() && Abstract() == Apply(old(Abstract()), Call(key))
    {
      hide Inv;
      ActKeepsInv(Abstract(), Call(key));
      callers := callers + [Caller(key, Looking)];
    }

    /** The look-up before the lock. */
    method FirstLook(c: nat)
      requires Good() && CanAct(Abstract(), Look(c))
      modifies this
      ensures Good() && Abstract() == Apply(old(Abstract()), Look(c))
    {
      hide Inv;
      ActKeepsInv(Abstract(), Look(c));
      var key := callers[c].key;
      callers := callers[c := Caller(key, if key in cached then Got(cached[key]) else WantLock)];
    }

    method TakeKeyLock(c: nat)
      requires Good() && CanAct(Abstract(), Lock(c))
      modifies this
      ensures Good() && Abstract() == Apply(old(Abstract()), Lock(c))
    {
      hide Inv;
      ActKeepsInv(Abstract(), Lock(c));
      locks := locks[callers[c].key := c];
      callers := callers[c := callers[c].(phase := Rechecking)];
    }

    /** The look-up under the lock: on a hit the lock is given back, on a miss the fetch begins. */
    method SecondLook(c: nat)
      requires Good() && CanAct(Abstract(), Recheck(c))
      modifies this
      ensures Good() && Abstract() == Apply(old(Abstract()), Recheck(c))
    {
      hide Inv;
      ActKeepsInv(Abstract(), Recheck(c));
      var key := callers[c].key;
      if key in cached {
        callers := callers[c := Caller(key, Got(cached[key]))];
        locks := locks - {key};
      } else {
        callers := callers[c := Caller(key, Fetching)];
        starts := Add(starts, key);
      }
    }

    method FetchReturns(c: nat, data: Bytes)
      requires Good() && CanAct(Abstract(), Fetched(c, data))
      modifies this
      ensures Good() && Abstract() == Apply(old(Abstract()), Fetched(c, data))
    {
      hide Inv;
      ActKeepsInv(Abstract(), Fetched(c, data));
      callers := callers[c := callers[c].(phase := Storing(data))];
    }

    method FetchRaises(c: nat)
      requires Good() && CanAct(Abstract(), FetchFails(c))
      modifies this
      ensures Good() && Abstract() == Apply(old(Abstract()), FetchFails(c))
    {
      hide Inv;
      ActKeepsInv(Abstract(), FetchFails(c));
      var key := callers[c].key;
      locks := locks - {key};
      wasted := Add(wasted, key);
      callers := callers[c := Caller(key, Failed)];
    }

    /** The value has been stored, unless it is too large or its time to live is not positive. */
    method StoreReturns(c: nat, retained: bool)
      requires Good() && CanAct(Abstract(), Stored(c, retained))
      modifies this
      ensures Good() && Abstract() == Apply(old(Abstract()), Stored(c, retained))
    {
      hide Inv;
      ActKeepsInv(Abstract(), Stored(c, retained));
      var key, data := callers[c].key, callers[c].phase.data;
      if retained {
        cached := cached[key := data];
      } else {
        cached := cached - {key};
        wasted := Add(wasted, key);
      }
      locks := locks - {key};
      callers := callers[c := Caller(key, Got(data))];
    }

    /** A cancelled caller gives its lock back on the way out. */
    method CancelCaller(c: nat)
      requires Good() && CanAct(Abstract(), Cancel(c))
      modifies this
      ensures Good() && Abstract() == Apply(old(Abstract()), Cancel(c))
    {
      hide Inv;
      ActKeepsInv(Abstract(), Cancel(c));
      var key, p := callers[c].key, callers[c].phase;
      if p.Rechecking? || p.Fetching? || p.Storing? {
        locks := locks - {key};
      }
      if p.Fetching? || p.Storing? {
        wasted := Add(wasted, key);
      }
      callers := callers[c := Caller(key, Failed)];
    }
  }
}
