/**
 Calls of one event-loop tick, collected and sent as one batch per operation and arguments. A flush is
 scheduled when a key gets its first call; batches then run side by side and complete the futures of the
 calls that they carry.
 */
module MicroBatcher {
  import opened Basics

  /** The operation and all its keyword arguments but the item, in the order they were given. */
  type Key = (string, seq<(string, string)>)
  type Item = string

  /** A value of the native layer; None is Python's None. */
  type Value = Option<string>

  datatype Future = Waiting | Result(value: Value) | Raised | Cancelled

  datatype Place = Queued | Flying(batch: nat)

  /** A call: what was asked for, its future, and where its entry is. Calls are numbered as they come. */
  datatype Call = Call(key: Key, item: Item, fut: Future, place: Place)

  type Entry = (Item, nat)

  datatype Batch = Batch(key: Key, entries: seq<Entry>, over: bool)

  /** `lost` says that some native call ended in a way that leaves futures waiting. */
  datatype State = State(
    pending: map<Key, seq<Entry>>,
    scheduled: seq<Key>,
    batches: seq<Batch>,
    calls: seq<Call>,
    lost: bool)

  /** How a native batch call ends: with a list (empty for None), an ordinary exception, or a cancellation. */
  datatype Reply = Returned(values: seq<Value>) | Failed | Interrupted

  /** What becomes of a value before it is handed out; None if that raises. */
  type Wrap = Value -> Option<Value>

  datatype Action =
    | Submit(key: Key, item: Item)
    | GiveUp(call: nat)               // the caller is cancelled while it waits
    | Flush
    | Finish(batch: nat, reply: Reply)

  // ----- completing the futures of a batch -----

  function WithFuture(calls: seq<Call>, n: nat, f: Future): seq<Call>
    requires n < |calls|
  {
    calls[n := calls[n].(fut := f)]
  }

  ghost predicate InRange(entries: seq<Entry>, calls: seq<Call>) {
    forall i :: 0 <= i < |entries| ==> entries[i].1 < |calls|
  }

  /** Hand out results position by position, up to the shorter of the two lists; stop if one cannot be wrapped. */
  function HandOut(calls: seq<Call>, entries: seq<Entry>, values: seq<Value>, wrap: Wrap): (seq<Call>, bool)
    requires InRange(entries, calls)
    decreases |entries|
  {
    if entries == [] || values == [] then (calls, true)
    else
      var n := entries[0].1;
      if !calls[n].fut.Waiting? then HandOut(calls, entries[1..], values[1..], wrap)
      else if wrap(values[0]).None? then (calls, false)
      else HandOut(WithFuture(calls, n, Result(wrap(values[0]).value)), entries[1..], values[1..], wrap)
  }

  function FailAll(calls: seq<Call>, entries: seq<Entry>): seq<Call>
    requires InRange(entries, calls)
    decreases |entries|
  {
    if entries == [] then calls
    else
      var n := entries[0].1;
      FailAll(if calls[n].fut.Waiting? then WithFuture(calls, n, Raised) else calls, entries[1..])
  }

  /** `results or [None] * len(futures)` */
  function Values(reply: Reply, n: nat): seq<Value>
    requires reply.Returned?
  {
    if reply.values == [] then seq(n, _ => None) else reply.values
  }

  lemma {:induction false} HandOutShape(calls: seq<Call>, entries: seq<Entry>, values: seq<Value>, wrap: Wrap)
    requires InRange(entries, calls)
    ensures |HandOut(calls, entries, values, wrap).0| == |calls|
    decreases |entries|
  {
    if entries != [] && values != [] {
      var n := entries[0].1;
      if !calls[n].fut.Waiting? {
        HandOutShape(calls, entries[1..], values[1..], wrap);
      } else if wrap(values[0]).Some? {
        HandOutShape(WithFuture(calls, n, Result(wrap(values[0]).value)), entries[1..], values[1..], wrap);
      }
    }
  }

  function Complete(calls: seq<Call>, entries: seq<Entry>, reply: Reply, wrap: Wrap): seq<Call>
    requires InRange(entries, calls)
  {
    match reply
    case Returned(_) =>
      HandOutShape(calls, entries, Values(reply, |entries|), wrap);
      var (after, ok) := HandOut(calls, entries, Values(reply, |entries|), wrap);
      if ok then after else FailAll(after, entries)
    case Failed => FailAll(calls, entries)
    case Interrupted => calls
  }

  /** The reply has something for every future of a batch of `n`. */
  predicate Completes(reply: Reply, n: nat) {
    match reply
    case Returned(values) => values == [] || |values| >= n
    case Failed => true
    case Interrupted => false
  }

  // ----- what completing does to each call -----

  /** Only the future of a call changes, and only if it was waiting. */
  predicate Settles(before: Call, after: Call) {
    after == before.(fut := after.fut) && (!before.fut.Waiting? ==> after == before)
  }

  ghost predicate SettlesAll(before: seq<Call>, after: seq<Call>) {
    |after| == |before| && forall n :: 0 <= n < |before| ==> Settles(before[n], after[n])
  }

  ghost predicate NamesCall(entries: seq<Entry>, n: nat) {
    exists i :: 0 <= i < |entries| && entries[i].1 == n
  }

  lemma NamesCallTail(entries: seq<Entry>, n: nat)
    requires entries != []
    ensures NamesCall(entries, n) <==> entries[0].1 == n || NamesCall(entries[1..], n)
  {
    if i :| 0 <= i < |entries| && entries[i].1 == n {
      assert i > 0 ==> entries[1..][i - 1] == entries[i];
    }
  }

  lemma {:induction false} FailAllSettles(calls: seq<Call>, entries: seq<Entry>, n: nat)
    requires InRange(entries, calls) && n < |calls|
    ensures |FailAll(calls, entries)| == |calls|
    ensures FailAll(calls, entries)[n] ==
              if calls[n].fut.Waiting? && NamesCall(entries, n) then calls[n].(fut := Raised) else calls[n]
    decreases |entries|
  {
    if entries != [] {
      var m := entries[0].1;
      NamesCallTail(entries, n);
      FailAllSettles(if calls[m].fut.Waiting? then WithFuture(calls, m, Raised) else calls, entries[1..], n);
    }
  }

  ghost predicate DistinctCalls(entries: seq<Entry>) {
    forall i, j :: 0 <= i < j < |entries| ==> entries[i].1 != entries[j].1
  }

  lemma DistinctTail(entries: seq<Entry>)
    requires entries != [] && DistinctCalls(entries)
    ensures DistinctCalls(entries[1..]) && !NamesCall(entries[1..], entries[0].1)
  {
    var tail := entries[1..];
    forall i, j | 0 <= i < j < |tail| ensures tail[i].1 != tail[j].1 {
      assert entries[i + 1] == tail[i] && entries[j + 1] == tail[j];
    }
  }

  lemma {:induction false} OthersKeep(calls: seq<Call>, entries: seq<Entry>, values: seq<Value>, wrap: Wrap, n: nat)
    requires InRange(entries, calls) && n < |calls| && !NamesCall(entries, n)
    ensures |HandOut(calls, entries, values, wrap).0| == |calls| && HandOut(calls, entries, values, wrap).0[n] == calls[n]
    decreases |entries|
  {
    if entries != [] && values != [] {
      NamesCallTail(entries, n);
      var m := entries[0].1;
      if !calls[m].fut.Waiting? {
        OthersKeep(calls, entries[1..], values[1..], wrap, n);
      } else if wrap(values[0]).Some? {
        OthersKeep(WithFuture(calls, m, Result(wrap(values[0]).value)), entries[1..], values[1..], wrap, n);
      }
    }
  }

  /** What position `i` of a batch gets: its own value, wrapped; or nothing, if handing out stopped before
      it or the list was too short. */
  lemma {:induction false} HandOutAt(calls: seq<Call>, entries: seq<Entry>, values: seq<Value>, wrap: Wrap, i: nat)
    requires InRange(entries, calls) && DistinctCalls(entries) && i < |entries|
    ensures var (after, ok) := HandOut(calls, entries, values, wrap);
            var n := entries[i].1;
            && |after| == |calls|
            && Settles(calls[n], after[n])
            && (after[n] != calls[n] ==> i < |values| && wrap(values[i]).Some? && after[n].fut == Result(wrap(values[i]).value))
            && (ok && i < |values| ==> !after[n].fut.Waiting?)
            && (i >= |values| ==> after[n] == calls[n])
    decreases |entries|
  {
    if values != [] {
      DistinctTail(entries);
      var m := entries[0].1;
      var next := if calls[m].fut.Waiting? && wrap(values[0]).Some?
                  then WithFuture(calls, m, Result(wrap(values[0]).value)) else calls;
      if !(calls[m].fut.Waiting? && wrap(values[0]).None?) {
        if i == 0 {
          OthersKeep(next, entries[1..], values[1..], wrap, m);
        } else {
          assert entries[1..][i - 1] == entries[i];
          HandOutAt(next, entries[1..], values[1..], wrap, i - 1);
        }
      }
    }
  }

  /** The fate of the i-th future of a batch, whatever the reply: it is touched only if it was waiting, a
      result is that of its own position, and it is done unless the reply had nothing for it. */
  lemma CompleteAt(calls: seq<Call>, entries: seq<Entry>, reply: Reply, wrap: Wrap, i: nat)
    requires InRange(entries, calls) && DistinctCalls(entries) && i < |entries|
    ensures var after := Complete(calls, entries, reply, wrap);
            var n := entries[i].1;
            && |after| == |calls|
            && Settles(calls[n], after[n])
            && (after[n] != calls[n] && after[n].fut.Result? ==>
                  && reply.Returned? && (reply.values == [] || i < |reply.values|)
                  && wrap(if reply.values == [] then None else reply.values[i]) == Some(after[n].fut.value))
            && (Completes(reply, |entries|) ==> !after[n].fut.Waiting?)
  {
    var n := entries[i].1;
    assert NamesCall(entries, n);
    if reply.Returned? {
      var values := Values(reply, |entries|);
      HandOutAt(calls, entries, values, wrap, i);
      var (mid, ok) := HandOut(calls, entries, values, wrap);
      hide HandOut, FailAll;
      if !ok {
        FailAllSettles(mid, entries, n);
      }
    } else if reply.Failed? {
      FailAllSettles(calls, entries, n);
    }
  }

  lemma CompleteKeepsOthers(calls: seq<Call>, entries: seq<Entry>, reply: Reply, wrap: Wrap, n: nat)
    requires InRange(entries, calls) && n < |calls| && !NamesCall(entries, n)
    ensures |Complete(calls, entries, reply, wrap)| == |calls| && Complete(calls, entries, reply, wrap)[n] == calls[n]
  {
    if reply.Returned? {
      var values := Values(reply, |entries|);
      OthersKeep(calls, entries, values, wrap, n);
      var (mid, ok) := HandOut(calls, entries, values, wrap);
      hide HandOut, FailAll;
      if !ok {
        FailAllSettles(mid, entries, n);
      }
    } else if reply.Failed? {
      FailAllSettles(calls, entries, n);
    }
  }

  /** A value that goes to a waiting call cannot be wrapped. */
  ghost predicate Stops(calls: seq<Call>, entries: seq<Entry>, values: seq<Value>, wrap: Wrap)
    requires InRange(entries, calls)
  {
    exists i :: 0 <= i < |entries| && i < |values| && calls[entries[i].1].fut.Waiting? && wrap(values[i]).None?
  }

  lemma StopsLater(calls: seq<Call>, entries: seq<Entry>, values: seq<Value>, wrap: Wrap, next: seq<Call>)
    requires InRange(entries, calls) && DistinctCalls(entries) && entries != [] && values != [] && |next| == |calls|
    requires forall n :: 0 <= n < |calls| && n != entries[0].1 ==> next[n] == calls[n]
    requires !(calls[entries[0].1].fut.Waiting? && wrap(values[0]).None?)
    ensures Stops(calls, entries, values, wrap) <==> Stops(next, entries[1..], values[1..], wrap)
  {
    forall i | 0 < i < |entries| && i < |values|
      ensures entries[1..][i - 1] == entries[i] && values[1..][i - 1] == values[i]
              && next[entries[i].1] == calls[entries[i].1]
    {
    }
  }

  lemma {:induction false} StopsExactly(calls: seq<Call>, entries: seq<Entry>, values: seq<Value>, wrap: Wrap)
    requires InRange(entries, calls) && DistinctCalls(entries)
    ensures HandOut(calls, entries, values, wrap).1 <==> !Stops(calls, entries, values, wrap)
    decreases |entries|
  {
    if entries != [] && values != [] {
      var n := entries[0].1;
      if calls[n].fut.Waiting? && wrap(values[0]).None? {
        assert Stops(calls, entries, values, wrap);
      } else {
        var next := if calls[n].fut.Waiting? then WithFuture(calls, n, Result(wrap(values[0]).value)) else calls;
        DistinctTail(entries);
        StopsLater(calls, entries, values, wrap, next);
        hide Stops;
        StopsExactly(next, entries[1..], values[1..], wrap);
      }
    }
  }

  /** The reply has nothing for position `i`: it is a list that is not empty but too short, or none at all. */
  predicate Unanswered(reply: Reply, i: nat) {
    reply.Interrupted? || (reply.Returned? && reply.values != [] && i >= |reply.values|)
  }

  /** Whatever the reply and whatever cannot be wrapped: after a batch the i-th call waits, for ever, exactly if
      it waited before, the reply has nothing for it, and no value stopped the handing out. */
  lemma WaitsExactly(calls: seq<Call>, entries: seq<Entry>, reply: Reply, wrap: Wrap, i: nat)
    requires InRange(entries, calls) && DistinctCalls(entries) && i < |entries|
    ensures |Complete(calls, entries, reply, wrap)| == |calls|
    ensures Complete(calls, entries, reply, wrap)[entries[i].1].fut.Waiting? <==>
              && calls[entries[i].1].fut.Waiting? && Unanswered(reply, i)
              && !(reply.Returned? && Stops(calls, entries, reply.values, wrap))
  {
    var n := entries[i].1;
    assert NamesCall(entries, n);
    CompleteAt(calls, entries, reply, wrap, i);
    if reply.Returned? {
      var values := Values(reply, |entries|);
      HandOutAt(calls, entries, values, wrap, i);
      StopsExactly(calls, entries, values, wrap);
      var (mid, ok) := HandOut(calls, entries, values, wrap);
      hide HandOut, FailAll, Stops;
      if !ok {
        FailAllSettles(mid, entries, n);
      }
    }
  }

  /** Some value up to position `i`, that goes to a waiting call, cannot be wrapped. */
  ghost predicate StopsBy(calls: seq<Call>, entries: seq<Entry>, values: seq<Value>, wrap: Wrap, i: nat)
    requires InRange(entries, calls) && i < |entries|
  {
    exists j :: 0 <= j <= i && j < |values| && calls[entries[j].1].fut.Waiting? && wrap(values[j]).None?
  }

  lemma StopsByLater(calls: seq<Call>, entries: seq<Entry>, values: seq<Value>, wrap: Wrap, next: seq<Call>, i: nat)
    requires InRange(entries, calls) && DistinctCalls(entries) && values != [] && 0 < i < |entries| && |next| == |calls|
    requires forall n :: 0 <= n < |calls| && n != entries[0].1 ==> next[n] == calls[n]
    requires !(calls[entries[0].1].fut.Waiting? && wrap(values[0]).None?)
    ensures StopsBy(calls, entries, values, wrap, i) <==> StopsBy(next, entries[1..], values[1..], wrap, i - 1)
  {
    forall j | 0 < j <= i && j < |values|
      ensures entries[1..][j - 1] == entries[j] && values[1..][j - 1] == values[j]
              && next[entries[j].1] == calls[entries[j].1]
    {
    }
  }

  /** Up to the first value that cannot be wrapped every waiting call gets the value of its own position. */
  lemma {:induction false} HandsOutExactly(calls: seq<Call>, entries: seq<Entry>, values: seq<Value>, wrap: Wrap, i: nat)
    requires InRange(entries, calls) && DistinctCalls(entries) && i < |entries| && calls[entries[i].1].fut.Waiting?
    ensures var after, n := HandOut(calls, entries, values, wrap).0, entries[i].1;
            && |after| == |calls|
            && after[n].fut == if i < |values| && !StopsBy(calls, entries, values, wrap, i)
                               then Result(wrap(values[i]).value) else Waiting
    decreases |entries|
  {
    if values != [] {
      DistinctTail(entries);
      var m := entries[0].1;
      var stops := calls[m].fut.Waiting? && wrap(values[0]).None?;
      if stops {
        assert StopsBy(calls, entries, values, wrap, i);
      } else {
        var next := if calls[m].fut.Waiting? then WithFuture(calls, m, Result(wrap(values[0]).value)) else calls;
        if i == 0 {
          OthersKeep(next, entries[1..], values[1..], wrap, m);
          assert !StopsBy(calls, entries, values, wrap, 0);
        } else {
          StopsByLater(calls, entries, values, wrap, next, i);
          hide StopsBy;
          HandsOutExactly(next, entries[1..], values[1..], wrap, i - 1);
        }
      }
    } else {
      HandOutShape(calls, entries, values, wrap);
    }
  }

  /** What becomes of the i-th call of a batch, for every reply: untouched if it was done; otherwise the value of
      its own position (None for all if there is no list), if it is there and no value up to it fails to be wrapped;
      an exception if the batch raised or some value fails to be wrapped; and else it waits for ever. */
  lemma OutcomeExactly(calls: seq<Call>, entries: seq<Entry>, reply: Reply, wrap: Wrap, i: nat)
    requires InRange(entries, calls) && DistinctCalls(entries) && i < |entries|
    ensures var before := calls[entries[i].1];
            var values := if reply.Returned? && reply.values != [] then reply.values else seq(|entries|, _ => None);
            && |Complete(calls, entries, reply, wrap)| == |calls|
            && Complete(calls, entries, reply, wrap)[entries[i].1] ==
                 if !before.fut.Waiting? || reply.Interrupted? then before
                 else if reply.Failed? then before.(fut := Raised)
                 else if i < |values| && !StopsBy(calls, entries, values, wrap, i)
                 then before.(fut := Result(wrap(values[i]).value))
                 else if Stops(calls, entries, values, wrap) then before.(fut := Raised)
                 else before
  {
    var n := entries[i].1;
    assert NamesCall(entries, n);
    CompleteAt(calls, entries, reply, wrap, i);
    if reply.Failed? {
      FailAllSettles(calls, entries, n);
    } else if reply.Returned? && calls[n].fut.Waiting? {
      var values := Values(reply, |entries|);
      HandsOutExactly(calls, entries, values, wrap, i);
      StopsExactly(calls, entries, values, wrap);
      var (mid, ok) := HandOut(calls, entries, values, wrap);
      HandOutAt(calls, entries, values, wrap, i);
      hide HandOut, FailAll, Stops, StopsBy;
      if !ok {
        FailAllSettles(mid, entries, n);
      }
    }
  }

  /** A batch of waiting calls is completed exactly if the reply has something for every one, or a value cannot
      be wrapped, which fails the rest: a list that is not empty but too short leaves calls waiting for ever. */
  lemma AllCompleteExactly(calls: seq<Call>, entries: seq<Entry>, reply: Reply, wrap: Wrap)
    requires InRange(entries, calls) && DistinctCalls(entries) && entries != []
    requires forall i :: 0 <= i < |entries| ==> calls[entries[i].1].fut.Waiting?
    ensures |Complete(calls, entries, reply, wrap)| == |calls|
    ensures Completes(reply, |entries|) || (reply.Returned? && Stops(calls, entries, reply.values, wrap)) <==>
            forall i :: 0 <= i < |entries| ==> !Complete(calls, entries, reply, wrap)[entries[i].1].fut.Waiting?
  {
    hide HandOut, FailAll, Stops, Complete;
    WaitsExactly(calls, entries, reply, wrap, |entries| - 1);
    forall i | 0 <= i < |entries|
      ensures Complete(calls, entries, reply, wrap)[entries[i].1].fut.Waiting? <==>
                Unanswered(reply, i) && !(reply.Returned? && Stops(calls, entries, reply.values, wrap))
    {
      WaitsExactly(calls, entries, reply, wrap, i);
    }
  }

  // ----- the machine -----

  ghost predicate CanAct(s: State, a: Action) {
    match a
    case Submit(_, _) => true
    case GiveUp(n) => n < |s.calls| && s.calls[n].fut.Waiting?
    case Flush => s.scheduled != []
    case Finish(b, _) => b < |s.batches| && !s.batches[b].over && InRange(s.batches[b].entries, s.calls)
  }

  /** The queued calls of `key` leave with batch `b`. */
  function Depart(calls: seq<Call>, key: Key, b: nat): seq<Call> {
    seq(|calls|, n requires 0 <= n < |calls| =>
      if calls[n].place.Queued? && calls[n].key == key then calls[n].(place := Flying(b)) else calls[n])
  }

  ghost function Apply(s: State, a: Action, wrap: Wrap): State
    requires CanAct(s, a)
  {
    match a
    case Submit(key, item) =>
      var entry := (item, |s.calls|);
      s.(calls := s.calls + [Call(key, item, Waiting, Queued)],
         pending := s.pending[key := if key in s.pending then s.pending[key] + [entry] else [entry]],
         scheduled := if key in s.pending then s.scheduled else s.scheduled + [key])
    case GiveUp(n) => s.(calls := WithFuture(s.calls, n, Cancelled))
    case Flush =>
      var key := s.scheduled[0];
      var rest := s.(scheduled := s.scheduled[1..], pending := s.pending - {key});
      if key !in s.pending || s.pending[key] == [] then rest
      else rest.(batches := s.batches + [Batch(key, s.pending[key], false)], calls := Depart(s.calls, key, |s.batches|))
    case Finish(b, reply) =>
      var entries := s.batches[b].entries;
      s.(calls := Complete(s.calls, entries, reply, wrap), batches := s.batches[b := s.batches[b].(over := true)],
         lost := s.lost || !Completes(reply, |entries|))
  }

  // ----- what every step keeps -----

  /** A key is pending exactly while one flush is scheduled for it. */
  ghost predicate ScheduleInv(s: State) {
    && (forall i, j :: 0 <= i < j < |s.scheduled| ==> s.scheduled[i] != s.scheduled[j])
    && (forall k :: k in s.pending <==> k in s.scheduled)
    && (forall k :: k in s.pending ==> s.pending[k] != [])
  }

  /** The entries are calls of that key, at that place, in the order they came. */
  ghost predicate EntriesOf(entries: seq<Entry>, calls: seq<Call>, key: Key, place: Place) {
    && (forall i :: 0 <= i < |entries| ==>
          entries[i].1 < |calls| && calls[entries[i].1].key == key && calls[entries[i].1].item == entries[i].0
          && calls[entries[i].1].place == place)
    && (forall i, j :: 0 <= i < j < |entries| ==> entries[i].1 < entries[j].1)
  }

  ghost predicate EntryInv(s: State) {
    && (forall k :: k in s.pending ==> EntriesOf(s.pending[k], s.calls, k, Queued))
    && (forall b :: 0 <= b < |s.batches| ==> EntriesOf(s.batches[b].entries, s.calls, s.batches[b].key, Flying(b)))
  }

  ghost predicate IsPlaced(s: State, n: nat) {
    n < |s.calls| &&
    match s.calls[n].place
    case Queued => s.calls[n].key in s.pending && NamesCall(s.pending[s.calls[n].key], n)
    case Flying(b) => b < |s.batches| && NamesCall(s.batches[b].entries, n)
  }

  /** No call is forgotten. */
  ghost predicate PlaceInv(s: State) {
    forall n :: 0 <= n < |s.calls| ==> IsPlaced(s, n)
  }

  ghost predicate Expected(s: State, n: nat) {
    n < |s.calls| &&
    match s.calls[n].place
    case Queued => true
    case Flying(b) => b < |s.batches| && !s.batches[b].over
  }

  /** Unless a native call left futures behind, whoever waits has something to wait for. */
  ghost predicate FutureInv(s: State) {
    !s.lost ==> forall n :: 0 <= n < |s.calls| && s.calls[n].fut.Waiting? ==> Expected(s, n)
  }

  ghost predicate Inv(s: State) {
    ScheduleInv(s) && EntryInv(s) && PlaceInv(s) && FutureInv(s)
  }

  lemma FlushKeepsSchedule(s: State, wrap: Wrap)
    requires ScheduleInv(s) && CanAct(s, Flush)
    ensures ScheduleInv(Apply(s, Flush, wrap))
  {
    var t := Apply(s, Flush, wrap);
    var key, rest := s.scheduled[0], s.scheduled[1..];
    assert t.scheduled == rest && t.pending == s.pending - {key};
    hide Apply, CanAct;
    forall k ensures k in rest <==> k in s.scheduled && k != key {
      if k in s.scheduled && k != key {
        var i :| 0 <= i < |s.scheduled| && s.scheduled[i] == k;
        assert rest[i - 1] == k;
      }
    }
  }

  lemma ActKeepsSchedule(s: State, a: Action, wrap: Wrap)
    requires ScheduleInv(s) && CanAct(s, a)
    ensures ScheduleInv(Apply(s, a, wrap))
  {
    hide Complete, InRange, Completes;
    match a
    case Flush => FlushKeepsSchedule(s, wrap);
    case GiveUp(_) =>
    case Submit(_, _) =>
    case Finish(_, _) =>
  }

  lemma EntriesStay(entries: seq<Entry>, before: seq<Call>, after: seq<Call>, key: Key, place: Place)
    requires EntriesOf(entries, before, key, place) && |after| >= |before|
    requires forall n :: 0 <= n < |before| && before[n].place == place && before[n].key == key ==>
               after[n].key == before[n].key && after[n].item == before[n].item && after[n].place == before[n].place
    ensures EntriesOf(entries, after, key, place)
  {
  }

  lemma SubmitKeepsEntries(s: State, key: Key, item: Item, wrap: Wrap)
    requires EntryInv(s)
    ensures EntryInv(Apply(s, Submit(key, item), wrap))
  {
    var t := Apply(s, Submit(key, item), wrap);
    forall k | k in s.pending ensures EntriesOf(s.pending[k], t.calls, k, Queued) {
      EntriesStay(s.pending[k], s.calls, t.calls, k, Queued);
    }
    forall b | 0 <= b < |s.batches| ensures EntriesOf(s.batches[b].entries, t.calls, s.batches[b].key, Flying(b)) {
      EntriesStay(s.batches[b].entries, s.calls, t.calls, s.batches[b].key, Flying(b));
    }
    var before := if key in s.pending then s.pending[key] else [];
    assert EntriesOf(before, s.calls, key, Queued);
    assert EntriesOf(before, t.calls, key, Queued);
    AppendEntry(before, s.calls, key, item);
    assert [] + [(item, |s.calls|)] == [(item, |s.calls|)];
    hide EntriesOf;
  }

  lemma AppendEntry(entries: seq<Entry>, calls: seq<Call>, key: Key, item: Item)
    requires EntriesOf(entries, calls, key, Queued)
    ensures EntriesOf(entries + [(item, |calls|)], calls + [Call(key, item, Waiting, Queued)], key, Queued)
  {
  }

  lemma FlushKeepsEntries(s: State, wrap: Wrap)
    requires Inv(s) && CanAct(s, Flush)
    ensures EntryInv(Apply(s, Flush, wrap))
  {
    var t := Apply(s, Flush, wrap);
    var key, b := s.scheduled[0], |s.batches|;
    assert key in s.pending && s.pending[key] != [];
    hide ScheduleInv, PlaceInv, FutureInv;
    assert forall n :: 0 <= n < |s.calls| && s.calls[n].key != key ==> t.calls[n] == s.calls[n];
    forall k | k in t.pending ensures EntriesOf(t.pending[k], t.calls, k, Queued) {
      EntriesStay(s.pending[k], s.calls, t.calls, k, Queued);
    }
    forall c | 0 <= c < |s.batches| ensures EntriesOf(s.batches[c].entries, t.calls, s.batches[c].key, Flying(c)) {
      EntriesStay(s.batches[c].entries, s.calls, t.calls, s.batches[c].key, Flying(c));
    }
    assert EntriesOf(s.pending[key], s.calls, key, Queued);
    assert EntriesOf(s.pending[key], t.calls, key, Flying(b));
  }

  /** Completing futures moves no call. */
  lemma SettledEntriesStay(s: State, calls: seq<Call>)
    requires EntryInv(s) && SettlesAll(s.calls, calls)
    ensures EntryInv(s.(calls := calls))
  {
    forall k | k in s.pending ensures EntriesOf(s.pending[k], calls, k, Queued) {
      EntriesStay(s.pending[k], s.calls, calls, k, Queued);
    }
    forall b | 0 <= b < |s.batches| ensures EntriesOf(s.batches[b].entries, calls, s.batches[b].key, Flying(b)) {
      EntriesStay(s.batches[b].entries, s.calls, calls, s.batches[b].key, Flying(b));
    }
  }

  lemma FinishSettles(s: State, b: nat, reply: Reply, wrap: Wrap)
    requires EntryInv(s) && CanAct(s, Finish(b, reply))
    ensures SettlesAll(s.calls, Complete(s.calls, s.batches[b].entries, reply, wrap))
  {
    var entries := s.batches[b].entries;
    var after := Complete(s.calls, entries, reply, wrap);
    assert EntriesOf(entries, s.calls, s.batches[b].key, Flying(b));
    assert DistinctCalls(entries);
    hide Complete, InRange, EntriesOf, EntryInv;
    CompleteLength(s.calls, entries, reply, wrap);
    forall n | 0 <= n < |s.calls| ensures |after| == |s.calls| && Settles(s.calls[n], after[n]) {
      if i: nat :| i < |entries| && entries[i].1 == n {
        CompleteAt(s.calls, entries, reply, wrap, i);
      } else {
        CompleteKeepsOthers(s.calls, entries, reply, wrap, n);
      }
    }
  }

  lemma {:induction false} FailAllLength(calls: seq<Call>, entries: seq<Entry>)
    requires InRange(entries, calls)
    ensures |FailAll(calls, entries)| == |calls|
    decreases |entries|
  {
    if entries != [] {
      var n := entries[0].1;
      FailAllLength(if calls[n].fut.Waiting? then WithFuture(calls, n, Raised) else calls, entries[1..]);
    }
  }

  lemma CompleteLength(calls: seq<Call>, entries: seq<Entry>, reply: Reply, wrap: Wrap)
    requires InRange(entries, calls)
    ensures |Complete(calls, entries, reply, wrap)| == |calls|
  {
    hide HandOut, FailAll;
    FailAllLength(calls, entries);
    if reply.Returned? {
      var values := Values(reply, |entries|);
      HandOutShape(calls, entries, values, wrap);
      FailAllLength(HandOut(calls, entries, values, wrap).0, entries);
    }
  }

  lemma ActKeepsEntries(s: State, a: Action, wrap: Wrap)
    requires Inv(s) && CanAct(s, a)
    ensures EntryInv(Apply(s, a, wrap))
  {
    hide Complete, EntriesOf, ScheduleInv, PlaceInv, FutureInv;
    match a
    case Submit(key, item) => SubmitKeepsEntries(s, key, item, wrap);
    case GiveUp(n) => SettledEntriesStay(s, WithFuture(s.calls, n, Cancelled));
    case Flush => FlushKeepsEntries(s, wrap);
    case Finish(b, reply) =>
      FinishSettles(s, b, reply, wrap);
      SettledEntriesStay(s, Complete(s.calls, s.batches[b].entries, reply, wrap));
  }

  lemma AppendNames(entries: seq<Entry>, e: Entry, n: nat)
    ensures NamesCall(entries + [e], n) <==> NamesCall(entries, n) || e.1 == n
  {
    var all := entries + [e];
    if i :| 0 <= i < |entries| && entries[i].1 == n {
      assert all[i].1 == n;
    }
    assert all[|entries|] == e;
  }

  lemma SubmitKeepsPlaces(s: State, key: Key, item: Item, wrap: Wrap)
    requires PlaceInv(s)
    ensures PlaceInv(Apply(s, Submit(key, item), wrap))
  {
    var t := Apply(s, Submit(key, item), wrap);
    var entry: Entry := (item, |s.calls|);
    var before := if key in s.pending then s.pending[key] else [];
    assert [] + [entry] == [entry];
    assert t.pending == s.pending[key := before + [entry]];
    assert t.calls == s.calls + [Call(key, item, Waiting, Queued)] && t.batches == s.batches;
    hide Apply, NamesCall;
    forall n | 0 <= n < |t.calls| ensures IsPlaced(t, n) {
      AppendNames(before, entry, n);
      if n < |s.calls| {
        assert IsPlaced(s, n) && t.calls[n] == s.calls[n];
      }
    }
  }

  lemma FlushKeepsPlaces(s: State, wrap: Wrap)
    requires PlaceInv(s) && ScheduleInv(s) && CanAct(s, Flush)
    ensures PlaceInv(Apply(s, Flush, wrap))
  {
    var t := Apply(s, Flush, wrap);
    var key := s.scheduled[0];
    assert key in s.pending && s.pending[key] != [];
    hide ScheduleInv, NamesCall;
    forall n | 0 <= n < |t.calls| ensures IsPlaced(t, n) {
      assert IsPlaced(s, n);
    }
  }

  /** Completing futures moves no call, and no batch loses its entries. */
  lemma SettledPlacesStay(s: State, t: State)
    requires PlaceInv(s) && SettlesAll(s.calls, t.calls) && t.pending == s.pending && |t.batches| == |s.batches|
    requires forall b :: 0 <= b < |s.batches| ==> t.batches[b].entries == s.batches[b].entries
    ensures PlaceInv(t)
  {
    hide NamesCall;
    forall n | 0 <= n < |t.calls| ensures IsPlaced(t, n) {
      assert IsPlaced(s, n) && Settles(s.calls[n], t.calls[n]);
    }
  }

  lemma ActKeepsPlaces(s: State, a: Action, wrap: Wrap)
    requires Inv(s) && CanAct(s, a)
    ensures PlaceInv(Apply(s, a, wrap))
  {
    hide Complete, EntryInv, FutureInv, InRange, PlaceInv, ScheduleInv;
    match a
    case Submit(key, item) => SubmitKeepsPlaces(s, key, item, wrap);
    case GiveUp(_) => SettledPlacesStay(s, Apply(s, a, wrap));
    case Flush => FlushKeepsPlaces(s, wrap);
    case Finish(b, reply) =>
      FinishSettles(s, b, reply, wrap);
      SettledPlacesStay(s, Apply(s, a, wrap));
  }

  lemma ActKeepsFutures(s: State, a: Action, wrap: Wrap)
    requires Inv(s) && CanAct(s, a)
    ensures FutureInv(Apply(s, a, wrap))
  {
    var t := Apply(s, a, wrap);
    if a.Finish? {
      FinishSettles(s, a.batch, a.reply, wrap);
      FinishKeepsFutures(s, a.batch, a.reply, wrap);
    }
    hide Complete, EntryInv, NamesCall, InRange;
    if !t.lost && !a.Finish? {
      forall n | 0 <= n < |t.calls| && t.calls[n].fut.Waiting? ensures Expected(t, n) {
        if n < |s.calls| {
          assert Expected(s, n);
        }
      }
    }
  }

  lemma FinishKeepsFutures(s: State, b: nat, reply: Reply, wrap: Wrap)
    requires Inv(s) && CanAct(s, Finish(b, reply))
    ensures FutureInv(Apply(s, Finish(b, reply), wrap))
  {
    var t := Apply(s, Finish(b, reply), wrap);
    var entries := s.batches[b].entries;
    FinishSettles(s, b, reply, wrap);
    assert EntriesOf(entries, s.calls, s.batches[b].key, Flying(b));
    hide Complete, EntryInv, ScheduleInv, InRange;
    if !t.lost {
      forall n | 0 <= n < |t.calls| && t.calls[n].fut.Waiting? ensures Expected(t, n) {
        assert Settles(s.calls[n], t.calls[n]) && Expected(s, n);
        if s.calls[n].place == Flying(b) {
          assert IsPlaced(s, n);
          var i :| 0 <= i < |entries| && entries[i].1 == n;
          CompleteAt(s.calls, entries, reply, wrap, i);
        }
      }
    }
  }

  lemma ActKeepsInv(s: State, a: Action, wrap: Wrap)
    requires Inv(s) && CanAct(s, a)
    ensures Inv(Apply(s, a, wrap))
  {
    ActKeepsSchedule(s, a, wrap);
    ActKeepsEntries(s, a, wrap);
    ActKeepsPlaces(s, a, wrap);
    ActKeepsFutures(s, a, wrap);
    hide ScheduleInv, EntryInv, PlaceInv, FutureInv;
  }

  /** Nothing that was submitted goes away, and what is done stays as it is: a future completes once. */
  lemma ActSettles(s: State, a: Action, wrap: Wrap, n: nat)
    requires Inv(s) && CanAct(s, a) && n < |s.calls|
    ensures var t := Apply(s, a, wrap);
            && |t.calls| >= |s.calls| && t.calls[n].key == s.calls[n].key && t.calls[n].item == s.calls[n].item
            && (!s.calls[n].fut.Waiting? ==> t.calls[n].fut == s.calls[n].fut)
  {
    if a.Finish? {
      FinishSettles(s, a.batch, a.reply, wrap);
    }
    hide Complete, Inv;
  }

  // ----- batching is transparent -----

  /** The value that the native layer has for one call. */
  type Service = (Key, Item) -> Value

  /** A batch is answered as its calls would be, one by one. */
  ghost predicate Honest(s: State, a: Action, service: Service)
    requires CanAct(s, a)
  {
    a.Finish? && a.reply.Returned? ==>
      var entries := s.batches[a.batch].entries;
      var values := Values(a.reply, |entries|);
      forall i :: 0 <= i < |entries| && i < |values| ==> values[i] == service(s.batches[a.batch].key, entries[i].0)
  }

  ghost predicate Transparent(s: State, service: Service, wrap: Wrap) {
    forall n :: 0 <= n < |s.calls| && s.calls[n].fut.Result? ==>
      wrap(service(s.calls[n].key, s.calls[n].item)) == Some(s.calls[n].fut.value)
  }

  lemma ActKeepsTransparent(s: State, a: Action, service: Service, wrap: Wrap)
    requires Inv(s) && CanAct(s, a) && Honest(s, a, service) && Transparent(s, service, wrap)
    ensures Transparent(Apply(s, a, wrap), service, wrap)
  {
    if a.Finish? {
      FinishIsTransparent(s, a.batch, a.reply, service, wrap);
    }
    hide Complete, Inv, Values;
  }

  lemma FinishIsTransparent(s: State, b: nat, reply: Reply, service: Service, wrap: Wrap)
    requires Inv(s) && CanAct(s, Finish(b, reply)) && Honest(s, Finish(b, reply), service)
    requires Transparent(s, service, wrap)
    ensures Transparent(Apply(s, Finish(b, reply), wrap), service, wrap)
  {
    var t := Apply(s, Finish(b, reply), wrap);
    var entries := s.batches[b].entries;
    FinishSettles(s, b, reply, wrap);
    assert EntriesOf(entries, s.calls, s.batches[b].key, Flying(b));
    hide Complete, Inv, Values, InRange;
    forall n | 0 <= n < |t.calls| && t.calls[n].fut.Result?
      ensures wrap(service(t.calls[n].key, t.calls[n].item)) == Some(t.calls[n].fut.value)
    {
      assert Settles(s.calls[n], t.calls[n]);
      if t.calls[n] != s.calls[n] {
        if i: nat :| i < |entries| && entries[i].1 == n {
          CompleteAt(s.calls, entries, reply, wrap, i);
        } else {
          CompleteKeepsOthers(s.calls, entries, reply, wrap, n);
        }
      }
    }
  }

  // ----- whole runs -----

  const START := State(map[], [], [], [], false)

  ghost predicate Valid(s: State, run: seq<Action>, service: Service, wrap: Wrap)
    decreases |run|
  {
    run == [] ||
    (CanAct(s, run[0]) && Honest(s, run[0], service) && Valid(Apply(s, run[0], wrap), run[1..], service, wrap))
  }

  ghost function Exec(s: State, run: seq<Action>, service: Service, wrap: Wrap): State
    requires Valid(s, run, service, wrap)
    decreases |run|
  {
    if run == [] then s else Exec(Apply(s, run[0], wrap), run[1..], service, wrap)
  }

  lemma {:induction false} RunKeeps(s: State, run: seq<Action>, service: Service, wrap: Wrap)
    requires Inv(s) && Transparent(s, service, wrap) && Valid(s, run, service, wrap)
    ensures Inv(Exec(s, run, service, wrap)) && Transparent(Exec(s, run, service, wrap), service, wrap)
    decreases |run|
  {
    hide Inv, Apply, CanAct, Transparent, Honest;
    if run != [] {
      ActKeepsInv(s, run[0], wrap);
      ActKeepsTransparent(s, run[0], service, wrap);
      RunKeeps(Apply(s, run[0], wrap), run[1..], service, wrap);
    }
  }

  lemma {:induction false} RunSettles(s: State, run: seq<Action>, service: Service, wrap: Wrap, n: nat)
    requires Inv(s) && Valid(s, run, service, wrap) && n < |s.calls|
    ensures var t := Exec(s, run, service, wrap);
            && n < |t.calls| && t.calls[n].key == s.calls[n].key && t.calls[n].item == s.calls[n].item
            && (!s.calls[n].fut.Waiting? ==> t.calls[n].fut == s.calls[n].fut)
    decreases |run|
  {
    hide Inv, Apply, CanAct, Honest;
    if run != [] {
      ActKeepsInv(s, run[0], wrap);
      ActSettles(s, run[0], wrap, n);
      RunSettles(Apply(s, run[0], wrap), run[1..], service, wrap, n);
    }
  }

  ghost predicate Quiet(s: State) {
    s.scheduled == [] && forall b :: 0 <= b < |s.batches| ==> s.batches[b].over
  }

  /** Any run of calls, cancellations, flushes and batch ends: a key is pending exactly while one flush is
      scheduled for it; calls share a batch only if their keys are identical; a call that got a value got the
      one it would have got alone; and once nothing is scheduled or under way no call waits, unless a native
      call ended without enough results or was interrupted. */
  lemma EveryRun(run: seq<Action>, service: Service, wrap: Wrap)
    requires Valid(START, run, service, wrap)
    ensures var s := Exec(START, run, service, wrap);
            && (forall i, j :: 0 <= i < j < |s.scheduled| ==> s.scheduled[i] != s.scheduled[j])
            && (forall k :: k in s.pending <==> k in s.scheduled)
            && (forall b, i :: 0 <= b < |s.batches| && 0 <= i < |s.batches[b].entries| ==>
                  s.batches[b].entries[i].1 < |s.calls| && s.calls[s.batches[b].entries[i].1].key == s.batches[b].key)
            && Transparent(s, service, wrap)
            && (Quiet(s) && !LosesSome(START, run, service, wrap) ==>
                  forall n :: 0 <= n < |s.calls| ==> !s.calls[n].fut.Waiting?)
  {
    RunKeeps(START, run, service, wrap);
    LostExactly(START, run, service, wrap);
    var s := Exec(START, run, service, wrap);
    hide LosesSome, Exec, Valid, Transparent;
    forall b, i | 0 <= b < |s.batches| && 0 <= i < |s.batches[b].entries|
      ensures s.batches[b].entries[i].1 < |s.calls| && s.calls[s.batches[b].entries[i].1].key == s.batches[b].key
    {
      assert EntriesOf(s.batches[b].entries, s.calls, s.batches[b].key, Flying(b));
    }
    if Quiet(s) && !s.lost {
      forall n | 0 <= n < |s.calls| ensures !s.calls[n].fut.Waiting? {
        assert IsPlaced(s, n);
        assert s.calls[n].fut.Waiting? ==> Expected(s, n);
      }
    }
  }

  // ----- what is under way comes to an end -----

  function Open(b: Batch): nat {
    if b.over then 0 else 1
  }

  /** What the loop still has to do by itself: flushes and the ends of batches. */
  function ToDo(s: State): nat {
    2 * |s.scheduled| + Total(s.batches, Open)
  }

  /** What a new call can add to that. */
  function AddsToDo(a: Action): nat {
    if a.Submit? then 2 else 0
  }

  function Works(a: Action): nat {
    if a.Flush? || a.Finish? then 1 else 0
  }

  lemma ActWorks(s: State, a: Action, wrap: Wrap)
    requires CanAct(s, a)
    ensures ToDo(Apply(s, a, wrap)) + Works(a) <= ToDo(s) + AddsToDo(a)
  {
    match a
    case Flush =>
      var key := s.scheduled[0];
      if key in s.pending {
        TotalAppend(s.batches, Batch(key, s.pending[key], false), Open);
      }
    case Finish(b, reply) => TotalUpdate(s.batches, b, s.batches[b].(over := true), Open);
    case _ =>
  }

  /** Flushes and batches are no more than two for each call, and when no call comes any more they run out. */
  lemma {:induction false} WorkRunsOut(s: State, run: seq<Action>, service: Service, wrap: Wrap)
    requires Valid(s, run, service, wrap)
    ensures ToDo(Exec(s, run, service, wrap)) + Total(run, Works) <= ToDo(s) + Total(run, AddsToDo)
    decreases |run|
  {
    if run != [] {
      ActWorks(s, run[0], wrap);
      WorkRunsOut(Apply(s, run[0], wrap), run[1..], service, wrap);
      hide Apply, CanAct, ToDo, Works, AddsToDo;
    }
  }

  lemma {:induction false} NothingToDo(s: State)
    ensures Quiet(s) <==> ToDo(s) == 0
  {
    AllOver(s.batches);
  }

  lemma {:induction false} AllOver(batches: seq<Batch>)
    ensures Total(batches, Open) == 0 <==> forall b :: 0 <= b < |batches| ==> batches[b].over
  {
    if batches != [] {
      AllOver(batches[1..]);
      assert forall b :: 0 < b < |batches| ==> batches[b] == batches[1..][b - 1];
    }
  }

  /** As long as something is under way it can go on. */
  lemma KeepsGoing(s: State) returns (a: Action)
    requires Inv(s) && !Quiet(s)
    ensures CanAct(s, a) && Works(a) == 1
  {
    if s.scheduled != [] {
      a := Flush;
    } else {
      var b: nat :| b < |s.batches| && !s.batches[b].over;
      assert EntriesOf(s.batches[b].entries, s.calls, s.batches[b].key, Flying(b));
      a := Finish(b, Failed);
    }
  }

  /** A native call ends without enough results, or is interrupted. */
  ghost predicate LosesSome(s: State, run: seq<Action>, service: Service, wrap: Wrap)
    requires Valid(s, run, service, wrap)
    decreases |run|
  {
    run != [] && (
      || (run[0].Finish? && !Completes(run[0].reply, |s.batches[run[0].batch].entries|))
      || LosesSome(Apply(s, run[0], wrap), run[1..], service, wrap))
  }

  lemma {:induction false} LostExactly(s: State, run: seq<Action>, service: Service, wrap: Wrap)
    requires Valid(s, run, service, wrap)
    ensures Exec(s, run, service, wrap).lost <==> s.lost || LosesSome(s, run, service, wrap)
    decreases |run|
  {
    if run != [] {
      LostExactly(Apply(s, run[0], wrap), run[1..], service, wrap);
    }
  }

  /** A caller that gives up is cancelled, and no other call notices. */
  lemma GivesUpAlone(s: State, n: nat, wrap: Wrap)
    requires CanAct(s, GiveUp(n))
    ensures var t := Apply(s, GiveUp(n), wrap);
            && |t.calls| == |s.calls| && t.calls[n] == s.calls[n].(fut := Cancelled)
            && (forall m :: 0 <= m < |s.calls| && m != n ==> t.calls[m] == s.calls[m])
            && t.pending == s.pending && t.scheduled == s.scheduled && t.batches == s.batches
  {
  }

  // ----- the batcher as an object -----

  class Batcher {
    const wrap: Wrap
    var pending: map<Key, seq<Entry>>
    var scheduled: seq<Key>
    var batches: seq<Batch>
    var calls: seq<Call>
    ghost var lost: bool

    ghost function Abstract(): State
      reads this
    {
      State(pending, scheduled, batches, calls, lost)
    }

    ghost predicate Good()
      reads this
    {
      Inv(Abstract())
    }

    constructor (wrap: Wrap)
      ensures Good() && this.wrap == wrap && Abstract() == START
    {
      this.wrap := wrap;
      pending, scheduled, batches, calls, lost := map[], [], [], [], false;
    }

    /** A call comes in; its future has the number that is returned. */
    method SubmitCall(key: Key, item: Item) returns (number: nat)
      requires Good()
      modifies this
      ensures Good() && number == |old(calls)| && Abstract() == Apply(old(Abstract()), Submit(key, item), wrap)
    {
      hide Inv;
      ActKeepsInv(Abstract(), Submit(key, item), wrap);
      number := |calls|;
      calls := calls + [Call(key, item, Waiting, Queued)];
      if key !in pending {
        pending := pending[key := []];
        scheduled := scheduled + [key];
      }
      var entry: Entry := (item, number);
      assert [] + [entry] == [entry];
      pending := pending[key := pending[key] + [entry]];
      assert pending == old(pending)[key := if key in old(pending) then old(pending)[key] + [entry] else [entry]];
    }

    method CancelCall(n: nat)
      requires Good() && n < |calls| && calls[n].fut.Waiting?
      modifies this
      ensures Good() && Abstract() == Apply(old(Abstract()), GiveUp(n), wrap)
    {
      hide Inv;
      ActKeepsInv(Abstract(), GiveUp(n), wrap);
      calls := WithFuture(calls, n, Cancelled);
    }

    /** The flush scheduled first runs; it always finds calls to send. */
    method RunFlush()
      requires Good() && scheduled != []
      modifies this
      ensures Good() && Abstract() == Apply(old(Abstract()), Flush, wrap)
      ensures |batches| == |old(batches)| + 1
    {
      assert scheduled[0] in pending && pending[scheduled[0]] != [];
      hide Inv;
      ActKeepsInv(Abstract(), Flush, wrap);
      var key := scheduled[0];
      var items := pending[key];
      scheduled := scheduled[1..];
      pending := pending - {key};
      calls := Depart(calls, key, |batches|);
      batches := batches + [Batch(key, items, false)];
    }

    /** The native call of batch `b` ends, and its futures are completed one after the other. */
    method FinishBatch(b: nat, reply: Reply)
      requires Good() && CanAct(Abstract(), Finish(b, reply))
      modifies this
      ensures Good() && Abstract() == Apply(old(Abstract()), Finish(b, reply), wrap)
    {
      hide Inv;
      ActKeepsInv(Abstract(), Finish(b, reply), wrap);
      hide HandOut, FailAll, Values, Completes;
      var entries := batches[b].entries;
      var failed := reply.Failed?;
      if reply.Returned? {
        var values := Values(reply, |entries|);
        failed := HandOutResults(entries, values);
      }
      if failed {
        FailWaiting(entries);
      }
      assert calls == Complete(old(calls), entries, reply, wrap);
      hide Complete;
      batches := batches[b := batches[b].(over := true)];
      lost := lost || !Completes(reply, |entries|);
    }

    method HandOutResults(entries: seq<Entry>, values: seq<Value>) returns (failed: bool)
      requires InRange(entries, calls)
      modifies this`calls
      ensures (calls, !failed) == HandOut(old(calls), entries, values, wrap) && |calls| == |old(calls)|
    {
      var i := 0;
      while i < |entries| && i < |values|
        invariant 0 <= i <= |entries| && i <= |values| && |calls| == |old(calls)|
        invariant HandOut(old(calls), entries, values, wrap) == HandOut(calls, entries[i..], values[i..], wrap)
      {
        var n := entries[i].1;
        assert entries[i..][1..] == entries[i + 1..] && values[i..][1..] == values[i + 1..];
        if calls[n].fut.Waiting? {
          var wrapped := wrap(values[i]);
          if wrapped.None? {
            return true;
          }
          calls := WithFuture(calls, n, Result(wrapped.value));
        }
        i := i + 1;
      }
      failed := false;
    }

    method FailWaiting(entries: seq<Entry>)
      requires InRange(entries, calls)
      modifies this`calls
      ensures calls == FailAll(old(calls), entries)
    {
      for i := 0 to |entries|
        invariant |calls| == |old(calls)|
        invariant FailAll(old(calls), entries) == FailAll(calls, entries[i..])
      {
        var n := entries[i].1;
        assert entries[i..][1..] == entries[i + 1..];
        if calls[n].fut.Waiting? {
          calls := WithFuture(calls, n, Raised);
        }
      }
    }
  }
}
