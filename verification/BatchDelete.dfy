/**
 Deleting many keys with few requests: which key of a batch failed first, how keys are cut into batches,
 and how several requests are kept in flight.
 */
module BatchDelete {
  import opened Basics
  import opened BatchReply

  // ----- the first failed key of a batch -----

  /** A 2xx means deleted, and a key that was already gone (404) counts as deleted. */
  predicate Deleted(status: Option<nat>) {
    status.Some? && (200 <= status.value < 300 || status.value == 404)
  }

  /** The key that the reply part at `position` answers for. */
  function Slot(s: Status, position: nat): nat {
    if s.0.Some? then s.0.value else position
  }

  /** The last answer given for key `k`. */
  function AnswerFor(ss: seq<Status>, k: nat): Option<nat> {
    if ss == [] then None
    else
      var n := |ss| - 1;
      if Slot(ss[n], n) == k then Some(ss[n].1) else AnswerFor(ss[..n], k)
  }

  predicate KeyDeleted(ss: seq<Status>, k: nat) {
    Deleted(AnswerFor(ss, k))
  }

  /** Index and answer of the first key, from `k` on, that was not deleted. */
  function FirstFailing(ss: seq<Status>, k: nat, count: nat): Option<(nat, Option<nat>)>
    requires k <= count
    decreases count - k
  {
    if k == count then None
    else if KeyDeleted(ss, k) then FirstFailing(ss, k + 1, count)
    else Some((k, AnswerFor(ss, k)))
  }

  /** The slots are filled one by one and then searched. */
  method FirstFailed(ss: seq<Status>, count: nat) returns (r: Option<(nat, Option<nat>)>)
    ensures r == FirstFailing(ss, 0, count)
  {
    var byKey := new Option<nat>[count](_ => None);
    for n := 0 to |ss|
      invariant forall k :: 0 <= k < count ==> byKey[k] == AnswerFor(ss[..n], k)
    {
      var slot := Slot(ss[n], n);
      assert ss[..n + 1][..n] == ss[..n];
      if slot < count {
        byKey[slot] := Some(ss[n].1);
      }
    }
    assert ss[..|ss|] == ss;
    var i := 0;
    while i < count
      invariant 0 <= i <= count
      invariant FirstFailing(ss, 0, count) == FirstFailing(ss, i, count)
    {
      if !Deleted(byKey[i]) {
        return Some((i, byKey[i]));
      }
      i := i + 1;
    }
    r := None;
  }

  /** Nothing is reported exactly when every key was deleted; otherwise it is the lowest key that was not. */
  lemma {:induction false} FirstFailingIsLowest(ss: seq<Status>, k: nat, count: nat)
    requires k <= count
    ensures var r := FirstFailing(ss, k, count);
            && (r.None? <==> forall i :: k <= i < count ==> KeyDeleted(ss, i))
            && (r.Some? ==> k <= r.value.0 < count && r.value.1 == AnswerFor(ss, r.value.0)
                            && !Deleted(r.value.1)
                            && forall i :: k <= i < r.value.0 ==> KeyDeleted(ss, i))
    decreases count - k
  {
    if k < count {
      FirstFailingIsLowest(ss, k + 1, count);
    }
  }

  /** The part at `i` is the last one that answers for `k`. */
  predicate LastFor(ss: seq<Status>, k: nat, i: int) {
    0 <= i < |ss| && Slot(ss[i], i) == k && forall j :: i < j < |ss| ==> Slot(ss[j], j) != k
  }

  lemma {:induction false} FindLast(ss: seq<Status>, k: nat) returns (i: int)
    ensures if AnswerFor(ss, k).None? then forall j :: 0 <= j < |ss| ==> Slot(ss[j], j) != k
            else LastFor(ss, k, i) && AnswerFor(ss, k) == Some(ss[i].1)
  {
    i := |ss| - 1;
    if ss != [] && Slot(ss[i], i) != k {
      var n, front := i, ss[..i];
      i := FindLast(front, k);
      hide Slot;
      assert forall j :: 0 <= j < n ==> front[j] == ss[j];
    }
  }

  /** A key has an answer exactly if some part answers for it, and then it is that of the last such part. */
  lemma LastAnswerCounts(ss: seq<Status>, k: nat)
    ensures AnswerFor(ss, k).None? <==> forall i :: 0 <= i < |ss| ==> Slot(ss[i], i) != k
    ensures forall i :: LastFor(ss, k, i) ==> AnswerFor(ss, k) == Some(ss[i].1)
    ensures AnswerFor(ss, k).Some? ==> exists i :: LastFor(ss, k, i)
  {
    var last := FindLast(ss, k);
    hide AnswerFor, Slot;
    forall i | LastFor(ss, k, i) ensures AnswerFor(ss, k).Some? && i == last {
    }
  }

  /** When no two parts answer for the same key, the order of the parts does not matter. */
  lemma TaggedAnswer(ss: seq<Status>, i: nat)
    requires i < |ss| && forall j, l :: 0 <= j < l < |ss| ==> Slot(ss[j], j) != Slot(ss[l], l)
    ensures AnswerFor(ss, Slot(ss[i], i)) == Some(ss[i].1)
  {
    assert LastFor(ss, Slot(ss[i], i), i);
    LastAnswerCounts(ss, Slot(ss[i], i));
  }

  lemma {:induction false} AnswersAt(parts: seq<Part>, i: nat)
    requires i < |parts|
    ensures |Answers(parts)| == |parts| && Answers(parts)[i] == (Id(parts[i]), parts[i].status)
  {
    if i > 0 {
      AnswersAt(parts[1..], i - 1);
    } else if |parts| > 1 {
      AnswersAt(parts[1..], 0);
    }
  }

  /** The key that a part of a reply answers for: the one it names, otherwise the one at its position. */
  function KeyOf(parts: seq<Part>, i: nat): nat
    requires i < |parts|
  {
    if Id(parts[i]).Some? then Id(parts[i]).value else i
  }

  ghost predicate SpeaksFor(parts: seq<Part>, k: nat, i: int) {
    0 <= i < |parts| && KeyOf(parts, i) == k && forall j :: i < j < |parts| ==> KeyOf(parts, j) != k
  }

  /** The last part that answers for `k` says that it is gone: a 2xx, or 404 for one that was gone before. */
  ghost predicate Acknowledged(parts: seq<Part>, k: nat) {
    exists i :: SpeaksFor(parts, k, i) && (200 <= parts[i].status <= 299 || parts[i].status == 404)
  }

  /** From the wire to the verdict: a reply, whose parts may or may not name their keys, in any order, passes
      exactly when every key of the batch is acknowledged. */
  lemma ReplyPasses(preamble: seq<string>, boundary: string, parts: seq<Part>, count: nat)
    requires parts != [] && (forall i :: 0 <= i < |parts| ==> WellFormed(parts[i]))
    requires Delimits(preamble, boundary, parts)
    ensures var r := FirstFailing(Statuses(Render(preamble, boundary, parts)), 0, count);
            r.None? <==> forall k :: 0 <= k < count ==> Acknowledged(parts, k)
  {
    var ss := Answers(parts);
    RoundTrip(preamble, boundary, parts);
    FirstFailingIsLowest(ss, 0, count);
    hide WellFormed, Delimits, Statuses, Render;
    AnswersAt(parts, 0);
    forall i | 0 <= i < |parts| ensures ss[i] == (Id(parts[i]), parts[i].status) {
      AnswersAt(parts, i);
    }
    forall k | 0 <= k < count ensures KeyDeleted(ss, k) <==> Acknowledged(parts, k) {
      AcknowledgedInAnswers(parts, ss, k);
    }
  }

  lemma AcknowledgedInAnswers(parts: seq<Part>, ss: seq<Status>, k: nat)
    requires |ss| == |parts| && forall i :: 0 <= i < |ss| ==> ss[i] == (Id(parts[i]), parts[i].status)
    ensures KeyDeleted(ss, k) <==> Acknowledged(parts, k)
  {
    LastAnswerCounts(ss, k);
    forall i | 0 <= i < |ss| ensures Slot(ss[i], i) == KeyOf(parts, i) {
    }
    hide AnswerFor, Id, Slot, KeyOf;
    forall i ensures SpeaksFor(parts, k, i) <==> LastFor(ss, k, i) {
    }
    if AnswerFor(ss, k).Some? {
      var i :| LastFor(ss, k, i);
      assert SpeaksFor(parts, k, i) && AnswerFor(ss, k) == Some(parts[i].status);
    }
  }

  /** When no two parts answer for the same key, any part that acknowledges a key settles it. */
  lemma AnyPartSettles(parts: seq<Part>, k: nat)
    requires forall i, j :: 0 <= i < j < |parts| ==> KeyOf(parts, i) != KeyOf(parts, j)
    ensures Acknowledged(parts, k) <==>
              exists i :: 0 <= i < |parts| && KeyOf(parts, i) == k
                          && (200 <= parts[i].status <= 299 || parts[i].status == 404)
  {
    if i :| 0 <= i < |parts| && KeyOf(parts, i) == k && (200 <= parts[i].status <= 299 || parts[i].status == 404) {
      assert SpeaksFor(parts, k, i);
    }
  }

  // ----- batches -----

  /** `keys.chunks(most)` */
  function Chunks<T>(keys: seq<T>, most: nat): seq<seq<T>>
    requires most > 0
    decreases |keys|
  {
    if |keys| == 0 then []
    else if |keys| <= most then [keys]
    else [keys[..most]] + Chunks(keys[most..], most)
  }

  /** Cutting keys into batches neither loses, repeats nor reorders a key, and no batch is empty or too big. */
  lemma {:induction false} ChunksPartition<T>(keys: seq<T>, most: nat)
    requires most > 0
    ensures Flatten(Chunks(keys, most)) == keys
    ensures forall i :: 0 <= i < |Chunks(keys, most)| ==> 1 <= |Chunks(keys, most)[i]| <= most
    decreases |keys|
  {
    if |keys| > most {
      ChunksPartition(keys[most..], most);
      assert keys == keys[..most] + keys[most..];
    } else if keys != [] {
      assert [keys][1..] == [] && Flatten([keys]) == keys + Flatten<T>([]);
    }
  }

  lemma FlattenPrefix<T>(batches: seq<seq<T>>, n: nat)
    requires n <= |batches|
    ensures Flatten(batches[..n]) <= Flatten(batches)
  {
    FlattenConcat(batches[..n], batches[n..]);
    assert batches == batches[..n] + batches[n..];
  }

  const GCS_BATCH_MAX: nat := 100
  const AZ_BATCH_MAX: nat := 256
  const DELETE_OBJECTS_MAX: nat := 1000
  const BATCHES_IN_FLIGHT: nat := 4
  const TREE_DELETE_CONCURRENCY: nat := 64

  /** What the network sees: a request is begun, or has ended. */
  datatype Mark = Begun(i: nat) | Ended(i: nat)

  /** The requests that are in flight after the marks. */
  function Flying(log: seq<Mark>): set<nat> {
    if log == [] then {}
    else
      var front, last := log[..|log| - 1], log[|log| - 1];
      if last.Begun? then Flying(front) + {last.i} else Flying(front) - {last.i}
  }

  /** How many were begun. */
  function BegunCount(log: seq<Mark>): nat {
    if log == [] then 0
    else BegunCount(log[..|log| - 1]) + if log[|log| - 1].Begun? then 1 else 0
  }

  /** Requests are begun in order, each ends once, behind its beginning, and never are more than `most` in flight. */
  ghost predicate Lawful(log: seq<Mark>, most: nat) {
    log == [] || (
      var front, last := log[..|log| - 1], log[|log| - 1];
      && Lawful(front, most) && |Flying(log)| <= most
      && (last.Begun? ==> last.i == BegunCount(front))
      && (last.Ended? ==> last.i in Flying(front)))
  }

  /** Every request that has ended, ended well. */
  ghost predicate EndedWell(log: seq<Mark>, good: nat -> bool) {
    forall k :: 0 <= k < |log| && log[k].Ended? ==> good(log[k].i)
  }

  /** Where the loop stands. */
  ghost predicate Underway(n: nat, most: nat, good: nat -> bool, log: seq<Mark>, started: nat, flight: set<nat>) {
    && Lawful(log, most) && started == BegunCount(log) <= n
    && flight == Flying(log) && |flight| <= most
    && (forall i :: i in flight ==> i < started)
    && (forall i :: 0 <= i < started && i !in flight ==> good(i))
    && EndedWell(log, good)
  }

  lemma BeginsOne(n: nat, most: nat, good: nat -> bool, log: seq<Mark>, started: nat, flight: set<nat>)
    requires Underway(n, most, good, log, started, flight) && started < n && |flight| < most
    ensures Underway(n, most, good, log + [Begun(started)], started + 1, flight + {started})
  {
    var now := log + [Begun(started)];
    assert now[..|now| - 1] == log;
  }

  lemma EndsOne(n: nat, most: nat, good: nat -> bool, log: seq<Mark>, started: nat, flight: set<nat>, i: nat)
    requires Underway(n, most, good, log, started, flight) && i in flight
    ensures good(i) ==> Underway(n, most, good, log + [Ended(i)], started, flight - {i})
    ensures Lawful(log + [Ended(i)], most) && BegunCount(log + [Ended(i)]) == started && i < started
  {
    var now := log + [Ended(i)];
    assert now[..|now| - 1] == log;
  }

  /** Keep up to `most` of `n` requests in flight, started in order and finishing in any order, until all
      are done or one fails; `good` says how each ends. */
  method BufferUnordered(n: nat, most: nat, good: nat -> bool) returns (ok: bool, started: nat, log: seq<Mark>)
    requires most > 0
    ensures Lawful(log, most) && started == BegunCount(log) <= n
    ensures ok <==> forall i :: 0 <= i < n ==> good(i)
    ensures ok ==> started == n && Flying(log) == {} && EndedWell(log, good)
    ensures !ok ==> log != [] && EndedWell(log[..|log| - 1], good)
                    && log[|log| - 1].Ended? && log[|log| - 1].i < started && !good(log[|log| - 1].i)
  {
    var flight: set<nat>;
    started, flight, log := 0, {}, [];
    hide Lawful, Flying, BegunCount, EndedWell;
    assert Underway(n, most, good, log, 0, {}) by {
      NothingBegun(n, most, good);
    }
    while started < n || flight != {}
      invariant Underway(n, most, good, log, started, flight)
      decreases n - started, |flight|
    {
      if started < n && |flight| < most {
        BeginsOne(n, most, good, log, started, flight);
        log := log + [Begun(started)];
        flight := flight + {started};
        started := started + 1;
      } else {
        var i :| i in flight;
        EndsOne(n, most, good, log, started, flight, i);
        assert (log + [Ended(i)])[..|log|] == log;
        log := log + [Ended(i)];
        flight := flight - {i};
        if !good(i) {
          return false, started, log;
        }
      }
    }
    ok := true;
  }

  lemma NothingBegun(n: nat, most: nat, good: nat -> bool)
    ensures Underway(n, most, good, [], 0, {})
  {
  }

  /** The statuses a batch of keys is answered with; None if the whole request fails. */
  type BatchService<!T> = seq<T> -> Option<seq<Status>>

  predicate BatchPasses<T>(service: BatchService<T>, batch: seq<T>) {
    service(batch).Some? && FirstFailing(service(batch).value, 0, |batch|).None?
  }

  ghost predicate AllAcknowledged<T>(service: BatchService<T>, batch: seq<T>) {
    service(batch).Some? && forall k :: 0 <= k < |batch| ==> KeyDeleted(service(batch).value, k)
  }

  /** GCS and Azure: every key goes into exactly one batch of at most `most`, at most four batches are in
      flight, and success means that every key of every batch was acknowledged. */
  method DeleteInBatches<T>(keys: seq<T>, most: nat, service: BatchService<T>)
    returns (ok: bool, sent: seq<seq<T>>, log: seq<Mark>)
    requires most > 0
    ensures Lawful(log, 4) && |sent| == BegunCount(log)
    ensures sent <= Chunks(keys, most) && Flatten(sent) <= keys
    ensures ok ==> sent == Chunks(keys, most) && Flatten(sent) == keys
    ensures ok <==> forall i :: 0 <= i < |Chunks(keys, most)| ==> AllAcknowledged(service, Chunks(keys, most)[i])
  {
    var batches := Chunks(keys, most);
    ChunksPartition(keys, most);
    var good := (i: nat) => i < |batches| && BatchPasses(service, batches[i]);
    forall i | 0 <= i < |batches| ensures good(i) <==> AllAcknowledged(service, batches[i]) {
      if service(batches[i]).Some? {
        FirstFailingIsLowest(service(batches[i]).value, 0, |batches[i]|);
      }
    }
    var started;
    ok, started, log := BufferUnordered(|batches|, BATCHES_IN_FLIGHT, good);
    sent := batches[..started];
    FlattenPrefix(batches, started);
    assert (forall i :: 0 <= i < |batches| ==> good(i)) <==>
           forall i :: 0 <= i < |batches| ==> AllAcknowledged(service, batches[i]);
  }

  // ----- S3 -----

  /** Whether a key can be XML character data. */
  predicate XmlText(key: string) {
    forall i :: 0 <= i < |key| ==>
      && (key[i] >= ' ' || key[i] == '\t' || key[i] == '\n' || key[i] == '\r')
      && key[i] != '\U{FFFE}' && key[i] != '\U{FFFF}'
  }

  /** A character of XML 1.0 (production 2 of its section 2.2). */
  predicate XmlChar(c: char) {
    || c == '\U{9}' || c == '\U{A}' || c == '\U{D}'
    || '\U{20}' <= c <= '\U{D7FF}' || '\U{E000}' <= c <= '\U{FFFD}' || '\U{10000}' <= c <= '\U{10FFFF}'
  }

  /** The keys that are put into a body are those of which every character may stand in one. */
  lemma XmlTextExactly(key: string)
    ensures XmlText(key) <==> forall i :: 0 <= i < |key| ==> XmlChar(key[i])
  {
  }

  function Bulk(keys: seq<string>): seq<string> {
    Filter(keys, XmlText)
  }

  function Singles(keys: seq<string>): seq<string> {
    Filter(keys, (key: string) => !XmlText(key))
  }

  ghost predicate AllPass(keys: seq<string>, bulk: seq<string> -> bool) {
    var batches := Chunks(keys, DELETE_OBJECTS_MAX);
    forall i :: 0 <= i < |batches| ==> |batches[i]| <= DELETE_OBJECTS_MAX && bulk(batches[i])
  }

  /** One request per key, at most 64 in flight; success means that every one was acknowledged. */
  method DeleteEach(keys: seq<string>, single: string -> bool) returns (ok: bool, sent: seq<string>, log: seq<Mark>)
    ensures ok <==> forall k :: k in keys ==> single(k)
    ensures sent <= keys && (ok ==> sent == keys)
    ensures Lawful(log, 64) && |sent| == BegunCount(log)
  {
    var started;
    var good := (i: nat) => i < |keys| && single(keys[i]);
    ok, started, log := BufferUnordered(|keys|, TREE_DELETE_CONCURRENCY, good);
    sent := keys[..started];
    forall i | 0 <= i < |keys| ensures good(i) == single(keys[i]) && keys[i] in keys {
    }
  }

  /** S3: keys that an XML body cannot carry are deleted one by one first, the others in batches of a
      thousand; success means every key was deleted by the request it went into. */
  method DeleteForS3(keys: seq<string>, single: string -> bool, bulk: seq<string> -> bool)
    returns (ok: bool, sent: seq<string>, log: seq<Mark>, batchLog: seq<Mark>)
    ensures Lawful(log, 64) && Lawful(batchLog, 4)
    ensures batchLog != [] ==> forall k :: k in keys && !XmlText(k) ==> single(k)
    ensures ok <==> (forall k :: k in keys && !XmlText(k) ==> single(k)) && AllPass(Bulk(keys), bulk)
    ensures Flatten(Chunks(Bulk(keys), DELETE_OBJECTS_MAX)) == Bulk(keys)
    ensures forall k :: k in Bulk(keys) <==> k in keys && XmlText(k)
    ensures sent <= Singles(keys) + Bulk(keys) && (ok ==> sent == Singles(keys) + Bulk(keys))
  {
    hide Flying, BegunCount, EndedWell;
    var batches := Chunks(Bulk(keys), DELETE_OBJECTS_MAX);
    ChunksPartition(Bulk(keys), DELETE_OBJECTS_MAX);
    forall k ensures (k in Bulk(keys) <==> k in keys && XmlText(k)) && (k in Singles(keys) <==> k in keys && !XmlText(k)) {
      FilterMember(keys, XmlText, k);
      FilterMember(keys, (key: string) => !XmlText(key), k);
    }
    var started;
    batchLog := [];
    ok, sent, log := DeleteEach(Singles(keys), single);
    if !ok {
      return;
    }
    var goodBatch := (i: nat) => i < |batches| && bulk(batches[i]);
    ok, started, batchLog := BufferUnordered(|batches|, BATCHES_IN_FLIGHT, goodBatch);
    FlattenPrefix(batches, started);
    sent := sent + Flatten(batches[..started]);
    assert ok ==> batches[..started] == batches;
    forall i | 0 <= i < |batches| ensures goodBatch(i) == bulk(batches[i]) {
    }
  }
}
