/**
 Deleting everything under a prefix of an object store, one listing page while the next is fetched.
 */
module TreeDelete {
  import opened Basics
  import opened BatchDelete
  import opened KeyPaths

  function Plain(search: string): Key -> bool {
    (key: Key) => PlainKey(key, search)
  }

  /** Keys under the prefix that a request path cannot name. */
  function Other(search: string): Key -> bool {
    (key: Key) => search <= key && !PlainKey(key, search)
  }

  function Under(search: string): Key -> bool {
    (key: Key) => search <= key
  }

  /** What the loop puts aside. */
  function NotPlain(search: string): Key -> bool {
    (key: Key) => !PlainKey(key, search)
  }

  // ----- the store -----

  /** An object store that lists its keys in a fixed order. `sent` are the keys it was asked to delete and
      `acked` those it acknowledged. Nobody else writes to it meanwhile. */
  class Store {
    const order: seq<Key>
    var present: set<Key>
    ghost var sent: set<Key>
    ghost var acked: set<Key>

    constructor (order: seq<Key>)
      requires forall i, j :: 0 <= i < j < |order| ==> order[i] != order[j]
      ensures this.order == order && present == (set k | k in order) && sent == {} && acked == {}
    {
      this.order := order;
      present := set k | k in order;
      sent, acked := {}, {};
    }

    /** One page: of the next `size` of the order the keys under the prefix that are still present, and, unless
        the order is exhausted, a token for the keys after the last one looked at. */
    method ListPage(search: string, token: nat, size: nat) returns (keys: seq<Key>, next: Option<nat>)
      requires token <= |order|
      ensures var end := Min(token + size + 1, |order|);
              && keys == Filter(order[token..end], Listed(present, search))
              && next == if end == |order| then None else Some(end)
    {
      var end := Min(token + size + 1, |order|);
      keys := Filter(order[token..end], Listed(present, search));
      next := if end == |order| then None else Some(end);
    }

    /** Some of the requested deletes take effect while something else happens. */
    method DeleteSome(keys: set<Key>, early: Key -> bool)
      modifies this
      ensures old(present) - keys <= present <= old(present)
      ensures sent == old(sent) + keys && acked == old(acked)
    {
      present := set k | k in present && !(k in keys && early(k));
      sent := sent + keys;
    }

    /** All of the requested deletes have ended: acknowledged, or some of them failed. */
    method FinishDeletes(keys: set<Key>, ok: bool, late: Key -> bool)
      modifies this
      ensures sent == old(sent)
      ensures ok ==> present == old(present) - keys && acked == old(acked) + keys
      ensures !ok ==> old(present) - keys <= present <= old(present) && acked == old(acked)
    {
      if ok {
        present := present - keys;
        acked := acked + keys;
      } else {
        present := set k | k in present && !(k in keys && late(k));
      }
    }
  }

  /** What the network does in round n: how long the page is, which deletes land before the next page is
      read and which after, how batches are answered, and whether listing succeeds. */
  datatype Round = Round(size: nat, early: Key -> bool, late: Key -> bool, backend: Backend, listOk: bool)

  /** How a backend deletes the keys of a page, and how its requests are answered. */
  datatype Backend =
    | Gcs(service: BatchService<Key>)
    | Azure(service: BatchService<Key>)
    | S3(single: Key -> bool, bulk: seq<Key> -> bool)
    | OneByOne(single: Key -> bool)

  function Listed(present: set<Key>, search: string): Key -> bool {
    (key: Key) => key in present && search <= key
  }

  function Members(keys: seq<Key>): set<Key> {
    set k | k in keys
  }

  lemma {:induction false} PagesConcat(order: seq<Key>, i: nat, j: nat, p: Key -> bool)
    requires i <= j <= |order|
    ensures Filter(order[..j], p) == Filter(order[..i], p) + Filter(order[i..j], p)
  {
    assert order[..j] == order[..i] + order[i..j];
    FilterConcat(order[..i], order[i..j], p);
  }

  lemma {:induction false} FilterSame(s: seq<Key>, p: Key -> bool, q: Key -> bool)
    requires forall k :: k in s ==> p(k) == q(k)
    ensures Filter(s, p) == Filter(s, q)
  {
    if s != [] {
      assert s[0] in s && forall k :: k in s[1..] ==> k in s;
      FilterSame(s[1..], p, q);
    }
  }

  lemma {:induction false} FilterTwice(s: seq<Key>, p: Key -> bool, q: Key -> bool, both: Key -> bool)
    requires forall k :: both(k) <==> p(k) && q(k)
    ensures Filter(Filter(s, p), q) == Filter(s, both)
  {
    if s != [] {
      FilterTwice(s[1..], p, q, both);
    }
  }

  /** A page that is divided by whether its keys are plain. */
  lemma PageDivides(page: seq<Key>, search: string)
    ensures Filter(Filter(page, Under(search)), Plain(search)) == Filter(page, Plain(search))
    ensures Filter(Filter(page, Under(search)), NotPlain(search)) == Filter(page, Other(search))
  {
    FilterTwice(page, Under(search), Plain(search), Plain(search));
    FilterTwice(page, Under(search), NotPlain(search), Other(search));
  }

  lemma SplitKeys(keys: seq<Key>, search: string)
    ensures Members(Filter(keys, Plain(search))) !! Members(Filter(keys, Other(search)))
    ensures forall k :: k in Members(Filter(keys, Plain(search))) <==> k in keys && PlainKey(k, search)
    ensures forall k :: k in Members(Filter(keys, Other(search))) <==> k in keys && search <= k && !PlainKey(k, search)
  {
    forall k ensures (k in Filter(keys, Plain(search)) <==> k in keys && PlainKey(k, search))
                  && (k in Filter(keys, Other(search)) <==> k in keys && search <= k && !PlainKey(k, search)) {
      FilterMember(keys, Plain(search), k);
      FilterMember(keys, Other(search), k);
    }
  }

  /** Where the loop stands: the page in hand covers order[from..to], everything before it is dealt with,
      and nothing behind it has been touched. */
  ghost predicate Standing(order: seq<Key>, search: string, from: nat, to: nat, keys: seq<Key>, skipped: seq<Key>,
                           present: set<Key>, sent: set<Key>, acked: set<Key>) {
    && from <= to <= |order|
    && keys == Filter(order[from..to], Under(search))
    && skipped == Filter(order[..from], Other(search))
    && sent == acked == Members(Filter(order[..from], Plain(search)))
    && present == Members(order) - acked
  }

  ghost predicate Distinct(order: seq<Key>) {
    forall i, j :: 0 <= i < j < |order| ==> order[i] != order[j]
  }

  /** The next page is complete whatever part of the deletes of this page landed before it was read. */
  lemma PageIsWhole(order: seq<Key>, search: string, from: nat, to: nat, present: set<Key>, gone: set<Key>)
    requires Distinct(order) && from <= to <= |order|
    requires gone <= Members(order[..from]) && present == Members(order) - gone
    ensures Filter(order[from..to], Listed(present, search)) == Filter(order[from..to], Under(search))
  {
    forall k | k in order[from..to] ensures k in present {
      var i :| from <= i < to && order[i] == k;
      assert k !in order[..from];
      assert order[i] in order;
    }
    FilterSame(order[from..to], Listed(present, search), Under(search));
  }

  /** What dealing with the page in hand comes to. */
  lemma RoundFacts(order: seq<Key>, search: string, from: nat, to: nat, keys: seq<Key>, skipped: seq<Key>)
    requires Distinct(order) && from <= to <= |order|
    requires keys == Filter(order[from..to], Under(search)) && skipped == Filter(order[..from], Other(search))
    ensures var plain, other := Filter(keys, Plain(search)), Filter(keys, NotPlain(search));
            var before, after := Filter(order[..from], Plain(search)), Filter(order[..to], Plain(search));
            && skipped + other == Filter(order[..to], Other(search))
            && after == before + plain && Members(after) == Members(before) + Members(plain)
            && Members(after) <= Members(order[..to]) && after <= Filter(order, Plain(search))
  {
    hide Under, Plain, NotPlain, Other;
    PageDivides(order[from..to], search);
    PageDone(order, search, from, to);
    PlainGrows(order, search, to);
  }

  /** Dealing with the page in hand. */
  lemma PageDone(order: seq<Key>, search: string, from: nat, to: nat)
    requires Distinct(order) && from <= to <= |order|
    ensures var page := order[from..to];
            var before, after := Filter(order[..from], Plain(search)), Filter(order[..to], Plain(search));
            && Filter(order[..to], Other(search)) == Filter(order[..from], Other(search)) + Filter(page, Other(search))
            && Members(after) == Members(before) + Members(Filter(page, Plain(search)))
            && after == before + Filter(page, Plain(search))
            && Members(after) <= Members(order[..to])
  {
    PagesConcat(order, from, to, Plain(search));
    PagesConcat(order, from, to, Other(search));
    SplitKeys(order[..to], search);
  }

  lemma AllDone(order: seq<Key>, search: string)
    requires Distinct(order)
    ensures order[..|order|] == order
    ensures forall k :: k in Members(Filter(order, Plain(search))) || k in Filter(order, Other(search))
              <==> k in order && search <= k
    ensures Members(Filter(order, Plain(search))) !! Members(Filter(order, Other(search)))
  {
    SplitKeys(order, search);
    assert forall k :: k in Filter(order, Other(search)) <==> k in Members(Filter(order, Other(search)));
  }

  lemma PlainGrows(order: seq<Key>, search: string, to: nat)
    requires to <= |order|
    ensures Filter(order[..to], Plain(search)) <= Filter(order, Plain(search))
  {
    PagesConcat(order, to, |order|, Plain(search));
    assert order[..|order|] == order;
  }

  function BatchMax(b: Backend): nat {
    if b.Gcs? then GCS_BATCH_MAX else if b.Azure? then AZ_BATCH_MAX else DELETE_OBJECTS_MAX
  }

  /** The batches that a page is sent in: all of it, or what an XML body can carry. */
  function Batches(b: Backend, page: seq<Key>): seq<seq<Key>> {
    Chunks(if b.S3? then Bulk(page) else page, BatchMax(b))
  }

  /** The request that `k` was in, when this page was sent, was answered that `k` is gone. */
  ghost predicate Acked(b: Backend, page: seq<Key>, k: Key) {
    && k in page
    && match b
       case Gcs(service) => exists batch :: batch in Batches(b, page) && k in batch && AllAcknowledged(service, batch)
       case Azure(service) => exists batch :: batch in Batches(b, page) && k in batch && AllAcknowledged(service, batch)
       case S3(single, bulk) =>
         if XmlText(k) then exists batch :: batch in Batches(b, page) && k in batch && bulk(batch) else single(k)
       case OneByOne(single) => single(k)
  }

  /** Every one of `keys` was acknowledged when a page was sent; page n is deleted in round n + 1. */
  ghost predicate Witnessed(keys: set<Key>, pages: seq<seq<Key>>, net: nat -> Round) {
    forall k :: k in keys ==> exists n :: 0 <= n < |pages| && Acked(net(n + 1).backend, pages[n], k)
  }

  /** No request deletes more than the service takes. */
  lemma BatchSizes(b: Backend, page: seq<Key>)
    ensures forall batch :: batch in Batches(b, page) ==>
              1 <= |batch| <= match b case Gcs(_) => 100 case Azure(_) => 256 case _ => 1000
  {
    ChunksPartition(if b.S3? then Bulk(page) else page, BatchMax(b));
  }

  /** Every request that the page is sent in is answered that its keys are gone. */
  ghost predicate Passes(b: Backend, page: seq<Key>) {
    match b
    case Gcs(service) => forall batch :: batch in Batches(b, page) ==> AllAcknowledged(service, batch)
    case Azure(service) => forall batch :: batch in Batches(b, page) ==> AllAcknowledged(service, batch)
    case S3(single, bulk) =>
      && (forall k :: k in page && !XmlText(k) ==> single(k))
      && (forall batch :: batch in Batches(b, page) ==> bulk(batch))
    case OneByOne(single) => forall k :: k in page ==> single(k)
  }

  lemma {:induction false} InSomeChunk(keys: seq<Key>, most: nat, k: Key)
    requires most > 0 && k in keys
    ensures exists i :: 0 <= i < |Chunks(keys, most)| && k in Chunks(keys, most)[i]
    decreases |keys|
  {
    var batches := Chunks(keys, most);
    if |keys| <= most {
      assert k in batches[0];
    } else if k in keys[..most] {
      assert k in batches[0];
    } else {
      assert keys == keys[..most] + keys[most..];
      InSomeChunk(keys[most..], most, k);
      var i :| 0 <= i < |Chunks(keys[most..], most)| && k in Chunks(keys[most..], most)[i];
      assert batches[i + 1] == Chunks(keys[most..], most)[i];
    }
  }

  lemma PassAcks(b: Backend, page: seq<Key>, k: Key)
    requires Passes(b, page) && k in page
    ensures Acked(b, page, k)
  {
    if !b.OneByOne? && (b.S3? ==> XmlText(k)) {
      var keys := if b.S3? then Bulk(page) else page;
      FilterMember(page, XmlText, k);
      InSomeChunk(keys, BatchMax(b), k);
      var i :| 0 <= i < |Batches(b, page)| && k in Batches(b, page)[i];
      assert Batches(b, page)[i] in Batches(b, page);
    }
  }

  lemma WitnessMore(acked: set<Key>, pages: seq<seq<Key>>, page: seq<Key>, deleted: bool, net: nat -> Round)
    requires Witnessed(acked, pages, net)
    requires deleted ==> forall k :: k in page ==> Acked(net(|pages| + 1).backend, page, k)
    ensures Witnessed(if deleted then acked + Members(page) else acked, pages + [page], net)
  {
    var now := pages + [page];
    forall k | k in acked || (deleted && k in page)
      ensures exists n :: 0 <= n < |now| && Acked(net(n + 1).backend, now[n], k)
    {
      if k in acked {
        var n :| 0 <= n < |pages| && Acked(net(n + 1).backend, pages[n], k);
        assert now[n] == pages[n];
      } else {
        assert Acked(net(|pages| + 1).backend, now[|pages|], k);
      }
    }
  }

  lemma S3Members(keys: seq<Key>)
    ensures Members(Singles(keys) + Bulk(keys)) == Members(keys)
  {
    forall k ensures (k in Bulk(keys) <==> k in keys && XmlText(k)) && (k in Singles(keys) <==> k in keys && !XmlText(k)) {
      FilterMember(keys, XmlText, k);
      FilterMember(keys, (key: string) => !XmlText(key), k);
    }
  }

  /** `delete_keys`: success means, and is only refused if not, that every key of the page was acknowledged. `sent`
      are the keys in requests that were begun. */
  method DeletePage(keys: seq<Key>, b: Backend) returns (deleted: bool, sent: seq<Key>)
    ensures Members(sent) <= Members(keys)
    ensures deleted <==> Passes(b, keys)
    ensures deleted ==> Members(sent) == Members(keys) && forall k :: k in keys ==> Acked(b, keys, k)
  {
    var log;
    match b {
      case S3(single, bulk) =>
        var batchLog;
        deleted, sent, log, batchLog := DeleteForS3(keys, single, bulk);
        S3Members(keys);
        assert AllPass(Bulk(keys), bulk) <==> forall batch :: batch in Batches(b, keys) ==> bulk(batch) by {
          ChunksPartition(Bulk(keys), DELETE_OBJECTS_MAX);
        }
      case OneByOne(single) =>
        deleted, sent, log := DeleteEach(keys, single);
      case Gcs(service) =>
        var batches;
        deleted, batches, log := DeleteInBatches(keys, GCS_BATCH_MAX, service);
        sent := Flatten(batches);
      case Azure(service) =>
        var batches;
        deleted, batches, log := DeleteInBatches(keys, AZ_BATCH_MAX, service);
        sent := Flatten(batches);
    }
    if deleted {
      forall k | k in keys ensures Acked(b, keys, k) {
        PassAcks(b, keys, k);
      }
    }
  }

  /** Delete page i while page i+1 is being listed. `pages` are the plain keys of the pages, as they were
      deleted. On success every key under the prefix at the start was either acknowledged as deleted, when the
      page it was on was sent, or is returned as skipped, and never both. */
  method DeleteTree(store: Store, prefix: string, net: nat -> Round)
    returns (ok: bool, skipped: seq<Key>, ghost pages: seq<seq<Key>>)
    requires Distinct(store.order) && store.present == Members(store.order) && store.sent == store.acked == {}
    modifies store
    ensures Flatten(pages) <= Filter(store.order, Plain(SearchPrefix(prefix)))
    ensures store.acked <= store.sent <= Members(Flatten(pages))
    ensures Members(store.order) - store.sent <= store.present <= Members(store.order) - store.acked
    ensures Witnessed(store.acked, pages, net)
    ensures OnlyBelow(prefix, store.sent, skipped)
    ensures ok ==>
              && skipped == Filter(store.order, Other(SearchPrefix(prefix)))
              && Flatten(pages) == Filter(store.order, Plain(SearchPrefix(prefix)))
              && store.acked == Members(Flatten(pages)) && store.present == Members(store.order) - store.acked
              && store.acked !! Members(skipped)
              && AllBelow(prefix, store.order, store.acked, skipped)
    ensures ok ==> PagesPass(pages, net) && forall n :: 0 <= n < |pages| ==> net(n).listOk
    ensures !ok && net(0).listOk ==>
              pages != [] && (!Passes(net(|pages|).backend, pages[|pages| - 1]) || !net(|pages|).listOk)
  {
    NoWitnessNeeded(net);
    PassMore([], [], net);
    hide Plain, Other, NotPlain, Under, Filter, SearchPrefix, AllBelow, Witnessed, Acked, Distinct, Members, Flatten, OnlyBelow, Passes, PagesPass;
    var search := SearchPrefix(prefix);
    var order := store.order;
    skipped, pages := [], [];
    NothingYet(order, search);
    NothingListed();
    OnlyBelowAll(prefix, order, 0, {}, []);
    var round := 0;
    if !net(0).listOk {
      return false, [], [];
    }
    var from, to: nat := 0, Min(net(0).size + 1, |order|);
    PageIsWhole(order, search, 0, to, store.present, {});
    var keys, token := store.ListPage(search, 0, net(0).size);
    while true
      invariant store.order == order
      invariant Standing(order, search, from, to, keys, skipped, store.present, store.sent, store.acked)
      invariant Flatten(pages) == Filter(order[..from], Plain(search))
      invariant round == |pages|
      invariant token == if to == |order| then None else Some(to)
      invariant from < |order| ==> from < to
      invariant Witnessed(store.acked, pages, net)
      invariant PagesPass(pages, net) && forall n :: 0 <= n <= |pages| ==> net(n).listOk
      decreases |order| - from, to == |order|
    {
      var plain, other := Filter(keys, Plain(search)), Filter(keys, NotPlain(search));
      RoundFacts(order, search, from, to, keys, skipped);
      skipped := skipped + other;
      round := round + 1;
      var r := net(round);
      var deleted, sent := DeletePage(plain, r.backend);
      WitnessMore(store.acked, pages, plain, deleted, net);
      FlattenAppend(pages, plain);
      PassMore(pages, plain, net);
      pages := pages + [plain];
      store.DeleteSome(Members(sent), r.early);
      if token.None? {
        store.FinishDeletes(Members(sent), deleted, r.late);
        ok := deleted;
        OnlyBelowAll(prefix, order, to, store.sent, skipped);
        AllDone(order, search);
        if ok {
          WhollyBelow(prefix, order, store.acked, skipped);
        }
        return;
      }
      var pageEnd := Min(to + r.size + 1, |order|);
      PageIsWhole(order, search, to, pageEnd, store.present, Members(order) - store.present);
      var listed, next := store.ListPage(search, token.value, r.size);
      store.FinishDeletes(Members(sent), deleted, r.late);
      if !deleted || !r.listOk {
        OnlyBelowAll(prefix, order, to, store.sent, skipped);
        return false, skipped, pages;
      }
      keys, token := listed, next;
      from, to := to, pageEnd;
    }
  }

  /** Every page passed in the round in which it was deleted. */
  ghost predicate PagesPass(pages: seq<seq<Key>>, net: nat -> Round) {
    forall n :: 0 <= n < |pages| ==> Passes(net(n + 1).backend, pages[n])
  }

  lemma PassMore(pages: seq<seq<Key>>, page: seq<Key>, net: nat -> Round)
    ensures PagesPass(pages + [page], net) <==> PagesPass(pages, net) && Passes(net(|pages| + 1).backend, page)
    ensures PagesPass([], net)
  {
    var now := pages + [page];
    assert now[|pages|] == page;
    assert forall n :: 0 <= n < |pages| ==> now[n] == pages[n];
  }

  /** Whatever is sent or returned lies below what the path denotes. */
  ghost predicate OnlyBelow(prefix: string, sent: set<Key>, skipped: seq<Key>) {
    forall core, k :: Denotes(prefix, core) && (k in sent || k in skipped) ==> Below(core) <= k
  }

  /** What was deleted or returned is what lies below it. */
  ghost predicate AllBelow(prefix: string, order: seq<Key>, deleted: set<Key>, skipped: seq<Key>) {
    forall core, k :: Denotes(prefix, core) && k in order ==> (Below(core) <= k <==> k in deleted || k in skipped)
  }

  lemma WhollyBelow(prefix: string, order: seq<Key>, deleted: set<Key>, skipped: seq<Key>)
    requires Distinct(order) && deleted == Members(Filter(order, Plain(SearchPrefix(prefix))))
    requires skipped == Filter(order, Other(SearchPrefix(prefix)))
    ensures AllBelow(prefix, order, deleted, skipped)
  {
    hide SearchPrefix, Below;
    SearchesBelow(prefix);
    AllDone(order, SearchPrefix(prefix));
  }

  lemma OnlyBelowAll(prefix: string, order: seq<Key>, to: nat, sent: set<Key>, skipped: seq<Key>)
    requires to <= |order| && sent <= Members(Filter(order[..to], Plain(SearchPrefix(prefix))))
    requires skipped == Filter(order[..to], Other(SearchPrefix(prefix)))
    ensures OnlyBelow(prefix, sent, skipped)
  {
    hide SearchPrefix, Below;
    SearchesBelow(prefix);
    SplitKeys(order[..to], SearchPrefix(prefix));
    assert forall k :: k in skipped ==> k in Members(skipped);
  }

  lemma NoWitnessNeeded(net: nat -> Round)
    ensures Witnessed({}, [], net)
  {
  }

  lemma NothingListed()
    ensures Members([]) == {} && Flatten<Key>([]) == []
  {
  }

  lemma NothingYet(order: seq<Key>, search: string)
    ensures Filter(order[..0], Plain(search)) == [] && Filter(order[..0], Other(search)) == []
  {
  }
}
