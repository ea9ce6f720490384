/**
 Reading through the cache, and what a larger limit is worth.

 For the same accesses, with no expiry and with values that fit the smaller limit, the recency list of the
 smaller cache is always a prefix of that of the larger one: a larger limit never loses a hit.
 */
module LruStack {
  import opened Basics
  import opened LruCache

  /** What the backend returns for each key. */
  type Content = Key -> Bytes

  function KeySize(content: Content, k: Key): nat {
    |k| + |content(k)|
  }

  /** `get_or_fetch`: look up, and on a miss look up again under the key's lock before fetching. */
  function GetOrFetch(limit: nat, t: Table, k: Key, content: Content, ttl: Ttl, now: real): (Table, Bytes, bool)
    requires !ttl.NotFinite?
  {
    var (first, hit) := Get(t, k, now);
    if hit.Some? then (first, hit.value, true)
    else
      var (second, again) := Get(first, k, now);
      if again.Some? then (second, again.value, true)
      else (Set(limit, second, k, content(k), ttl, now), content(k), false)
  }

  /** Reading a list of keys one after the other, at the given times. */
  function Reads(limit: nat, t: Table, ks: seq<Key>, content: Content, clock: nat -> real): Table {
    if ks == [] then t
    else
      var n := |ks| - 1;
      GetOrFetch(limit, Reads(limit, t, ks[..n], content, clock), ks[n], content, Forever, clock(n)).0
  }

  // ----- the recency list, as keys alone -----

  function Keys(l: seq<Row>): seq<Key> {
    if l == [] then [] else [l[0].key] + Keys(l[1..])
  }

  /** The recency list of a table, most recent key first. */
  function Recency(t: Table): seq<Key> {
    Keys(ByRecency(t))
  }

  function Drop(ks: seq<Key>, k: Key): seq<Key> {
    if ks == [] then [] else if ks[0] == k then Drop(ks[1..], k) else [ks[0]] + Drop(ks[1..], k)
  }

  function FittingKeys(ks: seq<Key>, budget: int, content: Content): seq<Key> {
    if ks == [] || KeySize(content, ks[0]) > budget then []
    else [ks[0]] + FittingKeys(ks[1..], budget - KeySize(content, ks[0]), content)
  }

  /** A textbook LRU access: move to the front, or make room and insert at the front. */
  function Access(limit: nat, ks: seq<Key>, k: Key, content: Content): seq<Key> {
    [k] + if k in ks then Drop(ks, k) else FittingKeys(ks, limit - KeySize(content, k), content)
  }

  // ----- inclusion on key lists -----

  lemma {:induction false} DropPrefix(a: seq<Key>, b: seq<Key>, k: Key)
    requires a <= b
    ensures Drop(a, k) <= Drop(b, k)
  {
    if a != [] {
      assert a[1..] <= b[1..];
      DropPrefix(a[1..], b[1..], k);
    }
  }

  lemma {:induction false} DropAbsent(ks: seq<Key>, k: Key)
    requires k !in ks
    ensures Drop(ks, k) == ks
  {
    if ks != [] {
      assert ks[0] in ks && forall x :: x in ks[1..] ==> x in ks;
      DropAbsent(ks[1..], k);
    }
  }

  lemma {:induction false} FittingPrefix(ks: seq<Key>, budget: int, content: Content)
    ensures FittingKeys(ks, budget, content) <= ks
  {
    if ks != [] && KeySize(content, ks[0]) <= budget {
      FittingPrefix(ks[1..], budget - KeySize(content, ks[0]), content);
    }
  }

  lemma {:induction false} FittingMonotone(a: seq<Key>, b: seq<Key>, x: int, y: int, content: Content)
    requires a <= b && x <= y
    ensures FittingKeys(a, x, content) <= FittingKeys(b, y, content)
  {
    if a != [] && KeySize(content, a[0]) <= x {
      assert a[1..] <= b[1..];
      FittingMonotone(a[1..], b[1..], x - KeySize(content, a[0]), y - KeySize(content, a[0]), content);
    }
  }

  /** One access keeps the smaller list a prefix of the larger one. */
  lemma AccessKeepsInclusion(small: nat, large: nat, a: seq<Key>, b: seq<Key>, k: Key, content: Content)
    requires small <= large && a <= b
    ensures Access(small, a, k, content) <= Access(large, b, k, content)
  {
    if k in a {
      DropPrefix(a, b, k);
    } else if k in b {
      DropAbsent(a, k);
      DropPrefix(a, b, k);
      FittingPrefix(a, small - KeySize(content, k), content);
    } else {
      FittingMonotone(a, b, small - KeySize(content, k), large - KeySize(content, k), content);
    }
  }

  // ----- the cache does textbook accesses -----

  /** Rows hold what the backend returns and never expire. */
  ghost predicate Holds(l: seq<Row>, content: Content) {
    forall r :: r in l ==> r.value == content(r.key) && r.expires == None
  }

  lemma {:induction false} KeysOfFilter(l: seq<Row>, k: Key)
    ensures Keys(Filter(l, OtherKey(k))) == Drop(Keys(l), k)
  {
    if l != [] {
      KeysOfFilter(l[1..], k);
    }
  }

  lemma {:induction false} KeysOfFitting(l: seq<Row>, budget: int, content: Content)
    requires Holds(l, content)
    ensures Keys(Fitting(l, budget)) == FittingKeys(Keys(l), budget, content)
  {
    if l != [] {
      assert l[0] in l && Holds(l[1..], content);
      if Size(l[0]) <= budget {
        KeysOfFitting(l[1..], budget - Size(l[0]), content);
      }
    }
  }

  lemma {:induction false} KeysMember(l: seq<Row>, k: Key)
    ensures k in Keys(l) <==> exists r :: r in l && r.key == k
  {
    if l != [] {
      KeysMember(l[1..], k);
      if k in Keys(l) && l[0].key != k {
        var r :| r in l[1..] && r.key == k;
        assert r in l;
      }
      if l[0].key == k {
        assert l[0] in l;
      }
    }
  }

  lemma {:induction false} FindFinds(t: Table, k: Key)
    ensures Find(t, k).Some? <==> exists r :: r in t && r.key == k
  {
    if t != [] {
      FindFinds(t[1..], k);
      if t[0].key == k {
        assert t[0] in t;
      } else if Find(t[1..], k).Some? {
        var r :| r in t[1..] && r.key == k;
        assert r in t;
      }
    }
  }

  lemma InRecency(t: Table, k: Key)
    ensures Find(t, k).Some? <==> k in Recency(t)
  {
    FindFinds(t, k);
    KeysMember(ByRecency(t), k);
    if r :| r in t && r.key == k {
      RecencyMember(t, r);
    }
    if r :| r in ByRecency(t) && r.key == k {
      RecencyMember(t, r);
    }
  }

  lemma RecencyHolds(t: Table, content: Content)
    requires Holds(t, content)
    ensures Holds(ByRecency(t), content)
  {
    forall r | r in ByRecency(t) ensures r.value == content(r.key) && r.expires == None {
      RecencyMember(t, r);
    }
  }

  lemma NothingStale(t: Table, content: Content, k: Key, now: real)
    requires Holds(t, content)
    ensures Filter(t, NotStale(k, now)) == t
  {
    FilterAll(t, NotStale(k, now));
  }

  lemma {:induction false} OnlyKeyDropped(l: seq<Row>, content: Content, k: Key, now: real)
    requires Holds(l, content)
    ensures Filter(l, OtherAndFresh(k, now)) == Filter(l, OtherKey(k))
  {
    if l != [] {
      assert l[0] in l && Holds(l[1..], content);
      OnlyKeyDropped(l[1..], content, k, now);
    }
  }

  lemma ReadKeepsHolds(limit: nat, t: Table, k: Key, content: Content, now: real)
    requires Good(t) && Holds(t, content)
    ensures Good(GetOrFetch(limit, t, k, content, Forever, now).0)
    ensures Holds(GetOrFetch(limit, t, k, content, Forever, now).0, content)
  {
    NothingStale(t, content, k, now);
    OpsKeepGood(limit, t, k, content(k), Forever, now);
    var u := GetOrFetch(limit, t, k, content, Forever, now).0;
    forall r | r in u ensures r.value == content(r.key) && r.expires == None {
      if Find(t, k).Some? {
        TouchMember(t, k, NextStamp(t), r);
      } else {
        SetMember(limit, t, k, content(k), Forever, now, r);
      }
    }
  }

  /** Reading a key whose value fits does to the recency list what a textbook LRU does; it is a hit
      exactly when the key is in the list, and returns the backend's value either way. */
  lemma ReadIsAccess(limit: nat, t: Table, k: Key, content: Content, now: real)
    requires Good(t) && Holds(t, content) && KeySize(content, k) <= limit
    ensures var (u, value, hit) := GetOrFetch(limit, t, k, content, Forever, now);
            && Recency(u) == Access(limit, Recency(t), k, content)
            && value == content(k)
            && (hit <==> k in Recency(t))
  {
    hide Good, ByRecency;
    InRecency(t, k);
    if Find(t, k).Some? {
      ReadHits(limit, t, k, content, now);
    } else {
      ReadMisses(limit, t, k, content, now);
    }
  }

  lemma ReadHits(limit: nat, t: Table, k: Key, content: Content, now: real)
    requires Good(t) && Holds(t, content) && Find(t, k).Some?
    ensures var (u, value, hit) := GetOrFetch(limit, t, k, content, Forever, now);
            Keys(ByRecency(u)) == [k] + Drop(Keys(ByRecency(t)), k) && value == content(k) && hit
  {
    hide Good, ByRecency, NextStamp, Filter, Set;
    var l := ByRecency(t);
    NothingStale(t, content, k, now);
    RecencyHolds(t, content);
    NothingStale(l, content, k, now);
    FindMember(t, k);
    GetByRecency(t, k, now);
    KeysOfFilter(l, k);
  }

  lemma ReadMisses(limit: nat, t: Table, k: Key, content: Content, now: real)
    requires Good(t) && Holds(t, content) && Find(t, k).None? && KeySize(content, k) <= limit
    ensures var (u, value, hit) := GetOrFetch(limit, t, k, content, Forever, now);
            && Keys(ByRecency(u)) == [k] + FittingKeys(Keys(ByRecency(t)), limit - KeySize(content, k), content)
            && value == content(k) && !hit
  {
    hide Good, ByRecency, OverBudget, NextStamp, Filter;
    var l := ByRecency(t);
    NothingStale(t, content, k, now);
    RecencyHolds(t, content);
    InRecency(t, k);
    KeysMember(l, k);
    SetByRecency(limit, t, k, content(k), Forever, now);
    OnlyKeyDropped(l, content, k, now);
    FilterAll(l, OtherKey(k));
    KeysOfFitting(l, limit - KeySize(content, k), content);
  }

  lemma {:induction false} ReadsKeepHolds(limit: nat, ks: seq<Key>, content: Content, clock: nat -> real)
    ensures Good(Reads(limit, [], ks, content, clock)) && Holds(Reads(limit, [], ks, content, clock), content)
  {
    if ks != [] {
      var n := |ks| - 1;
      ReadsKeepHolds(limit, ks[..n], content, clock);
      ReadKeepsHolds(limit, Reads(limit, [], ks[..n], content, clock), ks[n], content, clock(n));
    }
  }

  /** What is listed first is what was read last. */
  lemma LastReadIsFirst(limit: nat, ks: seq<Key>, content: Content, clock: nat -> real)
    requires ks != [] && KeySize(content, ks[|ks| - 1]) <= limit
    ensures var l := Recency(Reads(limit, [], ks, content, clock)); l != [] && l[0] == ks[|ks| - 1]
  {
    var n := |ks| - 1;
    ReadsKeepHolds(limit, ks[..n], content, clock);
    ReadIsAccess(limit, Reads(limit, [], ks[..n], content, clock), ks[n], content, clock(n));
  }

  /** Stack inclusion, for any list of reads whose values fit the smaller limit. */
  lemma {:induction false} StackInclusion(small: nat, large: nat, ks: seq<Key>, content: Content, clock: nat -> real)
    requires small <= large && forall k :: k in ks ==> KeySize(content, k) <= small
    ensures Recency(Reads(small, [], ks, content, clock)) <= Recency(Reads(large, [], ks, content, clock))
  {
    if ks != [] {
      var n := |ks| - 1;
      StackInclusion(small, large, ks[..n], content, clock);
      var a, b := Reads(small, [], ks[..n], content, clock), Reads(large, [], ks[..n], content, clock);
      ReadsKeepHolds(small, ks[..n], content, clock);
      ReadsKeepHolds(large, ks[..n], content, clock);
      assert ks[n] in ks;
      ReadIsAccess(small, a, ks[n], content, clock(n));
      ReadIsAccess(large, b, ks[n], content, clock(n));
      AccessKeepsInclusion(small, large, Recency(a), Recency(b), ks[n], content);
    }
  }

  /** A larger limit never loses a hit. */
  lemma LargerNeverLosesAHit(small: nat, large: nat, ks: seq<Key>, k: Key, content: Content, clock: nat -> real)
    requires small <= large && (forall x :: x in ks ==> KeySize(content, x) <= small) && KeySize(content, k) <= small
    ensures var a, b := Reads(small, [], ks, content, clock), Reads(large, [], ks, content, clock);
            var now := clock(|ks|);
            GetOrFetch(small, a, k, content, Forever, now).2 ==> GetOrFetch(large, b, k, content, Forever, now).2
  {
    StackInclusion(small, large, ks, content, clock);
    ReadsKeepHolds(small, ks, content, clock);
    ReadsKeepHolds(large, ks, content, clock);
    ReadIsAccess(small, Reads(small, [], ks, content, clock), k, content, clock(|ks|));
    ReadIsAccess(large, Reads(large, [], ks, content, clock), k, content, clock(|ks|));
  }

  /** A value too big to be retained leaves the recency list as it was, less its own key. */
  lemma OversizedRead(limit: nat, t: Table, k: Key, content: Content, now: real)
    requires Good(t) && Holds(t, content) && KeySize(content, k) > limit && k !in Recency(t)
    ensures Recency(GetOrFetch(limit, t, k, content, Forever, now).0) == Recency(t)
  {
    hide Good, ByRecency, OverBudget, NextStamp;
    var l := ByRecency(t);
    NothingStale(t, content, k, now);
    RecencyHolds(t, content);
    InRecency(t, k);
    SetByRecency(limit, t, k, content(k), Forever, now);
    OnlyKeyDropped(l, content, k, now);
    KeysMember(l, k);
    FilterAll(l, OtherKey(k));
  }

  /** The hypothesis on sizes is needed: reading a value that fits only the larger limit breaks the
      inclusion, unless the smaller cache is empty. */
  lemma OversizedBreaksInclusion(small: nat, large: nat, a: Table, b: Table, k: Key, content: Content, now: real)
    requires Good(a) && Good(b) && Holds(a, content) && Holds(b, content)
    requires Recency(a) <= Recency(b) && k !in Recency(a)
    requires small < KeySize(content, k) <= large
    ensures var x := Recency(GetOrFetch(small, a, k, content, Forever, now).0);
            var y := Recency(GetOrFetch(large, b, k, content, Forever, now).0);
            x <= y <==> Recency(a) == []
  {
    hide Good, Holds, ByRecency, GetOrFetch, FittingKeys, Drop;
    OversizedRead(small, a, k, content, now);
    ReadIsAccess(large, b, k, content, now);
    assert Recency(a) != [] ==> Recency(a)[0] in Recency(a);
  }
}
