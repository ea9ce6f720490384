/**
 The download cache: a table of entries with recency stamps and expiry times, bounded in bytes.

 The statements run against the table are functions from table to table. Ordered by recency, the table is
 a list, and on that list the cache is a plain least-recently-used cache.
 */
module LruCache {
  import opened Basics

  /** A key, as its UTF-8 bytes. */
  type Key = Bytes

  datatype Row = Row(key: Key, value: Bytes, expires: Option<real>, accessed: int)

  /** The rows of the table, in no particular order. */
  type Table = seq<Row>

  function Size(r: Row): nat {
    |r.key| + |r.value|
  }

  predicate Expired(r: Row, now: real) {
    r.expires.Some? && r.expires.value <= now
  }

  // ----- the statements -----

  /** COALESCE(MAX(accessed), 0) + 1 */
  function NextStamp(t: Table): int {
    MaxStamp(t) + 1
  }

  function MaxStamp(t: Table): int {
    if t == [] then 0
    else if |t| == 1 then t[0].accessed
    else Max(t[0].accessed, MaxStamp(t[1..]))
  }

  function OtherKey(k: Key): Row -> bool {
    (r: Row) => r.key != k
  }

  /** NOT (key = k AND expires <= now) */
  function NotStale(k: Key, now: real): Row -> bool {
    (r: Row) => !(r.key == k && Expired(r, now))
  }

  /** NOT (key = k OR expires <= now) */
  function OtherAndFresh(k: Key, now: real): Row -> bool {
    (r: Row) => !(r.key == k || Expired(r, now))
  }

  /** SELECT value FROM entries WHERE key = k */
  function Find(t: Table, k: Key): Option<Row> {
    if t == [] then None else if t[0].key == k then Some(t[0]) else Find(t[1..], k)
  }

  /** UPDATE entries SET accessed = stamp WHERE key = k */
  function Touch(t: Table, k: Key, stamp: int): Table {
    if t == [] then []
    else [if t[0].key == k then t[0].(accessed := stamp) else t[0]] + Touch(t[1..], k, stamp)
  }

  /** ORDER BY accessed DESC */
  function ByRecency(t: Table): seq<Row> {
    if t == [] then [] else Insert(t[0], ByRecency(t[1..]))
  }

  function Insert(r: Row, l: seq<Row>): seq<Row> {
    if l == [] || r.accessed > l[0].accessed then [r] + l else [l[0]] + Insert(r, l[1..])
  }

  /** The keys whose running total of bytes, most recent first, exceeds `budget`. */
  function OverBudget(l: seq<Row>, used: nat, budget: int): set<Key> {
    if l == [] then {}
    else (if used + Size(l[0]) > budget then {l[0].key} else {}) + OverBudget(l[1..], used + Size(l[0]), budget)
  }

  function NotIn(keys: set<Key>): Row -> bool {
    (r: Row) => r.key !in keys
  }

  // ----- the operations, as transactions on the table -----

  function Get(t: Table, k: Key, now: real): (Table, Option<Bytes>) {
    var live := Filter(t, NotStale(k, now));
    match Find(live, k)
    case None => (live, None)
    case Some(r) => (Touch(live, k, NextStamp(live)), Some(r.value))
  }

  /** A time to live: none, a number of seconds, or a float that is not finite (or makes the expiry so). */
  datatype Ttl = Forever | Seconds(value: real) | NotFinite

  function ExpiryAt(ttl: Ttl, now: real): Option<real>
    requires !ttl.NotFinite?
  {
    if ttl.Seconds? then Some(now + ttl.value) else None
  }

  predicate Retained(limit: nat, k: Key, value: Bytes, ttl: Ttl) {
    |k| + |value| <= limit && (ttl.Seconds? ==> ttl.value > 0.0)
  }

  function Set(limit: nat, t: Table, k: Key, value: Bytes, ttl: Ttl, now: real): Table
    requires !ttl.NotFinite?
  {
    var live := Filter(t, OtherAndFresh(k, now));
    if Retained(limit, k, value, ttl) then
      var kept := Filter(live, NotIn(OverBudget(ByRecency(live), 0, limit - (|k| + |value|))));
      kept + [Row(k, value, ExpiryAt(ttl, now), NextStamp(kept))]
    else live
  }

  function Delete(t: Table, k: Key): Table {
    Filter(t, OtherKey(k))
  }

  // ----- the invariant: keys and stamps are distinct -----

  ghost predicate KeyFree(t: Table, k: Key) {
    forall r :: r in t ==> r.key != k
  }

  ghost predicate Good(t: Table) {
    t == [] || (
      && KeyFree(t[1..], t[0].key)
      && (forall r :: r in t[1..] ==> r.accessed != t[0].accessed)
      && Good(t[1..]))
  }

  lemma {:induction false} FilterGood(t: Table, p: Row -> bool)
    requires Good(t)
    ensures Good(Filter(t, p))
  {
    if t != [] {
      FilterGood(t[1..], p);
      assert p(t[0]) ==> Filter(t, p)[1..] == Filter(t[1..], p);
      forall r ensures r in Filter(t[1..], p) ==> r in t[1..] {
        FilterMember(t[1..], p, r);
      }
    }
  }

  lemma {:induction false} AppendGood(t: Table, r: Row)
    requires Good(t) && KeyFree(t, r.key) && forall x :: x in t ==> x.accessed != r.accessed
    ensures Good(t + [r])
  {
    if t != [] {
      assert (t + [r])[1..] == t[1..] + [r];
      AppendGood(t[1..], r);
    }
  }

  lemma {:induction false} MaxStampBounds(t: Table, r: Row)
    requires r in t
    ensures r.accessed <= MaxStamp(t)
  {
    if r != t[0] {
      MaxStampBounds(t[1..], r);
    }
  }

  lemma {:induction false} TouchMember(t: Table, k: Key, stamp: int, r: Row)
    requires r in Touch(t, k, stamp)
    ensures exists x :: x in t && r == if x.key == k then x.(accessed := stamp) else x
  {
    if r != Touch(t, k, stamp)[0] {
      TouchMember(t[1..], k, stamp, r);
    }
  }

  lemma {:induction false} TouchGood(t: Table, k: Key, stamp: int)
    requires Good(t) && forall r :: r in t ==> r.accessed < stamp
    ensures Good(Touch(t, k, stamp))
  {
    if t != [] {
      TouchGood(t[1..], k, stamp);
      var head := Touch(t, k, stamp)[0];
      forall r | r in Touch(t[1..], k, stamp) ensures r.key != head.key && r.accessed != head.accessed {
        TouchMember(t[1..], k, stamp, r);
      }
    }
  }

  lemma StampIsNewest(t: Table)
    ensures forall r :: r in t ==> r.accessed < NextStamp(t)
  {
    forall r | r in t ensures r.accessed < NextStamp(t) {
      MaxStampBounds(t, r);
    }
  }

  lemma OpsKeepGood(limit: nat, t: Table, k: Key, value: Bytes, ttl: Ttl, now: real)
    requires Good(t) && !ttl.NotFinite?
    ensures Good(Get(t, k, now).0) && Good(Set(limit, t, k, value, ttl, now)) && Good(Delete(t, k))
  {
    FilterGood(t, NotStale(k, now));
    FilterGood(t, OtherKey(k));
    FilterGood(t, OtherAndFresh(k, now));
    var hit := Filter(t, NotStale(k, now));
    StampIsNewest(hit);
    TouchGood(hit, k, NextStamp(hit));
    var live := Filter(t, OtherAndFresh(k, now));
    var p := NotIn(OverBudget(ByRecency(live), 0, limit - (|k| + |value|)));
    FilterGood(live, p);
    var kept := Filter(live, p);
    StampIsNewest(kept);
    forall r | r in kept ensures r.key != k {
      FilterMember(live, p, r);
      FilterMember(t, OtherAndFresh(k, now), r);
    }
    AppendGood(kept, Row(k, value, ExpiryAt(ttl, now), NextStamp(kept)));
  }

  // ----- the table ordered by recency -----

  ghost predicate Desc(l: seq<Row>) {
    l == [] || ((forall r :: r in l[1..] ==> r.accessed < l[0].accessed) && Desc(l[1..]))
  }

  lemma {:induction false} InsertMember(r: Row, l: seq<Row>, x: Row)
    ensures x in Insert(r, l) <==> x == r || x in l
  {
    if l != [] && r.accessed <= l[0].accessed {
      InsertMember(r, l[1..], x);
    }
  }

  lemma {:induction false} RecencyMember(t: Table, x: Row)
    ensures x in ByRecency(t) <==> x in t
  {
    if t != [] {
      RecencyMember(t[1..], x);
      InsertMember(t[0], ByRecency(t[1..]), x);
    }
  }

  lemma {:induction false} InsertDesc(r: Row, l: seq<Row>)
    requires Desc(l) && forall x :: x in l ==> x.accessed != r.accessed
    ensures Desc(Insert(r, l))
  {
    if l != [] && r.accessed < l[0].accessed {
      InsertDesc(r, l[1..]);
      forall x | x in Insert(r, l[1..]) ensures x.accessed < l[0].accessed {
        InsertMember(r, l[1..], x);
      }
    }
  }

  lemma {:induction false} RecencyDesc(t: Table)
    requires Good(t)
    ensures Desc(ByRecency(t))
  {
    if t != [] {
      RecencyDesc(t[1..]);
      forall x | x in ByRecency(t[1..]) ensures x.accessed != t[0].accessed {
        RecencyMember(t[1..], x);
      }
      InsertDesc(t[0], ByRecency(t[1..]));
    }
  }

  lemma {:induction false} InsertSize(r: Row, l: seq<Row>)
    ensures Total(Insert(r, l), Size) == Size(r) + Total(l, Size)
  {
    if l != [] && r.accessed <= l[0].accessed {
      InsertSize(r, l[1..]);
    }
  }

  lemma {:induction false} RecencySize(t: Table)
    ensures Total(ByRecency(t), Size) == Total(t, Size)
  {
    if t != [] {
      RecencySize(t[1..]);
      InsertSize(t[0], ByRecency(t[1..]));
    }
  }

  lemma {:induction false} InsertFilter(r: Row, l: seq<Row>, p: Row -> bool)
    requires Desc(l)
    ensures Filter(Insert(r, l), p) == if p(r) then Insert(r, Filter(l, p)) else Filter(l, p)
  {
    if l != [] {
      if r.accessed > l[0].accessed {
        assert ([r] + l)[1..] == l;
        var rest := Filter(l, p);
        assert rest != [] ==> rest[0] in rest;
        if rest != [] {
          FilterMember(l, p, rest[0]);
        }
      } else {
        InsertFilter(r, l[1..], p);
        assert ([l[0]] + Insert(r, l[1..]))[1..] == Insert(r, l[1..]);
        assert p(l[0]) ==> Filter(l, p)[1..] == Filter(l[1..], p);
      }
    }
  }

  /** Deleting rows commutes with ordering them. */
  lemma {:induction false} RecencyFilter(t: Table, p: Row -> bool)
    requires Good(t)
    ensures ByRecency(Filter(t, p)) == Filter(ByRecency(t), p)
  {
    if t != [] {
      RecencyFilter(t[1..], p);
      RecencyDesc(t[1..]);
      InsertFilter(t[0], ByRecency(t[1..]), p);
      assert p(t[0]) ==> Filter(t, p)[1..] == Filter(t[1..], p);
    }
  }

  lemma {:induction false} RecencyAppend(t: Table, r: Row)
    requires forall x :: x in t ==> x.accessed < r.accessed
    ensures ByRecency(t + [r]) == [r] + ByRecency(t)
  {
    if t == [] {
      assert ByRecency([r]) == Insert(r, ByRecency([]));
    } else {
      assert (t + [r])[1..] == t[1..] + [r];
      RecencyAppend(t[1..], r);
      assert ([r] + ByRecency(t[1..]))[1..] == ByRecency(t[1..]);
    }
  }

  lemma {:induction false} TouchNone(t: Table, k: Key, stamp: int)
    requires KeyFree(t, k)
    ensures Touch(t, k, stamp) == t && Find(t, k).None? && Filter(t, OtherKey(k)) == t
  {
    if t != [] {
      TouchNone(t[1..], k, stamp);
    }
  }

  lemma RecencyKeyFree(t: Table, k: Key)
    requires KeyFree(t, k)
    ensures KeyFree(ByRecency(t), k)
  {
    forall r | r in ByRecency(t) ensures r.key != k {
      RecencyMember(t, r);
    }
  }

  /** Stamping a row as the newest moves it to the front. */
  lemma {:induction false} RecencyTouch(t: Table, k: Key, stamp: int)
    requires Good(t) && Find(t, k).Some? && forall r :: r in t ==> r.accessed < stamp
    ensures ByRecency(Touch(t, k, stamp)) ==
              [Find(t, k).value.(accessed := stamp)] + Filter(ByRecency(t), OtherKey(k))
  {
    var rest := ByRecency(t[1..]);
    RecencyDesc(t[1..]);
    InsertFilter(t[0], rest, OtherKey(k));
    if t[0].key == k {
      TouchNone(t[1..], k, stamp);
      RecencyKeyFree(t[1..], k);
      TouchNone(rest, k, stamp);
      var front := t[0].(accessed := stamp);
      assert Touch(t, k, stamp)[1..] == t[1..];
      forall x | x in rest ensures x.accessed < stamp {
        RecencyMember(t[1..], x);
      }
      assert rest != [] ==> rest[0] in rest;
    } else {
      RecencyTouch(t[1..], k, stamp);
      assert Touch(t, k, stamp)[1..] == Touch(t[1..], k, stamp);
      var front := Find(t[1..], k).value.(accessed := stamp);
      assert ([front] + Filter(rest, OtherKey(k)))[1..] == Filter(rest, OtherKey(k));
    }
  }

  // ----- what is kept: the longest most recent prefix that fits -----

  function Fitting(l: seq<Row>, budget: int): seq<Row> {
    if l == [] || Size(l[0]) > budget then [] else [l[0]] + Fitting(l[1..], budget - Size(l[0]))
  }

  /** It is a prefix, it fits, and no longer prefix does. */
  lemma {:induction false} FittingIsLongest(l: seq<Row>, budget: nat, n: nat)
    requires n <= |l|
    ensures Fitting(l, budget) <= l && Total(Fitting(l, budget), Size) <= budget
    ensures Total(l[..n], Size) <= budget <==> n <= |Fitting(l, budget)|
  {
    if l != [] && n > 0 {
      assert l[..n][1..] == l[1..][..n - 1];
      if Size(l[0]) <= budget {
        FittingIsLongest(l[1..], budget - Size(l[0]), n - 1);
      }
    } else if l != [] && Size(l[0]) <= budget {
      FittingIsLongest(l[1..], budget - Size(l[0]), 0);
    }
  }

  ghost predicate DistinctKeys(l: seq<Row>) {
    l == [] || (KeyFree(l[1..], l[0].key) && DistinctKeys(l[1..]))
  }

  lemma {:induction false} OverBudgetKeys(l: seq<Row>, used: nat, budget: int, k: Key)
    requires k in OverBudget(l, used, budget)
    ensures exists r :: r in l && r.key == k
  {
    if used + Size(l[0]) > budget && k == l[0].key {
      assert l[0] in l;
    } else {
      OverBudgetKeys(l[1..], used + Size(l[0]), budget, k);
      var r :| r in l[1..] && r.key == k;
      assert r in l;
    }
  }

  /** Deleting the keys that are over budget keeps the longest prefix that fits. */
  lemma {:induction false} EvictionKeepsPrefix(l: seq<Row>, used: nat, budget: int, keys: set<Key>)
    requires DistinctKeys(l)
    requires forall r :: r in l ==> (r.key in keys <==> r.key in OverBudget(l, used, budget))
    ensures Filter(l, NotIn(keys)) == Fitting(l, budget - used)
  {
    if l != [] {
      var tail := OverBudget(l[1..], used + Size(l[0]), budget);
      if used + Size(l[0]) > budget {
        forall r | r in l ensures r.key in keys {
          OverKeys(l, used, budget, r);
        }
        NoneKept(l, keys);
      } else {
        if l[0].key in tail {
          OverBudgetKeys(l[1..], used + Size(l[0]), budget, l[0].key);
        }
        EvictionKeepsPrefix(l[1..], used + Size(l[0]), budget, keys);
      }
    }
  }

  lemma {:induction false} OverKeys(l: seq<Row>, used: nat, budget: int, r: Row)
    requires r in l && used + Size(l[0]) > budget
    ensures r.key in OverBudget(l, used, budget)
  {
    if r != l[0] {
      OverKeys(l[1..], used + Size(l[0]), budget, r);
    }
  }

  lemma {:induction false} NoneKept(l: seq<Row>, keys: set<Key>)
    requires forall r :: r in l ==> r.key in keys
    ensures Filter(l, NotIn(keys)) == []
  {
    if l != [] {
      assert forall r :: r in l[1..] ==> r in l;
      NoneKept(l[1..], keys);
    }
  }

  lemma {:induction false} InsertDistinct(r: Row, l: seq<Row>)
    requires DistinctKeys(l) && KeyFree(l, r.key)
    ensures DistinctKeys(Insert(r, l))
  {
    if l != [] && r.accessed <= l[0].accessed {
      InsertDistinct(r, l[1..]);
      forall x | x in Insert(r, l[1..]) ensures x.key != l[0].key {
        InsertMember(r, l[1..], x);
      }
    }
  }

  lemma {:induction false} RecencyDistinct(t: Table)
    requires Good(t)
    ensures DistinctKeys(ByRecency(t))
  {
    if t != [] {
      RecencyDistinct(t[1..]);
      RecencyKeyFree(t[1..], t[0].key);
      InsertDistinct(t[0], ByRecency(t[1..]));
    }
  }

  // ----- the cache is a least-recently-used cache -----

  /** A hit moves its row to the front; a miss only drops the row if it had expired. */
  lemma GetByRecency(t: Table, k: Key, now: real)
    requires Good(t)
    ensures var (u, hit) := Get(t, k, now);
            var live := Filter(ByRecency(t), NotStale(k, now));
            match Find(Filter(t, NotStale(k, now)), k)
            case None => hit == None && ByRecency(u) == live
            case Some(r) => hit == Some(r.value)
                            && ByRecency(u) == [r.(accessed := NextStamp(Filter(t, NotStale(k, now))))]
                                               + Filter(live, OtherKey(k))
  {
    var live := Filter(t, NotStale(k, now));
    FilterGood(t, NotStale(k, now));
    RecencyFilter(t, NotStale(k, now));
    if Find(live, k).Some? {
      StampIsNewest(live);
      RecencyTouch(live, k, NextStamp(live));
    }
  }

  /** A key is hit exactly if it is in the table with no expiry, or one that is still to come. */
  lemma HitsExactly(t: Table, k: Key, now: real)
    requires Good(t)
    ensures Get(t, k, now).1.Some? <==> exists r :: r in t && r.key == k && (r.expires.None? || now < r.expires.value)
  {
    var live := Filter(t, NotStale(k, now));
    FindMember(live, k);
    if Find(live, k).Some? {
      FilterMember(t, NotStale(k, now), Find(live, k).value);
    }
    if r :| r in t && r.key == k && (r.expires.None? || now < r.expires.value) {
      FilterMember(t, NotStale(k, now), r);
      FindsKey(live, k, r);
    }
  }

  lemma {:induction false} FindsKey(t: Table, k: Key, r: Row)
    requires r in t && r.key == k
    ensures Find(t, k).Some?
  {
    if t[0].key != k {
      FindsKey(t[1..], k, r);
    }
  }

  /** What a set drops before it makes room: the old value of its key, and exactly what has expired. */
  lemma LiveExactly(t: Table, k: Key, now: real, r: Row)
    ensures r in Filter(t, OtherAndFresh(k, now)) <==>
              r in t && r.key != k && (r.expires.None? || now < r.expires.value)
  {
    FilterMember(t, OtherAndFresh(k, now), r);
  }

  /** A retained value goes to the front, behind it exactly the longest prefix of what was live that
      leaves room for it. */
  lemma SetByRecency(limit: nat, t: Table, k: Key, value: Bytes, ttl: Ttl, now: real)
    requires Good(t) && !ttl.NotFinite?
    ensures var live := Filter(ByRecency(t), OtherAndFresh(k, now));
            var u := ByRecency(Set(limit, t, k, value, ttl, now));
            if Retained(limit, k, value, ttl) then
              && u != [] && (u[0].key, u[0].value, u[0].expires) == (k, value, ExpiryAt(ttl, now))
              && u[1..] == Fitting(live, limit - (|k| + |value|))
            else u == live
  {
    hide ByRecency, Filter, Fitting, Good, OverBudget, NextStamp, DistinctKeys;
    var live := Filter(t, OtherAndFresh(k, now));
    FilterGood(t, OtherAndFresh(k, now));
    RecencyFilter(t, OtherAndFresh(k, now));
    if Retained(limit, k, value, ttl) {
      var keys := OverBudget(ByRecency(live), 0, limit - (|k| + |value|));
      var kept := Filter(live, NotIn(keys));
      RecencyFilter(live, NotIn(keys));
      RecencyDistinct(live);
      EvictionKeepsPrefix(ByRecency(live), 0, limit - (|k| + |value|), keys);
      StampIsNewest(kept);
      RecencyAppend(kept, Row(k, value, ExpiryAt(ttl, now), NextStamp(kept)));
    }
  }

  /** A value that is too large, or that would be gone at once, leaves no row of its key, and evicts nothing. */
  lemma NotRetainedLeavesNone(limit: nat, t: Table, k: Key, value: Bytes, ttl: Ttl, now: real, r: Row)
    requires !ttl.NotFinite? && (|k| + |value| > limit || (ttl.Seconds? && ttl.value <= 0.0))
    ensures r in Set(limit, t, k, value, ttl, now) <==>
              r in t && r.key != k && (r.expires.None? || now < r.expires.value)
  {
    LiveExactly(t, k, now, r);
  }

  /** The bytes of keys and values stay within the limit; a retained value even restores the bound. */
  lemma SetWithinLimit(limit: nat, t: Table, k: Key, value: Bytes, ttl: Ttl, now: real)
    requires Good(t) && !ttl.NotFinite?
    requires Total(t, Size) <= limit || Retained(limit, k, value, ttl)
    ensures Total(Set(limit, t, k, value, ttl, now), Size) <= limit
  {
    hide ByRecency, Fitting, Good, OverBudget, NextStamp;
    var live := Filter(t, OtherAndFresh(k, now));
    TotalFilter(t, OtherAndFresh(k, now), Size);
    if Retained(limit, k, value, ttl) {
      var u := Set(limit, t, k, value, ttl, now);
      SetByRecency(limit, t, k, value, ttl, now);
      RecencySize(u);
      FittingIsLongest(Filter(ByRecency(t), OtherAndFresh(k, now)), limit - (|k| + |value|), 0);
    }
  }

  /** Nothing live is evicted when everything fits. */
  lemma NothingEvictedWhenAllFits(limit: nat, t: Table, k: Key, value: Bytes, ttl: Ttl, now: real)
    requires Good(t) && !ttl.NotFinite? && Retained(limit, k, value, ttl)
    requires Total(Filter(t, OtherAndFresh(k, now)), Size) + |k| + |value| <= limit
    ensures ByRecency(Set(limit, t, k, value, ttl, now))[1..] == Filter(ByRecency(t), OtherAndFresh(k, now))
  {
    hide ByRecency, Filter, Good, OverBudget, NextStamp, Set;
    var live := Filter(t, OtherAndFresh(k, now));
    var l := ByRecency(live);
    SetByRecency(limit, t, k, value, ttl, now);
    RecencyFilter(t, OtherAndFresh(k, now));
    RecencySize(live);
    assert l[..|l|] == l;
    FittingIsLongest(l, limit - (|k| + |value|), |l|);
    hide Fitting;
  }

  // ----- the cache against a plain map -----

  datatype Op =
    | GetOp(key: Key, now: real)
    | SetOp(key: Key, value: Bytes, ttl: Ttl, now: real)
    | DeleteOp(key: Key)
    | ClearOp

  /** The map of a cache that never forgets: each key's last value and when it expires. */
  type Memory = map<Key, (Bytes, Option<real>)>

  function OnTable(limit: nat, t: Table, op: Op): Table {
    match op
    case GetOp(k, now) => Get(t, k, now).0
    case SetOp(k, value, ttl, now) => if ttl.NotFinite? then t else Set(limit, t, k, value, ttl, now)
    case DeleteOp(k) => Delete(t, k)
    case ClearOp => []
  }

  function OnMemory(m: Memory, op: Op): Memory {
    match op
    case GetOp(_, _) => m
    case SetOp(k, value, ttl, now) => if ttl.NotFinite? then m else m[k := (value, ExpiryAt(ttl, now))]
    case DeleteOp(k) => m - {k}
    case ClearOp => map[]
  }

  /** The table remembers nothing but what the memory holds. */
  ghost predicate Remembers(t: Table, m: Memory) {
    forall r :: r in t ==> r.key in m && m[r.key] == (r.value, r.expires)
  }

  lemma OpKeepsMemory(limit: nat, t: Table, m: Memory, op: Op)
    requires Remembers(t, m)
    ensures Remembers(OnTable(limit, t, op), OnMemory(m, op))
  {
    var n := OnMemory(m, op);
    forall r | r in OnTable(limit, t, op) ensures r.key in n && n[r.key] == (r.value, r.expires) {
      match op
      case GetOp(k, now) =>
        var live := Filter(t, NotStale(k, now));
        if Find(live, k).Some? {
          TouchMember(live, k, NextStamp(live), r);
          var x :| x in live && r == if x.key == k then x.(accessed := NextStamp(live)) else x;
          FilterMember(t, NotStale(k, now), x);
        } else {
          FilterMember(t, NotStale(k, now), r);
        }
      case SetOp(k, value, ttl, now) =>
        if !ttl.NotFinite? {
          SetMember(limit, t, k, value, ttl, now, r);
        }
      case DeleteOp(k) => FilterMember(t, OtherKey(k), r);
      case ClearOp =>
    }
  }

  lemma SetMember(limit: nat, t: Table, k: Key, value: Bytes, ttl: Ttl, now: real, r: Row)
    requires !ttl.NotFinite? && r in Set(limit, t, k, value, ttl, now)
    ensures (r in t && r.key != k) || (r.key == k && r.value == value && r.expires == ExpiryAt(ttl, now))
  {
    var live := Filter(t, OtherAndFresh(k, now));
    FilterMember(t, OtherAndFresh(k, now), r);
    FilterMember(live, NotIn(OverBudget(ByRecency(live), 0, limit - (|k| + |value|))), r);
  }

  lemma {:induction false} FindMember(t: Table, k: Key)
    ensures Find(t, k).Some? ==> Find(t, k).value in t && Find(t, k).value.key == k
  {
    if t != [] && t[0].key != k {
      FindMember(t[1..], k);
    }
  }

  function RunTable(limit: nat, t: Table, ops: seq<Op>): Table {
    if ops == [] then t else OnTable(limit, RunTable(limit, t, ops[..|ops| - 1]), ops[|ops| - 1])
  }

  function RunMemory(m: Memory, ops: seq<Op>): Memory {
    if ops == [] then m else OnMemory(RunMemory(m, ops[..|ops| - 1]), ops[|ops| - 1])
  }

  lemma {:induction false} RunIsGood(limit: nat, t: Table, ops: seq<Op>)
    requires Good(t) && Total(t, Size) <= limit
    ensures Good(RunTable(limit, t, ops)) && Total(RunTable(limit, t, ops), Size) <= limit
  {
    if ops != [] {
      RunIsGood(limit, t, ops[..|ops| - 1]);
      OpKeepsBound(limit, RunTable(limit, t, ops[..|ops| - 1]), ops[|ops| - 1]);
    }
  }

  lemma OpKeepsBound(limit: nat, t: Table, op: Op)
    requires Good(t) && Total(t, Size) <= limit
    ensures Good(OnTable(limit, t, op)) && Total(OnTable(limit, t, op), Size) <= limit
  {
    match op
    case GetOp(k, now) =>
      OpsKeepGood(limit, t, k, [], Forever, now);
      GetKeepsSize(t, k, now);
    case SetOp(k, value, ttl, now) =>
      if !ttl.NotFinite? {
        OpsKeepGood(limit, t, k, value, ttl, now);
        SetWithinLimit(limit, t, k, value, ttl, now);
      }
    case DeleteOp(k) =>
      OpsKeepGood(limit, t, k, [], Forever, 0.0);
      TotalFilter(t, OtherKey(k), Size);
    case ClearOp =>
  }

  lemma {:induction false} TouchSize(t: Table, k: Key, stamp: int)
    ensures Total(Touch(t, k, stamp), Size) == Total(t, Size)
  {
    if t != [] {
      TouchSize(t[1..], k, stamp);
    }
  }

  lemma GetKeepsSize(t: Table, k: Key, now: real)
    ensures Total(Get(t, k, now).0, Size) <= Total(t, Size)
  {
    TotalFilter(t, NotStale(k, now), Size);
    TouchSize(Filter(t, NotStale(k, now)), k, NextStamp(Filter(t, NotStale(k, now))));
  }

  /** After any operations on an empty cache: a hit is the last value set for that key, set since it was
      last deleted, and not expired now; keys and stamps are distinct; and the bytes are within the limit. */
  lemma {:induction false} CacheForgetsButNeverLies(limit: nat, ops: seq<Op>, k: Key, now: real)
    ensures var t, m := RunTable(limit, [], ops), RunMemory(map[], ops);
            && Good(t) && Total(t, Size) <= limit && Remembers(t, m)
            && var hit := Get(t, k, now).1;
               hit.Some? ==> k in m && hit.value == m[k].0 && (m[k].1.Some? ==> now < m[k].1.value)
  {
    RunIsGood(limit, [], ops);
    RunRemembers(limit, ops);
    var t := RunTable(limit, [], ops);
    var live := Filter(t, NotStale(k, now));
    FindMember(live, k);
    if Find(live, k).Some? {
      FilterMember(t, NotStale(k, now), Find(live, k).value);
    }
  }

  lemma {:induction false} RunRemembers(limit: nat, ops: seq<Op>)
    ensures Remembers(RunTable(limit, [], ops), RunMemory(map[], ops))
  {
    if ops != [] {
      RunRemembers(limit, ops[..|ops| - 1]);
      OpKeepsMemory(limit, RunTable(limit, [], ops[..|ops| - 1]), RunMemory(map[], ops[..|ops| - 1]), ops[|ops| - 1]);
    }
  }

  // ----- nothing is forgotten without a cause -----

  /** The bytes that an operation would add. */
  function Adds(op: Op): nat {
    if op.SetOp? then |op.key| + |op.value| else 0
  }

  predicate IsLive(entry: (Bytes, Option<real>), now: real) {
    entry.1.None? || now < entry.1.value
  }

  /** No operation happens after `now`. */
  ghost predicate NoneAfter(ops: seq<Op>, now: real) {
    forall i :: 0 <= i < |ops| && (ops[i].GetOp? || ops[i].SetOp?) ==> ops[i].now <= now
  }

  /** The clock does not run backwards. */
  ghost predicate InTime(ops: seq<Op>) {
    forall i :: 0 <= i < |ops| && (ops[i].GetOp? || ops[i].SetOp?) ==> NoneAfter(ops[..i], ops[i].now)
  }

  /** What the memory holds at `now`, and will hold for a while, is in the table. */
  ghost predicate HasLive(t: Table, m: Memory, now: real) {
    forall k :: k in m && IsLive(m[k], now) ==> exists r :: r in t && IsEntry(r, k, m[k])
  }

  predicate IsEntry(r: Row, k: Key, entry: (Bytes, Option<real>)) {
    r.key == k && r.value == entry.0 && r.expires == entry.1
  }

  lemma GetKeepsLive(t: Table, m: Memory, k: Key, at: real, now: real)
    requires HasLive(t, m, now) && at <= now
    ensures HasLive(Get(t, k, at).0, m, now)
  {
    var live := Filter(t, NotStale(k, at));
    var u := Get(t, k, at).0;
    forall j | j in m && IsLive(m[j], now) ensures exists r :: r in u && IsEntry(r, j, m[j]) {
      var r :| r in t && IsEntry(r, j, m[j]);
      FilterMember(t, NotStale(k, at), r);
      if Find(live, k).Some? {
        TouchKeeps(live, k, NextStamp(live), r);
      }
    }
  }

  lemma {:induction false} TouchKeeps(t: Table, k: Key, stamp: int, r: Row)
    requires r in t
    ensures (if r.key == k then r.(accessed := stamp) else r) in Touch(t, k, stamp)
  {
    if r != t[0] {
      TouchKeeps(t[1..], k, stamp, r);
    }
  }

  /** Where everything fits, a set drops nothing but the old value and what has expired. */
  lemma SetKeepsLive(limit: nat, t: Table, m: Memory, k: Key, value: Bytes, ttl: Ttl, at: real, now: real)
    requires Good(t) && HasLive(t, m, now) && at <= now && !ttl.NotFinite?
    requires Total(t, Size) + |k| + |value| <= limit
    ensures HasLive(Set(limit, t, k, value, ttl, at), m[k := (value, ExpiryAt(ttl, at))], now)
  {
    var n, u := m[k := (value, ExpiryAt(ttl, at))], Set(limit, t, k, value, ttl, at);
    var live := Filter(t, OtherAndFresh(k, at));
    TotalFilter(t, OtherAndFresh(k, at), Size);
    SetByRecency(limit, t, k, value, ttl, at);
    RecencyFilter(t, OtherAndFresh(k, at));
    if Retained(limit, k, value, ttl) {
      NothingEvictedWhenAllFits(limit, t, k, value, ttl, at);
    }
    hide Set, Fitting, Filter, ByRecency, Good, HasLive, Retained;
    forall j | j in n && IsLive(n[j], now) ensures exists r :: r in u && IsEntry(r, j, n[j]) {
      SetKeepsOne(limit, t, m, k, value, ttl, at, now, j);
    }
    assert HasLive(u, n, now) by {
      LiveOf(u, n, now);
    }
  }

  lemma LiveOf(t: Table, m: Memory, now: real)
    requires forall k :: k in m && IsLive(m[k], now) ==> exists r :: r in t && IsEntry(r, k, m[k])
    ensures HasLive(t, m, now)
  {
  }

  lemma SetKeepsOne(limit: nat, t: Table, m: Memory, k: Key, value: Bytes, ttl: Ttl, at: real, now: real, j: Key)
    requires Good(t) && HasLive(t, m, now) && at <= now && !ttl.NotFinite?
    requires Total(t, Size) + |k| + |value| <= limit
    requires var n := m[k := (value, ExpiryAt(ttl, at))]; j in n && IsLive(n[j], now)
    ensures var n, u := m[k := (value, ExpiryAt(ttl, at))], Set(limit, t, k, value, ttl, at);
            exists r :: r in u && IsEntry(r, j, n[j])
  {
    var n, u := m[k := (value, ExpiryAt(ttl, at))], Set(limit, t, k, value, ttl, at);
    var live := Filter(t, OtherAndFresh(k, at));
    var l := ByRecency(u);
    TotalFilter(t, OtherAndFresh(k, at), Size);
    SetByRecency(limit, t, k, value, ttl, at);
    RecencyFilter(t, OtherAndFresh(k, at));
    if j == k {
      assert Retained(limit, k, value, ttl);
      assert l[0] in l;
      RecencyMember(u, l[0]);
      assert l[0] in u && IsEntry(l[0], j, n[j]);
    } else {
      var r :| r in t && IsEntry(r, j, m[j]);
      LiveExactly(t, k, at, r);
      RecencyMember(live, r);
      if Retained(limit, k, value, ttl) {
        NothingEvictedWhenAllFits(limit, t, k, value, ttl, at);
        assert r in l[1..];
      }
      assert r in l;
      RecencyMember(u, r);
    }
  }

  lemma LastInTime(ops: seq<Op>)
    requires ops != [] && InTime(ops)
    ensures InTime(ops[..|ops| - 1])
  {
    var front := ops[..|ops| - 1];
    forall i | 0 <= i < |front| && (front[i].GetOp? || front[i].SetOp?) ensures NoneAfter(front[..i], front[i].now) {
      assert front[..i] == ops[..i] && front[i] == ops[i];
    }
  }

  /** Bytes in the table were added by some operation. */
  lemma {:induction false} RunAdds(limit: nat, ops: seq<Op>)
    requires Total(ops, Adds) <= limit
    ensures Total(RunTable(limit, [], ops), Size) <= Total(ops, Adds)
  {
    if ops != [] {
      var front, op := ops[..|ops| - 1], ops[|ops| - 1];
      assert ops == front + [op];
      TotalAppend(front, op, Adds);
      RunAdds(limit, front);
      OpAdds(limit, RunTable(limit, [], front), op);
    }
  }

  lemma OpAdds(limit: nat, t: Table, op: Op)
    ensures Total(OnTable(limit, t, op), Size) <= Total(t, Size) + Adds(op)
  {
    match op
    case GetOp(k, now) => GetKeepsSize(t, k, now);
    case SetOp(k, value, ttl, now) =>
      if !ttl.NotFinite? {
        var live := Filter(t, OtherAndFresh(k, now));
        TotalFilter(t, OtherAndFresh(k, now), Size);
        var over := NotIn(OverBudget(ByRecency(live), 0, limit - (|k| + |value|)));
        TotalFilter(live, over, Size);
        TotalAppend(Filter(live, over), Row(k, value, ExpiryAt(ttl, now), NextStamp(Filter(live, over))), Size);
      }
    case DeleteOp(k) => TotalFilter(t, OtherKey(k), Size);
    case ClearOp =>
  }

  lemma {:induction false} RunHasLive(limit: nat, ops: seq<Op>, now: real)
    requires Total(ops, Adds) <= limit && InTime(ops) && NoneAfter(ops, now)
    ensures HasLive(RunTable(limit, [], ops), RunMemory(map[], ops), now)
  {
    if ops != [] {
      var front, op := ops[..|ops| - 1], ops[|ops| - 1];
      assert ops == front + [op];
      TotalAppend(front, op, Adds);
      LastInTime(ops);
      assert NoneAfter(front, now);
      RunHasLive(limit, front, now);
      RunAdds(limit, front);
      RunIsGood(limit, [], front);
      var t, m := RunTable(limit, [], front), RunMemory(map[], front);
      hide InTime, NoneAfter, RunTable, RunMemory, Set, Get, Good;
      match op {
        case GetOp(k, at) => GetKeepsLive(t, m, k, at, now);
        case SetOp(k, value, ttl, at) =>
          if !ttl.NotFinite? {
            SetKeepsLive(limit, t, m, k, value, ttl, at, now);
          }
        case DeleteOp(k) =>
          forall j | j in m - {k} && IsLive(m[j], now) ensures exists r :: r in Delete(t, k) && IsEntry(r, j, m[j]) {
            var r :| r in t && IsEntry(r, j, m[j]);
            FilterMember(t, OtherKey(k), r);
          }
        case ClearOp =>
      }
    }
  }

  /** After any operations on an empty cache, on a clock that does not run backwards: if all that was ever set
      fits, the cache is a map. A key is hit exactly if its last value was not deleted since and has not expired,
      and then with that value. */
  lemma AllIsRememberedThatFits(limit: nat, ops: seq<Op>, k: Key, now: real)
    requires Total(ops, Adds) <= limit && InTime(ops) && NoneAfter(ops, now)
    ensures var t, m := RunTable(limit, [], ops), RunMemory(map[], ops);
            Get(t, k, now).1 == if k in m && IsLive(m[k], now) then Some(m[k].0) else None
  {
    var t, m := RunTable(limit, [], ops), RunMemory(map[], ops);
    CacheForgetsButNeverLies(limit, ops, k, now);
    RunHasLive(limit, ops, now);
    HitsExactly(t, k, now);
    hide RunTable, RunMemory, Get, Good, Remembers;
    if k in m && IsLive(m[k], now) {
      var r :| r in t && IsEntry(r, k, m[k]);
    }
  }
}
