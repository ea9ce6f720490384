/**
 Civil dates of days counted from 1 January 1970, by the closed form that the request signers use.
 The rule for leap years is the one of Appendix C of RFC 3339.
 */
module Calendar {

  datatype Date = Date(year: int, month: int, day: int)

  /** Rust's `/`: the quotient is truncated toward zero. */
  function TruncDiv(a: int, b: int): int
    requires b > 0
  {
    if a >= 0 then a / b else -((-a) / b)
  }

  function DaysToYmd(days: int): Date {
    var z := days + 719468;
    var era := TruncDiv(if z >= 0 then z else z - 146096, 146097);
    var doe := z - era * 146097;
    var yoe := TruncDiv(doe - TruncDiv(doe, 1460) + TruncDiv(doe, 36524) - TruncDiv(doe, 146096), 365);
    var y := yoe + era * 400;
    var doy := doe - (365 * yoe + TruncDiv(yoe, 4) - TruncDiv(yoe, 100));
    var mp := TruncDiv(5 * doy + 2, 153);
    var d := doy - TruncDiv(153 * mp + 2, 5) + 1;
    var m := if mp < 10 then mp + 3 else mp - 9;
    Date(if m <= 2 then y + 1 else y, m, d)
  }

  // ----- the calendar, defined by counting -----

  predicate IsLeap(year: int) {
    year % 4 == 0 && (year % 100 != 0 || year % 400 == 0)
  }

  function DaysIn(year: int, month: int): int {
    if month == 2 then (if IsLeap(year) then 29 else 28)
    else if month == 4 || month == 6 || month == 9 || month == 11 then 30
    else 31
  }

  predicate IsDate(d: Date) {
    1 <= d.month <= 12 && 1 <= d.day <= DaysIn(d.year, d.month)
  }

  function NextDay(d: Date): Date {
    if d.day < DaysIn(d.year, d.month) then Date(d.year, d.month, d.day + 1)
    else if d.month < 12 then Date(d.year, d.month + 1, 1)
    else Date(d.year + 1, 1, 1)
  }

  const EPOCH := Date(1970, 1, 1)

  // ----- the years of an era, each of which starts on a 1 March -----

  /** Days of an era before its year `yoe`. */
  function YearStart(yoe: nat): nat {
    365 * yoe + yoe / 4 - yoe / 100
  }

  /** Such a year ends with the February of the next calendar year. */
  function YearLength(yoe: nat): nat {
    if IsLeap(yoe + 1) then 366 else 365
  }

  function YearOfEra(doe: nat): int {
    TruncDiv(doe - TruncDiv(doe, 1460) + TruncDiv(doe, 36524) - TruncDiv(doe, 146096), 365)
  }

  lemma Quotient(a: int, b: int, q: int)
    requires b > 0 && b * q <= a < b * q + b
    ensures a / b == q
  {
    var r := a / b;
    assert r < q ==> b * (r + 1) <= b * q;
    assert r > q ==> b * (q + 1) <= b * r;
  }

  /** Year 100c + 4q + t of an era, and its day k: the corrections of the closed form cancel. */
  lemma YearOfEraInBlocks(c: nat, q: nat, t: nat, k: nat)
    requires c <= 3 && q <= 24 && t <= 3 && k <= 365
    requires k == 365 ==> t == 3 && (q == 24 ==> c == 3)
    ensures YearOfEra(36524 * c + 1461 * q + 365 * t + k) == 100 * c + 4 * q + t
  {
    var doe := 36524 * c + 1461 * q + 365 * t + k;
    var e := if 24 * c + q + 365 * t + k >= 1460 then 1 else 0;
    Quotient(doe, 1460, 25 * c + q + e);
    var last := if doe == 146096 then 1 else 0;
    Quotient(doe, 36524, c + last);
    Quotient(doe, 146096, last);
    Quotient(365 * (100 * c + 4 * q + t) + k - e, 365, 100 * c + 4 * q + t);
  }

  lemma BlockStart(c: nat, q: nat, t: nat)
    requires c <= 3 && q <= 24 && t <= 3
    ensures YearStart(100 * c + 4 * q + t) == 36524 * c + 1461 * q + 365 * t
    ensures YearLength(100 * c + 4 * q + t) == 366 <==> t == 3 && (q == 24 ==> c == 3)
  {
    Quotient(100 * c + 4 * q + t, 4, 25 * c + q);
    Quotient(100 * c + 4 * q + t, 100, c);
  }

  lemma Blocks(yoe: nat) returns (c: nat, q: nat, t: nat)
    requires yoe < 400
    ensures c <= 3 && q <= 24 && t <= 3 && yoe == 100 * c + 4 * q + t
    ensures YearStart(yoe) == 36524 * c + 1461 * q + 365 * t
    ensures YearLength(yoe) == if t == 3 && (q == 24 ==> c == 3) then 366 else 365
  {
    c := yoe / 100;
    q := yoe % 100 / 4;
    t := yoe % 4;
    BlockStart(c, q, t);
  }

  /** Each day of each year of an era is given that year. */
  lemma YearOfEraAt(yoe: nat, k: nat)
    requires yoe < 400 && k < YearLength(yoe)
    ensures YearOfEra(YearStart(yoe) + k) == yoe
  {
    var c, q, t := Blocks(yoe);
    YearOfEraInBlocks(c, q, t, k);
  }

  /** Each day of an era lies in one of its 400 years. */
  lemma YearOfEraExists(doe: nat)
    requires doe < 146097
    ensures var y := YearOfEra(doe); 0 <= y < 400 && YearStart(y) <= doe < YearStart(y) + YearLength(y)
  {
    var c := if doe == 146096 then 3 else doe / 36524;
    var r := doe - 36524 * c;
    var q := r / 1461;
    var s := r - 1461 * q;
    var t := if s == 1460 then 3 else s / 365;
    assert 0 <= r <= 36524 && (r == 36524 ==> c == 3);
    assert s - 365 * t <= 365 && (s - 365 * t == 365 ==> t == 3 && (q == 24 ==> c == 3));
    YearOfEraInBlocks(c, q, t, s - 365 * t);
    BlockStart(c, q, t);
  }

  /** The years of an era follow one another without a gap, and fill it. */
  lemma YearsAbut(yoe: nat)
    requires yoe < 400
    ensures yoe < 399 ==> YearStart(yoe + 1) == YearStart(yoe) + YearLength(yoe)
    ensures yoe == 399 ==> YearStart(yoe) + YearLength(yoe) == 146097
  {
    var c, q, t := Blocks(yoe);
    hide YearStart, YearLength;
    if yoe < 399 {
      if t < 3 {
        BlockStart(c, q, t + 1);
      } else if q < 24 {
        BlockStart(c, q + 1, 0);
      } else {
        BlockStart(c + 1, 0, 0);
      }
    }
  }

  // ----- the months of such a year -----

  function MonthStart(mp: nat): nat {
    (153 * mp + 2) / 5
  }

  function MonthOf(mp: int): int {
    if mp < 10 then mp + 3 else mp - 9
  }

  /** Day k of the year lies in month mp, counted from March. */
  lemma MonthOfDay(k: nat)
    requires k < 366
    ensures var mp := (5 * k + 2) / 153; mp < 12 && MonthStart(mp) <= k && (mp < 11 ==> k < MonthStart(mp + 1))
  {
  }

  lemma MonthAt(mp: nat, k: nat)
    requires mp < 12 && k < 366 && MonthStart(mp) <= k && (mp < 11 ==> k < MonthStart(mp + 1))
    ensures (5 * k + 2) / 153 == mp
  {
  }

  lemma MonthLengths(mp: nat, year: int)
    requires mp < 12
    ensures mp < 11 ==> MonthStart(mp + 1) - MonthStart(mp) == DaysIn(year, MonthOf(mp))
    ensures mp == 11 ==> MonthStart(11) == 337
  {
  }

  // ----- the closed form on every integer -----

  /** Where a day lies: its era, the year of that era, the day of that year and its month from March. */
  datatype Place = Place(era: int, yoe: nat, k: nat, mp: nat)

  predicate IsPlace(p: Place) {
    && p.yoe < 400 && p.k < YearLength(p.yoe) && p.mp < 12
    && MonthStart(p.mp) <= p.k && (p.mp < 11 ==> p.k < MonthStart(p.mp + 1))
  }

  function DayOf(p: Place): int {
    p.era * 146097 + YearStart(p.yoe) + p.k - 719468
  }

  function DateOf(p: Place): Date {
    Date(p.era * 400 + p.yoe + (if p.mp >= 10 then 1 else 0), MonthOf(p.mp), p.k - MonthStart(p.mp) + 1)
  }

  lemma EraOf(era: int, doe: nat)
    requires doe < 146097
    ensures var z := era * 146097 + doe; TruncDiv(if z >= 0 then z else z - 146096, 146097) == era
  {
    var z := era * 146097 + doe;
    if z >= 0 {
      Quotient(z, 146097, era);
    } else {
      Quotient(146096 - z, 146097, -era);
    }
  }

  lemma DayOfEra(p: Place)
    requires IsPlace(p)
    ensures YearStart(p.yoe) + p.k < 146097
  {
    var c, q, t := Blocks(p.yoe);
  }

  /** The closed form, given what each of its divisions amounts to. */
  lemma Assemble(days: int, era: int, doe: int, yoe: int, k: int, mp: int, start: int)
    requires var z := days + 719468; TruncDiv(if z >= 0 then z else z - 146096, 146097) == era
    requires doe == days + 719468 - era * 146097
    requires TruncDiv(doe - TruncDiv(doe, 1460) + TruncDiv(doe, 36524) - TruncDiv(doe, 146096), 365) == yoe
    requires doe - (365 * yoe + TruncDiv(yoe, 4) - TruncDiv(yoe, 100)) == k
    requires TruncDiv(5 * k + 2, 153) == mp && TruncDiv(153 * mp + 2, 5) == start
    requires 0 <= mp < 12
    ensures DaysToYmd(days) == Date(era * 400 + yoe + (if mp >= 10 then 1 else 0), MonthOf(mp), k - start + 1)
  {
    hide TruncDiv;
  }

  lemma PlaceGivesDate(p: Place)
    requires IsPlace(p)
    ensures DaysToYmd(DayOf(p)) == DateOf(p)
  {
    hide DaysToYmd;
    DayOfEra(p);
    var doe := YearStart(p.yoe) + p.k;
    EraOf(p.era, doe);
    YearOfEraAt(p.yoe, p.k);
    MonthAt(p.mp, p.k);
    assert TruncDiv(153 * p.mp + 2, 5) == MonthStart(p.mp);
    Assemble(DayOf(p), p.era, doe, p.yoe, p.k, p.mp, MonthStart(p.mp));
  }

  lemma PlaceOf(days: int) returns (p: Place)
    ensures IsPlace(p) && DayOf(p) == days
  {
    var era := (days + 719468) / 146097;
    var doe := (days + 719468) % 146097;
    YearOfEraExists(doe);
    var yoe := YearOfEra(doe);
    var k := doe - YearStart(yoe);
    MonthOfDay(k);
    p := Place(era, yoe, k, (5 * k + 2) / 153);
  }

  lemma LeapInEra(era: int, y: int)
    ensures IsLeap(era * 400 + y) == IsLeap(y)
  {
    ModShift(y, 4, 100 * era);
    ModShift(y, 100, 4 * era);
    ModShift(y, 400, era);
  }

  lemma ModShift(a: int, b: int, q: int)
    requires b > 0
    ensures (b * q + a) % b == a % b
  {
    assert b * (q + a / b) == b * q + b * (a / b);
    Quotient(b * q + a, b, q + a / b);
  }

  lemma DateOfPlace(p: Place)
    requires IsPlace(p)
    ensures IsDate(DateOf(p))
    ensures DaysIn(DateOf(p).year, DateOf(p).month)
              == (if p.mp < 11 then MonthStart(p.mp + 1) else YearLength(p.yoe)) - MonthStart(p.mp)
  {
    MonthLengths(p.mp, DateOf(p).year);
    LeapInEra(p.era, p.yoe + 1);
  }

  function NextPlace(p: Place): Place {
    if p.k + 1 < YearLength(p.yoe) then
      Place(p.era, p.yoe, p.k + 1, if p.mp < 11 && p.k + 1 == MonthStart(p.mp + 1) then p.mp + 1 else p.mp)
    else if p.yoe < 399 then Place(p.era, p.yoe + 1, 0, 0)
    else Place(p.era + 1, 0, 0, 0)
  }

  lemma MonthsAbut(mp: nat)
    requires mp < 12
    ensures MonthStart(mp) + 1 < MonthStart(mp + 1) && (mp < 11 ==> MonthStart(mp + 1) + 1 < MonthStart(mp + 2))
  {
  }

  lemma FirstOfYear()
    ensures MonthStart(0) == 0 && MonthStart(1) == 31 && YearStart(0) == 0
  {
  }

  lemma YearIsLong(yoe: nat)
    ensures YearLength(yoe) >= 365
  {
    hide IsLeap;
  }

  lemma NextIsPlace(p: Place)
    requires IsPlace(p)
    ensures IsPlace(NextPlace(p))
  {
    hide MonthStart, YearStart, YearLength;
    MonthsAbut(p.mp);
    YearIsLong(p.yoe + 1);
    YearIsLong(0);
    FirstOfYear();
  }

  lemma NextPlaceIsNext(p: Place)
    requires IsPlace(p)
    ensures IsPlace(NextPlace(p)) && DayOf(NextPlace(p)) == DayOf(p) + 1
  {
    hide MonthStart, YearStart, YearLength;
    NextIsPlace(p);
    YearsAbut(p.yoe);
    FirstOfYear();
  }

  /** Every integer day has a valid date. */
  lemma AlwaysADate(days: int)
    ensures IsDate(DaysToYmd(days))
  {
    var p := PlaceOf(days);
    PlaceGivesDate(p);
    DateOfPlace(p);
  }

  /** The date of the next day is the next date of the calendar. */
  lemma Successor(days: int)
    ensures DaysToYmd(days + 1) == NextDay(DaysToYmd(days))
  {
    hide DaysToYmd, DayOf, YearStart, DaysIn;
    var p := PlaceOf(days);
    PlaceGivesDate(p);
    DateOfPlace(p);
    NextPlaceIsNext(p);
    PlaceGivesDate(NextPlace(p));
    assert MonthStart(0) == 0;
  }

  lemma EpochIsDayZero()
    ensures DaysToYmd(0) == EPOCH
  {
    assert TruncDiv(719468, 146097) == 4;
    assert TruncDiv(135080, 1460) == 92 && TruncDiv(135080, 36524) == 3 && TruncDiv(135080, 146096) == 0;
    assert TruncDiv(134991, 365) == 369 && TruncDiv(369, 4) == 92 && TruncDiv(369, 100) == 3;
    assert TruncDiv(1532, 153) == 10 && TruncDiv(1532, 5) == 306;
    hide TruncDiv;
  }

  function PreviousDay(d: Date): Date {
    if d.day > 1 then Date(d.year, d.month, d.day - 1)
    else if d.month > 1 then Date(d.year, d.month - 1, DaysIn(d.year, d.month - 1))
    else Date(d.year - 1, 12, 31)
  }

  /** The date reached from the epoch by stepping one day at a time. */
  function CountDays(days: int): Date
    decreases if days < 0 then -days else days
  {
    if days == 0 then EPOCH
    else if days > 0 then NextDay(CountDays(days - 1))
    else PreviousDay(CountDays(days + 1))
  }

  lemma PreviousOfNext(d: Date)
    requires IsDate(d)
    ensures PreviousDay(NextDay(d)) == d
  {
  }

  /** The closed form counts days: forward and backward, without a bound. */
  lemma {:induction false} ClosedFormCounts(days: int)
    ensures DaysToYmd(days) == CountDays(days)
    decreases if days < 0 then -days else days
  {
    hide DaysToYmd, NextDay, PreviousDay, IsDate;
    if days > 0 {
      ClosedFormCounts(days - 1);
      Successor(days - 1);
    } else if days < 0 {
      ClosedFormCounts(days + 1);
      Successor(days);
      AlwaysADate(days);
      PreviousOfNext(DaysToYmd(days));
    } else {
      EpochIsDayZero();
    }
  }

  /** The place of a date: years start in March, so January and February belong to the year before. */
  function PlaceOfDate(d: Date): Place
    requires IsDate(d)
  {
    var y := if d.month <= 2 then d.year - 1 else d.year;
    var mp := if d.month > 2 then d.month - 3 else d.month + 9;
    Place(y / 400, y % 400, MonthStart(mp) + d.day - 1, mp)
  }

  lemma PlaceOfDateIsPlace(d: Date)
    requires IsDate(d)
    ensures IsPlace(PlaceOfDate(d)) && DateOf(PlaceOfDate(d)) == d
  {
    var p := PlaceOfDate(d);
    MonthLengths(p.mp, d.year);
    LeapInEra(p.era, p.yoe + 1);
    assert p.era * 400 + p.yoe == if d.month <= 2 then d.year - 1 else d.year;
  }

  /** Every valid date is the date of exactly one day. */
  lemma Bijection(d: Date, days: int)
    requires IsDate(d)
    ensures DaysToYmd(days) == d <==> days == DayOf(PlaceOfDate(d))
  {
    PlaceOfDateIsPlace(d);
    PlaceGivesDate(PlaceOfDate(d));
    var p := PlaceOf(days);
    PlaceGivesDate(p);
    if DateOf(p) == d {
      SamePlace(p, PlaceOfDate(d));
    }
  }

  lemma SamePlace(p: Place, q: Place)
    requires IsPlace(p) && IsPlace(q) && DateOf(p) == DateOf(q)
    ensures p == q
  {
    assert p.mp == q.mp;
    assert p.era * 400 + p.yoe == q.era * 400 + q.yoe;
    Quotient(p.era * 400 + p.yoe, 400, p.era);
    Quotient(q.era * 400 + q.yoe, 400, q.era);
  }

  // ----- seconds -----

  /** The date and time of day of a moment, by the copy of the closed form that works on seconds. */
  function SecsToDatetime(secs: nat): (Date, nat, nat, nat) {
    var days := secs / 86400;
    var timeOfDay := secs % 86400;
    var z := days + 719468;
    var era := TruncDiv(if z >= 0 then z else z - 146096, 146097);
    var doe := z - era * 146097;
    var yoe := TruncDiv(doe - TruncDiv(doe, 1460) + TruncDiv(doe, 36524) - TruncDiv(doe, 146096), 365);
    var y := yoe + era * 400;
    var doy := doe - (365 * yoe + TruncDiv(yoe, 4) - TruncDiv(yoe, 100));
    var mp := TruncDiv(5 * doy + 2, 153);
    var d := doy - TruncDiv(153 * mp + 2, 5) + 1;
    var m := if mp < 10 then mp + 3 else mp - 9;
    (Date(if m <= 2 then y + 1 else y, m, d), timeOfDay / 3600, timeOfDay % 3600 / 60, timeOfDay % 60)
  }

  /** The copy agrees with the closed form on days. */
  lemma CopyAgrees(secs: nat)
    ensures SecsToDatetime(secs).0 == DaysToYmd(secs / 86400)
  {
    hide TruncDiv;
  }

  /** The four fields name a valid moment, and exactly one second. */
  lemma SecondsRoundTrip(secs: nat)
    ensures var (d, h, m, s) := SecsToDatetime(secs);
            && d == CountDays(secs / 86400) && IsDate(d)
            && h < 24 && m < 60 && s < 60
            && secs == DayOf(PlaceOfDate(d)) * 86400 + h * 3600 + m * 60 + s
  {
    var days := secs / 86400;
    CopyAgrees(secs);
    AlwaysADate(days);
    ClosedFormCounts(days);
    Bijection(DaysToYmd(days), days);
    TimeOfDay(secs);
    hide DaysToYmd, CountDays, DayOf, PlaceOfDate, TruncDiv, IsDate;
  }

  lemma TimeOfDay(secs: nat)
    ensures var (d, h, m, s) := SecsToDatetime(secs);
            && h < 24 && m < 60 && s < 60
            && secs == secs / 86400 * 86400 + h * 3600 + m * 60 + s
  {
    hide TruncDiv;
  }
}
