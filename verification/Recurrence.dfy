/** Recurring events and the time-range index (internal/calendar/freebusy.go:70-123, ical.go:50-78,
    sqlstore.go:256-276). Instants are whole seconds since the Unix epoch, in UTC, as the parser yields them. */
module Recurrence {
  import opened Common
  import opened FreeBusy

  const DAY := 86400
  const MAX_OCCURRENCES: nat := 1000
  /** RecurUntilMS, 2100-01-01, in seconds. */
  const RECUR_UNTIL := 4102444800

  // ---------- the calendar behind time.AddDate ----------

  function LeapDays(y: int): int {
    y / 4 - y / 100 + y / 400
  }

  predicate Leap(y: int) {
    y % 4 == 0 && (y % 100 != 0 || y % 400 == 0)
  }

  /** Days of a year before its month `m` (0 is January). */
  function DaysBefore(m: int, leap: bool): int
    requires 0 <= m <= 12
  {
    [0, 31, 59, 90, 120, 151, 181, 212, 243, 273, 304, 334, 365][m] + if leap && m >= 2 then 1 else 0
  }

  /** The day number of the first day of month `k`, counted from January of year 0; day 0 is 1970-01-01. */
  function MonthStart(k: int): int {
    var y := k / 12;
    365 * (y - 1) + LeapDays(y - 1) + DaysBefore(k % 12, Leap(y)) - 719162
  }

  /** Quotients step up exactly at multiples. */
  lemma DivStep(y: int, n: int)
    requires n > 1
    ensures y / n - (y - 1) / n == if y % n == 0 then 1 else 0
  {
    var q, r := y / n, y % n;
    assert y == n * q + r;
    if r == 0 {
      Quotient(y - 1, n, q - 1, n - 1);
    } else {
      Quotient(y - 1, n, q, r - 1);
    }
  }

  lemma Quotient(x: int, n: int, q: int, r: int)
    requires n > 1 && 0 <= r < n && x == n * q + r
    ensures x / n == q
  {
    var d := x / n - q;
    assert x == n * (x / n) + x % n;
    assert n * d == r - x % n;
    assert d >= 1 ==> n * d >= n;
    assert d <= -1 ==> n * d <= -n;
  }

  lemma LeapStep(y: int)
    ensures LeapDays(y) - LeapDays(y - 1) == if Leap(y) then 1 else 0
  {
    DivStep(y, 4);
    DivStep(y, 100);
    DivStep(y, 400);
    assert y % 400 == 0 ==> y % 100 == 0;
    assert y % 100 == 0 ==> y % 4 == 0;
  }

  /** The days of month `k` of the Gregorian calendar. */
  function MonthDays(k: int): int {
    DaysIn(k % 12, Leap(k / 12))
  }

  function DaysIn(m: int, leap: bool): int
    requires 0 <= m < 12
  {
    [31, if leap then 29 else 28, 31, 30, 31, 30, 31, 31, 30, 31, 30, 31][m]
  }

  lemma TableStep(m: int, leap: bool)
    requires 0 <= m < 12
    ensures DaysBefore(m + 1, leap) - DaysBefore(m, leap) == DaysIn(m, leap) && 28 <= DaysIn(m, leap) <= 31
    ensures DaysBefore(0, leap) == 0 && DaysBefore(12, leap) == if leap then 366 else 365
  {
  }

  /** The months follow each other at their real lengths, from January 1970 on day 0. */
  lemma MonthLength(k: int)
    ensures MonthStart(k + 1) - MonthStart(k) == MonthDays(k) && 28 <= MonthDays(k) <= 31
    ensures MonthStart(12 * 1970) == 0
  {
    hide LeapDays, DaysBefore, DaysIn, Leap;
    var y, m := k / 12, k % 12;
    TableStep(m, Leap(y));
    TableStep(0, Leap(y + 1));
    if m < 11 {
      assert (k + 1) / 12 == y && (k + 1) % 12 == m + 1;
    } else {
      assert (k + 1) / 12 == y + 1 && (k + 1) % 12 == 0;
      LeapStep(y);
    }
    EpochMonth();
  }

  lemma EpochMonth()
    ensures MonthStart(12 * 1970) == 0
  {
    assert (12 * 1970) / 12 == 1970 && (12 * 1970) % 12 == 0;
  }

  /** The end of the index is the first of January 2100. */
  lemma RecurUntilIs()
    ensures RECUR_UNTIL == MonthStart(12 * 2100) * 86400
  {
    assert (12 * 2100) / 12 == 2100 && (12 * 2100) % 12 == 0;
  }

  /** The Gregorian calendar repeats after 400 years of 146097 days. */
  lemma GregorianCycle(k: int)
    ensures MonthStart(k + 4800) == MonthStart(k) + 146097 && MonthDays(k + 4800) == MonthDays(k)
  {
    var y := k / 12;
    assert (k + 4800) / 12 == y + 400 && (k + 4800) % 12 == k % 12;
    assert (y + 399) / 4 == (y - 1) / 4 + 100 && (y + 399) / 100 == (y - 1) / 100 + 4;
    assert (y + 399) / 400 == (y - 1) / 400 + 1;
    assert (y + 400) % 4 == y % 4 && (y + 400) % 100 == y % 100 && (y + 400) % 400 == y % 400;
  }

  lemma {:induction false} MonthsIncrease(k: int, n: nat)
    ensures MonthStart(k + n) >= MonthStart(k) + 28 * n
    decreases n
  {
    hide MonthStart;
    if n > 0 {
      MonthsIncrease(k, n - 1);
      MonthLength(k + n - 1);
    }
  }

  /** The month a day falls in, searched from month `k`. */
  function MonthFrom(day: int, k: int): (r: int)
    ensures MonthStart(r) <= day < MonthStart(r + 1)
    decreases if day < MonthStart(k) then MonthStart(k) - day else day - MonthStart(k),
              if day < MonthStart(k) then 0 else 1
  {
    hide MonthStart;
    MonthLength(k);
    MonthLength(k - 1);
    if day < MonthStart(k) then
      if day >= MonthStart(k - 1) then k - 1 else MonthFrom(day, k - 1)
    else if day >= MonthStart(k + 1) then MonthFrom(day, k + 1)
    else k
  }

  /** AddDate(0, n, 0) on a day: same day of the month n months on, overflowing into the next month. */
  function AddMonths(day: int, n: nat): int {
    var k := MonthFrom(day, 12 * 1970);
    MonthStart(k + n) + (day - MonthStart(k))
  }

  datatype Freq = Daily | Weekly | Monthly | Yearly

  datatype Rule = Rule(freq: Freq, interval: int, count: nat, until: Option<int>)

  /** stepFreq. */
  function StepFreq(t: int, freq: Freq, interval: int): int
    requires interval >= 1
  {
    var day, rest := t / DAY, t % DAY;
    match freq
    case Daily => (day + interval) * DAY + rest
    case Weekly => (day + 7 * interval) * DAY + rest
    case Monthly => AddMonths(day, interval) * DAY + rest
    case Yearly => AddMonths(day, 12 * interval) * DAY + rest
  }

  // ---------- what a step means ----------

  /** Day number `day` is day `d`, counted from 0, of month `k`. */
  ghost predicate OnDate(day: int, k: int, d: int) {
    0 <= d < MonthDays(k) && day == MonthStart(k) + d
  }

  /** Every day has a date, and only one. */
  lemma DateOf(day: int) returns (k: int, d: int)
    ensures OnDate(day, k, d) && k == MonthFrom(day, 12 * 1970)
    ensures forall j, e :: OnDate(day, j, e) ==> j == k && e == d
  {
    hide MonthStart, MonthFrom, MonthDays;
    k := MonthFrom(day, 12 * 1970);
    d := day - MonthStart(k);
    MonthLength(k);
    forall j, e | OnDate(day, j, e)
      ensures j == k && e == d
    {
      MonthLength(j);
      if j < k {
        MonthsIncrease(j + 1, k - j - 1);
      } else if k < j {
        MonthsIncrease(k + 1, j - k - 1);
      }
    }
  }

  /** A day moved on by `n` months is the same day of the month there; where that month is too short, the days that
      are missing run over into the next one. */
  lemma AddMonthsDate(day: int, n: nat, k: int, d: int)
    requires OnDate(day, k, d)
    ensures d < MonthDays(k + n) ==> OnDate(AddMonths(day, n), k + n, d)
    ensures d >= MonthDays(k + n) ==> OnDate(AddMonths(day, n), k + n + 1, d - MonthDays(k + n))
  {
    hide MonthStart, MonthFrom, MonthDays;
    var j, e := DateOf(day);
    MonthLength(k);
    MonthLength(k + n);
    MonthLength(k + n + 1);
  }

  /** Daily and weekly steps are that many days long. Monthly and yearly steps keep the time of day and the day of the
      month, `interval` or 12 * `interval` months on, as far as that month has it. */
  lemma StepMeans(t: int, interval: int, k: int, d: int)
    requires interval >= 1 && OnDate(t / 86400, k, d)
    ensures StepFreq(t, Daily, interval) == t + interval * 86400
    ensures StepFreq(t, Weekly, interval) == t + interval * 604800
    ensures MonthsOn(t, StepFreq(t, Monthly, interval), k, d, interval)
    ensures MonthsOn(t, StepFreq(t, Yearly, interval), k, d, 12 * interval)
  {
    hide AddMonths, OnDate, MonthDays;
    var day, rest := t / DAY, t % DAY;
    assert t == day * DAY + rest && 0 <= rest < DAY;
    AddMonthsDate(day, interval, k, d);
    AddMonthsDate(day, 12 * interval, k, d);
    TimeOfDay(AddMonths(day, interval), rest);
    TimeOfDay(AddMonths(day, 12 * interval), rest);
    assert (day + 7 * interval) * DAY + rest == t + interval * 604800;
  }

  lemma TimeOfDay(day: int, rest: int)
    requires 0 <= rest < 86400
    ensures (day * 86400 + rest) / 86400 == day && (day * 86400 + rest) % 86400 == rest
  {
  }

  /** `s` is the instant `t`, on day `d` of month `k`, moved on by `n` months. */
  ghost predicate MonthsOn(t: int, s: int, k: int, d: int, n: int) {
    && s % 86400 == t % 86400
    && if d < MonthDays(k + n) then OnDate(s / 86400, k + n, d)
       else OnDate(s / 86400, k + n + 1, d - MonthDays(k + n))
  }

  /** stepFreq always moves forward, by at least a day. */
  lemma StepIncreases(t: int, freq: Freq, interval: int)
    requires interval >= 1
    ensures StepFreq(t, freq, interval) >= t + DAY
  {
    hide AddMonths;
    var day, rest := t / DAY, t % DAY;
    assert t == day * DAY + rest;
    AddMonthsIncreases(day, interval);
    AddMonthsIncreases(day, 12 * interval);
  }

  lemma AddMonthsIncreases(day: int, n: nat)
    ensures AddMonths(day, n) >= day + 28 * n
  {
    hide MonthStart, MonthFrom;
    MonthsIncrease(MonthFrom(day, 12 * 1970), n);
  }

  // ---------- expandBusy ----------

  /** A parsed event; `rule` is None when the RRULE does not parse. */
  datatype Event = Event(first: int, dur: int, recurring: bool, rule: Option<Rule>)

  ghost predicate ValidEvent(ev: Event) {
    ev.rule.Some? ==> ev.rule.value.interval >= 1
  }

  function BusyLength(ev: Event): (d: int)
    ensures d >= 0
  {
    if ev.dur < 0 then 0 else ev.dur
  }

  predicate InWindow(s: int, d: int, winStart: int, winEnd: int) {
    s < winEnd && s + d > winStart
  }

  /** The i-th occurrence. */
  function Occurrence(r: Rule, first: int, i: nat): int
    requires r.interval >= 1
  {
    if i == 0 then first else StepFreq(Occurrence(r, first, i - 1), r.freq, r.interval)
  }

  lemma OccurrenceSteps(r: Rule, first: int, i: nat)
    requires r.interval >= 1
    ensures Occurrence(r, first, 0) == first
    ensures Occurrence(r, first, i + 1) == StepFreq(Occurrence(r, first, i), r.freq, r.interval)
  {
    hide StepFreq;
  }

  lemma EvenSteps(t: int, interval: int)
    requires interval >= 1
    ensures StepFreq(t, Daily, interval) == t + 86400 * interval
    ensures StepFreq(t, Weekly, interval) == t + 604800 * interval
  {
    hide StepFreq, MonthsOn, OnDate;
    var k, d := DateOf(t / 86400);
    StepMeans(t, interval, k, d);
  }

  function Times(i: int, n: int): int {
    i * n
  }

  lemma OnceMore(i: int, n: int)
    ensures Times(0, n) == 0 && Times(i + 1, n) == Times(i, n) + n
  {
  }

  /** The occurrences of a daily or weekly rule are evenly spaced. */
  lemma {:induction false} EvenlySpaced(r: Rule, first: int, i: nat)
    requires r.interval >= 1
    ensures r.freq.Daily? ==> Occurrence(r, first, i) == first + 86400 * Times(i, r.interval)
    ensures r.freq.Weekly? ==> Occurrence(r, first, i) == first + 604800 * Times(i, r.interval)
    decreases i
  {
    hide StepFreq, Occurrence, Times;
    OccurrenceSteps(r, first, if i > 0 then i - 1 else 0);
    OnceMore(if i > 0 then i - 1 else 0, r.interval);
    if i > 0 {
      EvenlySpaced(r, first, i - 1);
      EvenSteps(Occurrence(r, first, i - 1), r.interval);
    }
  }

  /** The occurrences of a monthly or yearly rule fall on one day of the month, at one time of day, if every month has
      that day. */
  lemma {:induction false} SameDayOfMonth(r: Rule, first: int, i: nat, k: int, d: int)
    requires r.interval >= 1 && (r.freq.Monthly? || r.freq.Yearly?) && OnDate(first / 86400, k, d) && d < 28
    ensures Occurrence(r, first, i) % 86400 == first % 86400
    ensures OnDate(Occurrence(r, first, i) / 86400,
                   k + Times(i, if r.freq.Yearly? then 12 * r.interval else r.interval), d)
    decreases i
  {
    hide StepFreq, OnDate, MonthDays, Occurrence, Times;
    OccurrenceSteps(r, first, if i > 0 then i - 1 else 0);
    var n := if r.freq.Yearly? then 12 * r.interval else r.interval;
    OnceMore(if i > 0 then i - 1 else 0, n);
    if i > 0 {
      SameDayOfMonth(r, first, i - 1, k, d);
      StepMeans(Occurrence(r, first, i - 1), r.interval, k + Times(i - 1, n), d);
      MonthLength(k + Times(i - 1, n) + n);
    }
  }

  lemma {:induction false} OccurrencesIncrease(r: Rule, first: int, i: nat, j: nat)
    requires r.interval >= 1 && i <= j
    ensures Occurrence(r, first, i) <= Occurrence(r, first, j)
    decreases j
  {
    if i < j {
      OccurrencesIncrease(r, first, i, j - 1);
      StepIncreases(Occurrence(r, first, j - 1), r.freq, r.interval);
    }
  }

  predicate Happens(r: Rule, first: int, i: nat)
    requires r.interval >= 1
  {
    (r.count == 0 || i < r.count) && (r.until.Some? ==> Occurrence(r, first, i) <= r.until.value)
  }

  /** The plain definition: of the occurrences i, i+1, ..., n-1 that happen, those that meet the window. */
  function BusyFrom(r: Rule, first: int, d: int, winStart: int, winEnd: int, i: nat, n: nat): seq<Interval>
    requires r.interval >= 1 && i <= n
    decreases n - i
  {
    if i == n then []
    else
      var t := Occurrence(r, first, i);
      (if Happens(r, first, i) && InWindow(t, d, winStart, winEnd) then [Interval(t, t + d)] else [])
      + BusyFrom(r, first, d, winStart, winEnd, i + 1, n)
  }

  function Single(ev: Event, winStart: int, winEnd: int): seq<Interval> {
    if InWindow(ev.first, BusyLength(ev), winStart, winEnd) then [Interval(ev.first, ev.first + BusyLength(ev))] else []
  }

  ghost function Busy(ev: Event, winStart: int, winEnd: int): seq<Interval>
    requires ValidEvent(ev)
  {
    if ev.recurring && ev.rule.Some? then
      BusyFrom(ev.rule.value, ev.first, BusyLength(ev), winStart, winEnd, 0, MAX_OCCURRENCES)
    else Single(ev, winStart, winEnd)
  }

  /** The busy intervals of an event that does not recur, or whose rule does not parse: its one occurrence, if it
      overlaps the window. */
  lemma SingleBusy(ev: Event, winStart: int, winEnd: int, iv: Interval)
    requires ValidEvent(ev) && !(ev.recurring && ev.rule.Some?)
    ensures iv in Busy(ev, winStart, winEnd) <==>
              && iv == Interval(ev.first, if ev.dur > 0 then ev.first + ev.dur else ev.first)
              && iv.start < winEnd && iv.end > winStart
    ensures |Busy(ev, winStart, winEnd)| <= 1
  {
  }

  /** `iv` is the i-th occurrence of the event: within the first 1000, within COUNT, by UNTIL, and in the window. */
  ghost predicate Counted(ev: Event, winStart: int, winEnd: int, i: nat, iv: Interval)
    requires ValidEvent(ev) && ev.rule.Some?
  {
    var r := ev.rule.value;
    && i < 1000 && (r.count > 0 ==> i < r.count)
    && iv.start == Occurrence(r, ev.first, i)
    && iv.end == iv.start + (if ev.dur > 0 then ev.dur else 0)
    && (r.until.Some? ==> iv.start <= r.until.value)
    && iv.start < winEnd && iv.end > winStart
  }

  /** The busy intervals of a recurring event are its occurrences, each once and in order. */
  lemma RecurringBusy(ev: Event, winStart: int, winEnd: int)
    requires ValidEvent(ev) && ev.recurring && ev.rule.Some?
    ensures forall iv :: iv in Busy(ev, winStart, winEnd) <==> exists i: nat :: Counted(ev, winStart, winEnd, i, iv)
    ensures var out := Busy(ev, winStart, winEnd); forall i, j :: 0 <= i < j < |out| ==> out[i].start < out[j].start
  {
    hide Busy, BusyFrom, Occurrence;
    var r, d := ev.rule.value, BusyLength(ev);
    BusyIs(ev, winStart, winEnd);
    BusyFromAscends(r, ev.first, d, winStart, winEnd, 0, MAX_OCCURRENCES);
    forall iv
      ensures iv in Busy(ev, winStart, winEnd) <==> exists i: nat :: Counted(ev, winStart, winEnd, i, iv)
    {
      BusyFromHolds(r, ev.first, d, winStart, winEnd, 0, MAX_OCCURRENCES, iv);
      if iv in Busy(ev, winStart, winEnd) {
        var i :| 0 <= i < MAX_OCCURRENCES && Listed(r, ev.first, d, winStart, winEnd, i, iv);
        assert Counted(ev, winStart, winEnd, i, iv);
      }
      if i: nat :| Counted(ev, winStart, winEnd, i, iv) {
        assert Listed(r, ev.first, d, winStart, winEnd, i, iv);
      }
    }
  }

  lemma BusyIs(ev: Event, winStart: int, winEnd: int)
    requires ValidEvent(ev) && ev.recurring && ev.rule.Some?
    ensures Busy(ev, winStart, winEnd) ==
            BusyFrom(ev.rule.value, ev.first, BusyLength(ev), winStart, winEnd, 0, MAX_OCCURRENCES)
  {
    hide BusyFrom;
  }

  ghost predicate Listed(r: Rule, first: int, d: int, winStart: int, winEnd: int, i: nat, iv: Interval)
    requires r.interval >= 1
  {
    var t := Occurrence(r, first, i);
    Happens(r, first, i) && InWindow(t, d, winStart, winEnd) && iv == Interval(t, t + d)
  }

  lemma {:induction false} BusyFromHolds(r: Rule, first: int, d: int, winStart: int, winEnd: int, i: nat, n: nat,
                                         iv: Interval)
    requires r.interval >= 1 && i <= n
    ensures iv in BusyFrom(r, first, d, winStart, winEnd, i, n) <==>
              exists j :: i <= j < n && Listed(r, first, d, winStart, winEnd, j, iv)
    decreases n - i
  {
    hide Occurrence, InWindow, Happens;
    if i < n {
      BusyFromHolds(r, first, d, winStart, winEnd, i + 1, n, iv);
      if Listed(r, first, d, winStart, winEnd, i, iv) {
        assert iv in BusyFrom(r, first, d, winStart, winEnd, i, n);
      }
    }
  }

  lemma {:induction false} BusyFromAscends(r: Rule, first: int, d: int, winStart: int, winEnd: int, i: nat, n: nat)
    requires r.interval >= 1 && i <= n
    ensures var out := BusyFrom(r, first, d, winStart, winEnd, i, n);
            && (forall a, b :: 0 <= a < b < |out| ==> out[a].start < out[b].start)
            && forall a :: 0 <= a < |out| ==> out[a].start >= Occurrence(r, first, i)
    decreases n - i
  {
    hide InWindow, Happens, StepFreq, Occurrence, BusyFrom;
    BusyStep(r, first, d, winStart, winEnd, i, n);
    OccurrenceSteps(r, first, i);
    if i < n {
      BusyFromAscends(r, first, d, winStart, winEnd, i + 1, n);
      StepIncreases(Occurrence(r, first, i), r.freq, r.interval);
      var t, rest := Occurrence(r, first, i), BusyFrom(r, first, d, winStart, winEnd, i + 1, n);
      Ascending(Interval(t, t + d), rest);
      var out := BusyFrom(r, first, d, winStart, winEnd, i, n);
      assert out == rest || out == [Interval(t, t + d)] + rest;
    }
  }

  lemma Ascending(iv: Interval, rest: seq<Interval>)
    requires forall a :: 0 <= a < |rest| ==> rest[a].start > iv.start
    requires forall a, b :: 0 <= a < b < |rest| ==> rest[a].start < rest[b].start
    ensures var out := [iv] + rest;
            && (forall a, b :: 0 <= a < b < |out| ==> out[a].start < out[b].start)
            && forall a :: 0 <= a < |out| ==> out[a].start >= iv.start
  {
  }

  /** Once an occurrence is out of range in one of the ways that end the loop, all later ones are. */
  lemma {:induction false} NothingLater(r: Rule, first: int, d: int, winStart: int, winEnd: int, i: nat, n: nat)
    requires r.interval >= 1 && i <= n
    requires !Happens(r, first, i) || Occurrence(r, first, i) >= winEnd
    ensures BusyFrom(r, first, d, winStart, winEnd, i, n) == []
    decreases n - i
  {
    if i < n {
      OccurrencesIncrease(r, first, i, i + 1);
      NothingLater(r, first, d, winStart, winEnd, i + 1, n);
    }
  }

  /** expandBusy, with its early exits, lists exactly the occurrences that meet the window. */
  method ExpandBusy(ev: Event, winStart: int, winEnd: int) returns (out: seq<Interval>)
    requires ValidEvent(ev)
    ensures out == Busy(ev, winStart, winEnd)
  {
    var d := BusyLength(ev);
    if !ev.recurring || ev.rule.None? {
      return Single(ev, winStart, winEnd);
    }
    out := ExpandRule(ev.rule.value, ev.first, d, winStart, winEnd, MAX_OCCURRENCES);
  }

  lemma BusyStep(r: Rule, first: int, d: int, winStart: int, winEnd: int, i: nat, n: nat)
    requires r.interval >= 1 && i <= n
    ensures BusyFrom(r, first, d, winStart, winEnd, n, n) == []
    ensures i < n ==>
      var t := Occurrence(r, first, i);
      BusyFrom(r, first, d, winStart, winEnd, i, n) ==
        (if Happens(r, first, i) && InWindow(t, d, winStart, winEnd) then [Interval(t, t + d)] else [])
        + BusyFrom(r, first, d, winStart, winEnd, i + 1, n)
  {
    hide StepFreq, Occurrence;
  }

  /** The loop over at most `n` occurrences of a rule. */
  method ExpandRule(r: Rule, first: int, d: int, winStart: int, winEnd: int, n: nat) returns (out: seq<Interval>)
    requires r.interval >= 1
    ensures out == BusyFrom(r, first, d, winStart, winEnd, 0, n)
  {
    hide StepFreq, Occurrence, BusyFrom;
    out := [];
    var t := first;
    OccurrenceSteps(r, first, 0);
    BusyStep(r, first, d, winStart, winEnd, 0, n);
    for i := 0 to n
      invariant t == Occurrence(r, first, i)
      invariant out + BusyFrom(r, first, d, winStart, winEnd, i, n) == BusyFrom(r, first, d, winStart, winEnd, 0, n)
    {
      if (r.count > 0 && i >= r.count) || (r.until.Some? && t > r.until.value) || !(t < winEnd) {
        NothingLater(r, first, d, winStart, winEnd, i, n);
        return out;
      }
      OccurrenceSteps(r, first, i);
      BusyStep(r, first, d, winStart, winEnd, i, n);
      if InWindow(t, d, winStart, winEnd) {
        out := out + [Interval(t, t + d)];
      }
      t := StepFreq(t, r.freq, r.interval);
    }
  }

  // ---------- the range index ----------

  /** LastOccur: the real end, or 2100-01-01 for a recurring event. */
  function LastOccur(ev: Event): int {
    if ev.recurring then RECUR_UNTIL else ev.first + ev.dur
  }

  /** The WHERE clause of ObjectsInRange; the columns hold the instants times 1000. */
  predicate Selected(ev: Event, start: int, end: int) {
    1000 * ev.first < 1000 * end && 1000 * LastOccur(ev) >= 1000 * start
  }

  predicate Within(t: int, lo: int, hi: int) {
    lo <= t <= hi
  }

  /** The index selects what overlaps the window: an event from its start to its end, a recurring one to 2100. */
  lemma SelectedMeets(ev: Event, start: int, end: int)
    requires start < end && ev.first <= if ev.recurring then 4102444800 else ev.first + ev.dur
    ensures var last := if ev.recurring then 4102444800 else ev.first + ev.dur;
            Selected(ev, start, end) <==> exists t :: Within(t, ev.first, last) && Within(t, start, end - 1)
  {
    var last := if ev.recurring then 4102444800 else ev.first + ev.dur;
    if Selected(ev, start, end) {
      var t := if ev.first >= start then ev.first else start;
      assert Within(t, ev.first, last) && Within(t, start, end - 1);
    }
  }

  /** The index drops no busy time of a single event, whatever the window, exactly when the event does not end
      more than a second before it starts. */
  lemma IndexLosesNothing(ev: Event)
    requires ValidEvent(ev) && !ev.recurring
    ensures (forall start, end :: !Selected(ev, start, end) ==> Busy(ev, start, end) == []) <==> ev.dur >= -1
  {
    if ev.dur < -1 {
      var start, end := ev.first - 1, ev.first + 1;
      assert !Selected(ev, start, end) && Busy(ev, start, end) == [Interval(ev.first, ev.first)];
    }
  }

  /** An event that ends two seconds before it starts is busy at its start, and the index passes it over. */
  lemma EarlyEndDropped()
    ensures var ev := Event(100, -2, false, None);
            ValidEvent(ev) && !Selected(ev, 99, 101) && Busy(ev, 99, 101) == [Interval(100, 100)]
  {
  }

  /** A window loses no busy time of any recurring event exactly when it starts by 2100-01-01. */
  lemma RecurringWindows(start: int, end: int)
    ensures (forall ev :: ValidEvent(ev) && ev.recurring && !Selected(ev, start, end) ==> Busy(ev, start, end) == [])
            <==> start <= RECUR_UNTIL
  {
    hide Busy;
    if start <= RECUR_UNTIL {
      forall ev | ValidEvent(ev) && ev.recurring && !Selected(ev, start, end)
        ensures Busy(ev, start, end) == []
      {
        IndexKeepsRecurring(ev, start, end);
      }
    } else {
      LateWindowLoses(start, end);
    }
  }

  lemma LateWindowLoses(start: int, end: int)
    requires start > RECUR_UNTIL
    ensures var ev := Event(end - 1, if start < end then 2 else start - end + 2, true, None);
            ValidEvent(ev) && !Selected(ev, start, end) && Busy(ev, start, end) != []
  {
  }

  lemma IndexKeepsRecurring(ev: Event, start: int, end: int)
    requires ValidEvent(ev) && ev.recurring && start <= RECUR_UNTIL && !Selected(ev, start, end)
    ensures Busy(ev, start, end) == []
  {
    hide StepFreq;
    if ev.rule.Some? {
      var r := ev.rule.value;
      assert Occurrence(r, ev.first, 0) >= end;
      NothingLater(r, ev.first, BusyLength(ev), start, end, 0, MAX_OCCURRENCES);
    }
  }

  /** A daily event from the last day of the index: a window past it sees nothing although the event goes on. */
  lemma IndexEndsIn2100() returns (ev: Event, start: int, end: int)
    ensures ValidEvent(ev) && !Selected(ev, start, end) && Busy(ev, start, end) != []
  {
    ev := Event(RECUR_UNTIL, 3600, true, Some(Rule(Daily, 1, 1, None)));
    start, end := RECUR_UNTIL + 60, RECUR_UNTIL + 120;
    var r := ev.rule.value;
    assert Occurrence(r, ev.first, 0) == RECUR_UNTIL;
    assert Happens(r, ev.first, 0) && InWindow(RECUR_UNTIL, 3600, start, end);
    assert BusyFrom(r, ev.first, 3600, start, end, 0, MAX_OCCURRENCES) ==
           [Interval(RECUR_UNTIL, RECUR_UNTIL + 3600)] + BusyFrom(r, ev.first, 3600, start, end, 1, MAX_OCCURRENCES);
  }

  /** No busy interval ends before it starts, so the merge meets proper intervals only. */
  lemma {:induction false} BusyIsProper(ev: Event, start: int, end: int)
    requires ValidEvent(ev)
    ensures Proper(Busy(ev, start, end))
  {
    if ev.recurring && ev.rule.Some? {
      BusyFromProper(ev.rule.value, ev.first, BusyLength(ev), start, end, 0, MAX_OCCURRENCES);
    }
  }

  lemma {:induction false} BusyFromProper(r: Rule, first: int, d: int, start: int, end: int, i: nat, n: nat)
    requires r.interval >= 1 && i <= n && d >= 0
    ensures Proper(BusyFrom(r, first, d, start, end, i, n))
    decreases n - i
  {
    hide Occurrence;
    if i < n {
      BusyFromProper(r, first, d, start, end, i + 1, n);
    }
  }

  ghost function BusyOfAll(evs: seq<Event>, start: int, end: int): seq<Interval>
    requires forall i :: 0 <= i < |evs| ==> ValidEvent(evs[i])
  {
    if evs == [] then [] else BusyOfAll(evs[..|evs| - 1], start, end) + Busy(evs[|evs| - 1], start, end)
  }

  function InRange(evs: seq<Event>, start: int, end: int): (r: seq<Event>)
    ensures forall ev :: ev in r ==> ev in evs
  {
    if evs == [] then []
    else
      var init := InRange(evs[..|evs| - 1], start, end);
      if Selected(evs[|evs| - 1], start, end) then init + [evs[|evs| - 1]] else init
  }

  /** The busy list of the selected objects is the busy list of all objects. */
  lemma {:induction false} RangeQueryLosesNothing(evs: seq<Event>, start: int, end: int)
    requires forall i :: 0 <= i < |evs| ==> ValidEvent(evs[i]) && (evs[i].recurring || evs[i].dur >= 0)
    requires start <= RECUR_UNTIL
    ensures forall i :: 0 <= i < |InRange(evs, start, end)| ==> ValidEvent(InRange(evs, start, end)[i])
    ensures BusyOfAll(InRange(evs, start, end), start, end) == BusyOfAll(evs, start, end)
    decreases |evs|
  {
    if evs != [] {
      var init, ev := evs[..|evs| - 1], evs[|evs| - 1];
      RangeQueryLosesNothing(init, start, end);
      if Selected(ev, start, end) {
        var kept := InRange(init, start, end);
        assert (kept + [ev])[..|kept + [ev]| - 1] == kept;
      } else if ev.recurring {
        IndexKeepsRecurring(ev, start, end);
      }
    }
  }
}
