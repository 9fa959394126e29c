/**
 What the weekly and monthly flags of the acknowledged pings count, although only the number of the week
 within its year and of the month within its year are remembered.
 */
module PingCounts {
  import opened Calendar
  import opened YmdStrings
  import opened StatsPing
  import opened StatsTheorems

  // ------------------------------------------------------------ changes and values

  predicate IsChange(keys: seq<int>, i: nat)
    requires i < |keys|
  {
    i == 0 || keys[i] != keys[i - 1]
  }

  function CountChanges(keys: seq<int>): nat {
    if keys == [] then 0
    else CountChanges(keys[..|keys| - 1]) + (if IsChange(keys, |keys| - 1) then 1 else 0)
  }

  function Values(keys: seq<int>): set<int> {
    set i | 0 <= i < |keys| :: keys[i]
  }

  lemma ValuesGrow(keys: seq<int>, n: nat)
    requires |keys| == n + 1
    ensures Values(keys) == Values(keys[..n]) + {keys[n]}
  {
  }

  lemma ChangeIsNew(keys: seq<int>, n: nat)
    requires |keys| == n + 1 && (forall i, j :: 0 <= i < j < |keys| ==> keys[i] <= keys[j])
    ensures |Values(keys)| == |Values(keys[..n])| + if IsChange(keys, n) then 1 else 0
  {
    ValuesGrow(keys, n);
    if IsChange(keys, n) {
      forall i | 0 <= i < n
        ensures keys[..n][i] != keys[n]
      {
        assert keys[i] <= keys[n - 1] < keys[n];
      }
    } else {
      assert keys[..n][n - 1] in Values(keys[..n]);
      assert Values(keys) == Values(keys[..n]);
    }
  }

  /** In a nondecreasing sequence every change brings a new value. */
  lemma {:induction false} ChangesAreValues(keys: seq<int>)
    requires forall i, j :: 0 <= i < j < |keys| ==> keys[i] <= keys[j]
    ensures CountChanges(keys) == |Values(keys)|
    decreases |keys|
  {
    if keys != [] {
      ChangesAreValues(keys[..|keys| - 1]);
      ChangeIsNew(keys, |keys| - 1);
    }
  }

  function CountTrue(flags: seq<bool>): nat {
    if flags == [] then 0 else CountTrue(flags[..|flags| - 1]) + (if flags[|flags| - 1] then 1 else 0)
  }

  /** No change goes without its flag. */
  ghost predicate AllFlagged(flags: seq<bool>, keys: seq<int>)
    requires |flags| == |keys|
  {
    forall i :: 0 <= i < |flags| && IsChange(keys, i) ==> flags[i]
  }

  lemma AllFlaggedSnoc(flags: seq<bool>, keys: seq<int>, n: nat)
    requires |flags| == |keys| == n + 1
    ensures forall i :: 0 <= i < n ==> (IsChange(keys[..n], i) <==> IsChange(keys, i))
    ensures AllFlagged(flags, keys) <==> AllFlagged(flags[..n], keys[..n]) && (IsChange(keys, n) ==> flags[n])
  {
    forall i | 0 <= i < n
      ensures IsChange(keys[..n], i) <==> IsChange(keys, i)
      ensures flags[..n][i] == flags[i]
    {
    }
  }

  /** Flags that are raised at changes only never count too many of them, and count all exactly when all
      changes are flagged. */
  lemma {:induction false} FlagsCountChanges(flags: seq<bool>, keys: seq<int>)
    requires |flags| == |keys|
    requires forall i :: 0 <= i < |flags| && flags[i] ==> IsChange(keys, i)
    ensures CountTrue(flags) <= CountChanges(keys)
    ensures CountTrue(flags) == CountChanges(keys) <==> AllFlagged(flags, keys)
    decreases |flags|
  {
    if flags != [] {
      var n := |flags| - 1;
      AllFlaggedSnoc(flags, keys, n);
      FlagsCountChanges(flags[..n], keys[..n]);
    }
  }

  lemma {:induction false} FlagsCountValues(flags: seq<bool>, keys: seq<int>)
    requires |flags| == |keys|
    requires forall i :: 0 <= i < |flags| && flags[i] ==> IsChange(keys, i)
    requires forall i, j :: 0 <= i < j < |keys| ==> keys[i] <= keys[j]
    ensures CountTrue(flags) <= |Values(keys)|
    ensures CountTrue(flags) == |Values(keys)| <==> AllFlagged(flags, keys)
  {
    ChangesAreValues(keys);
    FlagsCountChanges(flags, keys);
  }

  // ------------------------------------------------------------ weeks and months of pings

  function Weeks(acks: seq<Ping>): seq<int> {
    seq(|acks|, i requires 0 <= i < |acks| => Week(acks[i].sent))
  }

  /** Calendar months, numbered through. */
  function MonthNumber(d: Date): int {
    12 * d.year + d.month
  }

  function Months(acks: seq<Ping>): seq<int> {
    seq(|acks|, i requires 0 <= i < |acks| => MonthNumber(acks[i].sent))
  }

  function WeeklyFlags(acks: seq<Ping>): seq<bool> {
    seq(|acks|, i requires 0 <= i < |acks| => ReportOf(acks[i].params).weekly)
  }

  function MonthlyFlags(acks: seq<Ping>): seq<bool> {
    seq(|acks|, i requires 0 <= i < |acks| => ReportOf(acks[i].params).monthly)
  }

  /** No two consecutive acknowledged pings are `days` or more apart. */
  predicate Dense(acks: seq<Ping>, days: int) {
    forall i :: 0 < i < |acks| ==> DayNumber(acks[i].sent) - DayNumber(acks[i - 1].sent) < days
  }

  /** What the counting below needs to know of the acknowledged pings. */
  ghost predicate Chained(acks: seq<Ping>) {
    && (forall i :: 0 <= i < |acks| ==> ReportOf(acks[i].params) == ExpectedReport(acks[..i], acks[i].sent))
    && (forall i, j :: 0 <= i < j < |acks| ==> DayNumber(acks[i].sent) < DayNumber(acks[j].sent))
  }

  lemma {:induction false} AcksAreChained(es: seq<Event>)
    requires ClockRuns(es)
    ensures Chained(Acks(es))
  {
    RunDates(es);
    forall i | 0 <= i < |Acks(es)|
      ensures ReportOf(Acks(es)[i].params) == ExpectedReport(Acks(es)[..i], Acks(es)[i].sent)
    {
      AcknowledgedPingsFormAChain(es, i);
    }
  }

  // ------------------------------------------------------------ weeks

  /** A new week with the number of the old one, in another week-numbering year. */
  predicate WeekNumberRepeats(q: Date, p: Date) {
    IsoWeek(q) == IsoWeek(p) && WeekYear(q) != WeekYear(p)
  }

  /** A ping says weekly exactly when its week is new, unless the number repeats. */
  lemma WeeklyFlagMeansNewWeek(acks: seq<Ping>, i: nat)
    requires Chained(acks) && i < |acks|
    ensures ReportOf(acks[i].params).weekly
       <==> i == 0 || (Week(acks[i].sent) != Week(acks[i - 1].sent)
                       && !WeekNumberRepeats(acks[i - 1].sent, acks[i].sent))
  {
    if 0 < i {
      ExpectedLater(acks, i, ReportOf(acks[i].params));
      YearAndNumberTellWeek(acks[i - 1].sent, acks[i].sent);
    }
  }

  ghost predicate NoWeekNumberRepeats(acks: seq<Ping>) {
    forall i :: 0 < i < |acks| ==> !WeekNumberRepeats(acks[i - 1].sent, acks[i].sent)
  }

  lemma WeeklyFlagsAtChanges(acks: seq<Ping>)
    requires Chained(acks)
    ensures forall i :: 0 <= i < |acks| && WeeklyFlags(acks)[i] ==> IsChange(Weeks(acks), i)
    ensures AllFlagged(WeeklyFlags(acks), Weeks(acks)) <==> NoWeekNumberRepeats(acks)
  {
    forall i | 0 <= i < |acks|
      ensures WeeklyFlags(acks)[i] ==> IsChange(Weeks(acks), i)
      ensures (IsChange(Weeks(acks), i) ==> WeeklyFlags(acks)[i])
         <==> i == 0 || !WeekNumberRepeats(acks[i - 1].sent, acks[i].sent)
    {
      WeeklyFlagMeansNewWeek(acks, i);
      if 0 < i {
        YearAndNumberTellWeek(acks[i - 1].sent, acks[i].sent);
      }
    }
  }

  lemma WeeksNeverDecrease(acks: seq<Ping>)
    requires Chained(acks)
    ensures forall i, j :: 0 <= i < j < |acks| ==> Weeks(acks)[i] <= Weeks(acks)[j]
  {
  }

  /** The pings marked weekly are never more than the weeks in which a ping was acknowledged, and as many
      exactly when no ping came in a new week with the number of the week of the ping before it. */
  lemma {:induction false} WeeklyCountsWeeks(es: seq<Event>)
    requires ClockRuns(es)
    ensures CountTrue(WeeklyFlags(Acks(es))) <= |Values(Weeks(Acks(es)))|
    ensures CountTrue(WeeklyFlags(Acks(es))) == |Values(Weeks(Acks(es)))| <==> NoWeekNumberRepeats(Acks(es))
  {
    AcksAreChained(es);
    WeeklyFlagsAtChanges(Acks(es));
    WeeksNeverDecrease(Acks(es));
    FlagsCountValues(WeeklyFlags(Acks(es)), Weeks(Acks(es)));
  }

  /** In particular when the user is never away for 358 days or more. */
  lemma {:induction false} WeeklyCountsWeeksWithoutLongGaps(es: seq<Event>)
    requires ClockRuns(es) && Dense(Acks(es), 358)
    ensures CountTrue(WeeklyFlags(Acks(es))) == |Values(Weeks(Acks(es)))|
  {
    var acks := Acks(es);
    RunDates(es);
    forall i | 0 < i < |acks|
      ensures !WeekNumberRepeats(acks[i - 1].sent, acks[i].sent)
    {
      WeekNumbersTellWeeks(acks[i - 1].sent, acks[i].sent);
      YearAndNumberTellWeek(acks[i - 1].sent, acks[i].sent);
    }
    WeeklyCountsWeeks(es);
  }

  // ------------------------------------------------------------ months

  lemma MonthNumberTellsMonth(a: Date, b: Date)
    ensures MonthNumber(a) == MonthNumber(b) <==> (a.year, a.month) == (b.year, b.month)
  {
  }

  /** A month with the number of the old one, in another year. */
  predicate MonthNumberRepeats(q: Date, p: Date) {
    q.month == p.month && q.year != p.year
  }

  /** A ping says monthly exactly when its month is new, unless the number repeats. */
  lemma MonthlyFlagMeansNewMonth(acks: seq<Ping>, i: nat)
    requires Chained(acks) && i < |acks|
    ensures ReportOf(acks[i].params).monthly
       <==> i == 0 || (MonthNumber(acks[i].sent) != MonthNumber(acks[i - 1].sent)
                       && !MonthNumberRepeats(acks[i - 1].sent, acks[i].sent))
  {
    if 0 < i {
      ExpectedLater(acks, i, ReportOf(acks[i].params));
      MonthNumberTellsMonth(acks[i - 1].sent, acks[i].sent);
    }
  }

  ghost predicate NoMonthNumberRepeats(acks: seq<Ping>) {
    forall i :: 0 < i < |acks| ==> !MonthNumberRepeats(acks[i - 1].sent, acks[i].sent)
  }

  lemma MonthlyFlagsAtChanges(acks: seq<Ping>)
    requires Chained(acks)
    ensures forall i :: 0 <= i < |acks| && MonthlyFlags(acks)[i] ==> IsChange(Months(acks), i)
    ensures AllFlagged(MonthlyFlags(acks), Months(acks)) <==> NoMonthNumberRepeats(acks)
  {
    forall i | 0 <= i < |acks|
      ensures MonthlyFlags(acks)[i] ==> IsChange(Months(acks), i)
      ensures (IsChange(Months(acks), i) ==> MonthlyFlags(acks)[i])
         <==> i == 0 || !MonthNumberRepeats(acks[i - 1].sent, acks[i].sent)
    {
      MonthlyFlagMeansNewMonth(acks, i);
      if 0 < i {
        MonthNumberTellsMonth(acks[i - 1].sent, acks[i].sent);
      }
    }
  }

  lemma MonthsNeverDecrease(acks: seq<Ping>)
    requires Chained(acks)
    ensures forall i, j :: 0 <= i < j < |acks| ==> Months(acks)[i] <= Months(acks)[j]
  {
    forall i, j | 0 <= i < j < |acks|
      ensures Months(acks)[i] <= Months(acks)[j]
    {
      DayNumberOrder(acks[i].sent, acks[j].sent);
    }
  }

  /** The pings marked monthly are never more than the calendar months in which a ping was acknowledged,
      and as many exactly when no ping came in the month of the ping before it of another year. */
  lemma {:induction false} MonthlyCountsMonths(es: seq<Event>)
    requires ClockRuns(es)
    ensures CountTrue(MonthlyFlags(Acks(es))) <= |Values(Months(Acks(es)))|
    ensures CountTrue(MonthlyFlags(Acks(es))) == |Values(Months(Acks(es)))| <==> NoMonthNumberRepeats(Acks(es))
  {
    AcksAreChained(es);
    MonthlyFlagsAtChanges(Acks(es));
    MonthsNeverDecrease(Acks(es));
    FlagsCountValues(MonthlyFlags(Acks(es)), Months(Acks(es)));
  }

  /** In particular when the user is never away for 335 days or more. */
  lemma {:induction false} MonthlyCountsMonthsWithoutLongGaps(es: seq<Event>)
    requires ClockRuns(es) && Dense(Acks(es), 335)
    ensures CountTrue(MonthlyFlags(Acks(es))) == |Values(Months(Acks(es)))|
  {
    var acks := Acks(es);
    RunDates(es);
    forall i | 0 < i < |acks|
      ensures !MonthNumberRepeats(acks[i - 1].sent, acks[i].sent)
    {
      MonthNumbersTellMonths(acks[i - 1].sent, acks[i].sent);
    }
    MonthlyCountsMonths(es);
  }

  // ------------------------------------------------------------ runs that miss a week or a month

  /** One acknowledged ping: a timer sends it, and the answer comes. */
  lemma {:induction false} PingIsAcknowledged(es: seq<Event>, fired: Event, done: Event, d: Date)
    requires fired == PeriodicTimerFired(d, d) && done == LoaderDone(true)
    requires var s := Exec(es);
             s.periodicTimer && s.startupTimer != Absent && Compare(Format(d), s.prefs.lastYmd) != 0
    requires ClockRuns(es) && LatestDay(es) <= DayNumber(d)
    ensures var es' := es + [fired] + [done];
            && Acks(es') == Acks(es) + [Ping(d, Load(Exec(es).prefs, d))]
            && Exec(es').periodicTimer && Exec(es').startupTimer == Exec(es).startupTimer
            && ClockRuns(es') && LatestDay(es') == DayNumber(d)
  {
    RunSnoc(es, fired);
    SentByTimer(Exec(es), d);
    RunSnoc(es + [fired], done);
    AcknowledgedKeepsTimers(Exec(es + [fired]));
  }

  lemma SentByTimer(s: State, d: Date)
    requires s.periodicTimer && Compare(Format(d), s.prefs.lastYmd) != 0
    ensures Step(s, PeriodicTimerFired(d, d)) == s.(loader := Standard(d, Load(s.prefs, d)))
  {
  }

  lemma AcknowledgedKeepsTimers(s: State)
    requires AcksStandard(s, LoaderDone(true))
    ensures var s' := Step(s, LoaderDone(true));
            s'.periodicTimer == s.periodicTimer && s'.startupTimer == s.startupTimer
  {
  }

  lemma StartedUpdater(start: Event)
    requires start == Start(true, false)
    ensures var s := Step(NewProcess(FreshPrefs), start);
            s.periodicTimer && s.startupTimer == Running && s.prefs == FreshPrefs
  {
  }

  lemma {:induction false} JustStarted(none: seq<Event>, start: Event)
    requires none == [] && start == Start(true, false)
    ensures var s := Exec(none + [start]);
            s.periodicTimer && s.startupTimer == Running && s.prefs == FreshPrefs
    ensures Acks(none + [start]) == [] && ClockRuns(none + [start]) && LatestDay(none + [start]) == 0
  {
    RunSnoc(none, start);
    StartedUpdater(start);
    assert !AcksStandard(Exec(none), start) && !IsTimer(start);
  }

  /** For any two days there is a run in which exactly the pings of these days are acknowledged. */
  lemma {:induction false} TwoPings(a: Date, b: Date) returns (es: seq<Event>)
    requires DayNumber(a) < DayNumber(b)
    ensures ClockRuns(es) && |Acks(es)| == 2 && Acks(es)[0].sent == a && Acks(es)[1].sent == b
  {
    var start: Event, done: Event := Start(true, false), LoaderDone(true);
    var first: Event, second: Event := PeriodicTimerFired(a, a), PeriodicTimerFired(b, b);
    var none: seq<Event> := [];
    JustStarted(none, start);
    TextsAreNotEmpty(a);
    DayInYear(a);
    var es1 := none + [start];
    PingIsAcknowledged(es1, first, done, a);
    var es2 := es1 + [first] + [done];
    RunChain(es2);
    SameTextSameDate(b, a);
    assert a != b;
    PingIsAcknowledged(es2, second, done, b);
    es := es2 + [second] + [done];
  }

  /** A ping of Sunday 6 January 2019 and the next of Monday 30 December 2019: the second says that its
      week is not new, and the flags count one week of two. */
  lemma {:induction false} WeekCanBeMissed(a: Date, b: Date) returns (es: seq<Event>)
    requires a.year == b.year == 2019 && (a.month, a.day) == (1, 6) && (b.month, b.day) == (12, 30)
    ensures ClockRuns(es) && |Acks(es)| == 2 && Acks(es)[0].sent == a && Acks(es)[1].sent == b
    ensures !ReportOf(Acks(es)[1].params).weekly && Week(a) != Week(b)
    ensures CountTrue(WeeklyFlags(Acks(es))) < |Values(Weeks(Acks(es)))|
  {
    Year2019(a.year);
    WeekNumbersRepeat(a, b);
    es := TwoPings(a, b);
    LaterPingDependsOnTheOneBefore(es, 1);
    YearAndNumberTellWeek(a, b);
    WeeklyCountsWeeks(es);
  }

  /** A ping of 31 January 2021 and the next of 1 January 2022: the same for months. */
  lemma {:induction false} MonthCanBeMissed(a: Date, b: Date) returns (es: seq<Event>)
    requires a == CivilDate(2021, 1, 31) && b == CivilDate(2022, 1, 1)
    ensures ClockRuns(es) && |Acks(es)| == 2 && Acks(es)[0].sent == a && Acks(es)[1].sent == b
    ensures !ReportOf(Acks(es)[1].params).monthly && MonthNumber(a) != MonthNumber(b)
    ensures CountTrue(MonthlyFlags(Acks(es))) < |Values(Months(Acks(es)))|
  {
    MonthNumbersRepeat(a, b);
    es := TwoPings(a, b);
    LaterPingDependsOnTheOneBefore(es, 1);
    MonthlyCountsMonths(es);
  }
}
