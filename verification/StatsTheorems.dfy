/**
 What holds of the acknowledged pings over every run, across cancellations and restarts.
 */
module StatsTheorems {
  import opened Calendar
  import opened YmdStrings
  import opened StatsPing

  // ------------------------------------------------------------ the chain of standard pings

  /** The preferences remember the last acknowledged ping and the first week of installation. */
  ghost predicate Remembers(p: Prefs, acks: seq<Ping>) {
    && (p.firstCheckMade <==> acks != [])
    && (acks == [] ==> p.lastYmd == "" && p.lastWoy == 0 && p.lastMonth == 0 && p.weekOfInstallation == "")
    && (acks != [] ==>
          var last := acks[|acks| - 1].sent;
          && p.lastYmd == Format(last) && p.lastWoy == IsoWeek(last) && p.lastMonth == last.month
          && p.weekOfInstallation == Format(LastMonday(acks[0].sent)))
  }

  /** Ping `i` was made up from the pings acknowledged before it. */
  ghost predicate MadeFrom(acks: seq<Ping>, i: nat)
    requires i < |acks|
  {
    exists p: Prefs :: Remembers(p, acks[..i]) && acks[i].params == Load(p, acks[i].sent)
  }

  ghost predicate ChainInv(s: State, acks: seq<Ping>) {
    && Remembers(s.prefs, acks)
    && (s.loader.Standard? ==> s.loader.params == Load(s.prefs, s.loader.sent))
    && (forall i: nat :: i < |acks| ==> MadeFrom(acks, i))
  }

  lemma ThresholdKeepsChain(s: State, points: int, acks: seq<Ping>)
    requires ChainInv(s, acks)
    ensures ChainInv(MaybeDoThresholdPing(s, points).0, acks)
  {
  }

  lemma AckExtendsChain(s: State, acks: seq<Ping>)
    requires ChainInv(s, acks) && AcksStandard(s, LoaderDone(true))
    ensures ChainInv(Step(s, LoaderDone(true)), acks + [Ping(s.loader.sent, s.loader.params)])
  {
    var acks' := acks + [Ping(s.loader.sent, s.loader.params)];
    forall i: nat | i < |acks'|
      ensures MadeFrom(acks', i)
    {
      if i < |acks| {
        assert MadeFrom(acks, i);
        assert acks'[..i] == acks[..i];
      } else {
        assert acks'[..i] == acks;
        assert Remembers(s.prefs, acks'[..i]);
      }
    }
    var idle := s.(loader := Idle);
    var query := if !s.prefs.firstCheckMade && !s.prefs.thresholdCheckMade
                 then Url(ThresholdPath, ReportOf(s.loader.params)) else s.prefs.thresholdQuery;
    var saved := idle.(prefs := Save(s.prefs.(thresholdQuery := query), s.loader.params));
    assert Remembers(saved.prefs, acks');
    ThresholdKeepsChain(saved, 0, acks');
  }

  lemma OtherStepKeepsChain(s: State, e: Event, acks: seq<Ping>)
    requires ChainInv(s, acks) && !AcksStandard(s, e)
    ensures ChainInv(Step(s, e), acks)
  {
    if Enabled(s, e) {
      match e
      case ThresholdScore(points) => ThresholdKeepsChain(s, points, acks);
      case LoaderDone(ok) =>
      case StartupTimerFired(_, _) =>
      case PeriodicTimerFired(_, _) =>
      case _ =>
    }
  }

  lemma {:induction false} RunChain(es: seq<Event>)
    ensures ChainInv(Exec(es), Acks(es))
    decreases |es|
  {
    if es == [] {
      return;
    }
    var s, e := Exec(es[..|es| - 1]), es[|es| - 1];
    RunChain(es[..|es| - 1]);
    if AcksStandard(s, e) {
      AckExtendsChain(s, Acks(es[..|es| - 1]));
    } else {
      assert Acks(es) == Acks(es[..|es| - 1]);
      OtherStepKeepsChain(s, e, Acks(es[..|es| - 1]));
    }
  }

  /** What a ping sent on day `d` says, given the pings acknowledged before it. */
  function ExpectedReport(before: seq<Ping>, d: Date): Report {
    if before == [] then
      Report(true, true, true, true, Format(LastMonday(d)))
    else
      var q := before[|before| - 1].sent;
      Report(Compare(Format(d), Format(q)) == 1, IsoWeek(d) != IsoWeek(q), d.month != q.month, false,
             Format(LastMonday(before[0].sent)))
  }

  /** Preferences that remember the acknowledged pings make up the expected report. */
  lemma {:induction false} RememberedReport(p: Prefs, acks: seq<Ping>, d: Date)
    requires Remembers(p, acks)
    ensures ReportOf(Load(p, d)) == ExpectedReport(acks, d)
  {
    if acks == [] {
      FirstReport(p, d);
    } else {
      LaterReport(p, acks, d);
    }
  }

  lemma {:induction false} LoadedReportIsExpected(params: Params)
    ensures forall p: Prefs, acks: seq<Ping>, d: Date :: Remembers(p, acks) && params == Load(p, d) ==>
              ReportOf(params) == ExpectedReport(acks, d)
  {
    forall p: Prefs, acks: seq<Ping>, d: Date | Remembers(p, acks) && params == Load(p, d)
      ensures ReportOf(params) == ExpectedReport(acks, d)
    {
      RememberedReport(p, acks, d);
    }
  }

  /** Over all cancellations and restarts, what an acknowledged ping said depends on the acknowledged
      ping before it and on nothing else; only the first one ever says so, and the week of installation
      never changes after it. */
  lemma {:induction false} AcknowledgedPingsFormAChain(es: seq<Event>, i: nat)
    requires i < |Acks(es)|
    ensures ReportOf(Acks(es)[i].params) == ExpectedReport(Acks(es)[..i], Acks(es)[i].sent)
  {
    RunChain(es);
    var acks := Acks(es);
    assert MadeFrom(acks, i);
    var p: Prefs :| Remembers(p, acks[..i]) && acks[i].params == Load(p, acks[i].sent);
    RememberedReport(p, acks[..i], acks[i].sent);
  }

  lemma ExpectedLater(acks: seq<Ping>, i: nat, r: Report)
    requires 0 < i < |acks| && r == ExpectedReport(acks[..i], acks[i].sent)
    ensures var p, q := acks[i].sent, acks[i - 1].sent;
            && !r.first
            && (r.daily <==> Compare(Format(p), Format(q)) == 1)
            && (r.weekly <==> IsoWeek(p) != IsoWeek(q))
            && (r.monthly <==> p.month != q.month)
  {
    assert acks[..i][i - 1] == acks[i - 1];
  }

  lemma {:induction false} LaterPingDependsOnTheOneBefore(es: seq<Event>, i: nat)
    requires 0 < i < |Acks(es)|
    ensures var p, q, r := Acks(es)[i].sent, Acks(es)[i - 1].sent, ReportOf(Acks(es)[i].params);
            && !r.first
            && (r.daily <==> Compare(Format(p), Format(q)) == 1)
            && (r.weekly <==> IsoWeek(p) != IsoWeek(q))
            && (r.monthly <==> p.month != q.month)
  {
    AcknowledgedPingsFormAChain(es, i);
    ExpectedLater(Acks(es), i, ReportOf(Acks(es)[i].params));
  }

  lemma FirstReport(p: Prefs, d: Date)
    requires Remembers(p, [])
    ensures ReportOf(Load(p, d)) == Report(true, true, true, true, Format(LastMonday(d)))
  {
  }

  lemma LaterReport(p: Prefs, acks: seq<Ping>, d: Date)
    requires acks != [] && Remembers(p, acks)
    ensures var q := acks[|acks| - 1].sent;
            ReportOf(Load(p, d)) == Report(Compare(Format(d), Format(q)) == 1, IsoWeek(d) != IsoWeek(q),
                                           d.month != q.month, false, Format(LastMonday(acks[0].sent)))
  {
    IsoWeekRange(acks[|acks| - 1].sent);
    TextsAreNotEmpty(LastMonday(acks[0].sent));
  }

  lemma TextsAreNotEmpty(d: Date)
    ensures Format(d) != "" && Compare(Format(d), "") == 1
  {
    assert Format(d)[0] == Decimal(d.year)[0];
  }

  // ------------------------------------------------------------ clocks that do not run backwards

  predicate IsTimer(e: Event) {
    e.StartupTimerFired? || e.PeriodicTimerFired?
  }

  function LatestDay(es: seq<Event>): int {
    if es == [] then 0
    else if IsTimer(es[|es| - 1]) then DayNumber(es[|es| - 1].sent)
    else LatestDay(es[..|es| - 1])
  }

  /** Each timer reads the date first to decide whether to ping and then again to send, and the dates
      read never decrease. */
  predicate ClockRuns(es: seq<Event>) {
    es == []
    || (ClockRuns(es[..|es| - 1])
        && (IsTimer(es[|es| - 1]) ==>
              LatestDay(es[..|es| - 1]) <= DayNumber(es[|es| - 1].today) <= DayNumber(es[|es| - 1].sent)))
  }

  /** The dates of the acknowledged pings increase, and a ping in flight is later than all of them. */
  ghost predicate DatesFit(latest: int, loader: Loader, acks: seq<Ping>) {
    && (forall i, j :: 0 <= i < j < |acks| ==> DayNumber(acks[i].sent) < DayNumber(acks[j].sent))
    && (forall i :: 0 <= i < |acks| ==> DayNumber(acks[i].sent) <= latest)
    && (loader.Standard? ==>
          && DayNumber(loader.sent) <= latest
          && (forall i :: 0 <= i < |acks| ==> DayNumber(acks[i].sent) < DayNumber(loader.sent)))
  }

  ghost predicate DatesInv(es: seq<Event>) {
    DatesFit(LatestDay(es), Exec(es).loader, Acks(es))
  }

  lemma AckFits(latest: int, loader: Loader, acks: seq<Ping>, loader': Loader)
    requires DatesFit(latest, loader, acks) && loader.Standard? && !loader'.Standard?
    ensures DatesFit(latest, loader', acks + [Ping(loader.sent, loader.params)])
  {
  }

  lemma SendFits(latest: int, loader: Loader, acks: seq<Ping>, sent: Date, params: Params)
    requires DatesFit(latest, loader, acks) && latest <= DayNumber(sent)
    requires acks != [] ==> DayNumber(acks[|acks| - 1].sent) < DayNumber(sent)
    ensures DatesFit(DayNumber(sent), Standard(sent, params), acks)
  {
  }

  lemma StepLoader(s: State, e: Event)
    ensures Step(s, e).loader.Standard? ==>
              || Step(s, e).loader == s.loader
              || (IsTimer(e) && Step(s, e).loader.sent == e.sent && Compare(Format(e.today), s.prefs.lastYmd) != 0)
    ensures AcksStandard(s, e) ==> !Step(s, e).loader.Standard?
  {
  }

  lemma TimerSendsLater(s: State, acks: seq<Ping>, today: Date, sent: Date)
    requires DatesFit(DayNumber(today), s.loader, acks) && DayNumber(today) <= DayNumber(sent)
    requires Remembers(s.prefs, acks) && acks != [] && Compare(Format(today), s.prefs.lastYmd) != 0
    ensures DayNumber(acks[|acks| - 1].sent) < DayNumber(sent)
  {
    var last := acks[|acks| - 1].sent;
    SameTextSameDate(today, last);
    DayNumberOrder(today, last);
  }

  lemma LaterFits(latest: int, latest': int, loader: Loader, acks: seq<Ping>, loader': Loader)
    requires DatesFit(latest, loader, acks) && latest <= latest' && (loader'.Standard? ==> loader' == loader)
    ensures DatesFit(latest', loader', acks)
  {
  }

  lemma {:induction false} RunDates(es: seq<Event>)
    requires ClockRuns(es)
    ensures DatesInv(es)
    decreases |es|
  {
    if es == [] {
      return;
    }
    var before, e := es[..|es| - 1], es[|es| - 1];
    assert es == before + [e];
    RunDates(before);
    RunChain(before);
    StepDates(before, e);
  }

  lemma {:induction false} RunSnoc(es: seq<Event>, e: Event)
    ensures Exec(es + [e]) == Step(Exec(es), e)
    ensures Acks(es + [e])
         == Acks(es) + if AcksStandard(Exec(es), e) then [Ping(Exec(es).loader.sent, Exec(es).loader.params)] else []
    ensures LatestDay(es + [e]) == if IsTimer(e) then DayNumber(e.sent) else LatestDay(es)
    ensures ClockRuns(es + [e])
       <==> ClockRuns(es) && (IsTimer(e) ==> LatestDay(es) <= DayNumber(e.today) <= DayNumber(e.sent))
  {
    assert (es + [e])[..|es|] == es;
  }

  lemma TimerFits(s: State, acks: seq<Ping>, latest: int, e: Event)
    requires IsTimer(e) && latest <= DayNumber(e.today) <= DayNumber(e.sent)
    requires DatesFit(latest, s.loader, acks) && Remembers(s.prefs, acks)
    ensures DatesFit(DayNumber(e.sent), Step(s, e).loader, acks)
  {
    var loader' := Step(s, e).loader;
    StepLoader(s, e);
    if loader'.Standard? && loader' != s.loader {
      if acks != [] {
        LaterFits(latest, DayNumber(e.today), s.loader, acks, s.loader);
        TimerSendsLater(s, acks, e.today, e.sent);
      }
      SendFits(latest, s.loader, acks, e.sent, loader'.params);
    } else {
      LaterFits(latest, DayNumber(e.sent), s.loader, acks, loader');
    }
  }

  lemma {:induction false} StepDates(es: seq<Event>, e: Event)
    requires ClockRuns(es + [e]) && DatesInv(es) && ChainInv(Exec(es), Acks(es))
    ensures DatesInv(es + [e])
  {
    var s, acks := Exec(es), Acks(es);
    RunSnoc(es, e);
    if IsTimer(e) {
      assert acks + [] == acks;
      TimerFits(s, acks, LatestDay(es), e);
    } else {
      StepLoader(s, e);
      if AcksStandard(s, e) {
        AckFits(LatestDay(es), s.loader, acks, Step(s, e).loader);
      } else {
        assert acks + [] == acks;
        LaterFits(LatestDay(es), LatestDay(es), s.loader, acks, Step(s, e).loader);
      }
    }
  }

  /** At most one standard ping per day is acknowledged, over all restarts: their dates strictly increase. */
  lemma {:induction false} AtMostOneAckPerDay(es: seq<Event>, i: nat, j: nat)
    requires ClockRuns(es) && i < j < |Acks(es)|
    ensures DayNumber(Acks(es)[i].sent) < DayNumber(Acks(es)[j].sent)
  {
    RunDates(es);
  }

  /** Every acknowledged ping says that it is the first of its day, exactly as long as the text of its
      year is not out of order with the text of the year before it; up to the year 9999 it never is. */
  lemma {:induction false} EveryAckIsDaily(es: seq<Event>, i: nat)
    requires ClockRuns(es) && 0 < i < |Acks(es)|
    ensures var p, q := Acks(es)[i].sent, Acks(es)[i - 1].sent;
            && (ReportOf(Acks(es)[i].params).daily <==> q.year <= Leading(p.year, |Decimal(q.year)|))
            && (1000 <= q.year && p.year <= 9999 ==> ReportOf(Acks(es)[i].params).daily)
  {
    var p, q := Acks(es)[i].sent, Acks(es)[i - 1].sent;
    AtMostOneAckPerDay(es, i - 1, i);
    LaterPingDependsOnTheOneBefore(es, i);
    LaterComparesGreater(q, p);
    UpTo9999(q, p);
  }

  lemma UpTo9999(q: Date, p: Date)
    requires DayNumber(q) < DayNumber(p)
    ensures 1000 <= q.year && p.year <= 9999 ==> q.year <= Leading(p.year, |Decimal(q.year)|)
  {
    DayNumberOrder(q, p);
    if 1000 <= q.year && p.year <= 9999 {
      FourDigits(q.year);
      FourDigits(p.year);
    }
  }

  // ------------------------------------------------------------ the week of installation

  lemma MondayBefore(n: int, m: int)
    ensures m % 7 == 0 && n - 6 <= m <= n <==> m == n - n % 7
  {
  }

  lemma SameNumberSameDate(a: Date, b: Date)
    ensures a == b <==> DayNumber(a) == DayNumber(b)
  {
    DayNumberOrder(a, b);
  }

  /** The week of installation is the only Monday among the seven days that end today, */
  lemma LastMondayIsTheMonday(d: Date, m: Date)
    ensures m == LastMonday(d) <==> Weekday(m) == 0 && DayNumber(d) - 6 <= DayNumber(m) <= DayNumber(d)
  {
    SameNumberSameDate(m, LastMonday(d));
    MondayBefore(DayNumber(d), DayNumber(m));
  }

  /** and two days are reported alike exactly when they are in the same week. */
  lemma SameMondaySameWeek(a: Date, b: Date)
    ensures Format(LastMonday(a)) == Format(LastMonday(b)) <==> Week(a) == Week(b)
  {
    var m, n := LastMonday(a), LastMonday(b);
    SameTextSameDate(m, n);
    DayNumberOrder(m, n);
    assert DayNumber(m) == 7 * Week(a) && DayNumber(n) == 7 * Week(b);
  }
}
