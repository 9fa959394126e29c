/**
 What the events bring about, over every run: which preconditions the first ping waits for, when a ping is
 sent, when the threshold ping is sent and what replaces what.
 */
module PingEffects {
  import opened Calendar
  import opened YmdStrings
  import opened StatsPing
  import opened StatsTheorems
  import opened ThresholdTheorems

  // ------------------------------------------------------------ starting, stopping, restarting

  function Met(k: nat): seq<Event> {
    seq(k, _ => PreconditionMet)
  }

  /** How many preconditions a start finds open: a referral not initialized is one, ads being enabled is one. */
  function OpenPreconditions(start: Event): nat
    requires start.Start?
  {
    (if start.referralsInitialized then 0 else 1) + if start.adsEnabled then 1 else 0
  }

  /** Started in state `s`, with `open` preconditions of which `k` are met: the startup timer runs from the
      last of them on. */
  predicate Waits(s: State, s': State, open: nat, k: nat) {
    && s'.barrier == open - k && s'.periodicTimer && s'.prefs == s.prefs && s'.loader == s.loader
    && s'.startupTimer == (if k == open then Running else Stopped)
    && s'.startupComplete == (s.startupComplete || k == open)
  }

  lemma StartedStep(s: State, start: Event)
    requires start.Start? && s.startupTimer == Absent && !s.periodicTimer
    ensures Waits(s, Step(s, start), OpenPreconditions(start), 0)
  {
  }

  lemma MetStep(s: State, waiting: State, open: nat, k: nat)
    requires Waits(s, waiting, open, k) && k < open
    ensures Waits(s, Step(waiting, PreconditionMet), open, k + 1)
  {
  }

  lemma {:induction false} OneMoreMet(es: seq<Event>, s: State, open: nat, k: nat, met: Event)
    requires met == PreconditionMet && Waits(s, Exec(es + Met(k)), open, k) && k < open
    ensures Waits(s, Exec(es + Met(k + 1)), open, k + 1)
  {
    RunSnoc(es + Met(k), met);
    assert es + Met(k + 1) == es + Met(k) + [met];
    MetStep(s, Exec(es + Met(k)), open, k);
  }

  lemma {:induction false} NoneMet(es: seq<Event>, start: Event)
    requires start.Start? && Exec(es).startupTimer == Absent && !Exec(es).periodicTimer
    ensures Waits(Exec(es), Exec(es + [start] + Met(0)), OpenPreconditions(start), 0)
  {
    assert es + [start] + Met(0) == es + [start];
    RunSnoc(es, start);
    StartedStep(Exec(es), start);
  }

  /** After a start in any run, the startup timer begins to run with the last precondition that is met. */
  lemma {:induction false} LastPreconditionStartsTimer(es: seq<Event>, start: Event, k: nat)
    requires start.Start? && Exec(es).startupTimer == Absent && !Exec(es).periodicTimer
    requires k <= OpenPreconditions(start)
    ensures Waits(Exec(es), Exec(es + [start] + Met(k)), OpenPreconditions(start), k)
    decreases k
  {
    if k == 0 {
      NoneMet(es, start);
    } else {
      LastPreconditionStartsTimer(es, start, k - 1);
      OneMoreMet(es + [start], Exec(es), OpenPreconditions(start), k - 1, PreconditionMet);
    }
  }

  /** A restart keeps the preferences and nothing else: no timer, no score, no request in flight. */
  lemma {:induction false} RestartKeepsPreferences(es: seq<Event>)
    ensures var s' := Exec(es + [Restart]);
            && s'.prefs == Exec(es).prefs && s'.score == 0 && !s'.startupComplete && s'.startupTimer == Absent
            && !s'.periodicTimer && s'.loader == Idle
  {
    RunSnoc(es, Restart);
  }

  /** After a stop no timer can fire until the next start; a request in flight goes on. */
  lemma {:induction false} StopEndsTimers(es: seq<Event>, fired: Event)
    requires IsTimer(fired)
    ensures Exec(es + [Stop] + [fired]) == Exec(es + [Stop])
    ensures Exec(es + [Stop]).loader == Exec(es).loader && Exec(es + [Stop]).prefs == Exec(es).prefs
    ensures Exec(es + [Stop]).startupTimer == Absent && !Exec(es + [Stop]).periodicTimer
  {
    RunSnoc(es, Stop);
    RunSnoc(es + [Stop], fired);
  }

  // ------------------------------------------------------------ standard pings

  lemma {:induction false} TodayIsTold(p: Prefs, acks: seq<Ping>, today: Date)
    requires Remembers(p, acks)
    ensures Compare(Format(today), p.lastYmd) == 0 <==> acks != [] && acks[|acks| - 1].sent == today
  {
    if acks == [] {
      TextsAreNotEmpty(today);
    } else {
      SameTextSameDate(today, acks[|acks| - 1].sent);
    }
  }

  lemma FiredStep(s: State, fired: Event)
    requires (fired.StartupTimerFired? && s.startupTimer == Running) || (fired.PeriodicTimerFired? && s.periodicTimer)
    ensures var s', told := Step(s, fired), Compare(Format(fired.today), s.prefs.lastYmd) == 0;
            && s'.prefs == s.prefs && s'.score == s.score && s'.periodicTimer == s.periodicTimer
            && s'.startupTimer == (if fired.StartupTimerFired? then Stopped else s.startupTimer)
            && s'.loader == if told then s.loader else Standard(fired.sent, Load(s.prefs, fired.sent))
  {
  }

  /** Whichever timer fires sends a ping unless the last acknowledged one was sent on the same day. The ping
      says what the acknowledged ones determine and replaces whatever is in flight; the startup timer is done. */
  lemma {:induction false} TimerPingsOncePerDay(es: seq<Event>, fired: Event)
    requires (fired.StartupTimerFired? && Exec(es).startupTimer == Running)
             || (fired.PeriodicTimerFired? && Exec(es).periodicTimer)
    ensures var s, s', acks := Exec(es), Exec(es + [fired]), Acks(es);
            && s'.prefs == s.prefs && s'.score == s.score && s'.periodicTimer == s.periodicTimer
            && s'.startupTimer == (if fired.StartupTimerFired? then Stopped else s.startupTimer)
            && if acks != [] && acks[|acks| - 1].sent == fired.today then s'.loader == s.loader
               else s'.loader.Standard? && s'.loader.sent == fired.sent
                    && ReportOf(s'.loader.params) == ExpectedReport(acks, fired.sent)
  {
    RunSnoc(es, fired);
    RunChain(es);
    TodayIsTold(Exec(es).prefs, Acks(es), fired.today);
    RememberedReport(Exec(es).prefs, Acks(es), fired.sent);
    FiredStep(Exec(es), fired);
  }

  // ------------------------------------------------------------ threshold pings

  /** The caller is told to stop reporting pages exactly when the check is made or the score reaches three. */
  lemma AnswerTellsWhenToStop(s: State, points: int)
    ensures MaybeDoThresholdPing(s, points).1 <==> s.prefs.thresholdCheckMade || 3 <= s.score + points
  {
  }

  /** Nothing holds the threshold ping back, and it has not been made. */
  predicate ReadyForThreshold(s: State) {
    s.startupTimer == Stopped && s.startupComplete && !s.prefs.thresholdCheckMade
  }

  lemma ScoreSends(s: State, points: int)
    requires ReadyForThreshold(s) && 3 <= s.score + points
    ensures Step(s, ThresholdScore(points)).loader == Threshold(s.prefs.thresholdQuery)
    ensures s.prefs.thresholdQuery != NoUrl ==> Step(s, ThresholdScore(points)).prefs == s.prefs
    ensures s.prefs.thresholdQuery == NoUrl ==> Step(s, ThresholdScore(points)).prefs.thresholdCheckMade
  {
  }

  /** A page that brings the score to three after the first acknowledged ping sends the threshold ping, with
      what that first ping said. */
  lemma {:induction false} ThresholdPingIsSent(es: seq<Event>, points: int)
    requires ReadyForThreshold(Exec(es)) && 3 <= Exec(es).score + points && Exec(es).prefs.firstCheckMade
    ensures Acks(es) != []
    ensures var s' := Exec(es + [ThresholdScore(points)]);
            && s'.loader == Threshold(Url("/1/usage/brave-core-threshold", ExpectedReport([], Acks(es)[0].sent)))
            && s'.prefs == Exec(es).prefs
  {
    RunSnoc(es, ThresholdScore(points));
    ThresholdPrefsAreConsistent(es);
    StoredQuerySaysFirst(es);
    ScoreSends(Exec(es), points);
  }

  /** Before the first acknowledged ping it sends nothing that could succeed, gives the threshold ping up, and
      cancels a standard ping in flight. */
  lemma {:induction false} EarlyScoreCancelsPing(es: seq<Event>, points: int)
    requires ReadyForThreshold(Exec(es)) && 3 <= Exec(es).score + points && !Exec(es).prefs.firstCheckMade
    ensures var s' := Exec(es + [ThresholdScore(points)]);
            s'.loader == Threshold(NoUrl) && s'.prefs.thresholdCheckMade && !Enabled(s', LoaderDone(true))
  {
    RunSnoc(es, ThresholdScore(points));
    RunPrefs(es);
    ScoreSends(Exec(es), points);
  }

  /** Below three, or while the startup timer holds the ping back, only the score changes. */
  lemma {:induction false} ScoreOnlyCounts(es: seq<Event>, points: int)
    requires Exec(es).startupTimer != Absent
    requires Exec(es).score + points < 3 || Exec(es).startupTimer == Running || !Exec(es).startupComplete
             || Exec(es).prefs.thresholdCheckMade
    ensures Exec(es + [ThresholdScore(points)]) == Exec(es).(score := Exec(es).score + points)
  {
    RunSnoc(es, ThresholdScore(points));
  }

  lemma AckRechecks(s: State)
    requires s.loader.Standard? && ReadyForThreshold(s)
    ensures var s' := Step(s, LoaderDone(true));
            s'.loader == if 3 <= s.score then Threshold(s'.prefs.thresholdQuery) else Idle
  {
  }

  /** When the score was reached while it could not be sent, the next acknowledged ping sends it: every
      acknowledgement checks again. */
  lemma {:induction false} AckSendsThresholdPing(es: seq<Event>)
    requires Exec(es).loader.Standard? && ReadyForThreshold(Exec(es)) && 3 <= Exec(es).score
    ensures var es' := es + [LoaderDone(true)];
            && Acks(es') != []
            && Exec(es').loader
            == Threshold(Url("/1/usage/brave-core-threshold", ExpectedReport([], Acks(es')[0].sent)))
  {
    var es' := es + [LoaderDone(true)];
    RunSnoc(es, LoaderDone(true));
    AckStoresQuery(es);
    StoredQuerySaysFirst(es');
    AckRechecks(Exec(es));
  }

  lemma {:induction false} AckStoresQuery(es: seq<Event>)
    requires Exec(es).loader.Standard? && ReadyForThreshold(Exec(es))
    ensures Exec(es + [LoaderDone(true)]).prefs.thresholdQuery != NoUrl
  {
    RunSnoc(es, LoaderDone(true));
    RunPrefs(es);
    AckLeavesQuery(Exec(es));
  }

  lemma AckLeavesQuery(s: State)
    requires s.loader.Standard? && ReadyForThreshold(s)
    requires s.prefs.firstCheckMade ==> s.prefs.thresholdQuery != NoUrl
    ensures Step(s, LoaderDone(true)).prefs.thresholdQuery != NoUrl
  {
  }

  /** A request that fails leaves everything but itself as it was. */
  lemma {:induction false} FailureChangesNothing(es: seq<Event>)
    requires Exec(es).loader != Idle
    ensures Exec(es + [LoaderDone(false)]) == Exec(es).(loader := Idle)
  {
    RunSnoc(es, LoaderDone(false));
  }

  /** An acknowledged threshold ping is the last one: the check is made and the query cleared. */
  lemma {:induction false} ThresholdAckEnds(es: seq<Event>)
    requires Exec(es).loader.Threshold? && Exec(es).loader.url != NoUrl
    ensures var s' := Exec(es + [LoaderDone(true)]);
            s'.loader == Idle && s'.prefs.thresholdCheckMade && s'.prefs.thresholdQuery == NoUrl
    ensures ThresholdAcks(es + [LoaderDone(true)]) == ThresholdAcks(es) + [Exec(es).loader.url]
  {
    RunSnoc(es, LoaderDone(true));
    assert (es + [LoaderDone(true)])[..|es|] == es;
  }

  lemma {:induction false} FirstPingAcknowledged(start: Event, fired: Event, done: Event, d: Date)
      returns (es: seq<Event>)
    requires start == Start(true, false) && fired == StartupTimerFired(d, d) && done == LoaderDone(true)
    ensures ReadyForThreshold(Exec(es)) && Exec(es).score == 0 && Exec(es).prefs.firstCheckMade
  {
    FirstPingInFlight(start, fired, d);
    es := [start] + [fired] + [done];
    RunSnoc([start] + [fired], done);
    FirstAck(Exec([start] + [fired]));
  }

  lemma FirstAck(s: State)
    requires s.loader.Standard? && ReadyForThreshold(s) && s.score == 0
    ensures var s' := Step(s, LoaderDone(true));
            ReadyForThreshold(s') && s'.score == 0 && s'.prefs.firstCheckMade
  {
  }

  /** It does get through: the first ping is acknowledged, three pages come, and the threshold ping is sent
      and acknowledged. */
  lemma {:induction false} ThresholdPingGetsThrough(d: Date) returns (es: seq<Event>)
    ensures |ThresholdAcks(es)| == 1
  {
    var sent := FirstPingAcknowledged(Start(true, false), StartupTimerFired(d, d), LoaderDone(true), d);
    var page: Event := ThresholdScore(1);
    ScoreOnlyCounts(sent, 1);
    ScoreOnlyCounts(sent + [page], 1);
    ThresholdPingIsSent(sent + [page] + [page], 1);
    var es3 := sent + [page] + [page] + [page];
    ThresholdAckEnds(es3);
    es := es3 + [LoaderDone(true)];
    OneThresholdAck(es);
  }
}
