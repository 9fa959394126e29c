/**
 What holds of the threshold ping over every run: it is prepared once, from the first acknowledged
 ping, it is acknowledged at most once, and exactly one kind of early call loses it for good.
 */
module ThresholdTheorems {
  import opened Calendar
  import opened StatsPing
  import opened StatsTheorems

  /** What the threshold preferences and the threshold request in flight may be, given the acknowledged pings. */
  ghost predicate PrefsInv(s: State, acks: seq<Ping>, done: seq<Url>) {
    && (s.prefs.firstCheckMade <==> acks != [])
    && (s.prefs.thresholdCheckMade ==> s.prefs.thresholdQuery == NoUrl)
    && (!s.prefs.firstCheckMade ==> s.prefs.thresholdQuery == NoUrl)
    && (s.prefs.firstCheckMade && !s.prefs.thresholdCheckMade ==>
          s.prefs.thresholdQuery == Url(ThresholdPath, ReportOf(acks[0].params)))
    && (s.loader.Threshold? && s.loader.url != NoUrl ==>
          !s.prefs.thresholdCheckMade && s.loader.url == s.prefs.thresholdQuery)
    && (done != [] ==>
          acks != [] && s.prefs.thresholdCheckMade && done == [Url(ThresholdPath, ReportOf(acks[0].params))])
  }

  lemma MaybeDoKeepsPrefs(s: State, points: int, acks: seq<Ping>, done: seq<Url>)
    requires PrefsInv(s, acks, done)
    ensures PrefsInv(MaybeDoThresholdPing(s, points).0, acks, done)
  {
  }

  lemma StandardAckKeepsPrefs(s: State, acks: seq<Ping>, done: seq<Url>)
    requires PrefsInv(s, acks, done) && AcksStandard(s, LoaderDone(true))
    ensures PrefsInv(Step(s, LoaderDone(true)), acks + [Ping(s.loader.sent, s.loader.params)], done)
  {
  }

  lemma ThresholdAckKeepsPrefs(s: State, acks: seq<Ping>, done: seq<Url>)
    requires PrefsInv(s, acks, done) && AcksThreshold(s, LoaderDone(true))
    ensures PrefsInv(Step(s, LoaderDone(true)), acks, done + [s.loader.url])
  {
  }

  lemma OtherStepKeepsPrefs(s: State, e: Event, acks: seq<Ping>, done: seq<Url>)
    requires PrefsInv(s, acks, done) && !AcksStandard(s, e)
    ensures PrefsInv(Step(s, e), acks, done + if AcksThreshold(s, e) then [s.loader.url] else [])
  {
    assert done + [] == done;
    if Enabled(s, e) {
      match e
      case ThresholdScore(points) => MaybeDoKeepsPrefs(s, points, acks, done);
      case LoaderDone(ok) =>
        if AcksThreshold(s, e) {
          ThresholdAckKeepsPrefs(s, acks, done);
        }
      case _ =>
    }
  }

  lemma {:induction false} RunPrefs(es: seq<Event>)
    ensures PrefsInv(Exec(es), Acks(es), ThresholdAcks(es))
    decreases |es|
  {
    if es == [] {
      return;
    }
    var before, s, e := es[..|es| - 1], Exec(es[..|es| - 1]), es[|es| - 1];
    RunPrefs(before);
    if AcksStandard(s, e) {
      assert ThresholdAcks(es) == ThresholdAcks(before);
      StandardAckKeepsPrefs(s, Acks(before), ThresholdAcks(before));
    } else {
      assert Acks(es) == Acks(before);
      OtherStepKeepsPrefs(s, e, Acks(before), ThresholdAcks(before));
    }
  }

  /** In every reachable state: once the check is made nothing is stored; something is stored only after
      a first ping; and whatever is stored carries the report of the first acknowledged ping. */
  lemma {:induction false} ThresholdPrefsAreConsistent(es: seq<Event>)
    ensures var p := Exec(es).prefs;
            && (p.thresholdCheckMade ==> p.thresholdQuery == NoUrl)
            && (p.thresholdQuery != NoUrl ==>
                  && p.firstCheckMade && Acks(es) != []
                  && p.thresholdQuery == Url(ThresholdPath, ReportOf(Acks(es)[0].params)))
            && (p.firstCheckMade && !p.thresholdCheckMade ==> p.thresholdQuery != NoUrl)
  {
    RunPrefs(es);
  }

  /** A stored query always says that it is of the first ping, and of the week that ping was sent in. */
  lemma {:induction false} StoredQuerySaysFirst(es: seq<Event>)
    requires Exec(es).prefs.thresholdQuery != NoUrl
    ensures Acks(es) != []
    ensures Exec(es).prefs.thresholdQuery == Url(ThresholdPath, ExpectedReport([], Acks(es)[0].sent))
    ensures Exec(es).prefs.thresholdQuery.report.first
  {
    ThresholdPrefsAreConsistent(es);
    AcknowledgedPingsFormAChain(es, 0);
    assert Acks(es)[..0] == [];
  }

  /** No step takes either check back; a step that changes the stored query either stores it for the
      first time or clears it and disables the threshold ping. */
  lemma ChecksAreNeverTakenBack(s: State, e: Event)
    ensures var p, p' := s.prefs, Step(s, e).prefs;
            && (p.firstCheckMade ==> p'.firstCheckMade)
            && (p.thresholdCheckMade ==> p'.thresholdCheckMade)
            && (p'.thresholdQuery == p.thresholdQuery
                || (!p.firstCheckMade && p'.firstCheckMade)
                || (p'.thresholdQuery == NoUrl && p'.thresholdCheckMade))
  {
  }

  /** At most one threshold ping is ever acknowledged, and it says what the first standard ping said. */
  lemma {:induction false} OneThresholdAck(es: seq<Event>)
    ensures |ThresholdAcks(es)| <= 1
    ensures ThresholdAcks(es) != [] ==>
              Acks(es) != [] && ThresholdAcks(es) == [Url(ThresholdPath, ReportOf(Acks(es)[0].params))]
  {
    RunPrefs(es);
  }

  // ------------------------------------------------------------ when the threshold ping is lost

  /** A call that brings the score to the threshold while nothing holds the threshold ping back. */
  predicate ReachesThreshold(s: State, e: Event) {
    && e.ThresholdScore? && Enabled(s, e)
    && s.startupTimer != Running && s.startupComplete && s.score + e.points >= 3
  }

  /** No such call comes before the first acknowledged standard ping. */
  predicate Undisturbed(es: seq<Event>) {
    es == []
    || (Undisturbed(es[..|es| - 1])
        && (ReachesThreshold(Exec(es[..|es| - 1]), es[|es| - 1]) ==> Acks(es[..|es| - 1]) != []))
  }

  /** The threshold query has been stored at some time in the run. */
  predicate EverStored(es: seq<Event>) {
    Exec(es).prefs.thresholdQuery != NoUrl || (es != [] && EverStored(es[..|es| - 1]))
  }

  ghost predicate LossInv(es: seq<Event>) {
    var p := Exec(es).prefs;
    && (!p.firstCheckMade ==> !EverStored(es) && (p.thresholdCheckMade <==> !Undisturbed(es)))
    && (p.firstCheckMade ==> (EverStored(es) <==> Undisturbed(es)))
    && (!Undisturbed(es) ==> p.thresholdCheckMade && p.thresholdQuery == NoUrl && ThresholdAcks(es) == [])
    && (Undisturbed(es) && p.thresholdCheckMade ==> ThresholdAcks(es) != [])
  }

  lemma {:induction false} RunLoss(es: seq<Event>)
    ensures LossInv(es)
    decreases |es|
  {
    if es == [] {
      return;
    }
    var before, e := es[..|es| - 1], es[|es| - 1];
    assert es == before + [e];
    RunLoss(before);
    RunPrefs(before);
    RunPrefs(es);
    StepLoss(before, e);
  }

  lemma StepPrefs(s: State, e: Event)
    ensures !AcksStandard(s, e) ==> Step(s, e).prefs.firstCheckMade == s.prefs.firstCheckMade
    ensures !AcksStandard(s, e) && Step(s, e).prefs.thresholdCheckMade && !s.prefs.thresholdCheckMade ==>
              AcksThreshold(s, e) || (ReachesThreshold(s, e) && s.prefs.thresholdQuery == NoUrl)
    ensures ReachesThreshold(s, e) && s.prefs.thresholdQuery == NoUrl ==> Step(s, e).prefs.thresholdCheckMade
  {
  }

  lemma StandardAckPrefs(s: State, e: Event)
    requires AcksStandard(s, e)
    requires s.prefs.firstCheckMade && !s.prefs.thresholdCheckMade ==> s.prefs.thresholdQuery != NoUrl
    ensures Step(s, e).prefs.firstCheckMade && Step(s, e).prefs.thresholdCheckMade == s.prefs.thresholdCheckMade
  {
  }

  lemma {:induction false} StepLoss(es: seq<Event>, e: Event)
    requires LossInv(es) && PrefsInv(Exec(es), Acks(es), ThresholdAcks(es))
    requires PrefsInv(Exec(es + [e]), Acks(es + [e]), ThresholdAcks(es + [e]))
    ensures LossInv(es + [e])
  {
    var es' := es + [e];
    assert es'[..|es|] == es;
    StepPrefs(Exec(es), e);
    if AcksStandard(Exec(es), e) {
      StandardAckPrefs(Exec(es), e);
    }
    ChecksAreNeverTakenBack(Exec(es), e);
  }

  /** From a fresh installation, across restarts, the threshold query is ever stored exactly when a
      standard ping is acknowledged before any call reaches the threshold. */
  lemma {:induction false} QueryStoredIffFirstAckComesFirst(es: seq<Event>)
    ensures EverStored(es) <==> Acks(es) != [] && Undisturbed(es)
  {
    RunLoss(es);
    RunPrefs(es);
  }

  /** A call that comes too early loses the threshold ping for good: the check counts as made although
      nothing was ever stored or acknowledged. Without such a call it is given up only when acknowledged. */
  lemma {:induction false} EarlyCallLosesThresholdPing(es: seq<Event>)
    ensures !Undisturbed(es) ==>
              && Exec(es).prefs.thresholdCheckMade && Exec(es).prefs.thresholdQuery == NoUrl
              && !EverStored(es) && ThresholdAcks(es) == []
    ensures Undisturbed(es) ==> (Exec(es).prefs.thresholdCheckMade <==> ThresholdAcks(es) != [])
  {
    RunLoss(es);
    RunPrefs(es);
  }

  lemma {:induction false} EarlyCallDisturbs(es: seq<Event>, e: Event)
    requires ReachesThreshold(Exec(es), e) && Acks(es) == []
    ensures !Undisturbed(es + [e])
  {
  }

  /** The startup timer sends the very first ping at once: no report has been acknowledged before. */
  lemma StartedAndSent(d: Date)
    ensures var s := Step(Step(NewProcess(FreshPrefs), Start(true, false)), StartupTimerFired(d, d));
            && s.startupComplete && s.startupTimer == Stopped && s.loader.Standard? && s.score == 0
            && !s.prefs.thresholdCheckMade
  {
  }

  lemma {:induction false} TwoSteps(es: seq<Event>, a: Event, b: Event)
    requires !a.LoaderDone? && !b.LoaderDone?
    ensures Exec(es + [a] + [b]) == Step(Step(Exec(es), a), b) && Acks(es + [a] + [b]) == Acks(es)
  {
    RunSnoc(es, a);
    RunSnoc(es + [a], b);
  }

  lemma ScoreBelowThreshold(s: State, points: int)
    requires !s.prefs.thresholdCheckMade && s.startupTimer != Absent && s.score + points < MinimumUsageThreshold
    ensures Step(s, ThresholdScore(points)) == s.(score := s.score + points)
  {
  }

  /** A standard ping is in flight, and nothing else holds the threshold ping back. */
  lemma {:induction false} FirstPingInFlight(a: Event, b: Event, d: Date)
    requires a == Start(true, false) && b == StartupTimerFired(d, d)
    ensures var s := Exec([a] + [b]);
            && Acks([a] + [b]) == [] && s.loader.Standard?
            && s.score == 0 && s.startupComplete && s.startupTimer == Stopped && !s.prefs.thresholdCheckMade
  {
    assert [] + [a] == [a];
    TwoSteps([], a, b);
    StartedAndSent(d);
  }

  lemma {:induction false} TwoPages(es: seq<Event>, e: Event)
    requires e == ThresholdScore(1) && Acks(es) == []
    requires var s := Exec(es); s.score == 0 && s.startupTimer == Stopped && !s.prefs.thresholdCheckMade
    ensures Acks(es + [e] + [e]) == [] && Exec(es + [e] + [e]) == Exec(es).(score := 2)
  {
    TwoSteps(es, e, e);
    ScoreBelowThreshold(Exec(es), 1);
    ScoreBelowThreshold(Exec(es).(score := 1), 1);
  }

  lemma {:induction false} ThreePages(es: seq<Event>, e: Event)
    requires e == ThresholdScore(1) && Acks(es) == []
    requires var s := Exec(es);
             s.score == 0 && s.startupComplete && s.startupTimer == Stopped && !s.prefs.thresholdCheckMade
    ensures var es' := es + [e] + [e] + [e];
            !Undisturbed(es') && Acks(es') == [] && Exec(es').prefs.thresholdCheckMade
  {
    TwoPages(es, e);
    EarlyCallDisturbs(es + [e] + [e], e);
    RunSnoc(es + [e] + [e], e);
    EarlyCallLosesThresholdPing(es + [e] + [e] + [e]);
  }

  /** It does happen: the first ping is still in flight when the user's third page comes. Then the check
      counts as made, and nothing has been acknowledged. */
  lemma {:induction false} ThresholdPingCanBeLost(start: Event, fired: Event, page: Event, d: Date)
    requires start == Start(true, false) && fired == StartupTimerFired(d, d) && page == ThresholdScore(1)
    ensures var es := [start] + [fired] + [page] + [page] + [page];
            !Undisturbed(es) && Acks(es) == [] && Exec(es).prefs.thresholdCheckMade
  {
    FirstPingInFlight(start, fired, d);
    ThreePages([start] + [fired], page);
  }
}
