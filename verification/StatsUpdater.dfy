/**
 The stats updater, its preferences and the parameters of a ping, updated in place. Every method does
 to the fields exactly what the corresponding function of module StatsPing does to the state.
 */
module StatsUpdater {
  import opened Calendar
  import opened YmdStrings
  import opened StatsPing
  import opened StatsTheorems

  /** The local-state preferences of the updater. */
  class PrefService {
    var firstCheckMade: bool
    var thresholdCheckMade: bool
    var thresholdQuery: Url
    var lastCheckWoy: int
    var lastCheckMonth: int
    var lastCheckYmd: string
    var weekOfInstallation: string

    function View(): Prefs
      reads this
    {
      Prefs(firstCheckMade, thresholdCheckMade, thresholdQuery, lastCheckWoy, lastCheckMonth, lastCheckYmd,
            weekOfInstallation)
    }

    constructor RegisterLocalStatePrefs()
      ensures View() == FreshPrefs
    {
      firstCheckMade, thresholdCheckMade, thresholdQuery := false, false, NoUrl;
      lastCheckWoy, lastCheckMonth, lastCheckYmd, weekOfInstallation := 0, 0, "", "";
    }
  }

  class BraveStatsUpdaterParams {
    const prefs: PrefService
    const ymd: string
    const woy: int
    const month: int
    const lastCheckYmd: string
    const lastCheckWoy: int
    const lastCheckMonth: int
    const firstCheckMade: bool
    const weekOfInstallation: string

    function View(): Params {
      Params(ymd, woy, month, lastCheckYmd, lastCheckWoy, lastCheckMonth, firstCheckMade, weekOfInstallation)
    }

    /** Takes today's date and loads the rest from the preferences. */
    constructor (prefs: PrefService, today: Date)
      ensures this.prefs == prefs && View() == Load(prefs.View(), today)
    {
      this.prefs := prefs;
      ymd, woy, month := Format(today), IsoWeek(today), today.month;
      lastCheckYmd, lastCheckWoy, lastCheckMonth := prefs.lastCheckYmd, prefs.lastCheckWoy, prefs.lastCheckMonth;
      firstCheckMade := prefs.firstCheckMade;
      var week := prefs.weekOfInstallation;
      if week == "" {
        week := Format(LastMonday(today));
      }
      weekOfInstallation := week;
    }

    method SavePrefs()
      modifies prefs
      ensures prefs.View() == Save(old(prefs.View()), View())
    {
      prefs.lastCheckYmd := ymd;
      prefs.lastCheckWoy := woy;
      prefs.lastCheckMonth := month;
      prefs.firstCheckMade := true;
      prefs.weekOfInstallation := weekOfInstallation;
    }

    predicate Daily() {
      Compare(ymd, lastCheckYmd) == 1
    }

    predicate Weekly() {
      lastCheckWoy == 0 || woy != lastCheckWoy
    }

    predicate Monthly() {
      lastCheckMonth == 0 || month != lastCheckMonth
    }

    /** What the URL says is determined by the pings acknowledged before, however the preferences got to
        remember them. */
    function UpdateUrl(path: string): (u: Url)
      ensures forall p: Prefs, acks: seq<Ping>, d: Date :: Remembers(p, acks) && View() == Load(p, d) ==>
                u == Url(path, ExpectedReport(acks, d))
    {
      LoadedReportIsExpected(View());
      Url(path, Report(Daily(), Weekly(), Monthly(), !firstCheckMade, weekOfInstallation))
    }
  }

  /** The loader with the callback bound to it. Assigning another one drops the callback. */
  datatype SimpleUrlLoader =
    | NoLoader
    | StandardLoader(sent: Date, params: BraveStatsUpdaterParams)
    | ThresholdLoader(url: Url)

  class BraveStatsUpdater {
    const prefs: PrefService
    var thresholdScore: int
    var startupComplete: bool
    var startupTimer: Timer
    var periodicTimer: bool
    var preconditions: nat
    var loader: SimpleUrlLoader

    /** The parameters bound to a request write to the preferences of this updater. */
    ghost predicate Valid()
      reads this
    {
      loader.StandardLoader? ==> loader.params.prefs == prefs
    }

    function View(): State
      reads this, prefs
    {
      State(prefs.View(), thresholdScore, startupComplete, startupTimer, periodicTimer, preconditions,
            match loader
            case NoLoader => Idle
            case StandardLoader(sent, params) => Standard(sent, params.View())
            case ThresholdLoader(url) => Threshold(url))
    }

    constructor (prefs: PrefService)
      ensures Valid() && this.prefs == prefs && View() == NewProcess(prefs.View())
    {
      this.prefs := prefs;
      thresholdScore, startupComplete, startupTimer, periodicTimer := 0, false, Absent, false;
      preconditions, loader := 0, NoLoader;
    }

    method Start(referralsInitialized: bool, adsEnabled: bool)
      requires Valid() && Enabled(View(), StatsPing.Start(referralsInitialized, adsEnabled))
      modifies this
      ensures Valid() && View() == StartUpdater(old(View()), referralsInitialized, adsEnabled)
    {
      startupTimer := Stopped;
      QueueServerPing(referralsInitialized, adsEnabled);
      periodicTimer := true;
    }

    method QueueServerPing(referralsInitialized: bool, adsEnabled: bool)
      requires Valid() && startupTimer == Stopped
      modifies this
      ensures Valid()
      ensures View().(periodicTimer := true) == StartUpdater(old(View()), referralsInitialized, adsEnabled)
      ensures periodicTimer == old(periodicTimer)
    {
      var closures := 0;
      if !referralsInitialized {
        closures := closures + 1;
      }
      if adsEnabled {
        closures := closures + 1;
      }
      preconditions := closures;
      if closures == 0 {
        StartServerPingStartupTimer();
      }
    }

    /** The barrier runs its callback when the last precondition is met. */
    method OnPreconditionMet()
      requires Valid() && Enabled(View(), PreconditionMet)
      modifies this
      ensures Valid() && View() == Apply(old(View()), PreconditionMet)
    {
      preconditions := preconditions - 1;
      if preconditions == 0 {
        StartServerPingStartupTimer();
      }
    }

    method StartServerPingStartupTimer()
      requires Valid()
      modifies this
      ensures Valid() && View() == StatsPing.StartServerPingStartupTimer(old(View()))
    {
      startupComplete := true;
      startupTimer := Running;
    }

    method Stop()
      requires Valid()
      modifies this
      ensures Valid() && View() == old(View()).(startupTimer := Absent, periodicTimer := false)
    {
      startupTimer := Absent;
      periodicTimer := false;
    }

    /** A one-shot timer is no longer running when its task runs. */
    method OnStartupTimerFired(today: Date, sent: Date)
      requires Valid() && Enabled(View(), StartupTimerFired(today, sent))
      modifies this
      ensures Valid() && View() == Apply(old(View()), StartupTimerFired(today, sent))
    {
      startupTimer := Stopped;
      OnServerPingTimerFired(today, sent);
    }

    method OnServerPingTimerFired(today: Date, sent: Date)
      requires Valid()
      modifies this
      ensures Valid() && View() == ServerPingTimerFired(old(View()), today, sent)
    {
      if Compare(Format(today), prefs.lastCheckYmd) == 0 {
        return;
      }
      SendServerPing(sent);
    }

    method SendServerPing(sent: Date)
      requires Valid()
      modifies this
      ensures Valid() && View() == StatsPing.SendServerPing(old(View()), sent)
    {
      var params := new BraveStatsUpdaterParams(prefs, sent);
      loader := StandardLoader(sent, params);
    }

    method SendUserTriggeredPing()
      requires Valid()
      modifies this, prefs
      ensures Valid() && View() == StatsPing.SendUserTriggeredPing(old(View()))
    {
      var query := prefs.thresholdQuery;
      if query == NoUrl {
        DisableThresholdPing();
      }
      loader := ThresholdLoader(query);
    }

    method DisableThresholdPing()
      requires Valid()
      modifies prefs
      ensures Valid() && View() == StatsPing.DisableThresholdPing(old(View()))
    {
      prefs.thresholdCheckMade := true;
      prefs.thresholdQuery := NoUrl;
    }

    method MaybeDoThresholdPing(score: int) returns (done: bool)
      requires Valid() && TimerMayBeAsked(View())
      modifies this, prefs
      ensures Valid() && (View(), done) == StatsPing.MaybeDoThresholdPing(old(View()), score)
      ensures done <==> old(prefs.thresholdCheckMade) || 3 <= old(thresholdScore) + score
    {
      thresholdScore := thresholdScore + score;
      if prefs.thresholdCheckMade {
        return true;
      }
      if startupTimer == Running || !startupComplete {
        return thresholdScore >= MinimumUsageThreshold;
      }
      if thresholdScore >= MinimumUsageThreshold {
        SendUserTriggeredPing();
        return true;
      }
      return false;
    }

    /** The answer to the request in flight: its callback is used up and runs. */
    method OnLoaderDone(ok: bool)
      requires Valid() && Enabled(View(), LoaderDone(ok))
      modifies this, prefs
      ensures Valid() && View() == Apply(old(View()), LoaderDone(ok))
    {
      var done := loader;
      loader := NoLoader;
      match done
      case StandardLoader(_, params) => OnSimpleLoaderComplete(params, ok);
      case ThresholdLoader(_) => OnThresholdLoaderComplete(ok);
      case NoLoader =>
    }

    method OnSimpleLoaderComplete(params: BraveStatsUpdaterParams, ok: bool)
      requires Valid() && params.prefs == prefs && (ok ==> TimerMayBeAsked(View()))
      modifies this, prefs
      ensures Valid() && View() == SimpleLoaderComplete(old(View()), params.View(), ok)
    {
      if !ok {
        return;
      }
      var first := prefs.firstCheckMade;
      if !first && !prefs.thresholdCheckMade {
        prefs.thresholdQuery := params.UpdateUrl(ThresholdPath);
      }
      params.SavePrefs();
      var _ := MaybeDoThresholdPing(0);
    }

    method OnThresholdLoaderComplete(ok: bool)
      requires Valid()
      modifies prefs
      ensures Valid() && View() == ThresholdLoaderComplete(old(View()), ok)
    {
      if !ok {
        return;
      }
      DisableThresholdPing();
    }
  }

  /** What the surroundings do with the updater when an event comes; a restart makes a new updater on
      the old preferences. Events that cannot happen are passed over. */
  method Deliver(u: BraveStatsUpdater, e: Event) returns (r: BraveStatsUpdater)
    requires u.Valid()
    modifies u, u.prefs
    ensures r.Valid() && r.prefs == u.prefs && (r == u || fresh(r))
    ensures r.View() == Step(old(u.View()), e)
  {
    r := u;
    if Enabled(u.View(), e) {
      match e
      case Restart => r := new BraveStatsUpdater(u.prefs);
      case Start(referrals, ads) => u.Start(referrals, ads);
      case PreconditionMet => u.OnPreconditionMet();
      case StartupTimerFired(today, sent) => u.OnStartupTimerFired(today, sent);
      case PeriodicTimerFired(today, sent) => u.OnServerPingTimerFired(today, sent);
      case ThresholdScore(points) => var _ := u.MaybeDoThresholdPing(points);
      case LoaderDone(ok) => u.OnLoaderDone(ok);
      case Stop => u.Stop();
    }
  }

  /** The URL of a standard ping in flight says what the pings acknowledged so far and the date it was
      sent on determine. */
  lemma {:induction false} RequestInFlightSays(u: BraveStatsUpdater, es: seq<Event>, path: string)
    requires u.View() == Exec(es) && u.loader.StandardLoader?
    ensures u.loader.params.UpdateUrl(path) == Url(path, ExpectedReport(Acks(es), u.loader.sent))
  {
    RunChain(es);
    assert Remembers(Exec(es).prefs, Acks(es)) && u.loader.params.View() == Load(Exec(es).prefs, u.loader.sent);
  }

  /** Any run of the updater objects is a run of the state machine, so everything proved of those runs
      holds of the objects. */
  method Run(es: seq<Event>) returns (u: BraveStatsUpdater)
    ensures u.View() == Exec(es)
  {
    var prefs := new PrefService.RegisterLocalStatePrefs();
    u := new BraveStatsUpdater(prefs);
    var i := 0;
    while i < |es|
      invariant 0 <= i <= |es| && fresh(u) && fresh(u.prefs)
      invariant u.Valid() && u.View() == Exec(es[..i])
    {
      assert es[..i + 1][..i] == es[..i];
      u := Deliver(u, es[i]);
      i := i + 1;
    }
    assert es[..i] == es;
  }
}
