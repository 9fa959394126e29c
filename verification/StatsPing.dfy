/**
 What one event does to the usage-ping state, as functions on values. The preferences survive a
 restart; everything else starts over. There is a single loader: whatever is sent replaces it, and
 the answer to a replaced request is never delivered.
 */
module StatsPing {
  import opened Calendar
  import opened YmdStrings

  /** What a ping says. Platform, channel, version and the other parameters play no part here. */
  datatype Report = Report(daily: bool, weekly: bool, monthly: bool, first: bool, weekOfInstallation: string)

  /** A request URL, or the stored text of one: the empty string is `NoUrl`. */
  datatype Url = NoUrl | Url(path: string, report: Report)

  datatype Prefs = Prefs(
    firstCheckMade: bool,
    thresholdCheckMade: bool,
    thresholdQuery: Url,
    lastWoy: int,
    lastMonth: int,
    lastYmd: string,
    weekOfInstallation: string)

  const FreshPrefs := Prefs(false, false, NoUrl, 0, 0, "", "")

  /** The parameters of one standard ping: today's date and what the preferences said when it was sent. */
  datatype Params = Params(
    ymd: string,
    woy: int,
    month: int,
    lastYmd: string,
    lastWoy: int,
    lastMonth: int,
    firstCheckMade: bool,
    weekOfInstallation: string)

  datatype Timer = Absent | Stopped | Running

  /** The request in flight, if any; `sent` is the date it was sent on. */
  datatype Loader = Idle | Standard(sent: Date, params: Params) | Threshold(url: Url)

  datatype State = State(
    prefs: Prefs,
    score: int,
    startupComplete: bool,
    startupTimer: Timer,
    periodicTimer: bool,
    barrier: nat,
    loader: Loader)

  const MinimumUsageThreshold := 3
  const ThresholdPath := "/1/usage/brave-core-threshold"

  function NewProcess(prefs: Prefs): State {
    State(prefs, 0, false, Absent, false, 0, Idle)
  }

  datatype Event =
    | Restart
    | Start(referralsInitialized: bool, adsEnabled: bool)
    | PreconditionMet
    | StartupTimerFired(today: Date, sent: Date)
    | PeriodicTimerFired(today: Date, sent: Date)
    | ThresholdScore(points: int)
    | LoaderDone(ok: bool)
    | Stop

  // ------------------------------------------------------------ parameters

  /** Days since Monday, from the exploded day of the week. */
  function DaysAdjusted(dayOfWeek: int): (days: nat)
    requires 0 <= dayOfWeek < 7
    ensures days <= 6 && (days + 1) % 7 == dayOfWeek
  {
    if dayOfWeek == 0 then 6 else dayOfWeek - 1
  }

  lemma AdjustedToMonday(n: nat)
    ensures 0 <= (n % 7 + 1) % 7 < 7 && DaysAdjusted((n % 7 + 1) % 7) == n % 7 <= n
  {
  }

  /** The Monday of the week of `d`, counted back from the exploded day of week (0 is Sunday). */
  function LastMonday(d: Date): (m: Date)
    ensures DayNumber(m) == DayNumber(d) - Weekday(d)
  {
    DayInYear(d);
    AdjustedToMonday(DayNumber(d));
    DaysEarlier(d, DaysAdjusted((Weekday(d) + 1) % 7))
  }

  function Load(p: Prefs, today: Date): Params {
    Params(Format(today), IsoWeek(today), today.month, p.lastYmd, p.lastWoy, p.lastMonth, p.firstCheckMade,
           if p.weekOfInstallation == "" then Format(LastMonday(today)) else p.weekOfInstallation)
  }

  function Save(p: Prefs, params: Params): Prefs {
    p.(lastYmd := params.ymd, lastWoy := params.woy, lastMonth := params.month, firstCheckMade := true,
       weekOfInstallation := params.weekOfInstallation)
  }

  function ReportOf(params: Params): Report {
    Report(Compare(params.ymd, params.lastYmd) == 1,
           params.lastWoy == 0 || params.woy != params.lastWoy,
           params.lastMonth == 0 || params.month != params.lastMonth,
           !params.firstCheckMade,
           params.weekOfInstallation)
  }

  // ------------------------------------------------------------ operations

  function DisableThresholdPing(s: State): State {
    s.(prefs := s.prefs.(thresholdCheckMade := true, thresholdQuery := NoUrl))
  }

  function StartServerPingStartupTimer(s: State): State {
    s.(startupComplete := true, startupTimer := Running)
  }

  function StartUpdater(s: State, referralsInitialized: bool, adsEnabled: bool): State {
    var waiting := (if referralsInitialized then 0 else 1) + (if adsEnabled then 1 else 0);
    var queued := s.(startupTimer := Stopped, barrier := waiting, periodicTimer := true);
    if waiting == 0 then StartServerPingStartupTimer(queued) else queued
  }

  function SendServerPing(s: State, sent: Date): State {
    s.(loader := Standard(sent, Load(s.prefs, sent)))
  }

  function ServerPingTimerFired(s: State, today: Date, sent: Date): State {
    if Compare(Format(today), s.prefs.lastYmd) == 0 then s else SendServerPing(s, sent)
  }

  function SendUserTriggeredPing(s: State): State {
    var d := if s.prefs.thresholdQuery == NoUrl then DisableThresholdPing(s) else s;
    d.(loader := Threshold(s.prefs.thresholdQuery))
  }

  /** The standard ping has been sent and nothing else holds the threshold ping back. */
  predicate MaySendThreshold(s: State) {
    s.startupTimer != Running && s.startupComplete
  }

  function MaybeDoThresholdPing(s: State, points: int): (State, bool) {
    var t := s.(score := s.score + points);
    if t.prefs.thresholdCheckMade then (t, true)
    else if !MaySendThreshold(t) then (t, t.score >= MinimumUsageThreshold)
    else if t.score >= MinimumUsageThreshold then (SendUserTriggeredPing(t), true)
    else (t, false)
  }

  function SimpleLoaderComplete(s: State, params: Params, ok: bool): State {
    if !ok then s
    else
      var query := if !s.prefs.firstCheckMade && !s.prefs.thresholdCheckMade
                   then Url(ThresholdPath, ReportOf(params)) else s.prefs.thresholdQuery;
      var saved := s.(prefs := Save(s.prefs.(thresholdQuery := query), params));
      MaybeDoThresholdPing(saved, 0).0
  }

  function ThresholdLoaderComplete(s: State, ok: bool): State {
    if ok then DisableThresholdPing(s) else s
  }

  // ------------------------------------------------------------ steps and runs

  /** MaybeDoThresholdPing asks the startup timer whether it is running, unless the check is already
      made: the timer has to be there, that is, the updater is started and not stopped. */
  predicate TimerMayBeAsked(s: State) {
    s.startupTimer != Absent || s.prefs.thresholdCheckMade
  }

  /** What the surroundings guarantee: timers fire only while they are running, callbacks come only for
      the request in flight, a request to an empty URL never succeeds, and nothing that needs the
      startup timer happens while there is none. */
  predicate Enabled(s: State, e: Event) {
    match e
    case Restart => true
    case Start(_, _) => s.startupTimer == Absent && !s.periodicTimer
    case PreconditionMet => 0 < s.barrier && s.startupTimer != Absent
    case StartupTimerFired(_, _) => s.startupTimer == Running
    case PeriodicTimerFired(_, _) => s.periodicTimer
    case ThresholdScore(_) => TimerMayBeAsked(s)
    case LoaderDone(ok) =>
      && s.loader != Idle
      && (ok ==> s.loader != Threshold(NoUrl) && (s.loader.Standard? ==> TimerMayBeAsked(s)))
    case Stop => true
  }

  function Apply(s: State, e: Event): State
    requires Enabled(s, e)
  {
    match e
    case Restart => NewProcess(s.prefs)
    case Start(r, a) => StartUpdater(s, r, a)
    case PreconditionMet =>
      var t := s.(barrier := s.barrier - 1);
      if t.barrier == 0 then StartServerPingStartupTimer(t) else t
    case StartupTimerFired(today, sent) => ServerPingTimerFired(s.(startupTimer := Stopped), today, sent)
    case PeriodicTimerFired(today, sent) => ServerPingTimerFired(s, today, sent)
    case ThresholdScore(points) => MaybeDoThresholdPing(s, points).0
    case LoaderDone(ok) =>
      var idle := s.(loader := Idle);
      (match s.loader
       case Standard(_, params) => SimpleLoaderComplete(idle, params, ok)
       case Threshold(_) => ThresholdLoaderComplete(idle, ok)
       case Idle => idle)
    case Stop => s.(startupTimer := Absent, periodicTimer := false)
  }

  /** Events that cannot happen in a state are passed over. */
  function Step(s: State, e: Event): State {
    if Enabled(s, e) then Apply(s, e) else s
  }

  /** A run over any number of processes, starting with a fresh installation. */
  function Exec(es: seq<Event>): State {
    if es == [] then NewProcess(FreshPrefs) else Step(Exec(es[..|es| - 1]), es[|es| - 1])
  }

  /** A standard ping the server acknowledged. */
  datatype Ping = Ping(sent: Date, params: Params)

  predicate AcksStandard(s: State, e: Event) {
    Enabled(s, e) && e == LoaderDone(true) && s.loader.Standard?
  }

  function Acks(es: seq<Event>): seq<Ping> {
    if es == [] then []
    else
      var before, s, e := es[..|es| - 1], Exec(es[..|es| - 1]), es[|es| - 1];
      Acks(before) + (if AcksStandard(s, e) then [Ping(s.loader.sent, s.loader.params)] else [])
  }

  predicate AcksThreshold(s: State, e: Event) {
    Enabled(s, e) && e == LoaderDone(true) && s.loader.Threshold?
  }

  /** The threshold pings that were acknowledged. */
  function ThresholdAcks(es: seq<Event>): seq<Url> {
    if es == [] then []
    else
      var before, s, e := es[..|es| - 1], Exec(es[..|es| - 1]), es[|es| - 1];
      ThresholdAcks(before) + (if AcksThreshold(s, e) then [s.loader.url] else [])
  }
}
