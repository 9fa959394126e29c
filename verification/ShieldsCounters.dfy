/**
 Counting blocked resources: each tab remembers the URLs already counted for its page, and the
 counters of the profile count each of them once.
 */
module ShieldsCounters {

  datatype BlockType = Ads | HttpUpgradableResources | JavaScript | FingerprintingV2 | Other(name: string)

  datatype ReloadType = NoReload | NormalReload | OtherReload

  datatype Counters = Counters(adsBlocked: nat, httpsUpgrades: nat, javascriptBlocked: nat, fingerprintingBlocked: nat)

  datatype Event =
    | Blocked(tab: nat, url: string, blockType: BlockType)
    | ReadyToCommit(tab: nat, mainFrame: bool, sameDocument: bool, reload: ReloadType)

  /** What the tabs remember, and the counters; a tab not seen yet remembers nothing. */
  datatype State = State(blocked: map<nat, set<string>>, counters: Counters)

  const Uint64Modulus := 0x1_0000_0000_0000_0000

  /** What is stored of a number in 64 bits. */
  function Stored(n: nat): nat {
    if n < Uint64Modulus then n else Stored(n - Uint64Modulus)
  }

  lemma {:induction false} StoredIsModulo(n: nat)
    ensures Stored(n) == n % Uint64Modulus
    decreases n
  {
    if Uint64Modulus <= n {
      StoredIsModulo(n - Uint64Modulus);
    }
  }

  function Increment(n: nat): nat {
    Stored(n + 1)
  }

  function Count(c: Counters, t: BlockType): Counters {
    match t
    case Ads => c.(adsBlocked := Increment(c.adsBlocked))
    case HttpUpgradableResources => c.(httpsUpgrades := Increment(c.httpsUpgrades))
    case JavaScript => c.(javascriptBlocked := Increment(c.javascriptBlocked))
    case FingerprintingV2 => c.(fingerprintingBlocked := Increment(c.fingerprintingBlocked))
    case Other(_) => c
  }

  /** A new page of the tab: only a main-frame commit of a new document that is no reload, or a normal
      one, makes the tab forget. */
  predicate StartsPage(e: Event) {
    e.ReadyToCommit? && e.mainFrame && !e.sameDocument && (e.reload == NoReload || e.reload == NormalReload)
  }

  function Remembered(s: State, tab: nat): set<string> {
    if tab in s.blocked then s.blocked[tab] else {}
  }

  function Step(s: State, e: Event): State {
    match e
    case Blocked(tab, url, t) =>
      if url in Remembered(s, tab) then s
      else State(s.blocked[tab := Remembered(s, tab) + {url}], Count(s.counters, t))
    case ReadyToCommit(tab, _, _, _) =>
      if StartsPage(e) then s.(blocked := s.blocked[tab := {}]) else s
  }

  function Exec(c: Counters, es: seq<Event>): State {
    if es == [] then State(map[], c) else Step(Exec(c, es[..|es| - 1]), es[|es| - 1])
  }

  // ------------------------------------------------------------ the independent count

  /** How many pages the tab has left behind. */
  function Epoch(es: seq<Event>, tab: nat): nat {
    if es == [] then 0
    else
      var e := es[|es| - 1];
      Epoch(es[..|es| - 1], tab) + (if StartsPage(e) && e.tab == tab then 1 else 0)
  }

  /** Event `i` reports this URL for this page of this tab. */
  predicate Reports(es: seq<Event>, i: nat, tab: nat, epoch: nat, url: string)
    requires i < |es|
  {
    es[i].Blocked? && es[i].tab == tab && es[i].url == url && Epoch(es[..i], tab) == epoch
  }

  /** Event `i` is the first report of its URL for its page of its tab. */
  ghost predicate IsFirst(es: seq<Event>, i: nat)
    requires i < |es|
  {
    && es[i].Blocked?
    && forall j :: 0 <= j < i ==> !Reports(es, j, es[i].tab, Epoch(es[..i], es[i].tab), es[i].url)
  }

  ghost predicate Reported(es: seq<Event>, tab: nat, epoch: nat, url: string) {
    exists j :: 0 <= j < |es| && Reports(es, j, tab, epoch, url)
  }

  lemma ReportedSnoc(es: seq<Event>, tab: nat, epoch: nat, url: string)
    requires es != []
    ensures var n := |es| - 1;
            Reported(es, tab, epoch, url) <==> Reported(es[..n], tab, epoch, url) || Reports(es, n, tab, epoch, url)
  {
    var n := |es| - 1;
    forall j | 0 <= j < n
      ensures Reports(es[..n], j, tab, epoch, url) <==> Reports(es, j, tab, epoch, url)
    {
      assert es[..n][..j] == es[..j];
    }
  }

  /** Nothing is reported for a page that has not begun. */
  lemma {:induction false} ReportedUpToNow(es: seq<Event>, tab: nat, epoch: nat, url: string)
    ensures Reported(es, tab, epoch, url) ==> epoch <= Epoch(es, tab)
    decreases |es|
  {
    if es != [] {
      ReportedUpToNow(es[..|es| - 1], tab, epoch, url);
      ReportedSnoc(es, tab, epoch, url);
    }
  }

  /** A tab remembers exactly the URLs that were reported for its present page. */
  lemma {:induction false} RunRemembers(c: Counters, es: seq<Event>, tab: nat, url: string)
    ensures url in Remembered(Exec(c, es), tab) <==> Reported(es, tab, Epoch(es, tab), url)
    decreases |es|
  {
    if es != [] {
      var before := es[..|es| - 1];
      RunRemembers(c, before, tab, url);
      ReportedSnoc(es, tab, Epoch(es, tab), url);
      ReportedUpToNow(before, tab, Epoch(es, tab), url);
    }
  }

  /** A report is counted exactly when it is the first of its URL for its page of its tab. */
  lemma {:induction false} CountedIffFirst(c: Counters, es: seq<Event>, n: nat)
    requires |es| == n + 1
    ensures IsFirst(es, n) <==> es[n].Blocked? && es[n].url !in Remembered(Exec(c, es[..n]), es[n].tab)
  {
    var e := es[n];
    if e.Blocked? {
      RunRemembers(c, es[..n], e.tab, e.url);
      forall j | 0 <= j < n
        ensures Reports(es[..n], j, e.tab, Epoch(es[..n], e.tab), e.url)
           <==> Reports(es, j, e.tab, Epoch(es[..n], e.tab), e.url)
      {
        assert es[..n][..j] == es[..j];
      }
    }
  }

  /** A URL blocked on one page of one tab. */
  datatype Triple = Triple(tab: nat, epoch: nat, url: string)

  function TripleOf(es: seq<Event>, i: nat): Triple
    requires i < |es| && es[i].Blocked?
  {
    Triple(es[i].tab, Epoch(es[..i], es[i].tab), es[i].url)
  }

  /** The triples that are first reported with a certain block type. */
  ghost function Triples(es: seq<Event>, t: BlockType): set<Triple> {
    set i | 0 <= i < |es| && IsFirst(es, i) && es[i].blockType == t :: TripleOf(es, i)
  }

  lemma EarlierEventsKeepTheirTriples(es: seq<Event>, n: nat, i: nat)
    requires i < n <= |es|
    ensures IsFirst(es[..n], i) <==> IsFirst(es, i)
    ensures es[i].Blocked? ==> TripleOf(es[..n], i) == TripleOf(es, i)
  {
    assert es[..n][..i] == es[..i];
    if es[i].Blocked? {
      var e, epoch := es[i], Epoch(es[..i], es[i].tab);
      forall j | 0 <= j < i
        ensures Reports(es[..n], j, e.tab, epoch, e.url) <==> Reports(es, j, e.tab, epoch, e.url)
      {
        assert es[..n][..j] == es[..j];
      }
    }
  }

  lemma InTriplesSnoc(es: seq<Event>, n: nat, t: BlockType, x: Triple)
    requires |es| == n + 1
    ensures x in Triples(es, t) <==>
              x in Triples(es[..n], t) || (IsFirst(es, n) && es[n].blockType == t && TripleOf(es, n) == x)
  {
    if i :| 0 <= i < n && IsFirst(es[..n], i) && es[i].blockType == t && TripleOf(es[..n], i) == x {
      EarlierEventsKeepTheirTriples(es, n, i);
    }
    if i :| 0 <= i < n && IsFirst(es, i) && es[i].blockType == t && TripleOf(es, i) == x {
      EarlierEventsKeepTheirTriples(es, n, i);
    }
  }

  lemma FirstReportIsNew(es: seq<Event>, n: nat, t: BlockType)
    requires |es| == n + 1 && IsFirst(es, n)
    ensures TripleOf(es, n) !in Triples(es[..n], t)
  {
    var x := TripleOf(es, n);
    if i :| 0 <= i < n && IsFirst(es[..n], i) && es[i].blockType == t && TripleOf(es[..n], i) == x {
      EarlierEventsKeepTheirTriples(es, n, i);
      assert Reports(es, i, x.tab, x.epoch, x.url);
    }
  }

  lemma OneMoreTriple(es: seq<Event>, n: nat, t: BlockType)
    requires |es| == n + 1
    ensures |Triples(es, t)| == |Triples(es[..n], t)| + if IsFirst(es, n) && es[n].blockType == t then 1 else 0
  {
    forall x
      ensures x in Triples(es, t) <==>
                x in Triples(es[..n], t) || (IsFirst(es, n) && es[n].blockType == t && TripleOf(es, n) == x)
    {
      InTriplesSnoc(es, n, t, x);
    }
    if IsFirst(es, n) && es[n].blockType == t {
      FirstReportIsNew(es, n, t);
      assert Triples(es, t) == Triples(es[..n], t) + {TripleOf(es, n)};
    } else {
      assert Triples(es, t) == Triples(es[..n], t);
    }
  }

  /** Each triple ever reported has exactly one first report, so it is among the triples of one type only. */
  lemma {:induction false} OneFirstReport(es: seq<Event>, x: Triple) returns (first: nat)
    requires Reported(es, x.tab, x.epoch, x.url)
    ensures first < |es| && IsFirst(es, first) && TripleOf(es, first) == x
    ensures forall i :: 0 <= i < |es| && IsFirst(es, i) && TripleOf(es, i) == x ==> i == first
    decreases |es|
  {
    var n := |es| - 1;
    ReportedSnoc(es, x.tab, x.epoch, x.url);
    if Reported(es[..n], x.tab, x.epoch, x.url) {
      first := OneFirstReport(es[..n], x);
      EarlierEventsKeepTheirTriples(es, n, first);
    } else {
      first := n;
      forall j | 0 <= j < n
        ensures !Reports(es, j, x.tab, x.epoch, x.url)
      {
        assert es[..n][..j] == es[..j];
        assert !Reports(es[..n], j, x.tab, x.epoch, x.url);
      }
    }
    FirstIsUnique(es, x, first);
  }

  lemma FirstIsUnique(es: seq<Event>, x: Triple, first: nat)
    requires first < |es| && IsFirst(es, first) && TripleOf(es, first) == x
    ensures forall i :: 0 <= i < |es| && IsFirst(es, i) && TripleOf(es, i) == x ==> i == first
  {
    forall i | 0 <= i < |es| && IsFirst(es, i) && TripleOf(es, i) == x
      ensures i == first
    {
      assert Reports(es, i, x.tab, x.epoch, x.url) && Reports(es, first, x.tab, x.epoch, x.url);
    }
  }

  predicate IsCounted(t: BlockType) {
    !t.Other?
  }

  /** The counter for a block type. */
  function Counter(c: Counters, t: BlockType): nat
    requires IsCounted(t)
  {
    match t
    case Ads => c.adsBlocked
    case HttpUpgradableResources => c.httpsUpgrades
    case JavaScript => c.javascriptBlocked
    case FingerprintingV2 => c.fingerprintingBlocked
  }

  lemma {:induction false} IncrementWraps(n: nat)
    ensures Increment(Stored(n)) == Stored(n + 1)
    decreases n
  {
    if Uint64Modulus <= n {
      IncrementWraps(n - Uint64Modulus);
    }
  }

  predicate Counts(s: State, e: Event, t: BlockType) {
    e.Blocked? && e.blockType == t && e.url !in Remembered(s, e.tab)
  }

  lemma StepCounts(s: State, e: Event, t: BlockType, n: nat)
    requires IsCounted(t) && Counter(s.counters, t) == Stored(n)
    ensures Counter(Step(s, e).counters, t) == Stored(n + if Counts(s, e, t) then 1 else 0)
  {
    IncrementWraps(n);
  }

  function CountedSteps(c: Counters, es: seq<Event>, t: BlockType): nat {
    if es == [] then 0
    else
      var before := es[..|es| - 1];
      CountedSteps(c, before, t) + if Counts(Exec(c, before), es[|es| - 1], t) then 1 else 0
  }

  lemma {:induction false} CounterGrows(c: Counters, es: seq<Event>, t: BlockType, k: nat)
    requires IsCounted(t) && Counter(c, t) < Uint64Modulus && k == CountedSteps(c, es, t)
    ensures Counter(Exec(c, es).counters, t) == Stored(Counter(c, t) + k)
    decreases |es|
  {
    if es != [] {
      var before := es[..|es| - 1];
      var n := CountedSteps(c, before, t);
      CounterGrows(c, before, t, n);
      StepCounts(Exec(c, before), es[|es| - 1], t, Counter(c, t) + n);
    }
  }

  /** A step counts exactly when it brings a new triple. */
  lemma {:induction false} CountedStepsAreTriples(c: Counters, es: seq<Event>, t: BlockType)
    ensures CountedSteps(c, es, t) == |Triples(es, t)|
    decreases |es|
  {
    if es == [] {
      assert Triples(es, t) == {};
    } else {
      var n := |es| - 1;
      CountedStepsAreTriples(c, es[..n], t);
      OneMoreTriple(es, n, t);
      CountedIffFirst(c, es, n);
    }
  }

  /** Over any run of any number of tabs of a profile, each counter has grown, modulo the width of the
      stored number, by exactly the number of distinct (tab, page, URL) triples first reported with its
      type. */
  lemma {:induction false} CountersAreConserved(c: Counters, es: seq<Event>, t: BlockType)
    requires IsCounted(t) && Counter(c, t) < Uint64Modulus
    ensures Counter(Exec(c, es).counters, t) == Stored(Counter(c, t) + |Triples(es, t)|)
  {
    CountedStepsAreTriples(c, es, t);
    CounterGrows(c, es, t, |Triples(es, t)|);
  }

  // ------------------------------------------------------------ the observer

  class Profile {
    var adsBlocked: nat
    var httpsUpgrades: nat
    var javascriptBlocked: nat
    var fingerprintingBlocked: nat

    function View(): Counters
      reads this
    {
      Counters(adsBlocked, httpsUpgrades, javascriptBlocked, fingerprintingBlocked)
    }

    constructor ()
      ensures View() == Counters(0, 0, 0, 0)
    {
      adsBlocked, httpsUpgrades, javascriptBlocked, fingerprintingBlocked := 0, 0, 0, 0;
    }
  }

  class BraveShieldsWebContentsObserver {
    const profile: Profile
    var blockedUrlPaths: set<string>
    var allowedScriptOrigins: seq<string>

    constructor (profile: Profile)
      ensures this.profile == profile && blockedUrlPaths == {} && allowedScriptOrigins == []
    {
      this.profile, blockedUrlPaths, allowedScriptOrigins := profile, {}, [];
    }

    predicate IsBlockedSubresource(subresource: string)
      reads this
    {
      subresource in blockedUrlPaths
    }

    method AddBlockedSubresource(subresource: string)
      modifies this
      ensures blockedUrlPaths == old(blockedUrlPaths) + {subresource}
      ensures allowedScriptOrigins == old(allowedScriptOrigins)
    {
      blockedUrlPaths := blockedUrlPaths + {subresource};
    }

    method DispatchBlockedEvent(subresource: string, blockType: BlockType)
      modifies this, profile
      ensures blockedUrlPaths == old(blockedUrlPaths) + {subresource}
      ensures profile.View() == if subresource in old(blockedUrlPaths) then old(profile.View())
                                else Count(old(profile.View()), blockType)
      ensures allowedScriptOrigins == old(allowedScriptOrigins)
    {
      if !IsBlockedSubresource(subresource) {
        AddBlockedSubresource(subresource);
        match blockType
        case Ads => profile.adsBlocked := Increment(profile.adsBlocked);
        case HttpUpgradableResources => profile.httpsUpgrades := Increment(profile.httpsUpgrades);
        case JavaScript => profile.javascriptBlocked := Increment(profile.javascriptBlocked);
        case FingerprintingV2 => profile.fingerprintingBlocked := Increment(profile.fingerprintingBlocked);
        case Other(_) =>
      }
    }

    /** Scripts allowed once are forgotten on new loads only, counted URLs on normal reloads as well. */
    method ReadyToCommitNavigation(mainFrame: bool, sameDocument: bool, reload: ReloadType)
      modifies this
      ensures blockedUrlPaths
           == if mainFrame && !sameDocument && reload != OtherReload then {} else old(blockedUrlPaths)
      ensures allowedScriptOrigins
           == if mainFrame && !sameDocument && reload == NoReload then [] else old(allowedScriptOrigins)
    {
      if mainFrame && !sameDocument {
        if reload == NoReload {
          allowedScriptOrigins := [];
          blockedUrlPaths := {};
        } else if reload == NormalReload {
          blockedUrlPaths := {};
        }
      }
    }

    method AllowScriptsOnce(origins: seq<string>)
      modifies this`allowedScriptOrigins
      ensures allowedScriptOrigins == origins
    {
      allowedScriptOrigins := origins;
    }
  }

  /** The tabs of one profile. */
  class ProfileTabs {
    const profile: Profile
    var observers: map<nat, BraveShieldsWebContentsObserver>

    constructor (profile: Profile)
      ensures this.profile == profile && observers == map[]
    {
      this.profile, observers := profile, map[];
    }

    ghost predicate Valid()
      reads this, observers.Values
    {
      && (forall t :: t in observers ==> observers[t].profile == profile)
      && (forall t, u :: t in observers && u in observers && t != u ==> observers[t] != observers[u])
    }

    /** The objects are what the state of a run says. */
    ghost predicate Shows(s: State)
      reads this, observers.Values, profile
    {
      && profile.View() == s.counters
      && (forall t :: t in observers ==> observers[t].blockedUrlPaths == Remembered(s, t))
      && (forall t: nat :: t !in observers ==> Remembered(s, t) == {})
    }

    method Deliver(e: Event, ghost s: State)
      requires Valid() && Shows(s)
      modifies this, observers.Values, profile
      ensures Valid() && Shows(Step(s, e))
      ensures forall o :: o in observers.Values ==> o in old(observers.Values) || fresh(o)
    {
      if e.tab !in observers {
        var o := new BraveShieldsWebContentsObserver(profile);
        observers := observers[e.tab := o];
      }
      var o := observers[e.tab];
      match e
      case Blocked(_, url, blockType) => o.DispatchBlockedEvent(url, blockType);
      case ReadyToCommit(_, mainFrame, sameDocument, reload) =>
        o.ReadyToCommitNavigation(mainFrame, sameDocument, reload);
    }
  }

  /** Any run of the observers is a run of the state machine, so the counters of the profile end up as
      the conservation law says. */
  method Run(es: seq<Event>) returns (p: Profile)
    ensures p.View() == Exec(Counters(0, 0, 0, 0), es).counters
  {
    p := new Profile();
    var tabs := new ProfileTabs(p);
    var i := 0;
    while i < |es|
      invariant 0 <= i <= |es| && fresh(p) && fresh(tabs) && tabs.profile == p
      invariant forall o :: o in tabs.observers.Values ==> fresh(o)
      invariant tabs.Valid() && tabs.Shows(Exec(Counters(0, 0, 0, 0), es[..i]))
    {
      assert es[..i + 1][..i] == es[..i];
      tabs.Deliver(es[i], Exec(Counters(0, 0, 0, 0), es[..i]));
      i := i + 1;
    }
    assert es[..i] == es;
  }
}
