/**
 The promises of ephemeral storage, over every interleaving of tabs, navigations, timers and closings.
 */
module EphemeralTheorems {
  import opened Wrappers
  import opened RefCounting
  import opened EphemeralStorage
  import opened EphemeralAccounting
  import opened EphemeralRuns
  import opened EphemeralHolders

  // ------------------------------------------------------------ keep-alive lists and time

  lemma {:induction false} UnexpiredIsSuffix(ps: seq<Push>, now: nat, delay: nat, n: nat)
    requires n <= |ps|
    requires forall j :: 0 <= j < n ==> ps[j].time + delay <= now
    requires forall j :: n <= j < |ps| ==> now < ps[j].time + delay
    ensures Unexpired(ps, now, delay) == ps[n..]
    decreases |ps|
  {
    if ps != [] {
      if n == 0 {
        UnexpiredIsSuffix(ps[1..], now, delay, 0);
        assert ps == [ps[0]] + ps[1..];
      } else {
        UnexpiredIsSuffix(ps[1..], now, delay, n - 1);
        assert ps[1..][n - 1..] == ps[n..];
      }
    }
  }

  lemma {:induction false} PendingIsDueLater(w: World, queue: seq<Task>, i: nat)
    requires forall j :: 0 <= j < |queue| ==> w.now < queue[j].due
    ensures forall t :: t in Pending(queue, i) ==> w.now < t.due
    decreases |queue|
  {
    if queue != [] {
      PendingIsDueLater(w, queue[1..], i);
    }
  }

  lemma ListsAreYoungest(cfg: Config, now: nat, i: nat, t: Tab, q: seq<Task>, ps: seq<Push>)
    requires Fits(cfg, now, i, t, q, ps)
    ensures t.keptLifetimes == LifetimesOf(ps[|ps| - |q|..]) && t.keptLocals == LocalsOf(ps[|ps| - |q|..])
  {
    forall j | 0 <= j < |q|
      ensures t.keptLifetimes[j] == ps[|ps| - |q| + j].lifetime && t.keptLocals[j] == ps[|ps| - |q| + j].local
    {
      assert EntryInv(cfg, i, t, q, ps, j);
    }
  }

  lemma {:induction false} ListedAreUnexpired(cfg: Config, now: nat, i: nat, t: Tab, q: seq<Task>, ps: seq<Push>)
    requires Fits(cfg, now, i, t, q, ps) && (forall x :: x in q ==> now < x.due)
    ensures Unexpired(ps, now, cfg.delay) == ps[|ps| - |q|..]
  {
    var n := |ps| - |q|;
    forall j | n <= j < |ps|
      ensures now < ps[j].time + cfg.delay
    {
      assert EntryInv(cfg, i, t, q, ps, j - n);
      assert q[j - n] in q;
    }
    UnexpiredIsSuffix(ps, now, cfg.delay, n);
  }

  /** The lists of a tab are the youngest of the entries ever pushed, in lockstep, and the missing ones
      are past their delay; once no task is overdue they are exactly the entries younger than the delay. */
  ghost predicate Exact(t: Tab, ps: seq<Push>, now: nat, delay: nat, settled: bool) {
    && |t.keptLifetimes| <= |ps|
    && (var n := |ps| - |t.keptLifetimes|;
        && t.keptLifetimes == LifetimesOf(ps[n..]) && t.keptLocals == LocalsOf(ps[n..])
        && (forall j :: 0 <= j < n ==> ps[j].time + delay <= now))
    && (settled ==>
          && t.keptLifetimes == LifetimesOf(Unexpired(ps, now, delay))
          && t.keptLocals == LocalsOf(Unexpired(ps, now, delay)))
  }

  lemma FittingListsAreExact(cfg: Config, now: nat, i: nat, t: Tab, q: seq<Task>, ps: seq<Push>, settled: bool)
    requires Fits(cfg, now, i, t, q, ps) && (settled ==> forall x :: x in q ==> now < x.due)
    ensures Exact(t, ps, now, cfg.delay, settled)
  {
    ListsAreYoungest(cfg, now, i, t, q, ps);
    if settled {
      ListedAreUnexpired(cfg, now, i, t, q, ps);
    }
  }

  /** Erasing by key erases the right entry at the right time, in every run and every tab. */
  lemma {:induction false} KeepAliveIsExact(cfg: Config, es: seq<Event>, i: nat)
    requires Open(Exec(cfg, es), i)
    ensures var w := Exec(cfg, es);
            Exact(w.tabs[i], Pushes(cfg, es, i), w.now, cfg.delay, Settled(w))
  {
    RunTab(cfg, es, i);
    var w := Exec(cfg, es);
    if Settled(w) {
      RunBalanced(cfg, es);
      PendingIsDueLater(w, w.queue, i);
    }
    FittingListsAreExact(cfg, w.now, i, w.tabs[i], Pending(w.queue, i), Pushes(cfg, es, i), Settled(w));
  }

  /** In both lists, each local-storage namespace is the one named after its lifetime's domain. */
  lemma {:induction false} KeepAliveListsStayPaired(cfg: Config, es: seq<Event>, i: nat)
    requires i < |Exec(cfg, es).tabs|
    ensures ListsPaired(cfg, Exec(cfg, es).tabs[i])
  {
    RunTabPaired(cfg, es, i);
  }

  // ------------------------------------------------------------ coming back

  lemma HeldIsFound(s: Store, held: multiset<Ref>, r: Ref)
    requires Accounts(s, held) && r in held
    ensures GetOrCreate(s, r.key).1 == r
  {
  }

  lemma NotHeldIsCreated(s: Store, held: multiset<Ref>, key: ResourceKey)
    requires Accounts(s, held) && (forall r :: r in held ==> r.key != key)
    ensures GetOrCreate(s, key).1 == Ref(s.next, key)
  {
  }

  lemma LaterIdsAreNew(s: Store, held: multiset<Ref>, id: nat)
    requires Accounts(s, held) && s.next <= id
    ensures id !in s.live
  {
  }

  /** What is sure to stay referred to while tab `m` switches its storage: whatever other tabs hold,
      and whatever is on the tab's own keep-alive lists. */
  ghost predicate Secured(w: World, m: nat, r: Ref)
    requires m < |w.tabs|
  {
    r in Others(w.tabs, HeldByTab, m) || r in w.tabs[m].keptLifetimes || r in w.tabs[m].keptLocals
  }

  ghost predicate Navigates(w: World, e: Event) {
    e.ReadyToCommit? && Open(w, e.tab) && !e.url.empty
    && e.mainFrame && !e.sameDocument && e.url.domain != w.tabs[e.tab].committed.domain
  }

  function Kept(cfg: Config, w: World, e: Event): Scene
    requires Navigates(w, e)
  {
    if KeepsAlive(cfg, w.tabs[e.tab], e.url) then KeepAlive(cfg, w.now, e.tab, View(w, e.tab)) else View(w, e.tab)
  }

  /** The three stages of a switch, each with sound accounts. */
  lemma SwitchStages(cfg: Config, w: World, e: Event)
    requires Balanced(w) && Navigates(w, e)
    ensures var rest, kept := Others(w.tabs, HeldByTab, e.tab), Kept(cfg, w, e);
            var sc1 := TakeLocal(cfg, e.url.domain, kept);
            var sc2 := TakeSession(cfg, e.sessionId, sc1);
            && Sound(kept, rest) && Sound(sc1, rest) && Sound(sc2, rest)
            && w.store.next <= kept.store.next <= sc1.store.next <= sc2.store.next
  {
    var rest, kept := Others(w.tabs, HeldByTab, e.tab), Kept(cfg, w, e);
    TotalUpdate(w.tabs, HeldByTab, e.tab, w.tabs[e.tab]);
    if KeepsAlive(cfg, w.tabs[e.tab], e.url) {
      KeepAliveSound(cfg, w.now, e.tab, View(w, e.tab), rest);
    }
    TakeLocalSound(cfg, e.url.domain, kept, rest);
    TakeSessionSound(cfg, e.sessionId, TakeLocal(cfg, e.url.domain, kept), rest);
  }

  lemma {:induction false} SecuredStays(w: World, m: nat, r: Ref, t: Tab)
    requires m < |w.tabs| && Secured(w, m, r)
    requires w.tabs[m].keptLifetimes <= t.keptLifetimes && w.tabs[m].keptLocals <= t.keptLocals
    ensures r in Others(w.tabs, HeldByTab, m) + HeldByTab(t)
  {
  }

  /** Storage that stays referred to is found again by any tab of the profile that goes to its domain. */
  lemma SecuredStorageIsFound(cfg: Config, w: World, e: Event, l: Ref, n: Ref)
    requires Balanced(w) && Navigates(w, e)
    requires Secured(w, e.tab, l) && l.key == Lifetime(w.tabs[e.tab].context, e.url.domain)
    requires Secured(w, e.tab, n) && n.key == LocalKey(cfg, w.tabs[e.tab].context, e.url.domain)
    ensures var t := Step(cfg, w, e).tabs[e.tab]; t.lifetime == Some(l) && t.local == Some(n)
  {
    var rest, kept := Others(w.tabs, HeldByTab, e.tab), Kept(cfg, w, e);
    SwitchStages(cfg, w, e);
    var sc2 := TakeSession(cfg, e.sessionId, TakeLocal(cfg, e.url.domain, kept));
    SecuredStays(w, e.tab, n, kept.tab);
    SecuredStays(w, e.tab, l, sc2.tab);
    HeldIsFound(kept.store, rest + HeldByTab(kept.tab), n);
    HeldIsFound(sc2.store, rest + HeldByTab(sc2.tab), l);
    SwitchTakes(cfg, w, e, kept, sc2);
  }

  /** Which look-ups fill the slots of a tab that switches. */
  lemma SwitchTakes(cfg: Config, w: World, e: Event, kept: Scene, sc2: Scene)
    requires Navigates(w, e) && kept == Kept(cfg, w, e)
    requires sc2 == TakeSession(cfg, e.sessionId, TakeLocal(cfg, e.url.domain, kept))
    ensures var t, t' := w.tabs[e.tab], Step(cfg, w, e).tabs[e.tab];
            && t'.local == Some(GetOrCreate(kept.store, LocalKey(cfg, t.context, e.url.domain)).1)
            && t'.session == sc2.tab.session
            && t'.lifetime == Some(GetOrCreate(sc2.store, Lifetime(t.context, e.url.domain)).1)
  {
  }

  lemma KeptIsSecured(w: World, i: nat, m: nat, r: Ref)
    requires i < |w.tabs| && m < |w.tabs|
    requires r in w.tabs[i].keptLifetimes || r in w.tabs[i].keptLocals
    ensures Secured(w, m, r)
  {
    if i != m {
      assert r in multiset(w.tabs[i].keptLifetimes) || r in multiset(w.tabs[i].keptLocals);
      assert r in HeldByTab(w.tabs[i]);
      OthersInclude(w.tabs, HeldByTab, i, m);
    }
  }

  lemma UnexpiredIsListed(cfg: Config, w: World, i: nat, ps: seq<Push>, k: nat)
    requires Open(w, i) && TabInv(cfg, w, i, ps) && k < |ps| && w.now < ps[k].time + cfg.delay
    ensures var t := w.tabs[i];
            ps[k].lifetime in t.keptLifetimes && ps[k].local in t.keptLocals
            && Paired(cfg, t.context, ps[k].lifetime, ps[k].local)
  {
    var t, q := w.tabs[i], Pending(w.queue, i);
    var j := k - (|ps| - |q|);
    assert EntryInv(cfg, i, t, q, ps, j);
    assert t.keptLifetimes[j] in t.keptLifetimes && t.keptLocals[j] in t.keptLocals;
  }

  /** Leave a domain at some time, let anything happen, and let any tab of the same profile go to that
      domain before the delay is over: it gets the very same lifetime and local storage. Push `k` is the
      one made when the domain was left. */
  lemma {:induction false} ReturnWithinDelay(cfg: Config, es: seq<Event>, i: nat, k: nat, e: Event)
    requires Open(Exec(cfg, es), i) && Navigates(Exec(cfg, es), e) && k < |Pushes(cfg, es, i)|
    requires Exec(cfg, es).now < Pushes(cfg, es, i)[k].time + cfg.delay
    requires Exec(cfg, es).tabs[e.tab].context == Exec(cfg, es).tabs[i].context
    requires e.url.domain == Pushes(cfg, es, i)[k].lifetime.key.name
    ensures var t, p := Step(cfg, Exec(cfg, es), e).tabs[e.tab], Pushes(cfg, es, i)[k];
            t.lifetime == Some(p.lifetime) && t.local == Some(p.local)
  {
    var w, p := Exec(cfg, es), Pushes(cfg, es, i)[k];
    RunBalanced(cfg, es);
    RunTab(cfg, es, i);
    UnexpiredIsListed(cfg, w, i, Pushes(cfg, es, i), k);
    KeptIsSecured(w, i, e.tab, p.lifetime);
    KeptIsSecured(w, i, e.tab, p.local);
    SecuredStorageIsFound(cfg, w, e, p.lifetime, p.local);
  }

  /** A tab that goes to a domain another tab of the profile is on shares that tab's storage. */
  lemma {:induction false} OtherTabSharesStorage(cfg: Config, es: seq<Event>, i: nat, e: Event)
    requires var w := Exec(cfg, es);
             && Open(w, i) && Navigates(w, e) && e.tab != i && w.tabs[i].context == w.tabs[e.tab].context
             && w.tabs[i].lifetime.Some? && w.tabs[i].lifetime.value.key.name == e.url.domain
    ensures var w := Exec(cfg, es);
            var t := Step(cfg, w, e).tabs[e.tab];
            t.lifetime == w.tabs[i].lifetime && t.local == w.tabs[i].local
  {
    var w := Exec(cfg, es);
    RunBalanced(cfg, es);
    RunTab(cfg, es, i);
    SlotsAreSecured(w, i, e.tab);
    SecuredStorageIsFound(cfg, w, e, w.tabs[i].lifetime.value, w.tabs[i].local.value);
  }

  lemma SlotsAreSecured(w: World, i: nat, m: nat)
    requires i < |w.tabs| && m < |w.tabs| && i != m && w.tabs[i].lifetime.Some? && w.tabs[i].local.Some?
    ensures Secured(w, m, w.tabs[i].lifetime.value) && Secured(w, m, w.tabs[i].local.value)
  {
    OthersInclude(w.tabs, HeldByTab, i, m);
    TabParts(w.tabs[i], w.tabs[i].lifetime.value);
    TabParts(w.tabs[i], w.tabs[i].local.value);
    assert w.tabs[i].lifetime.value in HeldByTab(w.tabs[i]) && w.tabs[i].local.value in HeldByTab(w.tabs[i]);
  }

  lemma HeldIsRegistered(w: World, r: Ref)
    requires Balanced(w) && r in Held(w.tabs)
    ensures r.key in w.store.registry
  {
  }

  /** Until the new lifetime is taken, a switch brings no reference to a lifetime that was not held before. */
  lemma SwitchKeepsLifetimes(cfg: Config, w: World, e: Event, t': Tab, r: Ref)
    requires Navigates(w, e) && Typed(cfg, w.tabs[e.tab])
    requires t' == TakeSession(cfg, e.sessionId, TakeLocal(cfg, e.url.domain, Kept(cfg, w, e))).tab
    requires r in Refs(t'.lifetime) || r in Refs(t'.local) || r in Refs(t'.session)
             || r in t'.keptLifetimes || r in t'.keptLocals
    ensures r.key.Lifetime? ==> r in Refs(w.tabs[e.tab].lifetime) || r in w.tabs[e.tab].keptLifetimes
  {
  }

  lemma LifetimeIsHeldByTab(t: Tab, r: Ref)
    requires r in Refs(t.lifetime) || r in t.keptLifetimes
    ensures r in HeldByTab(t)
  {
  }

  lemma LifetimesOfSwitchWereHeld(cfg: Config, w: World, e: Event, t': Tab, r: Ref)
    requires Navigates(w, e) && Typed(cfg, w.tabs[e.tab])
    requires t' == TakeSession(cfg, e.sessionId, TakeLocal(cfg, e.url.domain, Kept(cfg, w, e))).tab
    requires r in Others(w.tabs, HeldByTab, e.tab) + HeldByTab(t') && r.key.Lifetime?
    ensures r in Held(w.tabs)
  {
    var rest := Others(w.tabs, HeldByTab, e.tab);
    TabRefs(rest, t', r);
    TotalUpdate(w.tabs, HeldByTab, e.tab, w.tabs[e.tab]);
    if r !in rest {
      SwitchKeepsLifetimes(cfg, w, e, t', r);
      LifetimeIsHeldByTab(w.tabs[e.tab], r);
    }
  }

  lemma NewLifetimeIsCreated(cfg: Config, w: World, e: Event, sc: Scene)
    requires Navigates(w, e) && Balanced(w) && Typed(cfg, w.tabs[e.tab])
    requires sc == TakeSession(cfg, e.sessionId, TakeLocal(cfg, e.url.domain, Kept(cfg, w, e)))
    requires Sound(sc, Others(w.tabs, HeldByTab, e.tab))
    requires Lifetime(w.tabs[e.tab].context, e.url.domain) !in w.store.registry
    ensures Step(cfg, w, e).tabs[e.tab].lifetime
         == Some(Ref(sc.store.next, Lifetime(w.tabs[e.tab].context, e.url.domain)))
  {
    var key := Lifetime(w.tabs[e.tab].context, e.url.domain);
    var held := Others(w.tabs, HeldByTab, e.tab) + HeldByTab(sc.tab);
    forall r | r in held
      ensures r.key != key
    {
      if r.key == key {
        LifetimesOfSwitchWereHeld(cfg, w, e, sc.tab, r);
        HeldIsRegistered(w, r);
      }
    }
    NotHeldIsCreated(sc.store, held, key);
    SwitchTakes(cfg, w, e, Kept(cfg, w, e), sc);
  }

  lemma RegisteredIsHeld(s: Store, held: multiset<Ref>, key: ResourceKey)
    requires Accounts(s, held) && key in s.registry
    ensures Ref(s.registry[key], key) in held
  {
  }

  lemma TypedLifetime(cfg: Config, t: Tab, r: Ref)
    requires Typed(cfg, t) && r.key.Lifetime? && r in HeldByTab(t)
    ensures r in Refs(t.lifetime) || r in t.keptLifetimes
  {
    TabRefs(multiset{}, t, r);
  }

  /** A lifetime that is held stays referred to until the tab asks for it: its own slot is the last to change. */
  lemma {:induction false} HeldLifetimeStays(cfg: Config, w: World, e: Event, t': Tab, r: Ref)
    requires Navigates(w, e) && Typed(cfg, w.tabs[e.tab]) && r.key.Lifetime? && r in Held(w.tabs)
    requires t' == TakeSession(cfg, e.sessionId, TakeLocal(cfg, e.url.domain, Kept(cfg, w, e))).tab
    ensures r in Others(w.tabs, HeldByTab, e.tab) + HeldByTab(t')
  {
    var rest := Others(w.tabs, HeldByTab, e.tab);
    TotalUpdate(w.tabs, HeldByTab, e.tab, w.tabs[e.tab]);
    if r !in rest {
      TypedLifetime(cfg, w.tabs[e.tab], r);
      SwitchKeepsOwnLifetimes(cfg, w, e, t', r);
      LifetimeIsHeldByTab(t', r);
    }
  }

  lemma {:induction false} RegisteredLifetimeIsFound(cfg: Config, w: World, e: Event, key: ResourceKey)
    requires Navigates(w, e) && Balanced(w) && Typed(cfg, w.tabs[e.tab])
    requires key == Lifetime(w.tabs[e.tab].context, e.url.domain) && key in w.store.registry
    ensures Step(cfg, w, e).tabs[e.tab].lifetime == Some(Ref(w.store.registry[key], key))
  {
    var r, rest, kept := Ref(w.store.registry[key], key), Others(w.tabs, HeldByTab, e.tab), Kept(cfg, w, e);
    var sc2 := TakeSession(cfg, e.sessionId, TakeLocal(cfg, e.url.domain, kept));
    SwitchStages(cfg, w, e);
    RegisteredIsHeld(w.store, Held(w.tabs), key);
    HeldLifetimeStays(cfg, w, e, sc2.tab, r);
    HeldIsFound(sc2.store, rest + HeldByTab(sc2.tab), r);
    SwitchTakes(cfg, w, e, kept, sc2);
  }

  lemma {:induction false} SwitchKeepsOwnLifetimes(cfg: Config, w: World, e: Event, t': Tab, r: Ref)
    requires Navigates(w, e)
    requires t' == TakeSession(cfg, e.sessionId, TakeLocal(cfg, e.url.domain, Kept(cfg, w, e))).tab
    requires r in Refs(w.tabs[e.tab].lifetime) || r in w.tabs[e.tab].keptLifetimes
    ensures r in Refs(t'.lifetime) || r in t'.keptLifetimes
  {
  }

  /** The local namespace is looked up first, so the registry is still the one before the switch. */
  lemma LocalIsLookedUpFirst(cfg: Config, w: World, e: Event)
    requires Navigates(w, e)
    ensures var key, t := LocalKey(cfg, w.tabs[e.tab].context, e.url.domain), Step(cfg, w, e).tabs[e.tab];
            t.local == Some(Ref(if key in w.store.registry then w.store.registry[key] else w.store.next, key))
  {
    var kept := Kept(cfg, w, e);
    SwitchTakes(cfg, w, e, kept, TakeSession(cfg, e.sessionId, TakeLocal(cfg, e.url.domain, kept)));
  }

  ghost predicate IsNew(s: Store, r: Option<Ref>) {
    r.Some? && r.value.id !in s.live && s.next <= r.value.id
  }

  /** The slot has the live object of a key when that had holders, and a new object when it had none. */
  ghost predicate FoundOrNew(s: Store, key: ResourceKey, holders: nat, slot: Option<Ref>) {
    && slot.Some? && slot.value.key == key
    && (IsNew(s, slot) <==> holders == 0)
    && (0 < holders ==> key in s.registry && slot.value.id == s.registry[key] && slot.value.id in s.live)
  }

  lemma {:induction false} LifetimeFoundOrNew(cfg: Config, w: World, e: Event, users: nat)
    requires Navigates(w, e) && Balanced(w) && Typed(cfg, w.tabs[e.tab])
    requires AliveWith(w.store, Lifetime(w.tabs[e.tab].context, e.url.domain), users)
    ensures FoundOrNew(w.store, Lifetime(w.tabs[e.tab].context, e.url.domain), users,
                       Step(cfg, w, e).tabs[e.tab].lifetime)
  {
    var key := Lifetime(w.tabs[e.tab].context, e.url.domain);
    if key in w.store.registry {
      RegisteredLifetimeIsFound(cfg, w, e, key);
    } else {
      SwitchStages(cfg, w, e);
      var sc := TakeSession(cfg, e.sessionId, TakeLocal(cfg, e.url.domain, Kept(cfg, w, e)));
      NewLifetimeIsCreated(cfg, w, e, sc);
      LaterIdsAreNew(w.store, Held(w.tabs), sc.store.next);
    }
  }

  lemma {:induction false} LocalFoundOrNew(cfg: Config, w: World, e: Event, users: nat)
    requires Navigates(w, e) && Balanced(w)
    requires AliveWith(w.store, LocalKey(cfg, w.tabs[e.tab].context, e.url.domain), users)
    ensures FoundOrNew(w.store, LocalKey(cfg, w.tabs[e.tab].context, e.url.domain), users,
                       Step(cfg, w, e).tabs[e.tab].local)
  {
    LocalIsLookedUpFirst(cfg, w, e);
    LaterIdsAreNew(w.store, Held(w.tabs), w.store.next);
  }

  /** Going to a domain starts from new storage exactly when no tab is on it and no entry is kept for it,
      and finds the live storage otherwise. This goes for the lifetime, and for the local namespace as
      long as the hash gives no two strings the same id. */
  lemma {:induction false} StorageIsNewIffUnused(cfg: Config, es: seq<Event>, e: Event)
    requires Navigates(Exec(cfg, es), e)
    ensures var w := Exec(cfg, es);
            var c, d, t := w.tabs[e.tab].context, e.url.domain, Step(cfg, w, e).tabs[e.tab];
            var users := DomainUsers(w.tabs, c, d);
            && FoundOrNew(w.store, Lifetime(c, d), users, t.lifetime)
            && (Injective(cfg.md5) ==> FoundOrNew(w.store, LocalKey(cfg, c, d), users, t.local))
  {
    var w := Exec(cfg, es);
    var c, d := w.tabs[e.tab].context, e.url.domain;
    RunTyped(cfg, es);
    RunBalanced(cfg, es);
    DomainStorageIsLive(cfg, es, c, d);
    LifetimeFoundOrNew(cfg, w, e, DomainUsers(w.tabs, c, d));
    if Injective(cfg.md5) {
      LocalFoundOrNew(cfg, w, e, DomainUsers(w.tabs, c, d));
    }
  }

  /** In particular, coming back after everybody has left starts afresh. */
  lemma {:induction false} ReturnTooLateStartsAfresh(cfg: Config, es: seq<Event>, e: Event)
    requires Navigates(Exec(cfg, es), e)
    requires DomainUsers(Exec(cfg, es).tabs, Exec(cfg, es).tabs[e.tab].context, e.url.domain) == 0
    ensures var w := Exec(cfg, es);
            var t := Step(cfg, w, e).tabs[e.tab];
            IsNew(w.store, t.lifetime) && (Injective(cfg.md5) ==> IsNew(w.store, t.local))
  {
    StorageIsNewIffUnused(cfg, es, e);
  }

  /** Nobody but the tab's own session slot holds, or is about to hold, the namespace of that id. */
  ghost predicate SessionIdIsItsOwn(cfg: Config, w: World, e: Event)
    requires Navigates(w, e)
  {
    var t, key := w.tabs[e.tab], SessionKey(cfg, w.tabs[e.tab].context, e.sessionId);
    && (forall r :: r in Others(w.tabs, HeldByTab, e.tab) ==> r.key != key)
    && (forall r :: r in t.keptLocals ==> r.key != key)
    && (t.local.Some? ==> t.local.value.key != key)
    && LocalKey(cfg, t.context, e.url.domain) != key
  }

  /** Session storage is never kept: unless somebody else holds a namespace under the same id, a switch
      gives the tab a session namespace that did not exist before. */
  lemma {:induction false} SessionStorageIsRenewed(cfg: Config, es: seq<Event>, e: Event)
    requires Navigates(Exec(cfg, es), e) && SessionIdIsItsOwn(cfg, Exec(cfg, es), e)
    ensures var w := Exec(cfg, es);
            var t := Step(cfg, w, e).tabs[e.tab];
            IsNew(w.store, t.session)
  {
    RunBalanced(cfg, es);
    RunTyped(cfg, es);
    var w := Exec(cfg, es);
    SwitchStages(cfg, w, e);
    var sc := TakeLocal(cfg, e.url.domain, Kept(cfg, w, e));
    SwitchRenewsSession(cfg, w, e, sc);
    LaterIdsAreNew(w.store, Held(w.tabs), sc.store.next);
  }

  lemma HeldBesideSession(rest: multiset<Ref>, t: Tab, r: Ref)
    ensures (rest + HeldByTab(t))[r] == rest[r] + HeldByTab(t.(session := None))[r] + Refs(t.session)[r]
  {
    TabParts(t, r);
    TabParts(t.(session := None), r);
  }

  lemma SessionIsHeld(rest: multiset<Ref>, t: Tab)
    ensures forall r :: r in Refs(t.session) ==> r in rest + HeldByTab(t)
  {
    forall r | r in Refs(t.session)
      ensures r in rest + HeldByTab(t)
    {
      HeldBesideSession(rest, t, r);
    }
  }

  /** With `n` holders in all, the others hold the namespace unless the session slot accounts for all of them. */
  lemma OthersAccount(s: Store, rest: multiset<Ref>, t: Tab, key: ResourceKey, n: nat)
    requires Accounts(s, rest + HeldByTab(t))
    requires n == if key in s.registry then (rest + HeldByTab(t))[Ref(s.registry[key], key)] else 0
    requires forall r :: r in HeldByTab(t.(session := None)) ==> r.key != key
    ensures n == SlotHolds(t.session, key) <==> forall r :: r in rest ==> r.key != key
  {
    SessionIsHeld(rest, t);
    SlotCount(s, rest + HeldByTab(t), t.session, key);
    forall r | r in rest && r.key == key
      ensures key in s.registry && r == Ref(s.registry[key], key)
    {
      HeldIsRegisteredUnderItsKey(s, rest + HeldByTab(t), r);
    }
    if key in s.registry {
      var r := Ref(s.registry[key], key);
      HeldBesideSession(rest, t, r);
      assert r !in HeldByTab(t.(session := None));
    }
  }

  /** Counters tell whether others hold a namespace that only the session slot of the tab can hold. */
  lemma {:induction false} OthersHoldSession(s: Store, tabs: seq<Tab>, m: nat, key: ResourceKey)
    requires m < |tabs| && Accounts(s, Held(tabs))
    requires forall r :: r in HeldByTab(tabs[m].(session := None)) ==> r.key != key
    ensures Holders(tabs, key) == SlotHolds(tabs[m].session, key)
       <==> forall r :: r in Others(tabs, HeldByTab, m) ==> r.key != key
  {
    HoldersCount(s, tabs, key);
    TotalUpdate(tabs, HeldByTab, m, tabs[m]);
    OthersAccount(s, Others(tabs, HeldByTab, m), tabs[m], key, Holders(tabs, key));
  }

  /** No slot and no list of a tab but its session slot holds a session namespace. */
  lemma OnlySessionSlot(cfg: Config, t: Tab, context: nat, sessionId: string, r: Ref)
    requires Injective(cfg.md5) && Typed(cfg, t) && SlotsInv(cfg, t) && ListsPaired(cfg, t)
    requires r in HeldByTab(t.(session := None))
    ensures r.key != SessionKey(cfg, context, sessionId)
  {
    var key := SessionKey(cfg, context, sessionId);
    assert IsSessionKey(cfg, key);
    TabRefs(multiset{}, t.(session := None), r);
    if r in t.keptLocals {
      var j :| 0 <= j < |t.keptLocals| && t.keptLocals[j] == r;
      LocalIsNoSession(cfg, t.context, t.keptLifetimes[j].key.name, key);
    } else if r in Refs(t.local) {
      LocalIsNoSession(cfg, t.context, t.lifetime.value.key.name, key);
    }
  }

  /** A session namespace another tab holds is found again. */
  lemma OthersSessionIsFound(cfg: Config, w: World, e: Event, r: Ref)
    requires Balanced(w) && Navigates(w, e) && r in Others(w.tabs, HeldByTab, e.tab)
    requires r.key == SessionKey(cfg, w.tabs[e.tab].context, e.sessionId)
    ensures Step(cfg, w, e).tabs[e.tab].session == Some(r) && r.id in w.store.live
  {
    var rest, kept := Others(w.tabs, HeldByTab, e.tab), Kept(cfg, w, e);
    SwitchStages(cfg, w, e);
    var sc := TakeLocal(cfg, e.url.domain, kept);
    var others := rest + HeldByTab(sc.tab.(session := None));
    HeldInSession(rest, sc.tab, sc.tab.session);
    ReleaseOptionAccounts(sc.store, others, sc.tab.session);
    HeldIsFound(ReleaseOption(sc.store, sc.tab.session), others, r);
    SwitchTakes(cfg, w, e, kept, TakeSession(cfg, e.sessionId, sc));
    TotalUpdate(w.tabs, HeldByTab, e.tab, w.tabs[e.tab]);
    assert r in Held(w.tabs);
  }

  lemma {:induction false} SessionIdIsItsOwnIff(cfg: Config, es: seq<Event>, e: Event)
    requires Navigates(Exec(cfg, es), e) && Injective(cfg.md5)
    ensures var w := Exec(cfg, es);
            var t, key := w.tabs[e.tab], SessionKey(cfg, w.tabs[e.tab].context, e.sessionId);
            && (SessionIdIsItsOwn(cfg, w, e) <==> Holders(w.tabs, key) == SlotHolds(t.session, key))
            && (SessionIdIsItsOwn(cfg, w, e) <==> forall r :: r in Others(w.tabs, HeldByTab, e.tab) ==> r.key != key)
  {
    var w := Exec(cfg, es);
    var t, key := w.tabs[e.tab], SessionKey(cfg, w.tabs[e.tab].context, e.sessionId);
    RunBalanced(cfg, es);
    RunTyped(cfg, es);
    RunTabPaired(cfg, es, e.tab);
    assert IsSessionKey(cfg, key);
    forall r | r in HeldByTab(t.(session := None))
      ensures r.key != key
    {
      OnlySessionSlot(cfg, t, t.context, e.sessionId, r);
    }
    SlotsAndListsAreHeld(HeldByTab(t.(session := None)), t.(session := None));
    LocalIsNoSession(cfg, t.context, e.url.domain, key);
    OthersHoldSession(w.store, w.tabs, e.tab, key);
  }

  /** Over every run, and for a hash that gives no two strings the same id: a switch gives the tab a new
      session namespace exactly when nothing but the tab's own session slot holds one under the id. */
  lemma {:induction false} SessionIsNewIffOwn(cfg: Config, es: seq<Event>, e: Event)
    requires Navigates(Exec(cfg, es), e)
    ensures var w := Exec(cfg, es);
            var t, key := w.tabs[e.tab], SessionKey(cfg, w.tabs[e.tab].context, e.sessionId);
            Injective(cfg.md5) ==>
              (IsNew(w.store, Step(cfg, w, e).tabs[e.tab].session)
               <==> Holders(w.tabs, key) == SlotHolds(t.session, key))
  {
    var w := Exec(cfg, es);
    if Injective(cfg.md5) {
      SessionIdIsItsOwnIff(cfg, es, e);
      RunBalanced(cfg, es);
      if SessionIdIsItsOwn(cfg, w, e) {
        SessionStorageIsRenewed(cfg, es, e);
      } else {
        var r :| r in Others(w.tabs, HeldByTab, e.tab)
                 && r.key == SessionKey(cfg, w.tabs[e.tab].context, e.sessionId);
        OthersSessionIsFound(cfg, w, e, r);
      }
    }
  }

  /** Before the session slot is filled, the tab's other slots and lists hold nothing under the id either. */
  lemma SwitchFreesSessionId(cfg: Config, w: World, e: Event, t: Tab, r: Ref)
    requires Navigates(w, e) && SessionIdIsItsOwn(cfg, w, e) && Typed(cfg, w.tabs[e.tab])
    requires t == TakeLocal(cfg, e.url.domain, Kept(cfg, w, e)).tab
    requires r in Others(w.tabs, HeldByTab, e.tab) + HeldByTab(t.(session := None))
    ensures r.key != SessionKey(cfg, w.tabs[e.tab].context, e.sessionId)
  {
    TabRefs(Others(w.tabs, HeldByTab, e.tab), t.(session := None), r);
  }

  lemma SwitchRenewsSession(cfg: Config, w: World, e: Event, sc: Scene)
    requires Navigates(w, e) && SessionIdIsItsOwn(cfg, w, e) && Typed(cfg, w.tabs[e.tab])
    requires sc == TakeLocal(cfg, e.url.domain, Kept(cfg, w, e)) && Sound(sc, Others(w.tabs, HeldByTab, e.tab))
    ensures Step(cfg, w, e).tabs[e.tab].session
         == Some(Ref(sc.store.next, SessionKey(cfg, w.tabs[e.tab].context, e.sessionId)))
  {
    var key, t := SessionKey(cfg, w.tabs[e.tab].context, e.sessionId), sc.tab.(session := None);
    var rest := Others(w.tabs, HeldByTab, e.tab);
    HeldInSession(rest, sc.tab, sc.tab.session);
    forall r | r in rest + HeldByTab(t)
      ensures r.key != key
    {
      SwitchFreesSessionId(cfg, w, e, sc.tab, r);
    }
    FreedIsCreated(sc.store, rest + HeldByTab(t), sc.tab.session, key);
    SwitchTakes(cfg, w, e, Kept(cfg, w, e), TakeSession(cfg, e.sessionId, sc));
  }

  lemma FreedIsCreated(s: Store, others: multiset<Ref>, slot: Option<Ref>, key: ResourceKey)
    requires Accounts(s, others + Refs(slot)) && (forall r :: r in others ==> r.key != key)
    ensures GetOrCreate(ReleaseOption(s, slot), key).1 == Ref(s.next, key)
  {
  }

  // ------------------------------------------------------------ tabs and the domains they show

  /** A tab holds the storage of the domain it shows; only a tab that never had a URL holds none. */
  ghost predicate OnItsDomain(t: Tab, none: string) {
    match t.lifetime
    case None => t.committed.domain == none
    case Some(r) => r.key == Lifetime(t.context, t.committed.domain)
  }

  /** A main-frame navigation that gets committed leaves the tab on the storage of the domain it shows
      exactly when it is not to the very domain the tab shows while being on other storage. `none` is
      the domain of the empty URL. */
  lemma CommitKeepsTabOnItsDomain(cfg: Config, w: World, i: nat, url: Url, sessionId: string, none: string)
    requires Open(w, i) && (url.empty ==> url.domain == w.tabs[i].committed.domain)
    ensures var w1 := Step(cfg, w, ReadyToCommit(i, true, false, url, sessionId));
            (OnItsDomain(Step(cfg, w1, DidCommit(i, url)).tabs[i], none)
             <==> url.domain != w.tabs[i].committed.domain || OnItsDomain(w.tabs[i], none))
  {
    NavigationReaches(cfg, w, i, url, sessionId, none);
  }

  /** Where a navigation leaves the tab as soon as it is ready to commit. */
  lemma NavigationReaches(cfg: Config, w: World, i: nat, url: Url, sessionId: string, none: string)
    requires Open(w, i) && (url.empty ==> url.domain == w.tabs[i].committed.domain)
    ensures var t := Step(cfg, w, ReadyToCommit(i, true, false, url, sessionId)).tabs[i];
            && t.open && t.committed == w.tabs[i].committed
            && (OnItsDomain(t.(committed := url), none)
                <==> url.domain != w.tabs[i].committed.domain || OnItsDomain(w.tabs[i], none))
  {
    if SwitchesDomain(w.tabs[i], true, false, url) {
      var e := ReadyToCommit(i, true, false, url, sessionId);
      TakeAreasSlots(cfg, url.domain, sessionId, Kept(cfg, w, e));
    }
  }

  /** The main-frame navigation of tab `i` to a new document that is ready and not committed yet. */
  function Awaited(cfg: Config, es: seq<Event>, i: nat): Option<Url> {
    if es == [] then None
    else
      var before, e := es[..|es| - 1], es[|es| - 1];
      match e
      case ReadyToCommit(m, main, same, url, _) =>
        if m == i && main && !same && Open(Exec(cfg, before), i) then Some(url) else Awaited(cfg, before, i)
      case DidCommit(m, url) =>
        if m == i && Awaited(cfg, before, i) == Some(url) then None else Awaited(cfg, before, i)
      case _ => Awaited(cfg, before, i)
  }

  /** One event of tab `i` in state `w`, while `awaited` is ready and not committed: a navigation becomes
      ready only when none is awaited, and what is committed is the awaited one or on the domain shown. */
  predicate TakesItsTurn(w: World, e: Event, i: nat, awaited: Option<Url>, none: string) {
    match e
    case OpenTab(_, url, _) => |w.tabs| == i && url.empty ==> url.domain == none
    case ReadyToCommit(m, main, same, url, _) =>
      m == i && main && !same && Open(w, i) ==>
        awaited == None && (url.empty ==> url.domain == w.tabs[i].committed.domain)
    case DidCommit(m, url) =>
      m == i && Open(w, i) ==> awaited == Some(url) || url.domain == w.tabs[i].committed.domain
    case _ => true
  }

  /** Every main-frame navigation of tab `i` is committed before the next one is ready. */
  predicate InTurn(cfg: Config, es: seq<Event>, i: nat, none: string) {
    es == []
    || (InTurn(cfg, es[..|es| - 1], i, none)
        && TakesItsTurn(Exec(cfg, es[..|es| - 1]), es[|es| - 1], i, Awaited(cfg, es[..|es| - 1], i), none))
  }

  /** Where the tab is headed is where its storage is. */
  ghost predicate Headed(t: Tab, awaited: Option<Url>, none: string) {
    OnItsDomain(if awaited.Some? then t.(committed := awaited.value) else t, none)
  }

  lemma StepHeaded(cfg: Config, w: World, e: Event, i: nat, awaited: Option<Url>, none: string)
    requires Open(w, i) && Open(Step(cfg, w, e), i) && Headed(w.tabs[i], awaited, none)
    requires TakesItsTurn(w, e, i, awaited, none)
    ensures Headed(Step(cfg, w, e).tabs[i],
                   if e.ReadyToCommit? && e.tab == i && e.mainFrame && !e.sameDocument then Some(e.url)
                   else if e.DidCommit? && e.tab == i && awaited == Some(e.url) then None
                   else awaited, none)
  {
    if e.ReadyToCommit? && e.tab == i && e.mainFrame && !e.sameDocument {
      NavigationReaches(cfg, w, i, e.url, e.sessionId, none);
    }
  }

  lemma OpenedHeaded(cfg: Config, w: World, e: Event, none: string)
    requires e.OpenTab? && TakesItsTurn(w, e, |w.tabs|, None, none)
    ensures Headed(Step(cfg, w, e).tabs[|w.tabs|], None, none)
  {
    TakeAreasSlots(cfg, e.url.domain, e.sessionId, Scene(w.store, w.queue, NewTab(e.context, e.url)));
  }

  lemma {:induction false} NothingAwaited(cfg: Config, es: seq<Event>, i: nat)
    requires |Exec(cfg, es).tabs| <= i
    ensures Awaited(cfg, es, i) == None
    decreases |es|
  {
    if es != [] {
      TabsGrow(cfg, Exec(cfg, es[..|es| - 1]), es[|es| - 1]);
      NothingAwaited(cfg, es[..|es| - 1], i);
    }
  }

  lemma {:induction false} RunHeaded(cfg: Config, es: seq<Event>, i: nat, none: string)
    requires InTurn(cfg, es, i, none) && Open(Exec(cfg, es), i)
    ensures Headed(Exec(cfg, es).tabs[i], Awaited(cfg, es, i), none)
    decreases |es|
  {
    if es != [] {
      var before, e := es[..|es| - 1], es[|es| - 1];
      var w := Exec(cfg, before);
      TabsGrow(cfg, w, e);
      if i < |w.tabs| {
        RunHeaded(cfg, before, i, none);
        StepHeaded(cfg, w, e, i, Awaited(cfg, before, i), none);
      } else {
        NothingAwaited(cfg, before, i);
        OpenedHeaded(cfg, w, e, none);
      }
    }
  }

  /** Over every run in which each main-frame navigation of a tab is committed before the next one is
      ready, and whatever other tabs do, the tab is on the storage of the domain it shows whenever no
      navigation is awaited. */
  lemma {:induction false} TabStaysOnItsDomain(cfg: Config, es: seq<Event>, i: nat, none: string)
    requires InTurn(cfg, es, i, none) && Open(Exec(cfg, es), i) && Awaited(cfg, es, i) == None
    ensures OnItsDomain(Exec(cfg, es).tabs[i], none)
  {
    RunHeaded(cfg, es, i, none);
  }

  /** Not so when a navigation is given up for one back to the domain shown: the tab keeps the storage of
      the domain it never went to, even after the commit. */
  lemma AbandonedSwitchStrandsTab(cfg: Config, w: World, i: nat, away: Url, back: Url, s: string, s': string,
                                  none: string)
    requires Open(w, i) && !away.empty && back.domain == w.tabs[i].committed.domain != away.domain
    ensures var w1 := Step(cfg, w, ReadyToCommit(i, true, false, away, s));
            var w2 := Step(cfg, w1, ReadyToCommit(i, true, false, back, s'));
            var t := Step(cfg, w2, DidCommit(i, back)).tabs[i];
            && !OnItsDomain(t, none) && t.committed == back
            && t.lifetime.Some? && t.lifetime.value.key == Lifetime(t.context, away.domain)
  {
    TakeAreasSlots(cfg, away.domain, s, Kept(cfg, w, ReadyToCommit(i, true, false, away, s)));
  }
}
