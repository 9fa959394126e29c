/**
 Who keeps what alive: in every run each object's counter is the number of its holders, and a domain's
 lifetime and local storage live exactly as long as the domain is in use.
 */
module EphemeralHolders {
  import opened Wrappers
  import opened RefCounting
  import opened EphemeralStorage
  import opened EphemeralRuns

  // ------------------------------------------------------------ what the slots and lists may hold

  ghost predicate IsSessionKey(cfg: Config, key: ResourceKey) {
    exists context, sessionId :: key == SessionKey(cfg, context, sessionId)
  }

  /** Each slot and list holds its own kind of object, and a closed tab holds nothing. */
  ghost predicate Typed(cfg: Config, t: Tab) {
    && (t.lifetime.Some? ==> t.lifetime.value.key.Lifetime?)
    && (t.local.Some? ==> t.local.value.key.Namespace?)
    && (t.session.Some? ==> t.session.value.key.Namespace? && IsSessionKey(cfg, t.session.value.key))
    && (forall r :: r in t.keptLifetimes ==> r.key.Lifetime?)
    && (forall r :: r in t.keptLocals ==> r.key.Namespace?)
    && (!t.open ==> t.lifetime == t.local == t.session == None && t.keptLifetimes == t.keptLocals == [])
  }

  lemma CreateAreasTyped(cfg: Config, now: nat, id: nat, url: Url, sessionId: string, sc: Scene)
    requires Typed(cfg, sc.tab) && sc.tab.open
    ensures Typed(cfg, CreateAreas(cfg, now, id, url, sessionId, sc).tab)
  {
    assert IsSessionKey(cfg, SessionKey(cfg, sc.tab.context, sessionId));
  }

  lemma ClearTyped(cfg: Config, key: ResourceKey, sc: Scene)
    requires Typed(cfg, sc.tab) && sc.tab.open
    ensures Typed(cfg, ClearKeepAlive(cfg, key, sc).tab)
  {
  }

  lemma {:induction false} DestructTyped(cfg: Config, sc: Scene)
    ensures Typed(cfg, Destruct(WebContentsDestroyed(sc)).tab)
  {
  }

  lemma {:induction false} RunTaskTyped(cfg: Config, w: World, i: nat)
    requires Open(w, i) && Typed(cfg, w.tabs[i]) && !Settled(w)
    ensures Typed(cfg, Step(cfg, w, RunTask).tabs[i])
  {
    var w1 := w.(queue := w.queue[1..]);
    ClearTyped(cfg, w.queue[0].key, View(w1, i));
    assert Step(cfg, w, RunTask).tabs[i] in [w.tabs[i], ClearKeepAlive(cfg, w.queue[0].key, View(w1, i)).tab];
  }

  lemma {:induction false} NavigationTyped(cfg: Config, w: World, e: Event, i: nat)
    requires Open(w, i) && Typed(cfg, w.tabs[i]) && e.ReadyToCommit?
    ensures Typed(cfg, Step(cfg, w, e).tabs[i])
  {
    CreateAreasTyped(cfg, w.now, i, e.url, e.sessionId, View(w, i));
    assert Step(cfg, w, e).tabs[i] in [w.tabs[i], CreateAreas(cfg, w.now, i, e.url, e.sessionId, View(w, i)).tab];
  }

  /** The tab `i` after a step, when the step touches it. */
  lemma {:induction false} TouchedTyped(cfg: Config, w: World, e: Event, i: nat)
    requires Open(w, i) && Typed(cfg, w.tabs[i])
    ensures Typed(cfg, Step(cfg, w, e).tabs[i])
  {
    var t, t' := w.tabs[i], Step(cfg, w, e).tabs[i];
    match e
    case ReadyToCommit(m, main, same, url, session) =>
      NavigationTyped(cfg, w, e, i);
    case RunTask =>
      if !Settled(w) {
        RunTaskTyped(cfg, w, i);
      }
    case DidCommit(m, url) =>
      assert t' == t || t' == t.(committed := url);
    case CloseTab(m) =>
      DestructTyped(cfg, View(w, i));
      assert t' == t || t' == Destruct(WebContentsDestroyed(View(w, i))).tab;
    case _ =>
      assert t' == t;
  }

  lemma {:induction false} StepTyped(cfg: Config, w: World, e: Event, i: nat)
    requires forall j :: 0 <= j < |w.tabs| ==> Typed(cfg, w.tabs[j])
    requires i < |Step(cfg, w, e).tabs|
    ensures Typed(cfg, Step(cfg, w, e).tabs[i])
  {
    if i == |w.tabs| {
      CreateAreasTyped(cfg, w.now, i, e.url, e.sessionId, Scene(w.store, w.queue, NewTab(e.context, e.url)));
    } else if Open(w, i) {
      TouchedTyped(cfg, w, e, i);
    } else {
      assert Step(cfg, w, e).tabs[i] == w.tabs[i];
    }
  }

  lemma {:induction false} RunTyped(cfg: Config, es: seq<Event>)
    ensures forall i :: 0 <= i < |Exec(cfg, es).tabs| ==> Typed(cfg, Exec(cfg, es).tabs[i])
    decreases |es|
  {
    if es != [] {
      var before, e := es[..|es| - 1], es[|es| - 1];
      RunTyped(cfg, before);
      forall i | 0 <= i < |Exec(cfg, es).tabs|
        ensures Typed(cfg, Exec(cfg, es).tabs[i])
      {
        StepTyped(cfg, Exec(cfg, before), e, i);
      }
    }
  }

  // ------------------------------------------------------------ counters and holders

  function SlotHolds(slot: Option<Ref>, key: ResourceKey): nat {
    if slot.Some? && slot.value.key == key then 1 else 0
  }

  function TabHolds(t: Tab, key: ResourceKey): nat {
    SlotHolds(t.lifetime, key) + SlotHolds(t.local, key) + SlotHolds(t.session, key)
    + CountKey(t.keptLifetimes, key) + CountKey(t.keptLocals, key)
  }

  /** The slots and keep-alive entries of all tabs that are for a key. */
  function Holders(tabs: seq<Tab>, key: ResourceKey): nat {
    SumOf(tabs, t => TabHolds(t, key))
  }

  lemma TabParts(t: Tab, r: Ref)
    ensures HeldByTab(t)[r] == Refs(t.lifetime)[r] + Refs(t.local)[r] + Refs(t.session)[r]
                             + multiset(t.keptLifetimes)[r] + multiset(t.keptLocals)[r]
  {
  }

  lemma TabRefs(rest: multiset<Ref>, t: Tab, r: Ref)
    requires r in rest + HeldByTab(t)
    ensures r in rest || r in Refs(t.lifetime) || r in Refs(t.local) || r in Refs(t.session)
            || r in t.keptLifetimes || r in t.keptLocals
  {
  }

  lemma PartsAreHeld(held: multiset<Ref>, t: Tab, r: Ref)
    requires HeldByTab(t) <= held
    requires r in Refs(t.lifetime) || r in Refs(t.local) || r in Refs(t.session)
             || r in t.keptLifetimes || r in t.keptLocals
    ensures r in held
  {
    TabParts(t, r);
    assert r in t.keptLifetimes ==> r in multiset(t.keptLifetimes);
    assert r in t.keptLocals ==> r in multiset(t.keptLocals);
    assert HeldByTab(t)[r] <= held[r];
  }

  lemma SlotsAndListsAreHeld(held: multiset<Ref>, t: Tab)
    requires HeldByTab(t) <= held
    ensures forall r :: r in Refs(t.lifetime) ==> r in held
    ensures forall r :: r in Refs(t.local) ==> r in held
    ensures forall r :: r in Refs(t.session) ==> r in held
    ensures forall r :: r in t.keptLifetimes ==> r in held
    ensures forall r :: r in t.keptLocals ==> r in held
  {
    forall r | r in Refs(t.lifetime) || r in Refs(t.local) || r in Refs(t.session)
               || r in t.keptLifetimes || r in t.keptLocals
      ensures r in held
    {
      PartsAreHeld(held, t, r);
    }
  }

  lemma SlotCount(s: Store, held: multiset<Ref>, slot: Option<Ref>, key: ResourceKey)
    requires Accounts(s, held) && (forall r :: r in Refs(slot) ==> r in held)
    ensures SlotHolds(slot, key) == if key in s.registry then Refs(slot)[Ref(s.registry[key], key)] else 0
  {
    if slot.Some? {
      assert slot.value in Refs(slot);
    }
  }

  lemma {:induction false} TabCount(s: Store, held: multiset<Ref>, t: Tab, key: ResourceKey)
    requires Accounts(s, held) && HeldByTab(t) <= held
    ensures TabHolds(t, key) == if key in s.registry then HeldByTab(t)[Ref(s.registry[key], key)] else 0
  {
    SlotsAndListsAreHeld(held, t);
    SlotCount(s, held, t.lifetime, key);
    SlotCount(s, held, t.local, key);
    SlotCount(s, held, t.session, key);
    CountKeyIsMultiplicity(s, held, t.keptLifetimes, key);
    CountKeyIsMultiplicity(s, held, t.keptLocals, key);
    if key in s.registry {
      TabParts(t, Ref(s.registry[key], key));
    }
  }

  lemma {:induction false} HoldersCount(s: Store, tabs: seq<Tab>, key: ResourceKey)
    requires Accounts(s, Held(tabs))
    ensures Holders(tabs, key) == if key in s.registry then Held(tabs)[Ref(s.registry[key], key)] else 0
  {
    var count := t => TabHolds(t, key);
    forall t | t in tabs
      ensures count(t) == if key in s.registry then HeldByTab(t)[Ref(s.registry[key], key)] else 0
    {
      var i :| 0 <= i < |tabs| && tabs[i] == t;
      TotalIncludes(tabs, HeldByTab, i);
      TabCount(s, Held(tabs), t, key);
    }
    if key in s.registry {
      SumOfCounts(tabs, HeldByTab, count, Ref(s.registry[key], key));
    } else {
      SumOfZeros(tabs, count);
    }
  }

  /** The object of a key is alive exactly while it has holders, and its counter is their number. */
  ghost predicate AliveWith(s: Store, key: ResourceKey, holders: nat) {
    && (key in s.registry <==> 0 < holders)
    && (key in s.registry ==>
          s.registry[key] in s.live && s.live[s.registry[key]] == Resource(key, holders))
  }

  /** In every run, whatever the key: lifetime, local or session namespace. */
  lemma {:induction false} LiveWhileHeld(cfg: Config, es: seq<Event>, key: ResourceKey)
    ensures AliveWith(Exec(cfg, es).store, key, Holders(Exec(cfg, es).tabs, key))
  {
    RunBalanced(cfg, es);
    HoldersCount(Exec(cfg, es).store, Exec(cfg, es).tabs, key);
  }

  // ------------------------------------------------------------ storage of a domain

  /** Whether a tab is on a domain, plus its keep-alive entries for it. */
  function TabUses(t: Tab, context: nat, domain: string): nat {
    SlotHolds(t.lifetime, Lifetime(context, domain)) + CountKey(t.keptLifetimes, Lifetime(context, domain))
  }

  /** The number of tabs now on a storage domain plus the number of keep-alive entries for it. */
  function DomainUsers(tabs: seq<Tab>, context: nat, domain: string): nat {
    SumOf(tabs, t => TabUses(t, context, domain))
  }

  ghost predicate Injective(md5: string -> string) {
    forall s, t :: md5(s) == md5(t) ==> s == t
  }

  lemma AppendedTellsApart(s: string, t: string, suffix: string)
    ensures s + suffix == t + suffix <==> s == t
  {
    if s + suffix == t + suffix {
      assert s == (s + suffix)[..|s|] && t == (t + suffix)[..|t|];
    }
  }

  lemma LocalKeysTellDomains(cfg: Config, context: nat, domain: string, context': nat, domain': string)
    requires Injective(cfg.md5)
    ensures LocalKey(cfg, context, domain) == LocalKey(cfg, context', domain')
       <==> context == context' && domain == domain'
  {
    AppendedTellsApart(cfg.md5(domain + LocalStorageSuffix), cfg.md5(domain' + LocalStorageSuffix), "____");
    AppendedTellsApart(domain, domain', LocalStorageSuffix);
  }

  /** The two suffixes differ in the ninth letter from the end. */
  lemma SuffixesDiffer(s: string, t: string)
    ensures s + LocalStorageSuffix != t + SessionStorageSuffix
  {
    var l, n := s + LocalStorageSuffix, t + SessionStorageSuffix;
    assert l[|l| - 9] == LocalStorageSuffix[|LocalStorageSuffix| - 9] == 'l';
    assert n[|n| - 9] == SessionStorageSuffix[|SessionStorageSuffix| - 9] == 'n';
  }

  lemma LocalIsNoSession(cfg: Config, context: nat, domain: string, key: ResourceKey)
    requires Injective(cfg.md5) && IsSessionKey(cfg, key)
    ensures key != LocalKey(cfg, context, domain)
  {
    var c, id :| key == SessionKey(cfg, c, id);
    SuffixesDiffer(domain, id);
    AppendedTellsApart(cfg.md5(domain + LocalStorageSuffix), cfg.md5(id + SessionStorageSuffix), "____");
  }

  ghost predicate ListsPaired(cfg: Config, t: Tab) {
    && |t.keptLifetimes| == |t.keptLocals|
    && forall j :: 0 <= j < |t.keptLocals| ==> Paired(cfg, t.context, t.keptLifetimes[j], t.keptLocals[j])
  }

  lemma FittingListsArePaired(cfg: Config, now: nat, i: nat, t: Tab, q: seq<Task>, ps: seq<Push>)
    requires Fits(cfg, now, i, t, q, ps)
    ensures ListsPaired(cfg, t)
  {
    forall j | 0 <= j < |t.keptLocals|
      ensures Paired(cfg, t.context, t.keptLifetimes[j], t.keptLocals[j])
    {
      assert EntryInv(cfg, i, t, q, ps, j);
    }
  }

  lemma PairedKeys(cfg: Config, t: nat, l: Ref, n: Ref, context: nat, domain: string)
    requires Injective(cfg.md5) && Paired(cfg, t, l, n)
    ensures n.key == LocalKey(cfg, context, domain) <==> l.key == Lifetime(context, domain)
  {
    LocalKeysTellDomains(cfg, t, l.key.name, context, domain);
  }

  lemma {:induction false} PairedCounts(cfg: Config, t: nat, ls: seq<Ref>, ns: seq<Ref>, context: nat, domain: string)
    requires Injective(cfg.md5) && |ls| == |ns|
    requires forall j :: 0 <= j < |ns| ==> Paired(cfg, t, ls[j], ns[j])
    ensures CountKey(ns, LocalKey(cfg, context, domain)) == CountKey(ls, Lifetime(context, domain))
    decreases |ns|
  {
    if ns != [] {
      PairedKeys(cfg, t, ls[0], ns[0], context, domain);
      PairedCounts(cfg, t, ls[1..], ns[1..], context, domain);
    }
  }

  lemma {:induction false} NoneOfKey(rs: seq<Ref>, key: ResourceKey)
    requires forall r :: r in rs ==> r.key != key
    ensures CountKey(rs, key) == 0
    decreases |rs|
  {
    if rs != [] {
      NoneOfKey(rs[1..], key);
    }
  }

  /** Only the lifetime slot and the list of lifetimes can hold a lifetime. */
  lemma LifetimeUses(cfg: Config, t: Tab, context: nat, domain: string)
    requires Typed(cfg, t)
    ensures TabHolds(t, Lifetime(context, domain)) == TabUses(t, context, domain)
  {
    NoneOfKey(t.keptLocals, Lifetime(context, domain));
  }

  /** A tab holds the local namespace of a domain as many times as its lifetime. */
  lemma LocalUses(cfg: Config, t: Tab, context: nat, domain: string)
    requires Injective(cfg.md5) && Typed(cfg, t) && SlotsInv(cfg, t) && ListsPaired(cfg, t)
    ensures TabHolds(t, LocalKey(cfg, context, domain)) == TabUses(t, context, domain)
  {
    NoneOfKey(t.keptLifetimes, LocalKey(cfg, context, domain));
    PairedCounts(cfg, t.context, t.keptLifetimes, t.keptLocals, context, domain);
    if t.session.Some? {
      LocalIsNoSession(cfg, context, domain, t.session.value.key);
    }
    if t.local.Some? {
      PairedKeys(cfg, t.context, t.lifetime.value, t.local.value, context, domain);
    }
  }

  lemma {:induction false} SumOfEqual<T>(holders: seq<T>, f: T -> nat, g: T -> nat)
    requires forall h :: h in holders ==> f(h) == g(h)
    ensures SumOf(holders, f) == SumOf(holders, g)
    decreases |holders|
  {
    if holders != [] {
      SumOfEqual(holders[..|holders| - 1], f, g);
    }
  }

  lemma {:induction false} RunTabPaired(cfg: Config, es: seq<Event>, i: nat)
    requires i < |Exec(cfg, es).tabs|
    ensures SlotsInv(cfg, Exec(cfg, es).tabs[i]) && ListsPaired(cfg, Exec(cfg, es).tabs[i])
  {
    var w := Exec(cfg, es);
    RunTyped(cfg, es);
    if Open(w, i) {
      RunTab(cfg, es, i);
      FittingListsArePaired(cfg, w.now, i, w.tabs[i], Pending(w.queue, i), Pushes(cfg, es, i));
    }
  }

  lemma {:induction false} LifetimeHolders(cfg: Config, es: seq<Event>, context: nat, domain: string)
    ensures Holders(Exec(cfg, es).tabs, Lifetime(context, domain)) == DomainUsers(Exec(cfg, es).tabs, context, domain)
  {
    var tabs := Exec(cfg, es).tabs;
    RunTyped(cfg, es);
    forall t | t in tabs
      ensures TabHolds(t, Lifetime(context, domain)) == TabUses(t, context, domain)
    {
      LifetimeUses(cfg, t, context, domain);
    }
    SumOfEqual(tabs, t => TabHolds(t, Lifetime(context, domain)), t => TabUses(t, context, domain));
  }

  lemma {:induction false} LocalHolders(cfg: Config, es: seq<Event>, context: nat, domain: string)
    requires Injective(cfg.md5)
    ensures Holders(Exec(cfg, es).tabs, LocalKey(cfg, context, domain))
         == DomainUsers(Exec(cfg, es).tabs, context, domain)
  {
    var tabs := Exec(cfg, es).tabs;
    RunTyped(cfg, es);
    forall t | t in tabs
      ensures TabHolds(t, LocalKey(cfg, context, domain)) == TabUses(t, context, domain)
    {
      var i :| 0 <= i < |tabs| && tabs[i] == t;
      RunTabPaired(cfg, es, i);
      LocalUses(cfg, t, context, domain);
    }
    SumOfEqual(tabs, t => TabHolds(t, LocalKey(cfg, context, domain)), t => TabUses(t, context, domain));
  }

  /** A domain's storage is alive exactly while some tab is on the domain or some keep-alive entry is for
      it, and its counter is the number of both together. This goes for the lifetime, and for the local
      namespace as long as the hash gives no two strings the same id. */
  lemma {:induction false} DomainStorageIsLive(cfg: Config, es: seq<Event>, context: nat, domain: string)
    ensures var w := Exec(cfg, es);
            var users := DomainUsers(w.tabs, context, domain);
            && AliveWith(w.store, Lifetime(context, domain), users)
            && (Injective(cfg.md5) ==> AliveWith(w.store, LocalKey(cfg, context, domain), users))
  {
    LiveWhileHeld(cfg, es, Lifetime(context, domain));
    LifetimeHolders(cfg, es, context, domain);
    if Injective(cfg.md5) {
      LiveWhileHeld(cfg, es, LocalKey(cfg, context, domain));
      LocalHolders(cfg, es, context, domain);
    }
  }
}
