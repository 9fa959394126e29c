/**
 What one step of the browser does to ephemeral storage, as functions on values: a clock, a queue of
 delayed tasks, the shared reference-counted store and any number of tabs. Runs are arbitrary
 interleavings of navigations, commits, closings, task executions and the passing of time.
 */
module EphemeralStorage {
  import opened Wrappers
  import opened RefCounting

  /** `md5` stands for the hash behind namespace ids; nothing below assumes that it is injective. */
  datatype Config = Config(keepAlive: bool, delay: nat, md5: string -> string)

  /** A URL, as far as this code looks at it: whether it is empty, and its ephemeral storage domain. */
  datatype Url = Url(empty: bool, domain: string)

  datatype Tab = Tab(
    context: nat,
    open: bool,
    committed: Url,
    lifetime: Option<Ref>,
    local: Option<Ref>,
    session: Option<Ref>,
    keptLifetimes: seq<Ref>,
    keptLocals: seq<Ref>)

  /** A posted call of ClearEphemeralLifetimeKeepalive, bound weakly to its tab. */
  datatype Task = Task(due: nat, tab: nat, key: ResourceKey)

  datatype World = World(now: nat, store: Store, tabs: seq<Tab>, queue: seq<Task>)

  datatype Event =
    | OpenTab(context: nat, url: Url, sessionId: string)
    | ReadyToCommit(tab: nat, mainFrame: bool, sameDocument: bool, url: Url, sessionId: string)
    | DidCommit(tab: nat, url: Url)
    | CloseTab(tab: nat)
    | RunTask
    | Tick(elapsed: nat)

  const SessionStorageSuffix := "/ephemeral-session-storage"
  const LocalStorageSuffix := "/ephemeral-local-storage"

  function StorageId(cfg: Config, s: string, suffix: string): string {
    cfg.md5(s + suffix) + "____"
  }

  function LocalKey(cfg: Config, context: nat, domain: string): ResourceKey {
    Namespace(context, StorageId(cfg, domain, LocalStorageSuffix))
  }

  function SessionKey(cfg: Config, context: nat, sessionId: string): ResourceKey {
    Namespace(context, StorageId(cfg, sessionId, SessionStorageSuffix))
  }

  function NewTab(context: nat, url: Url): Tab {
    Tab(context, true, url, None, None, None, [], [])
  }

  // ------------------------------------------------------------ lists searched by key

  /** Where find_if stops: the first reference made out to `key`, or the end of the list. */
  function IndexOfKey(rs: seq<Ref>, key: ResourceKey): (i: nat)
    ensures i <= |rs|
    ensures i < |rs| ==> rs[i].key == key
    ensures forall j :: 0 <= j < i ==> rs[j].key != key
  {
    if rs == [] || rs[0].key == key then 0 else 1 + IndexOfKey(rs[1..], key)
  }

  function EraseKey(rs: seq<Ref>, key: ResourceKey): seq<Ref> {
    var i := IndexOfKey(rs, key);
    if i < |rs| then rs[..i] + rs[i + 1..] else rs
  }

  function FoundKey(rs: seq<Ref>, key: ResourceKey): Option<Ref> {
    var i := IndexOfKey(rs, key);
    if i < |rs| then Some(rs[i]) else None
  }

  // ------------------------------------------------------------ the helper's operations

  /** The part of the world one tab helper works on. */
  datatype Scene = Scene(store: Store, queue: seq<Task>, tab: Tab)

  /** Whether the switch to another domain keeps the present storage alive for a while. */
  predicate KeepsAlive(cfg: Config, tab: Tab, url: Url) {
    !url.empty && cfg.keepAlive && tab.lifetime.Some? && tab.local.Some?
  }

  function KeepAlive(cfg: Config, now: nat, id: nat, sc: Scene): Scene
    requires sc.tab.lifetime.Some? && sc.tab.local.Some?
  {
    var l, n := sc.tab.lifetime.value, sc.tab.local.value;
    Scene(AddRef(AddRef(sc.store, l), n),
          sc.queue + [Task(now + cfg.delay, id, l.key)],
          sc.tab.(keptLifetimes := sc.tab.keptLifetimes + [l], keptLocals := sc.tab.keptLocals + [n]))
  }

  function TakeLocal(cfg: Config, domain: string, sc: Scene): Scene {
    var (s, r) := Assign(sc.store, sc.tab.local, LocalKey(cfg, sc.tab.context, domain));
    Scene(s, sc.queue, sc.tab.(local := Some(r)))
  }

  /** The old session namespace is let go before the new one is asked for, so that it is really freed. */
  function TakeSession(cfg: Config, sessionId: string, sc: Scene): Scene {
    var freed := ReleaseOption(sc.store, sc.tab.session);
    var (s, r) := Assign(freed, None, SessionKey(cfg, sc.tab.context, sessionId));
    Scene(s, sc.queue, sc.tab.(session := Some(r)))
  }

  function TakeLifetime(domain: string, sc: Scene): Scene {
    var (s, r) := Assign(sc.store, sc.tab.lifetime, Lifetime(sc.tab.context, domain));
    Scene(s, sc.queue, sc.tab.(lifetime := Some(r)))
  }

  function TakeAreas(cfg: Config, domain: string, sessionId: string, sc: Scene): Scene {
    TakeLifetime(domain, TakeSession(cfg, sessionId, TakeLocal(cfg, domain, sc)))
  }

  function CreateAreas(cfg: Config, now: nat, id: nat, url: Url, sessionId: string, sc: Scene): Scene {
    if url.empty then sc
    else
      var kept := if KeepsAlive(cfg, sc.tab, url) then KeepAlive(cfg, now, id, sc) else sc;
      TakeAreas(cfg, url.domain, sessionId, kept)
  }

  /** Only a main-frame navigation to a new document in another storage domain switches storage. */
  predicate SwitchesDomain(tab: Tab, mainFrame: bool, sameDocument: bool, url: Url) {
    mainFrame && !sameDocument && url.domain != tab.committed.domain
  }

  function ClearLocal(cfg: Config, domain: string, sc: Scene): Scene {
    var k := LocalKey(cfg, sc.tab.context, domain);
    Scene(ReleaseOption(sc.store, FoundKey(sc.tab.keptLocals, k)), sc.queue,
          sc.tab.(keptLocals := EraseKey(sc.tab.keptLocals, k)))
  }

  function ClearLifetime(key: ResourceKey, sc: Scene): Scene {
    Scene(ReleaseOption(sc.store, FoundKey(sc.tab.keptLifetimes, key)), sc.queue,
          sc.tab.(keptLifetimes := EraseKey(sc.tab.keptLifetimes, key)))
  }

  function ClearKeepAlive(cfg: Config, key: ResourceKey, sc: Scene): Scene {
    ClearLifetime(key, ClearLocal(cfg, key.name, sc))
  }

  function DropKeptLifetimes(sc: Scene): Scene {
    Scene(ReleaseAll(sc.store, sc.tab.keptLifetimes), sc.queue, sc.tab.(keptLifetimes := []))
  }

  function DropKeptLocals(sc: Scene): Scene {
    Scene(ReleaseAll(sc.store, sc.tab.keptLocals), sc.queue, sc.tab.(keptLocals := []))
  }

  function DropSlots(sc: Scene): Scene {
    Scene(ReleaseOption(ReleaseOption(ReleaseOption(sc.store, sc.tab.lifetime), sc.tab.session), sc.tab.local),
          sc.queue, sc.tab.(lifetime := None, local := None, session := None))
  }

  function WebContentsDestroyed(sc: Scene): Scene {
    DropKeptLocals(DropKeptLifetimes(sc))
  }

  /** The destructor drops what is still held, in reverse order of declaration. */
  function Destruct(sc: Scene): Scene {
    var d := DropSlots(DropKeptLifetimes(DropKeptLocals(sc)));
    d.(tab := d.tab.(open := false))
  }

  // ------------------------------------------------------------ steps and runs

  function View(w: World, i: nat): Scene
    requires i < |w.tabs|
  {
    Scene(w.store, w.queue, w.tabs[i])
  }

  function Put(w: World, i: nat, sc: Scene): World
    requires i < |w.tabs|
  {
    World(w.now, sc.store, w.tabs[i := sc.tab], sc.queue)
  }

  predicate Open(w: World, i: nat) {
    i < |w.tabs| && w.tabs[i].open
  }

  /** Events about tabs that do not exist, and tasks that are not due, change nothing. */
  function Step(cfg: Config, w: World, e: Event): World {
    match e
    case OpenTab(c, url, session) =>
      var sc := CreateAreas(cfg, w.now, |w.tabs|, url, session, Scene(w.store, w.queue, NewTab(c, url)));
      World(w.now, sc.store, w.tabs + [sc.tab], sc.queue)
    case ReadyToCommit(i, main, same, url, session) =>
      if Open(w, i) && SwitchesDomain(w.tabs[i], main, same, url) then
        Put(w, i, CreateAreas(cfg, w.now, i, url, session, View(w, i)))
      else w
    case DidCommit(i, url) =>
      if Open(w, i) then w.(tabs := w.tabs[i := w.tabs[i].(committed := url)]) else w
    case CloseTab(i) =>
      if Open(w, i) then Put(w, i, Destruct(WebContentsDestroyed(View(w, i)))) else w
    case RunTask =>
      if w.queue == [] || w.now < w.queue[0].due then w
      else
        var t := w.queue[0];
        var w1 := w.(queue := w.queue[1..]);
        if Open(w, t.tab) then Put(w1, t.tab, ClearKeepAlive(cfg, t.key, View(w1, t.tab))) else w1
    case Tick(d) =>
      w.(now := w.now + d)
  }

  const Start := World(0, EmptyStore, [], [])

  function Exec(cfg: Config, es: seq<Event>): World {
    if es == [] then Start else Step(cfg, Exec(cfg, es[..|es| - 1]), es[|es| - 1])
  }

  // ------------------------------------------------------------ who holds what

  function HeldByTab(t: Tab): multiset<Ref> {
    Refs(t.lifetime) + Refs(t.local) + Refs(t.session) + multiset(t.keptLifetimes) + multiset(t.keptLocals)
  }

  function Held(tabs: seq<Tab>): multiset<Ref> {
    Total(tabs, HeldByTab)
  }

  /** The tasks posted for one tab, in the order in which they will run. */
  function Pending(queue: seq<Task>, i: nat): seq<Task> {
    if queue == [] then [] else (if queue[0].tab == i then [queue[0]] else []) + Pending(queue[1..], i)
  }

  lemma {:induction false} PendingSnoc(queue: seq<Task>, t: Task, i: nat)
    ensures Pending(queue + [t], i) == Pending(queue, i) + (if t.tab == i then [t] else [])
    decreases |queue|
  {
    var last := if t.tab == i then [t] else [];
    if queue == [] {
      assert queue + [t] == [t] && [t][1..] == [];
    } else {
      var first := if queue[0].tab == i then [queue[0]] else [];
      PendingSnoc(queue[1..], t, i);
      assert (queue + [t])[1..] == queue[1..] + [t];
      assert first + (Pending(queue[1..], i) + last) == first + Pending(queue[1..], i) + last;
    }
  }

  lemma {:induction false} PendingFrom(queue: seq<Task>, i: nat, n: nat)
    requires forall t :: t in queue ==> t.tab < n
    ensures n <= i ==> Pending(queue, i) == []
    ensures forall t :: t in Pending(queue, i) ==> t in queue
    decreases |queue|
  {
    if queue != [] {
      PendingFrom(queue[1..], i, n);
    }
  }
}
