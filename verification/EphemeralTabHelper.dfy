/**
 The tab helper and the objects it works with, updated in place. Every method does to the fields
 exactly what the corresponding step does to the values of module EphemeralStorage.
 */
module EphemeralTabHelper {
  import opened Wrappers
  import opened RefCounting
  import opened EphemeralStorage

  /** The live objects of the browser and the map of weak pointers to them. */
  class StorageRegistry {
    var live: map<nat, Resource>
    var registry: map<ResourceKey, nat>
    var next: nat

    function View(): Store
      reads this
    {
      Store(live, registry, next)
    }

    constructor ()
      ensures View() == EmptyStore
    {
      live, registry, next := map[], map[], 0;
    }

    method AddRef(r: Ref)
      modifies this
      ensures View() == RefCounting.AddRef(old(View()), r)
    {
      if r.id in live {
        live := live[r.id := live[r.id].(refs := live[r.id].refs + 1)];
      }
    }

    /** The destructor of the last reference takes the key out of the registry. */
    method Release(r: Ref)
      modifies this
      ensures View() == RefCounting.Release(old(View()), r)
    {
      if r.id in live {
        var x := live[r.id];
        if x.refs > 1 {
          live := live[r.id := x.(refs := x.refs - 1)];
        } else {
          registry := registry - {x.key};
          live := live - {r.id};
        }
      }
    }

    method ReleaseOption(r: Option<Ref>)
      modifies this
      ensures View() == RefCounting.ReleaseOption(old(View()), r)
    {
      if r.Some? {
        Release(r.value);
      }
    }

    method ReleaseAll(rs: seq<Ref>)
      modifies this
      ensures View() == RefCounting.ReleaseAll(old(View()), rs)
    {
      var i := 0;
      while i < |rs|
        invariant 0 <= i <= |rs|
        invariant RefCounting.ReleaseAll(View(), rs[i..]) == RefCounting.ReleaseAll(old(View()), rs)
      {
        assert rs[i..][1..] == rs[i + 1..];
        Release(rs[i]);
        i := i + 1;
      }
    }

    method GetOrCreate(key: ResourceKey) returns (r: Ref)
      modifies this
      ensures (View(), r) == RefCounting.GetOrCreate(old(View()), key)
    {
      if key in registry {
        r := Ref(registry[key], key);
        AddRef(r);
      } else {
        r := Ref(next, key);
        live := live[next := Resource(key, 1)];
        registry := registry[key := next];
        next := next + 1;
      }
    }
  }

  class TaskRunner {
    var now: nat
    var queue: seq<Task>

    constructor ()
      ensures now == 0 && queue == []
    {
      now, queue := 0, [];
    }

    method PostDelayedTask(tab: nat, key: ResourceKey, delay: nat)
      modifies this
      ensures now == old(now) && queue == old(queue) + [Task(now + delay, tab, key)]
    {
      queue := queue + [Task(now + delay, tab, key)];
    }

    /** Takes the first task off the queue, if it is due already. */
    method TakeDue() returns (t: Option<Task>)
      modifies this
      ensures now == old(now)
      ensures t.Some? <==> old(queue) != [] && old(queue)[0].due <= now
      ensures if t.Some? then old(queue) == [t.value] + queue else queue == old(queue)
    {
      t := None;
      if queue != [] && queue[0].due <= now {
        t, queue := Some(queue[0]), queue[1..];
      }
    }
  }

  /** Linear search for the first reference made out to a key; the length when there is none. */
  method FindKey(rs: seq<Ref>, key: ResourceKey) returns (i: nat)
    ensures i == IndexOfKey(rs, key)
  {
    i := 0;
    while i < |rs| && rs[i].key != key
      invariant i <= |rs|
      invariant IndexOfKey(rs, key) == i + IndexOfKey(rs[i..], key)
    {
      assert rs[i..][1..] == rs[i + 1..];
      i := i + 1;
    }
  }

  /** Finds and erases: the list afterwards and the reference it held, if there was one. */
  method EraseFirst(rs: seq<Ref>, key: ResourceKey) returns (rest: seq<Ref>, erased: Option<Ref>)
    ensures rest == EraseKey(rs, key) && erased == FoundKey(rs, key)
  {
    rest, erased := rs, None;
    var i := FindKey(rs, key);
    if i < |rs| {
      rest, erased := rs[..i] + rs[i + 1..], Some(rs[i]);
    }
  }

  class EphemeralStorageTabHelper {
    const cfg: Config
    const id: nat
    const context: nat
    const store: StorageRegistry
    const runner: TaskRunner
    var open: bool
    var committed: Url
    var lifetime: Option<Ref>
    var local: Option<Ref>
    var session: Option<Ref>
    var keptLifetimes: seq<Ref>
    var keptLocals: seq<Ref>

    /** The lifetime and the local-storage namespace are always taken together. */
    ghost predicate Valid()
      reads this
    {
      lifetime.Some? <==> local.Some?
    }

    function AsTab(): Tab
      reads this
    {
      Tab(context, open, committed, lifetime, local, session, keptLifetimes, keptLocals)
    }

    function View(): Scene
      reads this, store, runner
    {
      Scene(store.View(), runner.queue, AsTab())
    }

    constructor (cfg: Config, id: nat, context: nat, store: StorageRegistry, runner: TaskRunner,
                 url: Url, sessionId: string)
      modifies store, runner
      ensures Valid() && this.cfg == cfg && this.id == id && this.store == store && this.runner == runner
      ensures runner.now == old(runner.now)
      ensures View() == CreateAreas(cfg, runner.now, id, url, sessionId,
                                    Scene(old(store.View()), old(runner.queue), NewTab(context, url)))
    {
      this.cfg, this.id, this.context, this.store, this.runner := cfg, id, context, store, runner;
      open, committed := true, url;
      lifetime, local, session := None, None, None;
      keptLifetimes, keptLocals := [], [];
      new;
      CreateEphemeralStorageAreasForDomainAndURL(url, sessionId);
    }

    method ReadyToCommitNavigation(mainFrame: bool, sameDocument: bool, url: Url, sessionId: string)
      requires Valid()
      modifies this, store, runner
      ensures Valid() && runner.now == old(runner.now)
      ensures View() == if SwitchesDomain(old(View()).tab, mainFrame, sameDocument, url)
                        then CreateAreas(cfg, runner.now, id, url, sessionId, old(View()))
                        else old(View())
    {
      if !mainFrame {
        return;
      }
      if sameDocument {
        return;
      }
      if url.domain == committed.domain {
        return;
      }
      CreateEphemeralStorageAreasForDomainAndURL(url, sessionId);
    }

    method CreateEphemeralStorageAreasForDomainAndURL(url: Url, sessionId: string)
      requires Valid()
      modifies this, store, runner
      ensures Valid() && runner.now == old(runner.now)
      ensures View() == CreateAreas(cfg, runner.now, id, url, sessionId, old(View()))
    {
      if url.empty {
        return;
      }
      if cfg.keepAlive && lifetime.Some? {
        KeepStorageAlive();
      }
      TakeLocalStorage(url.domain);
      TakeSessionStorage(sessionId);
      TakeLifetime(url.domain);
    }

    /** Puts the present storage on both keep-alive lists and posts a task that will clear it. */
    method KeepStorageAlive()
      requires Valid() && lifetime.Some?
      modifies this, store, runner
      ensures Valid() && runner.now == old(runner.now)
      ensures View() == KeepAlive(cfg, runner.now, id, old(View()))
    {
      keptLifetimes := keptLifetimes + [lifetime.value];
      store.AddRef(lifetime.value);
      keptLocals := keptLocals + [local.value];
      store.AddRef(local.value);
      runner.PostDelayedTask(id, lifetime.value.key, cfg.delay);
    }

    method TakeLocalStorage(domain: string)
      modifies this, store
      ensures View() == TakeLocal(cfg, domain, old(View()))
    {
      var r := store.GetOrCreate(LocalKey(cfg, context, domain));
      store.ReleaseOption(local);
      local := Some(r);
    }

    /** The old session namespace is reset first, so that its last reference is really dropped. */
    method TakeSessionStorage(sessionId: string)
      modifies this, store
      ensures View() == TakeSession(cfg, sessionId, old(View()))
    {
      store.ReleaseOption(session);
      session := None;
      var r := store.GetOrCreate(SessionKey(cfg, context, sessionId));
      session := Some(r);
    }

    method TakeLifetime(domain: string)
      modifies this, store
      ensures View() == EphemeralStorage.TakeLifetime(domain, old(View()))
    {
      var r := store.GetOrCreate(Lifetime(context, domain));
      store.ReleaseOption(lifetime);
      lifetime := Some(r);
    }

    method ClearEphemeralLifetimeKeepalive(key: ResourceKey)
      requires Valid()
      modifies this, store
      ensures Valid() && View() == ClearKeepAlive(cfg, key, old(View()))
    {
      ClearLocalStorageKeepAlive(LocalKey(cfg, context, key.name));
      assert View() == ClearLocal(cfg, key.name, old(View()));
      var rest, erased := EraseFirst(keptLifetimes, key);
      keptLifetimes := rest;
      store.ReleaseOption(erased);
    }

    method ClearLocalStorageKeepAlive(key: ResourceKey)
      requires Valid()
      modifies this, store
      ensures Valid()
      ensures View() == Scene(RefCounting.ReleaseOption(old(store.View()), FoundKey(old(keptLocals), key)),
                              old(runner.queue),
                              old(View()).tab.(keptLocals := EraseKey(old(keptLocals), key)))
    {
      var rest, erased := EraseFirst(keptLocals, key);
      keptLocals := rest;
      store.ReleaseOption(erased);
    }

    method DidCommit(url: Url)
      requires Valid()
      modifies this`committed
      ensures Valid() && View() == Scene(old(View()).store, old(View()).queue, old(View()).tab.(committed := url))
    {
      committed := url;
    }

    method WebContentsDestroyed()
      requires Valid()
      modifies this, store
      ensures Valid() && View() == EphemeralStorage.WebContentsDestroyed(old(View()))
    {
      store.ReleaseAll(keptLifetimes);
      keptLifetimes := [];
      store.ReleaseAll(keptLocals);
      keptLocals := [];
    }

    /** The destructor. */
    method Destruct()
      requires Valid()
      modifies this, store
      ensures Valid() && View() == EphemeralStorage.Destruct(old(View()))
    {
      store.ReleaseAll(keptLocals);
      keptLocals := [];
      store.ReleaseAll(keptLifetimes);
      keptLifetimes := [];
      store.ReleaseOption(lifetime);
      lifetime := None;
      store.ReleaseOption(session);
      session := None;
      store.ReleaseOption(local);
      local := None;
      open := false;
    }
  }
}
