/**
 The reference counts are right after every step of every run: each object's counter equals the
 number of places that hold it, over all tabs and their keep-alive lists.
 */
module EphemeralAccounting {
  import opened Wrappers
  import opened RefCounting
  import opened EphemeralStorage

  /** `rest` is what everybody but the tab of the scene holds. */
  ghost predicate Sound(sc: Scene, rest: multiset<Ref>) {
    Accounts(sc.store, rest + HeldByTab(sc.tab))
  }

  /** A scene that follows another one soundly, never reusing an identity. */
  ghost predicate Follows(sc: Scene, sc': Scene, rest: multiset<Ref>) {
    Sound(sc', rest) && sc.store.next <= sc'.store.next
  }

  lemma KeepAliveSound(cfg: Config, now: nat, id: nat, sc: Scene, rest: multiset<Ref>)
    requires Sound(sc, rest) && sc.tab.lifetime.Some? && sc.tab.local.Some?
    ensures Follows(sc, KeepAlive(cfg, now, id, sc), rest)
  {
    var l, n := sc.tab.lifetime.value, sc.tab.local.value;
    var m := rest + HeldByTab(sc.tab);
    AddRefAccounts(sc.store, m, l);
    AddRefAccounts(AddRef(sc.store, l), m + multiset{l}, n);
    HeldWithEntry(rest, sc.tab, l, n);
  }

  lemma HeldWithEntry(rest: multiset<Ref>, t: Tab, l: Ref, n: Ref)
    ensures rest + HeldByTab(t.(keptLifetimes := t.keptLifetimes + [l], keptLocals := t.keptLocals + [n]))
         == rest + HeldByTab(t) + multiset{l} + multiset{n}
  {
  }

  lemma HeldInLocal(rest: multiset<Ref>, t: Tab, r: Option<Ref>)
    ensures rest + HeldByTab(t.(local := r)) == rest + HeldByTab(t.(local := None)) + Refs(r)
  {
  }

  lemma HeldInSession(rest: multiset<Ref>, t: Tab, r: Option<Ref>)
    ensures rest + HeldByTab(t.(session := r)) == rest + HeldByTab(t.(session := None)) + Refs(r)
  {
  }

  lemma HeldInLifetime(rest: multiset<Ref>, t: Tab, r: Option<Ref>)
    ensures rest + HeldByTab(t.(lifetime := r)) == rest + HeldByTab(t.(lifetime := None)) + Refs(r)
  {
  }

  lemma TakeLocalSound(cfg: Config, domain: string, sc: Scene, rest: multiset<Ref>)
    requires Sound(sc, rest)
    ensures Follows(sc, TakeLocal(cfg, domain, sc), rest)
  {
    var t, key := sc.tab, LocalKey(cfg, sc.tab.context, domain);
    HeldInLocal(rest, t, t.local);
    AssignAccounts(sc.store, rest + HeldByTab(t.(local := None)), t.local, key);
    HeldInLocal(rest, t, Some(Assign(sc.store, t.local, key).1));
  }

  lemma TakeSessionSound(cfg: Config, sessionId: string, sc: Scene, rest: multiset<Ref>)
    requires Sound(sc, rest)
    ensures Follows(sc, TakeSession(cfg, sessionId, sc), rest)
  {
    var t, key := sc.tab, SessionKey(cfg, sc.tab.context, sessionId);
    var others := rest + HeldByTab(t.(session := None));
    HeldInSession(rest, t, t.session);
    ReleaseOptionAccounts(sc.store, others, t.session);
    GetOrCreateAccounts(ReleaseOption(sc.store, t.session), others, key);
    HeldInSession(rest, t, Some(GetOrCreate(ReleaseOption(sc.store, t.session), key).1));
  }

  lemma TakeLifetimeSound(domain: string, sc: Scene, rest: multiset<Ref>)
    requires Sound(sc, rest)
    ensures Follows(sc, TakeLifetime(domain, sc), rest)
  {
    var t, key := sc.tab, Lifetime(sc.tab.context, domain);
    HeldInLifetime(rest, t, t.lifetime);
    AssignAccounts(sc.store, rest + HeldByTab(t.(lifetime := None)), t.lifetime, key);
    HeldInLifetime(rest, t, Some(Assign(sc.store, t.lifetime, key).1));
  }

  lemma CreateAreasSound(cfg: Config, now: nat, id: nat, url: Url, sessionId: string, sc: Scene, rest: multiset<Ref>)
    requires Sound(sc, rest)
    ensures Follows(sc, CreateAreas(cfg, now, id, url, sessionId, sc), rest)
  {
    if !url.empty {
      var kept := if KeepsAlive(cfg, sc.tab, url) then KeepAlive(cfg, now, id, sc) else sc;
      if KeepsAlive(cfg, sc.tab, url) {
        KeepAliveSound(cfg, now, id, sc, rest);
      }
      TakeLocalSound(cfg, url.domain, kept, rest);
      var sc1 := TakeLocal(cfg, url.domain, kept);
      TakeSessionSound(cfg, sessionId, sc1, rest);
      TakeLifetimeSound(url.domain, TakeSession(cfg, sessionId, sc1), rest);
    }
  }

  lemma EraseKeyRefs(rs: seq<Ref>, key: ResourceKey)
    ensures multiset(rs) == multiset(EraseKey(rs, key)) + Refs(FoundKey(rs, key))
  {
    var i := IndexOfKey(rs, key);
    if i < |rs| {
      assert rs == rs[..i] + [rs[i]] + rs[i + 1..];
    }
  }

  lemma ClearLocalSound(cfg: Config, domain: string, sc: Scene, rest: multiset<Ref>)
    requires Sound(sc, rest)
    ensures Follows(sc, ClearLocal(cfg, domain, sc), rest)
  {
    var t, k := sc.tab, LocalKey(cfg, sc.tab.context, domain);
    var t' := ClearLocal(cfg, domain, sc).tab;
    EraseKeyRefs(t.keptLocals, k);
    assert rest + HeldByTab(t) == rest + HeldByTab(t') + Refs(FoundKey(t.keptLocals, k));
    ReleaseOptionAccounts(sc.store, rest + HeldByTab(t'), FoundKey(t.keptLocals, k));
  }

  lemma ClearLifetimeSound(key: ResourceKey, sc: Scene, rest: multiset<Ref>)
    requires Sound(sc, rest)
    ensures Follows(sc, ClearLifetime(key, sc), rest)
  {
    var t, t' := sc.tab, ClearLifetime(key, sc).tab;
    EraseKeyRefs(t.keptLifetimes, key);
    assert rest + HeldByTab(t) == rest + HeldByTab(t') + Refs(FoundKey(t.keptLifetimes, key));
    ReleaseOptionAccounts(sc.store, rest + HeldByTab(t'), FoundKey(t.keptLifetimes, key));
  }

  lemma DropKeptLifetimesSound(sc: Scene, rest: multiset<Ref>)
    requires Sound(sc, rest)
    ensures Follows(sc, DropKeptLifetimes(sc), rest)
  {
    var t, t' := sc.tab, DropKeptLifetimes(sc).tab;
    assert rest + HeldByTab(t) == rest + HeldByTab(t') + multiset(t.keptLifetimes);
    ReleaseAllAccounts(sc.store, rest + HeldByTab(t'), t.keptLifetimes);
  }

  lemma DropKeptLocalsSound(sc: Scene, rest: multiset<Ref>)
    requires Sound(sc, rest)
    ensures Follows(sc, DropKeptLocals(sc), rest)
  {
    var t, t' := sc.tab, DropKeptLocals(sc).tab;
    assert rest + HeldByTab(t) == rest + HeldByTab(t') + multiset(t.keptLocals);
    ReleaseAllAccounts(sc.store, rest + HeldByTab(t'), t.keptLocals);
  }

  lemma DropSlotsSound(sc: Scene, rest: multiset<Ref>)
    requires Sound(sc, rest)
    ensures Follows(sc, DropSlots(sc), rest)
  {
    var t, t' := sc.tab, DropSlots(sc).tab;
    var others := rest + HeldByTab(t');
    assert rest + HeldByTab(t) == others + Refs(t.local) + Refs(t.session) + Refs(t.lifetime);
    ReleaseOptionAccounts(sc.store, others + Refs(t.local) + Refs(t.session), t.lifetime);
    var s1 := ReleaseOption(sc.store, t.lifetime);
    ReleaseOptionAccounts(s1, others + Refs(t.local), t.session);
    ReleaseOptionAccounts(ReleaseOption(s1, t.session), others, t.local);
  }

  lemma CloseSound(sc: Scene, rest: multiset<Ref>)
    requires Sound(sc, rest)
    ensures Follows(sc, Destruct(WebContentsDestroyed(sc)), rest)
  {
    DropKeptLifetimesSound(sc, rest);
    DropKeptLocalsSound(DropKeptLifetimes(sc), rest);
    var d := WebContentsDestroyed(sc);
    DropKeptLocalsSound(d, rest);
    DropKeptLifetimesSound(DropKeptLocals(d), rest);
    var e := DropKeptLifetimes(DropKeptLocals(d));
    DropSlotsSound(e, rest);
    assert HeldByTab(DropSlots(e).tab) == HeldByTab(DropSlots(e).tab.(open := false));
  }
}
