/**
 What holds over every run: clearing by key removes exactly the entry whose delay is over, storage
 is alive exactly while somebody refers to it, and coming back in time finds the same storage.
 */
module EphemeralRuns {
  import opened RefCounting
  import opened EphemeralStorage
  import opened EphemeralAccounting

  // ------------------------------------------------------------ the timestamped specification

  /** One entry put on the keep-alive lists of a tab, and when. */
  datatype Push = Push(time: nat, lifetime: Ref, local: Ref)

  /** With keep-alive on, a main-frame navigation to a new document in another domain keeps what the tab has. */
  function PushedBy(cfg: Config, w: World, e: Event, i: nat): seq<Push> {
    if e.ReadyToCommit? && e.tab == i && Open(w, i) && e.mainFrame && !e.sameDocument && !e.url.empty
       && e.url.domain != w.tabs[i].committed.domain
       && cfg.keepAlive && w.tabs[i].lifetime.Some? && w.tabs[i].local.Some?
    then [Push(w.now, w.tabs[i].lifetime.value, w.tabs[i].local.value)]
    else []
  }

  /** Everything a run has ever put on the lists of tab `i`, oldest first. */
  function Pushes(cfg: Config, es: seq<Event>, i: nat): seq<Push> {
    if es == [] then []
    else Pushes(cfg, es[..|es| - 1], i) + PushedBy(cfg, Exec(cfg, es[..|es| - 1]), es[|es| - 1], i)
  }

  /** The entries whose keep-alive time is not over yet. */
  function Unexpired(ps: seq<Push>, now: nat, delay: nat): seq<Push> {
    if ps == [] then [] else (if now < ps[0].time + delay then [ps[0]] else []) + Unexpired(ps[1..], now, delay)
  }

  function LifetimesOf(ps: seq<Push>): seq<Ref> {
    seq(|ps|, j requires 0 <= j < |ps| => ps[j].lifetime)
  }

  function LocalsOf(ps: seq<Push>): seq<Ref> {
    seq(|ps|, j requires 0 <= j < |ps| => ps[j].local)
  }

  /** No task is overdue. */
  predicate Settled(w: World) {
    w.queue == [] || w.now < w.queue[0].due
  }

  /** Tasks come due in queue order, none later than one delay from now, each for one of `n` tabs. */
  ghost predicate Ordered(q: seq<Task>, last: nat, n: nat) {
    && (forall j, k :: 0 <= j < k < |q| ==> q[j].due <= q[k].due)
    && (forall j :: 0 <= j < |q| ==> q[j].due <= last && q[j].tab < n)
  }

  ghost predicate QueueInv(cfg: Config, w: World) {
    Ordered(w.queue, w.now + cfg.delay, |w.tabs|)
  }

  /** The local-storage namespace that belongs to a lifetime. */
  ghost predicate Paired(cfg: Config, context: nat, lifetime: Ref, local: Ref) {
    && lifetime.key == Lifetime(context, lifetime.key.name)
    && local.key == LocalKey(cfg, context, lifetime.key.name)
  }

  ghost predicate SlotsInv(cfg: Config, t: Tab) {
    && (t.lifetime.Some? <==> t.local.Some?)
    && (t.lifetime.Some? ==> Paired(cfg, t.context, t.lifetime.value, t.local.value))
  }

  /** Entry `j` of both lists, the delayed task that will clear it and the push it comes from. */
  ghost predicate EntryInv(cfg: Config, i: nat, t: Tab, q: seq<Task>, ps: seq<Push>, j: nat)
    requires j < |q| == |t.keptLifetimes| == |t.keptLocals| && |q| <= |ps|
  {
    var p := ps[|ps| - |q| + j];
    && t.keptLifetimes[j] == p.lifetime && t.keptLocals[j] == p.local
    && q[j] == Task(p.time + cfg.delay, i, p.lifetime.key)
    && Paired(cfg, t.context, p.lifetime, p.local)
  }

  /** The lists of a tab are its last pushes, one for each pending task, in task order. */
  ghost predicate Fits(cfg: Config, now: nat, i: nat, t: Tab, q: seq<Task>, ps: seq<Push>) {
    && SlotsInv(cfg, t)
    && |q| <= |ps| && |q| == |t.keptLifetimes| == |t.keptLocals|
    && (forall j :: 0 <= j < |q| ==> EntryInv(cfg, i, t, q, ps, j))
    && (forall j :: 0 <= j < |ps| - |q| ==> ps[j].time + cfg.delay <= now)
    && (forall j, k :: 0 <= j < k < |ps| ==> ps[j].time <= ps[k].time)
    && (forall j :: 0 <= j < |ps| ==> ps[j].time <= now)
  }

  ghost predicate TabInv(cfg: Config, w: World, i: nat, ps: seq<Push>)
    requires i < |w.tabs|
  {
    Fits(cfg, w.now, i, w.tabs[i], Pending(w.queue, i), ps)
  }

  // ------------------------------------------------------------ one step

  /** The reference counts agree with what the tabs hold. */
  ghost predicate Balanced(w: World) {
    Accounts(w.store, Held(w.tabs))
  }

  lemma {:induction false} PutBalanced(w: World, i: nat, sc: Scene)
    requires i < |w.tabs| && Follows(View(w, i), sc, Others(w.tabs, HeldByTab, i))
    ensures Balanced(Put(w, i, sc)) && w.store.next <= Put(w, i, sc).store.next
  {
    TotalUpdate(w.tabs, HeldByTab, i, sc.tab);
  }

  lemma {:induction false} ViewSound(w: World, i: nat)
    requires i < |w.tabs| && Balanced(w)
    ensures Sound(View(w, i), Others(w.tabs, HeldByTab, i))
  {
    TotalUpdate(w.tabs, HeldByTab, i, w.tabs[i]);
  }

  lemma OpenBalanced(cfg: Config, w: World, context: nat, url: Url, sessionId: string)
    requires Balanced(w)
    ensures var w' := Step(cfg, w, OpenTab(context, url, sessionId));
            Balanced(w') && w.store.next <= w'.store.next
  {
    var sc := Scene(w.store, w.queue, NewTab(context, url));
    assert Held(w.tabs) + HeldByTab(sc.tab) == Held(w.tabs);
    CreateAreasSound(cfg, w.now, |w.tabs|, url, sessionId, sc, Held(w.tabs));
    TotalSnoc(w.tabs, HeldByTab, CreateAreas(cfg, w.now, |w.tabs|, url, sessionId, sc).tab);
  }

  lemma NavigateBalanced(cfg: Config, w: World, i: nat, main: bool, same: bool, url: Url, sessionId: string)
    requires Balanced(w)
    ensures var w' := Step(cfg, w, ReadyToCommit(i, main, same, url, sessionId));
            Balanced(w') && w.store.next <= w'.store.next
  {
    if Open(w, i) && SwitchesDomain(w.tabs[i], main, same, url) {
      ViewSound(w, i);
      CreateAreasSound(cfg, w.now, i, url, sessionId, View(w, i), Others(w.tabs, HeldByTab, i));
      PutBalanced(w, i, CreateAreas(cfg, w.now, i, url, sessionId, View(w, i)));
    }
  }

  lemma CommitBalanced(cfg: Config, w: World, i: nat, url: Url)
    requires Balanced(w)
    ensures var w' := Step(cfg, w, DidCommit(i, url)); Balanced(w') && w.store.next <= w'.store.next
  {
    if Open(w, i) {
      var t := w.tabs[i].(committed := url);
      assert HeldByTab(t) == HeldByTab(w.tabs[i]);
      TotalUpdate(w.tabs, HeldByTab, i, t);
    }
  }

  lemma CloseBalanced(cfg: Config, w: World, i: nat)
    requires Balanced(w)
    ensures var w' := Step(cfg, w, CloseTab(i)); Balanced(w') && w.store.next <= w'.store.next
  {
    if Open(w, i) {
      var sc := Destruct(WebContentsDestroyed(View(w, i)));
      ViewSound(w, i);
      CloseSound(View(w, i), Others(w.tabs, HeldByTab, i));
      PutBalanced(w, i, sc);
      assert Step(cfg, w, CloseTab(i)) == Put(w, i, sc);
    }
  }

  lemma ClearBalanced(cfg: Config, w: World, i: nat, key: ResourceKey)
    requires i < |w.tabs| && Balanced(w)
    ensures var w' := Put(w, i, ClearKeepAlive(cfg, key, View(w, i)));
            Balanced(w') && w.store.next <= w'.store.next
  {
    var rest := Others(w.tabs, HeldByTab, i);
    ViewSound(w, i);
    ClearLocalSound(cfg, key.name, View(w, i), rest);
    ClearLifetimeSound(key, ClearLocal(cfg, key.name, View(w, i)), rest);
    PutBalanced(w, i, ClearKeepAlive(cfg, key, View(w, i)));
  }

  lemma RunTaskBalanced(cfg: Config, w: World)
    requires Balanced(w)
    ensures var w' := Step(cfg, w, RunTask); Balanced(w') && w.store.next <= w'.store.next
  {
    if !Settled(w) && Open(w, w.queue[0].tab) {
      ClearBalanced(cfg, w.(queue := w.queue[1..]), w.queue[0].tab, w.queue[0].key);
    }
  }

  lemma StepBalanced(cfg: Config, w: World, e: Event)
    requires Balanced(w)
    ensures Balanced(Step(cfg, w, e)) && w.store.next <= Step(cfg, w, e).store.next
  {
    match e
    case OpenTab(c, url, session) => OpenBalanced(cfg, w, c, url, session);
    case ReadyToCommit(i, main, same, url, session) => NavigateBalanced(cfg, w, i, main, same, url, session);
    case DidCommit(i, url) => CommitBalanced(cfg, w, i, url);
    case CloseTab(i) => CloseBalanced(cfg, w, i);
    case RunTask => RunTaskBalanced(cfg, w);
    case Tick(d) => assert Step(cfg, w, Tick(d)).store == w.store;
  }

  /** Only a switch that keeps storage alive posts a task, and it posts one for that storage. */
  lemma CreateAreasQueue(cfg: Config, now: nat, id: nat, url: Url, sessionId: string, sc: Scene)
    ensures CreateAreas(cfg, now, id, url, sessionId, sc).queue
         == sc.queue + (if KeepsAlive(cfg, sc.tab, url)
                        then [Task(now + cfg.delay, id, sc.tab.lifetime.value.key)] else [])
  {
  }

  lemma OrderedSnoc(q: seq<Task>, t: Task, last: nat, n: nat)
    requires Ordered(q, last, n) && t.due == last && t.tab < n
    ensures Ordered(q + [t], last, n)
  {
  }

  lemma NavigationKeepsQueue(cfg: Config, w: World, i: nat, url: Url, sessionId: string)
    requires QueueInv(cfg, w) && i < |w.tabs|
    ensures Ordered(CreateAreas(cfg, w.now, i, url, sessionId, View(w, i)).queue, w.now + cfg.delay, |w.tabs|)
  {
    CreateAreasQueue(cfg, w.now, i, url, sessionId, View(w, i));
    if KeepsAlive(cfg, w.tabs[i], url) {
      OrderedSnoc(w.queue, Task(w.now + cfg.delay, i, w.tabs[i].lifetime.value.key), w.now + cfg.delay, |w.tabs|);
    } else {
      assert w.queue + [] == w.queue;
    }
  }

  lemma OtherStepsKeepQueue(cfg: Config, w: World, e: Event)
    requires !e.ReadyToCommit?
    ensures var q' := Step(cfg, w, e).queue;
            q' == w.queue || (w.queue != [] && q' == w.queue[1..])
  {
  }

  lemma StepQueue(cfg: Config, w: World, e: Event)
    requires QueueInv(cfg, w)
    ensures QueueInv(cfg, Step(cfg, w, e))
  {
    TabsGrow(cfg, w, e);
    if e.ReadyToCommit? {
      if Open(w, e.tab) && SwitchesDomain(w.tabs[e.tab], e.mainFrame, e.sameDocument, e.url) {
        NavigationKeepsQueue(cfg, w, e.tab, e.url, e.sessionId);
      }
    } else {
      OtherStepsKeepQueue(cfg, w, e);
    }
  }

  /** Searching by key finds the oldest entry, because that is the one whose task comes first. */
  lemma ClearPopsOldest(cfg: Config, key: ResourceKey, sc: Scene)
    requires sc.tab.keptLifetimes != [] && sc.tab.keptLifetimes[0].key == key
    requires sc.tab.keptLocals != [] && sc.tab.keptLocals[0].key == LocalKey(cfg, sc.tab.context, key.name)
    ensures ClearKeepAlive(cfg, key, sc).tab
         == sc.tab.(keptLifetimes := sc.tab.keptLifetimes[1..], keptLocals := sc.tab.keptLocals[1..])
  {
  }

  /** The first task clears the first entry. */
  lemma FitsPop(cfg: Config, now: nat, i: nat, t: Tab, q: seq<Task>, ps: seq<Push>)
    requires Fits(cfg, now, i, t, q, ps) && q != [] && q[0].due <= now
    ensures Fits(cfg, now, i, t.(keptLifetimes := t.keptLifetimes[1..], keptLocals := t.keptLocals[1..]), q[1..], ps)
  {
    var t' := t.(keptLifetimes := t.keptLifetimes[1..], keptLocals := t.keptLocals[1..]);
    assert EntryInv(cfg, i, t, q, ps, 0);
    forall j | 0 <= j < |q[1..]|
      ensures EntryInv(cfg, i, t', q[1..], ps, j)
    {
      assert EntryInv(cfg, i, t, q, ps, j + 1);
    }
  }

  /** A push appends one entry and one task. */
  lemma FitsPush(cfg: Config, now: nat, i: nat, t: Tab, q: seq<Task>, ps: seq<Push>, l: Ref, n: Ref)
    requires Fits(cfg, now, i, t, q, ps) && Paired(cfg, t.context, l, n)
    ensures Fits(cfg, now, i, t.(keptLifetimes := t.keptLifetimes + [l], keptLocals := t.keptLocals + [n]),
                 q + [Task(now + cfg.delay, i, l.key)], ps + [Push(now, l, n)])
  {
    var t' := t.(keptLifetimes := t.keptLifetimes + [l], keptLocals := t.keptLocals + [n]);
    var q', ps' := q + [Task(now + cfg.delay, i, l.key)], ps + [Push(now, l, n)];
    forall j | 0 <= j < |q'|
      ensures EntryInv(cfg, i, t', q', ps', j)
    {
      if j < |q| {
        assert EntryInv(cfg, i, t, q, ps, j);
      }
    }
  }

  /** Neither the passing of time nor new storage in the slots touches the lists. */
  lemma FitsAnew(cfg: Config, now: nat, now': nat, i: nat, t: Tab, t': Tab, q: seq<Task>, ps: seq<Push>)
    requires Fits(cfg, now, i, t, q, ps) && now <= now' && SlotsInv(cfg, t') && t'.context == t.context
    requires t'.keptLifetimes == t.keptLifetimes && t'.keptLocals == t.keptLocals
    ensures Fits(cfg, now', i, t', q, ps)
  {
    forall j | 0 <= j < |q|
      ensures EntryInv(cfg, i, t', q, ps, j)
    {
      assert EntryInv(cfg, i, t, q, ps, j);
    }
  }

  lemma RunTaskKeepsTab(cfg: Config, w: World, i: nat, ps: seq<Push>)
    requires Open(w, i) && TabInv(cfg, w, i, ps) && !Settled(w)
    ensures TabInv(cfg, Step(cfg, w, RunTask), i, ps)
  {
    var t, q := w.queue[0], Pending(w.queue, i);
    if t.tab == i {
      assert q == [t] + Pending(w.queue[1..], i);
      assert Pending(w.queue[1..], i) == q[1..];
      assert EntryInv(cfg, i, w.tabs[i], q, ps, 0);
      ClearPopsOldest(cfg, t.key, View(w.(queue := w.queue[1..]), i));
      FitsPop(cfg, w.now, i, w.tabs[i], q, ps);
    } else {
      assert q == Pending(w.queue[1..], i);
    }
  }

  lemma TakeAreasSlots(cfg: Config, domain: string, sessionId: string, sc: Scene)
    ensures var sc' := TakeAreas(cfg, domain, sessionId, sc);
            && SlotsInv(cfg, sc'.tab) && sc'.queue == sc.queue && sc'.tab.context == sc.tab.context
            && sc'.tab.open == sc.tab.open && sc'.tab.committed == sc.tab.committed
            && sc'.tab.lifetime.Some? && sc'.tab.lifetime.value.key == Lifetime(sc.tab.context, domain)
            && sc'.tab.keptLifetimes == sc.tab.keptLifetimes && sc'.tab.keptLocals == sc.tab.keptLocals
  {
  }

  lemma {:induction false} SwitchKeepsTab(cfg: Config, w: World, i: nat, url: Url, sessionId: string, ps: seq<Push>)
    requires Open(w, i) && TabInv(cfg, w, i, ps) && !url.empty
    ensures var sc := CreateAreas(cfg, w.now, i, url, sessionId, View(w, i));
            var t := w.tabs[i];
            Fits(cfg, w.now, i, sc.tab, Pending(sc.queue, i),
                 ps + if KeepsAlive(cfg, t, url) then [Push(w.now, t.lifetime.value, t.local.value)] else [])
  {
    var t, q := w.tabs[i], Pending(w.queue, i);
    var sc := CreateAreas(cfg, w.now, i, url, sessionId, View(w, i));
    if KeepsAlive(cfg, t, url) {
      var l, n := t.lifetime.value, t.local.value;
      var kept := KeepAlive(cfg, w.now, i, View(w, i));
      TakeAreasSlots(cfg, url.domain, sessionId, kept);
      PendingSnoc(w.queue, Task(w.now + cfg.delay, i, l.key), i);
      FitsPush(cfg, w.now, i, t, q, ps, l, n);
      FitsAnew(cfg, w.now, w.now, i, kept.tab, sc.tab, Pending(kept.queue, i), ps + [Push(w.now, l, n)]);
    } else {
      assert ps + [] == ps;
      TakeAreasSlots(cfg, url.domain, sessionId, View(w, i));
      FitsAnew(cfg, w.now, w.now, i, t, sc.tab, q, ps);
    }
  }

  lemma {:induction false} OtherTabsQueueApart(cfg: Config, w: World, m: nat, url: Url, sessionId: string, i: nat)
    requires m < |w.tabs| && i != m
    ensures Pending(CreateAreas(cfg, w.now, m, url, sessionId, View(w, m)).queue, i) == Pending(w.queue, i)
  {
    CreateAreasQueue(cfg, w.now, m, url, sessionId, View(w, m));
    if KeepsAlive(cfg, w.tabs[m], url) {
      PendingSnoc(w.queue, Task(w.now + cfg.delay, m, w.tabs[m].lifetime.value.key), i);
    } else {
      assert w.queue + [] == w.queue;
    }
  }

  lemma NavigationKeepsTab(cfg: Config, w: World, e: Event, i: nat, ps: seq<Push>)
    requires e.ReadyToCommit? && Open(w, i) && TabInv(cfg, w, i, ps)
    ensures TabInv(cfg, Step(cfg, w, e), i, ps + PushedBy(cfg, w, e, i))
  {
    var switches := Open(w, e.tab) && SwitchesDomain(w.tabs[e.tab], e.mainFrame, e.sameDocument, e.url) && !e.url.empty;
    if switches && e.tab == i {
      SwitchKeepsTab(cfg, w, i, e.url, e.sessionId, ps);
    } else {
      assert ps + PushedBy(cfg, w, e, i) == ps;
      if switches {
        OtherTabsQueueApart(cfg, w, e.tab, e.url, e.sessionId, i);
      } else {
        assert Step(cfg, w, e) == w;
      }
    }
  }

  lemma OtherStepsKeepTab(cfg: Config, w: World, e: Event, i: nat, ps: seq<Push>)
    requires !e.ReadyToCommit? && !e.RunTask? && Open(w, i) && TabInv(cfg, w, i, ps)
    requires Open(Step(cfg, w, e), i)
    ensures TabInv(cfg, Step(cfg, w, e), i, ps)
  {
    var w' := Step(cfg, w, e);
    if e.OpenTab? {
      CreateAreasQueue(cfg, w.now, |w.tabs|, e.url, e.sessionId, Scene(w.store, w.queue, NewTab(e.context, e.url)));
    }
    assert w'.queue == w.queue;
    FitsAnew(cfg, w.now, w'.now, i, w.tabs[i], w'.tabs[i], Pending(w.queue, i), ps);
  }

  lemma NewTabInv(cfg: Config, w: World, e: Event)
    requires e.OpenTab? && QueueInv(cfg, w)
    ensures TabInv(cfg, Step(cfg, w, e), |w.tabs|, [])
  {
    TakeAreasSlots(cfg, e.url.domain, e.sessionId, Scene(w.store, w.queue, NewTab(e.context, e.url)));
    assert forall t :: t in w.queue ==> t.tab < |w.tabs|;
    PendingFrom(w.queue, |w.tabs|, |w.tabs|);
  }

  lemma StepKeepsTab(cfg: Config, w: World, e: Event, i: nat, ps: seq<Push>)
    requires QueueInv(cfg, w) && Open(Step(cfg, w, e), i)
    requires if i < |w.tabs| then Open(w, i) ==> TabInv(cfg, w, i, ps) else ps == []
    ensures TabInv(cfg, Step(cfg, w, e), i, ps + PushedBy(cfg, w, e, i))
  {
    if e.ReadyToCommit? {
      NavigationKeepsTab(cfg, w, e, i, ps);
    } else {
      assert ps + PushedBy(cfg, w, e, i) == ps;
      if i == |w.tabs| {
        NewTabInv(cfg, w, e);
      } else if e.RunTask? {
        if !Settled(w) {
          RunTaskKeepsTab(cfg, w, i, ps);
        }
      } else {
        OtherStepsKeepTab(cfg, w, e, i, ps);
      }
    }
  }

  lemma TabsGrow(cfg: Config, w: World, e: Event)
    ensures |w.tabs| <= |Step(cfg, w, e).tabs|
    ensures forall i: nat :: i < |w.tabs| && Open(Step(cfg, w, e), i) ==> Open(w, i)
  {
  }

  lemma {:induction false} RunBalanced(cfg: Config, es: seq<Event>)
    ensures Balanced(Exec(cfg, es)) && QueueInv(cfg, Exec(cfg, es))
    decreases |es|
  {
    if es != [] {
      var before := es[..|es| - 1];
      RunBalanced(cfg, before);
      StepBalanced(cfg, Exec(cfg, before), es[|es| - 1]);
      StepQueue(cfg, Exec(cfg, before), es[|es| - 1]);
    }
  }

  lemma {:induction false} TabsNotOpenedPushNothing(cfg: Config, es: seq<Event>, i: nat)
    requires |Exec(cfg, es).tabs| <= i
    ensures Pushes(cfg, es, i) == []
    decreases |es|
  {
    if es != [] {
      TabsGrow(cfg, Exec(cfg, es[..|es| - 1]), es[|es| - 1]);
      TabsNotOpenedPushNothing(cfg, es[..|es| - 1], i);
    }
  }

  lemma {:induction false} RunTab(cfg: Config, es: seq<Event>, i: nat)
    requires Open(Exec(cfg, es), i)
    ensures TabInv(cfg, Exec(cfg, es), i, Pushes(cfg, es, i))
    decreases |es|
  {
    if es != [] {
      var before, e := es[..|es| - 1], es[|es| - 1];
      var w := Exec(cfg, before);
      RunBalanced(cfg, before);
      TabsGrow(cfg, w, e);
      if i < |w.tabs| {
        RunTab(cfg, before, i);
      } else {
        TabsNotOpenedPushNothing(cfg, before, i);
      }
      StepKeepsTab(cfg, w, e, i, Pushes(cfg, before, i));
    }
  }
}
