/**
 What each event brings about, over every run: a due clearing happens and clears the right entry, leaving a
 domain keeps its storage for exactly the delay, and closing a tab lets go of everything it held.
 */
module EphemeralEffects {
  import opened Wrappers
  import opened RefCounting
  import opened EphemeralStorage
  import opened EphemeralRuns
  import opened EphemeralHolders
  import opened EphemeralTheorems

  lemma {:induction false} RunSnoc(cfg: Config, es: seq<Event>, e: Event, i: nat)
    ensures Exec(cfg, es + [e]) == Step(cfg, Exec(cfg, es), e)
    ensures Pushes(cfg, es + [e], i) == Pushes(cfg, es, i) + PushedBy(cfg, Exec(cfg, es), e, i)
  {
    assert (es + [e])[..|es|] == es;
  }

  predicate OthersUntouched(w: World, w': World, i: nat) {
    |w'.tabs| == |w.tabs| && forall m :: 0 <= m < |w.tabs| && m != i ==> w'.tabs[m] == w.tabs[m]
  }

  // ------------------------------------------------------------ clearing

  /** What a tab is left with when its first keep-alive entry is cleared. */
  function WithoutFirst(t: Tab): Tab
    requires t.keptLifetimes != [] && t.keptLocals != []
  {
    t.(keptLifetimes := t.keptLifetimes[1..], keptLocals := t.keptLocals[1..])
  }

  lemma {:induction false} FirstTaskIsForFirstEntry(cfg: Config, w: World, ps: seq<Push>)
    requires w.queue != [] && Open(w, w.queue[0].tab) && TabInv(cfg, w, w.queue[0].tab, ps)
    ensures var t, key := w.tabs[w.queue[0].tab], w.queue[0].key;
            && t.keptLifetimes != [] && t.keptLifetimes[0].key == key
            && t.keptLocals != [] && t.keptLocals[0].key == LocalKey(cfg, t.context, key.name)
  {
    var i := w.queue[0].tab;
    var q := Pending(w.queue, i);
    assert q == [w.queue[0]] + Pending(w.queue[1..], i);
    assert EntryInv(cfg, i, w.tabs[i], q, ps, 0);
  }

  lemma {:induction false} DueTaskOfOpenTab(cfg: Config, w: World, ps: seq<Push>)
    requires w.queue != [] && w.queue[0].due <= w.now
    requires Open(w, w.queue[0].tab) && TabInv(cfg, w, w.queue[0].tab, ps)
    ensures var w', i := Step(cfg, w, RunTask), w.queue[0].tab;
            && w'.queue == w.queue[1..] && w'.now == w.now && OthersUntouched(w, w', i)
            && w.tabs[i].keptLifetimes != [] && w.tabs[i].keptLocals != []
            && w'.tabs[i] == WithoutFirst(w.tabs[i])
  {
    var task := w.queue[0];
    FirstTaskIsForFirstEntry(cfg, w, ps);
    ClearPopsOldest(cfg, task.key, View(w.(queue := w.queue[1..]), task.tab));
  }

  lemma {:induction false} DueTaskOfClosedTab(cfg: Config, w: World)
    requires w.queue != [] && w.queue[0].due <= w.now && !Open(w, w.queue[0].tab)
    ensures Step(cfg, w, RunTask) == w.(queue := w.queue[1..])
  {
  }

  /** A task that is due leaves the queue; an open tab then loses the first entry of each of its lists, and
      nothing else changes in any tab. */
  lemma {:induction false} DueTaskClears(cfg: Config, es: seq<Event>)
    requires Exec(cfg, es).queue != [] && Exec(cfg, es).queue[0].due <= Exec(cfg, es).now
    ensures var w, w' := Exec(cfg, es), Exec(cfg, es + [RunTask]);
            var i := w.queue[0].tab;
            && w'.queue == w.queue[1..] && w'.now == w.now && OthersUntouched(w, w', i)
            && i < |w.tabs|
            && (w.tabs[i].open ==>
                  && w.tabs[i].keptLifetimes != [] && w.tabs[i].keptLocals != []
                  && w'.tabs[i] == WithoutFirst(w.tabs[i]))
            && (!w.tabs[i].open ==> w'.tabs[i] == w.tabs[i] && w'.store == w.store)
  {
    var w := Exec(cfg, es);
    var i := w.queue[0].tab;
    RunSnoc(cfg, es, RunTask, i);
    RunBalanced(cfg, es);
    assert i < |w.tabs|;
    if w.tabs[i].open {
      RunTab(cfg, es, i);
      DueTaskOfOpenTab(cfg, w, Pushes(cfg, es, i));
    } else {
      DueTaskOfClosedTab(cfg, w);
    }
  }

  /** Nothing is cleared before it is due. */
  lemma {:induction false} NothingDueNothingCleared(cfg: Config, es: seq<Event>)
    requires Exec(cfg, es).queue == [] || Exec(cfg, es).now < Exec(cfg, es).queue[0].due
    ensures Exec(cfg, es + [RunTask]) == Exec(cfg, es)
  {
    RunSnoc(cfg, es, RunTask, 0);
  }

  function Tasks(k: nat): seq<Event> {
    seq(k, _ => RunTask)
  }

  lemma OneMoreTask(es: seq<Event>, k: nat)
    ensures es + [RunTask] + Tasks(k) == es + Tasks(k + 1)
  {
    assert Tasks(k + 1) == [RunTask] + Tasks(k);
  }

  /** The first `k` tasks were due and are gone; none of the others is. */
  predicate Drained(w: World, w': World, k: nat) {
    && k <= |w.queue| && w'.now == w.now && w'.queue == w.queue[k..]
    && (w'.queue == [] || w'.now < w'.queue[0].due)
    && forall j :: 0 <= j < k ==> w.queue[j].due <= w.now
  }

  lemma DrainedMore(w: World, w1: World, w': World, k: nat)
    requires w.queue != [] && w.queue[0].due <= w.now && w1.queue == w.queue[1..] && w1.now == w.now
    requires Drained(w1, w', k)
    ensures Drained(w, w', k + 1)
  {
    assert w.queue[1..][k..] == w.queue[k + 1..];
    forall j | 0 <= j < k + 1
      ensures w.queue[j].due <= w.now
    {
      assert 0 < j ==> w.queue[1..][j - 1] == w.queue[j];
    }
  }

  lemma {:induction false} NothingToDrain(cfg: Config, es: seq<Event>)
    requires Exec(cfg, es).queue == [] || Exec(cfg, es).now < Exec(cfg, es).queue[0].due
    ensures Drained(Exec(cfg, es), Exec(cfg, es + Tasks(0)), 0)
  {
    assert es + Tasks(0) == es;
  }

  lemma {:induction false} OneDrained(cfg: Config, es: seq<Event>, k: nat)
    requires Exec(cfg, es).queue != [] && Exec(cfg, es).queue[0].due <= Exec(cfg, es).now
    requires Drained(Exec(cfg, es + [RunTask]), Exec(cfg, es + [RunTask] + Tasks(k)), k)
    ensures Drained(Exec(cfg, es), Exec(cfg, es + Tasks(k + 1)), k + 1)
  {
    DueTaskClears(cfg, es);
    OneMoreTask(es, k);
    DrainedMore(Exec(cfg, es), Exec(cfg, es + [RunTask]), Exec(cfg, es + Tasks(k + 1)), k);
  }

  /** Running tasks, as many as there are in the queue at most, clears all that is overdue. */
  lemma {:induction false} OverdueTasksDrain(cfg: Config, es: seq<Event>) returns (k: nat)
    ensures Drained(Exec(cfg, es), Exec(cfg, es + Tasks(k)), k)
  {
    k := DrainQueue(cfg, es, RunTask, |Exec(cfg, es).queue|);
  }

  lemma {:induction false} DrainQueue(cfg: Config, es: seq<Event>, run: Event, n: nat) returns (k: nat)
    requires run == RunTask && |Exec(cfg, es).queue| == n
    ensures Drained(Exec(cfg, es), Exec(cfg, es + Tasks(k)), k)
    decreases n
  {
    if n == 0 || Exec(cfg, es).now < Exec(cfg, es).queue[0].due {
      NothingToDrain(cfg, es);
      k := 0;
    } else {
      DueTaskClears(cfg, es);
      var rest := DrainQueue(cfg, es + [run], run, n - 1);
      OneDrained(cfg, es, rest);
      k := rest + 1;
    }
  }

  lemma {:induction false} TasksPushNothing(cfg: Config, es: seq<Event>, k: nat, i: nat)
    ensures Pushes(cfg, es + Tasks(k), i) == Pushes(cfg, es, i)
    decreases k
  {
    if k == 0 {
      assert es + Tasks(0) == es;
    } else {
      RunSnoc(cfg, es, RunTask, i);
      OneMoreTask(es, k - 1);
      TasksPushNothing(cfg, es + [RunTask], k - 1, i);
    }
  }

  /** The lists hold exactly the entries that are younger than the delay. */
  ghost predicate HoldsYoung(t: Tab, ps: seq<Push>, now: nat, delay: nat) {
    && t.keptLifetimes == LifetimesOf(Unexpired(ps, now, delay))
    && t.keptLocals == LocalsOf(Unexpired(ps, now, delay))
  }

  /** The removal half of keeping alive: after some due tasks have run, and without time passing, every
      open tab is left with exactly the entries it had put by that are younger than the delay. */
  lemma {:induction false} ExpiredEntriesGo(cfg: Config, es: seq<Event>) returns (k: nat)
    ensures k <= |Exec(cfg, es).queue| && Exec(cfg, es + Tasks(k)).now == Exec(cfg, es).now
    ensures forall i: nat :: Open(Exec(cfg, es + Tasks(k)), i) ==>
              HoldsYoung(Exec(cfg, es + Tasks(k)).tabs[i], Pushes(cfg, es, i), Exec(cfg, es).now, cfg.delay)
  {
    k := OverdueTasksDrain(cfg, es);
    forall i: nat | Open(Exec(cfg, es + Tasks(k)), i)
      ensures HoldsYoung(Exec(cfg, es + Tasks(k)).tabs[i], Pushes(cfg, es, i), Exec(cfg, es).now, cfg.delay)
    {
      KeepAliveIsExact(cfg, es + Tasks(k), i);
      TasksPushNothing(cfg, es, k, i);
    }
  }

  // ------------------------------------------------------------ switching

  /** A navigation that is not in the main frame, stays in the document, stays in the domain or has no URL
      changes nothing. */
  lemma OtherNavigationsChangeNothing(cfg: Config, w: World, e: Event)
    requires e.ReadyToCommit? && Open(w, e.tab)
    requires !e.mainFrame || e.sameDocument || e.url.empty || e.url.domain == w.tabs[e.tab].committed.domain
    ensures Step(cfg, w, e) == w
  {
  }

  /** The tab has the storage of the new domain. With keep-alive on, what it had is on both lists and the
      clearing is posted for one delay later; with keep-alive off nothing is put by. */
  ghost predicate Switched(cfg: Config, w: World, e: Event, w': World)
    requires e.ReadyToCommit? && e.tab < |w.tabs| == |w'.tabs|
  {
    var t, t' := w.tabs[e.tab], w'.tabs[e.tab];
    && w'.now == w.now && OthersUntouched(w, w', e.tab)
    && t'.open && t'.context == t.context && t'.committed == t.committed
    && t'.lifetime.Some? && t'.lifetime.value.key == Lifetime(t.context, e.url.domain)
    && t'.local.Some? && t'.local.value.key == LocalKey(cfg, t.context, e.url.domain)
    && t'.session.Some? && t'.session.value.key == SessionKey(cfg, t.context, e.sessionId)
    && (cfg.keepAlive && t.lifetime.Some? ==>
          && t.local.Some?
          && t'.keptLifetimes == t.keptLifetimes + [t.lifetime.value]
          && t'.keptLocals == t.keptLocals + [t.local.value]
          && w'.queue == w.queue + [Task(w.now + cfg.delay, e.tab, t.lifetime.value.key)])
    && (!cfg.keepAlive || t.lifetime == None ==>
          && t'.keptLifetimes == t.keptLifetimes && t'.keptLocals == t.keptLocals && w'.queue == w.queue)
  }

  lemma SwitchTurnsOut(cfg: Config, w: World, e: Event)
    requires Navigates(w, e) && SlotsInv(cfg, w.tabs[e.tab])
    ensures |Step(cfg, w, e).tabs| == |w.tabs| && Switched(cfg, w, e, Step(cfg, w, e))
  {
    TakeAreasSlots(cfg, e.url.domain, e.sessionId, Kept(cfg, w, e));
  }

  /** Every other one switches storage. */
  lemma {:induction false} SwitchKeepsWhatTheTabHad(cfg: Config, es: seq<Event>, e: Event)
    requires Navigates(Exec(cfg, es), e)
    ensures |Exec(cfg, es + [e]).tabs| == |Exec(cfg, es).tabs|
    ensures Switched(cfg, Exec(cfg, es), e, Exec(cfg, es + [e]))
  {
    RunSnoc(cfg, es, e, e.tab);
    RunTabPaired(cfg, es, e.tab);
    SwitchTurnsOut(cfg, Exec(cfg, es), e);
  }

  lemma {:induction false} StepKeepsContext(cfg: Config, w: World, e: Event, i: nat)
    requires i < |w.tabs|
    ensures i < |Step(cfg, w, e).tabs| && Step(cfg, w, e).tabs[i].context == w.tabs[i].context
  {
  }

  lemma {:induction false} TabsKeepContext(cfg: Config, es: seq<Event>, more: seq<Event>, i: nat)
    requires i < |Exec(cfg, es).tabs|
    ensures i < |Exec(cfg, es + more).tabs| && Exec(cfg, es + more).tabs[i].context == Exec(cfg, es).tabs[i].context
    decreases |more|
  {
    if more == [] {
      assert es + more == es;
    } else {
      var front, e := more[..|more| - 1], more[|more| - 1];
      TabsKeepContext(cfg, es, front, i);
      assert es + more == es + front + [e];
      RunSnoc(cfg, es + front, e, i);
      StepKeepsContext(cfg, Exec(cfg, es + front), e, i);
    }
  }

  lemma PrefixExtends<T>(a: seq<T>, b: seq<T>, c: seq<T>)
    requires a <= b
    ensures a <= b + c
  {
  }

  lemma {:induction false} PushesOnlyGrow(cfg: Config, es: seq<Event>, more: seq<Event>, i: nat)
    ensures Pushes(cfg, es, i) <= Pushes(cfg, es + more, i)
    decreases |more|
  {
    if more == [] {
      assert es + more == es;
    } else {
      var front, e := more[..|more| - 1], more[|more| - 1];
      PushesOnlyGrow(cfg, es, front, i);
      assert es + more == es + front + [e];
      RunSnoc(cfg, es + front, e, i);
      PrefixExtends(Pushes(cfg, es, i), Pushes(cfg, es + front, i), PushedBy(cfg, Exec(cfg, es + front), e, i));
    }
  }

  /** Leave a domain with keep-alive on, let anything happen as long as the tab stays open, and let any tab of
      the profile go to that domain before the delay is over: it gets the storage the tab had. */
  lemma {:induction false} LeftStorageComesBack(cfg: Config, es: seq<Event>, e: Event, more: seq<Event>, back: Event)
    requires cfg.keepAlive && Navigates(Exec(cfg, es), e) && Exec(cfg, es).tabs[e.tab].lifetime.Some?
    requires Open(Exec(cfg, es + [e] + more), e.tab)
    requires Exec(cfg, es + [e] + more).now < Exec(cfg, es).now + cfg.delay
    requires Navigates(Exec(cfg, es + [e] + more), back)
    requires Exec(cfg, es + [e] + more).tabs[back.tab].context == Exec(cfg, es).tabs[e.tab].context
    requires back.url.domain == Exec(cfg, es).tabs[e.tab].lifetime.value.key.name
    ensures var t, t' := Exec(cfg, es).tabs[e.tab], Exec(cfg, es + [e] + more + [back]).tabs[back.tab];
            t'.lifetime == t.lifetime && t'.local == t.local
  {
    var i, k := e.tab, |Pushes(cfg, es, e.tab)|;
    RunTabPaired(cfg, es, i);
    RunSnoc(cfg, es, e, i);
    StepKeepsContext(cfg, Exec(cfg, es), e, i);
    TabsKeepContext(cfg, es + [e], more, i);
    PushesOnlyGrow(cfg, es + [e], more, i);
    assert Pushes(cfg, es + [e] + more, i)[k] == Pushes(cfg, es + [e], i)[k];
    ReturnWithinDelay(cfg, es + [e] + more, i, k, back);
    RunSnoc(cfg, es + [e] + more, back, i);
  }

  predicate NothingKept(w: World) {
    w.queue == [] && forall i :: 0 <= i < |w.tabs| ==> w.tabs[i].keptLifetimes == w.tabs[i].keptLocals == []
  }

  lemma {:induction false} StepKeepsNothing(cfg: Config, w: World, e: Event, i: nat)
    requires !cfg.keepAlive && NothingKept(w) && i < |Step(cfg, w, e).tabs|
    ensures Step(cfg, w, e).queue == []
    ensures Step(cfg, w, e).tabs[i].keptLifetimes == Step(cfg, w, e).tabs[i].keptLocals == []
  {
  }

  lemma {:induction false} StepPostsNothing(cfg: Config, w: World, e: Event)
    requires !cfg.keepAlive && NothingKept(w)
    ensures Step(cfg, w, e).queue == []
  {
  }

  /** With keep-alive off, nothing is ever kept and nothing posted. */
  lemma {:induction false} KeepAliveOffKeepsNothing(cfg: Config, es: seq<Event>)
    requires !cfg.keepAlive
    ensures NothingKept(Exec(cfg, es))
    decreases |es|
  {
    if es != [] {
      var before, e := es[..|es| - 1], es[|es| - 1];
      KeepAliveOffKeepsNothing(cfg, before);
      StepPostsNothing(cfg, Exec(cfg, before), e);
      forall i | 0 <= i < |Exec(cfg, es).tabs|
        ensures Exec(cfg, es).tabs[i].keptLifetimes == Exec(cfg, es).tabs[i].keptLocals == []
      {
        StepKeepsNothing(cfg, Exec(cfg, before), e, i);
      }
    }
  }

  // ------------------------------------------------------------ opening, closing and time

  /** A new tab has the storage of its URL and nothing put by; without a URL it has no storage. */
  lemma {:induction false} OpeningTakesStorage(cfg: Config, w: World, context: nat, url: Url, sessionId: string)
    ensures var w' := Step(cfg, w, OpenTab(context, url, sessionId));
            && |w'.tabs| == |w.tabs| + 1 && w'.tabs[..|w.tabs|] == w.tabs && w'.queue == w.queue && w'.now == w.now
            && (var t := w'.tabs[|w.tabs|];
                && t.open && t.context == context && t.committed == url && t.keptLifetimes == t.keptLocals == []
                && (url.empty ==> t.lifetime == t.local == t.session == None && w'.store == w.store)
                && (!url.empty ==>
                      && t.lifetime.Some? && t.lifetime.value.key == Lifetime(context, url.domain)
                      && t.local.Some? && t.local.value.key == LocalKey(cfg, context, url.domain)
                      && t.session.Some? && t.session.value.key == SessionKey(cfg, context, sessionId)))
  {
  }

  lemma {:induction false} SumWithout<T>(holders: seq<T>, count: T -> nat, i: nat, h: T)
    requires i < |holders|
    ensures SumOf(holders[i := h], count) + count(holders[i]) == SumOf(holders, count) + count(h)
    decreases |holders|
  {
    var n := |holders| - 1;
    if i == n {
      assert holders[i := h][..n] == holders[..n];
    } else {
      SumWithout(holders[..n], count, i, h);
      assert holders[i := h][..n] == holders[..n][i := h];
    }
  }

  lemma {:induction false} ClosingEmpties(cfg: Config, w: World, i: nat)
    requires Open(w, i)
    ensures var w' := Step(cfg, w, CloseTab(i));
            var t' := w'.tabs[i];
            && w'.now == w.now && w'.queue == w.queue && w'.tabs == w.tabs[i := t']
            && !t'.open && t'.lifetime == t'.local == t'.session == None && t'.keptLifetimes == t'.keptLocals == []
  {
  }

  /** Closing a tab empties it for good and lets go of its storage: each object loses as many holders as the
      tab accounted for, and goes exactly when there were no others. */
  lemma {:induction false} ClosingLetsGo(cfg: Config, es: seq<Event>, i: nat, key: ResourceKey)
    requires Open(Exec(cfg, es), i)
    ensures var w, w' := Exec(cfg, es), Exec(cfg, es + [CloseTab(i)]);
            var t' := w'.tabs[i];
            && OthersUntouched(w, w', i) && w'.queue == w.queue && w'.now == w.now
            && !t'.open && t'.lifetime == t'.local == t'.session == None && t'.keptLifetimes == t'.keptLocals == []
            && TabHolds(w.tabs[i], key) <= Holders(w.tabs, key)
            && AliveWith(w'.store, key, Holders(w.tabs, key) - TabHolds(w.tabs[i], key))
  {
    var w := Exec(cfg, es);
    RunSnoc(cfg, es, CloseTab(i), i);
    ClosingEmpties(cfg, w, i);
    LiveWhileHeld(cfg, es + [CloseTab(i)], key);
    var t' := Step(cfg, w, CloseTab(i)).tabs[i];
    SumWithout(w.tabs, t => TabHolds(t, key), i, t');
    assert TabHolds(t', key) == 0;
  }

  lemma {:induction false} StepLeavesClosedTab(cfg: Config, w: World, e: Event, i: nat)
    requires i < |w.tabs| && !w.tabs[i].open
    ensures i < |Step(cfg, w, e).tabs| && Step(cfg, w, e).tabs[i] == w.tabs[i]
  {
  }

  /** A closed tab never changes again, so its late clearings find nothing to clear. */
  lemma {:induction false} ClosedTabStaysClosed(cfg: Config, es: seq<Event>, more: seq<Event>, i: nat)
    requires i < |Exec(cfg, es).tabs| && !Exec(cfg, es).tabs[i].open
    ensures i < |Exec(cfg, es + more).tabs| && Exec(cfg, es + more).tabs[i] == Exec(cfg, es).tabs[i]
    decreases |more|
  {
    if more == [] {
      assert es + more == es;
    } else {
      var front, e := more[..|more| - 1], more[|more| - 1];
      ClosedTabStaysClosed(cfg, es, front, i);
      assert es + more == es + front + [e];
      RunSnoc(cfg, es + front, e, i);
      StepLeavesClosedTab(cfg, Exec(cfg, es + front), e, i);
    }
  }

  function Elapsed(es: seq<Event>): nat {
    if es == [] then 0
    else Elapsed(es[..|es| - 1]) + if es[|es| - 1].Tick? then es[|es| - 1].elapsed else 0
  }

  /** The clock shows the time that has passed, and nothing but time moves it. */
  lemma {:induction false} ClockShowsElapsedTime(cfg: Config, es: seq<Event>)
    ensures Exec(cfg, es).now == Elapsed(es)
    decreases |es|
  {
    if es != [] {
      ClockShowsElapsedTime(cfg, es[..|es| - 1]);
    }
  }

  /** Time alone touches no tab, no queue and no storage. */
  lemma TimeAloneChangesNothing(cfg: Config, w: World, elapsed: nat)
    ensures Step(cfg, w, Tick(elapsed)).(now := w.now) == w
  {
  }
}
