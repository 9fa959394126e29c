/**
 All tab helpers of a browser on their shared registry and task runner: whatever is delivered to the
 objects, they do what the steps of module EphemeralStorage say.
 */
module EphemeralBrowser {
  import opened EphemeralStorage
  import opened EphemeralTabHelper

  class Browser {
    const cfg: Config
    const store: StorageRegistry
    const runner: TaskRunner
    var helpers: seq<EphemeralStorageTabHelper>

    /** Helper `i` is tab `i`; so no two of them are the same object. */
    ghost predicate Valid()
      reads this, helpers
    {
      forall i :: 0 <= i < |helpers| ==>
        && helpers[i].Valid() && helpers[i].id == i && helpers[i].cfg == cfg
        && helpers[i].store == store && helpers[i].runner == runner
    }

    function Tabs(): seq<Tab>
      reads this, helpers
    {
      seq(|helpers|, i requires 0 <= i < |helpers| reads this, helpers => helpers[i].AsTab())
    }

    function View(): World
      reads this, helpers, store, runner
    {
      World(runner.now, store.View(), Tabs(), runner.queue)
    }

    constructor (cfg: Config)
      ensures Valid() && fresh(store) && fresh(runner) && helpers == []
      ensures this.cfg == cfg && View() == EphemeralStorage.Start
    {
      this.cfg := cfg;
      store := new StorageRegistry();
      runner := new TaskRunner();
      helpers := [];
    }

    method OpenTab(context: nat, url: Url, sessionId: string)
      requires Valid()
      modifies this, store, runner
      ensures Valid() && View() == Step(cfg, old(View()), EphemeralStorage.OpenTab(context, url, sessionId))
      ensures |helpers| == |old(helpers)| + 1 && helpers[..|old(helpers)|] == old(helpers)
      ensures fresh(helpers[|old(helpers)|])
    {
      var h := new EphemeralStorageTabHelper(cfg, |helpers|, context, store, runner, url, sessionId);
      helpers := helpers + [h];
      assert Tabs() == old(Tabs()) + [h.AsTab()];
    }

    method ReadyToCommit(i: nat, mainFrame: bool, sameDocument: bool, url: Url, sessionId: string)
      requires Valid() && i < |helpers| && helpers[i].open
      modifies helpers[i], store, runner
      ensures Valid()
      ensures View()
           == Step(cfg, old(View()), EphemeralStorage.ReadyToCommit(i, mainFrame, sameDocument, url, sessionId))
    {
      helpers[i].ReadyToCommitNavigation(mainFrame, sameDocument, url, sessionId);
    }

    method DidCommit(i: nat, url: Url)
      requires Valid() && i < |helpers| && helpers[i].open
      modifies helpers[i]
      ensures Valid() && View() == Step(cfg, old(View()), EphemeralStorage.DidCommit(i, url))
    {
      helpers[i].DidCommit(url);
    }

    method CloseTab(i: nat)
      requires Valid() && i < |helpers| && helpers[i].open
      modifies helpers[i], store
      ensures Valid() && View() == Step(cfg, old(View()), EphemeralStorage.CloseTab(i))
    {
      helpers[i].WebContentsDestroyed();
      helpers[i].Destruct();
    }

    /** A posted task is bound to a weak pointer: after its tab is gone, running it does nothing. */
    method RunTask()
      requires Valid()
      modifies helpers, store, runner
      ensures Valid() && View() == Step(cfg, old(View()), EphemeralStorage.RunTask)
    {
      var t := runner.TakeDue();
      assert Tabs() == old(Tabs());
      if t.Some? && t.value.tab < |helpers| && helpers[t.value.tab].open {
        helpers[t.value.tab].ClearEphemeralLifetimeKeepalive(t.value.key);
      }
    }

    method Tick(elapsed: nat)
      requires Valid()
      modifies runner
      ensures Valid() && View() == Step(cfg, old(View()), EphemeralStorage.Tick(elapsed))
    {
      runner.now := runner.now + elapsed;
    }

    /** Delivers one event; events about tabs that do not exist are passed over. */
    method Deliver(e: Event)
      requires Valid()
      modifies this, helpers, store, runner
      ensures Valid() && View() == Step(cfg, old(View()), e)
      ensures forall h :: h in helpers ==> h in old(helpers) || fresh(h)
    {
      match e
      case OpenTab(context, url, sessionId) => OpenTab(context, url, sessionId);
      case ReadyToCommit(i, mainFrame, sameDocument, url, sessionId) =>
        if i < |helpers| && helpers[i].open {
          ReadyToCommit(i, mainFrame, sameDocument, url, sessionId);
        }
      case DidCommit(i, url) =>
        if i < |helpers| && helpers[i].open {
          DidCommit(i, url);
        }
      case CloseTab(i) =>
        if i < |helpers| && helpers[i].open {
          CloseTab(i);
        }
      case RunTask => RunTask();
      case Tick(elapsed) => Tick(elapsed);
    }
  }

  /** Any run of the objects is a run of the state machine, so everything proved of those runs holds of
      the objects. */
  method Run(cfg: Config, es: seq<Event>) returns (b: Browser)
    ensures b.cfg == cfg && b.View() == Exec(cfg, es)
  {
    b := new Browser(cfg);
    var i := 0;
    while i < |es|
      invariant 0 <= i <= |es| && fresh(b) && fresh(b.store) && fresh(b.runner)
      invariant forall h :: h in b.helpers ==> fresh(h)
      invariant b.Valid() && b.View() == Exec(cfg, es[..i])
    {
      assert es[..i + 1][..i] == es[..i];
      b.Deliver(es[i]);
      i := i + 1;
    }
    assert es[..i] == es;
  }
}
