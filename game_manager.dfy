/**
 * The GameManager class of src/core/GameManager.ts: one TaskManager per
 * session, the events it emits, and the restart protocol.
 *
 * The event emitter it extends lives in `../libs/xviewer`, outside the
 * modelled code; it is modelled as an ordered list of subscriptions, where emitting an event
 * notifies that event's listeners in subscription order and `clear` drops
 * every subscription.
 */
module Session {
  import opened Wrappers
  import opened TaskAccounting
  import Redirect

  datatype Event = Preloaded | Restart | ShowIntermediatePage

  datatype Subscription = Subscription(event: Event, listener: nat)

  /** The listeners of `e`, in the order they subscribed. */
  function ListenersOf(subs: seq<Subscription>, e: Event): (ls: seq<nat>)
    ensures |ls| <= |subs|
    ensures forall l :: l in ls <==> Subscription(e, l) in subs
  {
    if subs == [] then []
    else
      assert subs == [subs[0]] + subs[1..];
      (if subs[0].event == e then [subs[0].listener] else []) + ListenersOf(subs[1..], e)
  }

  /** Subscribing once more adds that listener at the end of its event's list, and nowhere else. */
  lemma {:induction false} ListenersOfAppend(subs: seq<Subscription>, s: Subscription, e: Event)
    ensures ListenersOf(subs + [s], e) == ListenersOf(subs, e) + (if s.event == e then [s.listener] else [])
  {
    if subs != [] {
      assert (subs + [s])[1..] == subs[1..] + [s];
      ListenersOfAppend(subs[1..], s, e);
    }
  }

  class GameManager {
    var taskManager: TaskManager
    /** Never incremented by the code modelled here. */
    var restartCount: int
    var subscriptions: seq<Subscription>

    ghost predicate Valid()
      reads this, taskManager
    {
      taskManager.Valid()
    }

    constructor ()
      ensures Valid() && fresh(taskManager)
      ensures taskManager.Progress() == 0.0 && taskManager.pending == [] && taskManager.wholeWeights
      ensures restartCount == 0 && subscriptions == []
    {
      taskManager := new TaskManager();
      restartCount := 0;
      subscriptions := [];
    }

    /** The `progress` getter: the current session's progress. */
    function Progress(): (p: real)
      reads this, taskManager
      requires Valid()
      ensures 0.0 <= p <= 1.0
    {
      taskManager.Progress()
    }

    /** `on`, inherited from the event emitter: append a subscription. */
    method On(e: Event, listener: nat)
      modifies this
      ensures subscriptions == old(subscriptions) + [Subscription(e, listener)]
      ensures forall ev :: ListenersOf(subscriptions, ev) == ListenersOf(old(subscriptions), ev) + (if ev == e then [listener] else [])
      ensures taskManager == old(taskManager) && restartCount == old(restartCount)
    {
      forall ev {
        ListenersOfAppend(subscriptions, Subscription(e, listener), ev);
      }
      subscriptions := subscriptions + [Subscription(e, listener)];
    }

    /** `emit`, inherited from the event emitter: the listeners it notifies, in order. */
    method Emit(e: Event) returns (notified: seq<nat>)
      ensures notified == ListenersOf(subscriptions, e)
    {
      notified := ListenersOf(subscriptions, e);
    }

    /**
     * `restart`: announce the intermediate page and do nothing else; no
     * navigation happens and the session's state is unchanged.
     */
    method Restart() returns (notified: seq<nat>)
      ensures notified == ListenersOf(subscriptions, ShowIntermediatePage)
    {
      notified := Emit(ShowIntermediatePage);
    }

    /**
     * `reset`: drop every subscription, reset the current TaskManager and
     * install a fresh one, so the new session starts at progress 0.
     */
    method Reset()
      modifies this, taskManager
      ensures Valid() && fresh(taskManager)
      ensures taskManager.Progress() == 0.0 && taskManager.taskCount == 0.0 && taskManager.taskFinished == 0.0
      ensures taskManager.pending == [] && taskManager.wholeWeights
      ensures subscriptions == [] && restartCount == old(restartCount)
      ensures old(taskManager).taskCount == 0.0 && old(taskManager).taskFinished == 0.0 && old(taskManager).progress == 0.0
      ensures forall e :: ListenersOf(subscriptions, e) == []
    {
      subscriptions := [];
      taskManager.Reset();
      taskManager := new TaskManager();
    }

    /** `task`: delegate to the current TaskManager (its registration half); the weight defaults to 1. */
    method Task(w: real := 1.0)
      requires Valid()
      modifies taskManager
      ensures Valid()
      ensures taskManager.taskCount == GrownCount(old(taskManager.taskCount), w)
      ensures taskManager.taskFinished == old(taskManager.taskFinished)
      ensures taskManager.Progress() == old(taskManager.Progress())
      ensures taskManager.pending == old(taskManager.pending) + [w]
      ensures taskManager.wholeWeights == (old(taskManager.wholeWeights) && 1.0 <= w)
    {
      taskManager.Task(w);
    }

    /** The settlement of a task handed to `task`: counted whatever the outcome. */
    method Settle(w: real, outcome: Outcome)
      requires Valid()
      requires w in taskManager.pending
      modifies taskManager
      ensures Valid()
      ensures taskManager.taskCount == old(taskManager.taskCount)
      ensures taskManager.taskFinished == old(taskManager.taskFinished) + w
      ensures taskManager.Progress() == NextProgress(old(taskManager.Progress()), taskManager.taskFinished, taskManager.taskCount)
      ensures old(taskManager.Progress()) <= taskManager.Progress()
      ensures taskManager.pending == RemoveOne(old(taskManager.pending), w)
      ensures taskManager.wholeWeights == old(taskManager.wholeWeights)
      ensures taskManager.wholeWeights && taskManager.pending == [] ==>
                taskManager.taskFinished == taskManager.taskCount && taskManager.Progress() == 1.0
    {
      taskManager.Settle(w, outcome);
    }

    /**
     * `confirmRestart`: the one URL the browser is sent to, given what the
     * registry fetch produced, the current host and path, and the browser's
     * URL handling.
     */
    method ConfirmRestart(registry: Option<seq<Redirect.Entry>>, host: string, path: string, api: Redirect.UrlApi)
      returns (target: string)
      ensures target == Redirect.Resolve(registry, host, path, api)
      ensures target == Redirect.DefaultTarget || api.accepts(target)
      ensures !Redirect.AnyMatch(registry, host, api) ==> Redirect.HasScheme(target)
    {
      target := Redirect.Resolve(registry, host, path, api);
    }
  }
}
