/**
 `usePoll`: one poll slot shared by ticks, refreshes, re-arms and fetches that settle late.
 The hook is a class over its refs and state; a run is any interleaving of its events.
 */
module PollHook {
  import opened Fetches
  import opened Wrappers

  /**
   A fetch is named by the order it was started in; `open` maps the fetches that have not
   settled yet to whether their signal is aborted. `log` lists what was published.
   */
  datatype Poll<D, E> = Poll(
    inFlight: bool,
    slot: Option<nat>,
    next: nat,
    open: map<nat, bool>,
    data: Option<D>,
    error: Option<E>,
    loading: bool,
    log: seq<Published<D, E>>)

  datatype Event<D, E> =
    | Arm                                        // the effect runs: mount, or cleanup and re-run on new deps
    | Unmount
    | Tick(hidden: bool)
    | Visibility(hidden: bool)
    | Refresh(hidden: bool)                      // even through a handle kept after unmount
    | Settle(id: nat, outcome: Outcome<D, E>)

  // ----- the specification

  function Initial<D, E>(): Poll<D, E> {
    Poll(false, None, 0, map[], None, None, true, [])
  }

  /** Start a fetch unless one is in flight. */
  function Started<D, E>(s: Poll<D, E>): Poll<D, E> {
    if s.inFlight then s
    else s.(inFlight := true, slot := Some(s.next), next := s.next + 1, open := s.open[s.next := false], loading := true)
  }

  /** The effect's cleanup: the slot's fetch is aborted, the slot reads as free. */
  function Cleaned<D, E>(s: Poll<D, E>): Poll<D, E> {
    s.(open := if s.slot.Some? && s.slot.value in s.open then s.open[s.slot.value := true] else s.open, inFlight := false)
  }

  predicate Publishes<D, E>(s: Poll<D, E>, id: nat, outcome: Outcome<D, E>) {
    id in s.open && !s.open[id] && !outcome.AbortError?
  }

  function Settled<D, E>(s: Poll<D, E>, id: nat, outcome: Outcome<D, E>): Poll<D, E> {
    if id !in s.open then s
    else
      var p := if Publishes(s, id, outcome) then
                 s.(data := if outcome.Loaded? then Some(outcome.data) else s.data,
                    error := if outcome.Failed? then Some(outcome.error) else None,
                    log := s.log + [Published(id, outcome)])
               else s;
      var q := if s.slot == Some(id) then p.(slot := None, inFlight := false, loading := false) else p;
      q.(open := s.open - {id})
  }

  function Step<D, E>(s: Poll<D, E>, e: Event<D, E>): Poll<D, E> {
    match e
    case Arm => Started(Cleaned(s))
    case Unmount => Cleaned(s)
    case Tick(hidden) => if hidden then s else Started(s)
    case Visibility(hidden) => if hidden then s else Started(s)
    case Refresh(hidden) => if hidden then s else Started(s)
    case Settle(id, outcome) => Settled(s, id, outcome)
  }

  function Run<D, E>(s: Poll<D, E>, events: seq<Event<D, E>>): Poll<D, E>
    decreases |events|
  {
    if events == [] then s else Run(Step(s, events[0]), events[1..])
  }

  // ----- the hook

  class UsePoll<D, E> {
    var inFlightRef: bool
    var abortRef: Option<nat>
    var controllers: map<nat, bool>
    var started: nat
    var data: Option<D>
    var error: Option<E>
    var loading: bool
    ghost var log: seq<Published<D, E>>

    ghost function View(): Poll<D, E>
      reads this
    {
      Poll(inFlightRef, abortRef, started, controllers, data, error, loading, log)
    }

    constructor ()
      ensures View() == Initial<D, E>()
    {
      inFlightRef, abortRef, controllers, started := false, None, map[], 0;
      data, error, loading := None, None, true;
      log := [];
    }

    method RunFetch()
      modifies this
      ensures View() == Started(old(View()))
    {
      if inFlightRef { return; }
      inFlightRef := true;
      var controller := started;
      started := started + 1;
      controllers := controllers[controller := false];
      abortRef := Some(controller);
      loading := true;
    }

    /** What follows the `await` of the fetch that `controller` belongs to. */
    method Continue(controller: nat, outcome: Outcome<D, E>)
      requires controller in controllers
      modifies this
      ensures View() == Step(old(View()), Settle(controller, outcome))
    {
      var aborted := controllers[controller];
      if !aborted {
        match outcome
        case Loaded(next) =>
          data := Some(next);
          error := None;
          log := log + [Published(controller, outcome)];
        case Failed(err) =>
          error := Some(err);
          log := log + [Published(controller, outcome)];
        case AbortError =>
      }
      if abortRef == Some(controller) {
        abortRef := None;
        inFlightRef := false;
        loading := false;
      }
      controllers := controllers - {controller};
    }

    method Cleanup()
      modifies this
      ensures View() == Step(old(View()), Unmount)
    {
      if abortRef.Some? && abortRef.value in controllers { controllers := controllers[abortRef.value := true]; }
      inFlightRef := false;
    }

    method Rearm()
      modifies this
      ensures View() == Step(old(View()), Arm)
    {
      Cleanup();
      RunFetch();
    }

    method OnTick(hidden: bool)
      modifies this
      ensures View() == Step(old(View()), Tick(hidden))
    {
      if !hidden { RunFetch(); }
    }

    method OnVisible(hidden: bool)
      modifies this
      ensures View() == Step(old(View()), Visibility(hidden))
    {
      if !hidden && !inFlightRef { RunFetch(); }
    }

    method OnRefresh(hidden: bool)
      modifies this
      ensures View() == Step(old(View()), Refresh(hidden))
    {
      if !hidden { RunFetch(); }
    }
  }

  // ----- what every run keeps

  /** The only fetch that is not aborted is the one the slot holds. */
  ghost predicate SlotInv<D, E>(s: Poll<D, E>) {
    && (s.slot.Some? ==> s.slot.value in s.open)
    && (s.inFlight <==> s.slot.Some? && !s.open[s.slot.value])
    && (forall id :: id in s.open && !s.open[id] ==> s.slot == Some(id))
    && (forall id :: id in s.open ==> id < s.next)
    && (s.next > 0 ==> (s.loading <==> s.slot.Some?))
  }

  /** Published in the order they were started; whatever is still to be published started later. */
  ghost predicate LogInv<D, E>(s: Poll<D, E>) {
    && (forall i, j :: 0 <= i < j < |s.log| ==> s.log[i].id < s.log[j].id)
    && (forall i :: 0 <= i < |s.log| ==> s.log[i].id < s.next && !s.log[i].outcome.AbortError?)
    && (forall i, id :: 0 <= i < |s.log| && id in s.open && !s.open[id] ==> s.log[i].id < id)
  }

  ghost predicate ShownInv<D, E>(s: Poll<D, E>) {
    s.data == LastData(s.log) && s.error == LastError(s.log)
  }

  ghost predicate Inv<D, E>(s: Poll<D, E>) {
    SlotInv(s) && LogInv(s) && ShownInv(s)
  }

  lemma StartKeepsInv<D, E>(s: Poll<D, E>)
    requires Inv(s)
    ensures Inv(Started(s))
  {
  }

  lemma CleanKeepsInv<D, E>(s: Poll<D, E>)
    requires Inv(s)
    ensures Inv(Cleaned(s)) && forall id :: id in s.open ==> Cleaned(s).open[id]
  {
  }

  lemma SettleKeepsInv<D, E>(s: Poll<D, E>, id: nat, outcome: Outcome<D, E>)
    requires Inv(s)
    ensures Inv(Settled(s, id, outcome))
  {
    SettleKeepsShown(s, id, outcome);
    SettleKeepsLog(s, id, outcome);
  }

  lemma SettleKeepsShown<D, E>(s: Poll<D, E>, id: nat, outcome: Outcome<D, E>)
    requires ShownInv(s)
    ensures ShownInv(Settled(s, id, outcome))
  {
    var t := Settled(s, id, outcome);
    assert t.log != s.log ==> t.log[..|t.log| - 1] == s.log;
  }

  lemma SettleKeepsLog<D, E>(s: Poll<D, E>, id: nat, outcome: Outcome<D, E>)
    requires SlotInv(s) && LogInv(s)
    ensures LogInv(Settled(s, id, outcome))
  {
  }

  lemma StepKeepsInv<D, E>(s: Poll<D, E>, e: Event<D, E>)
    requires Inv(s)
    ensures Inv(Step(s, e))
  {
    match e
    case Arm => CleanKeepsInv(s); StartKeepsInv(Cleaned(s));
    case Unmount => CleanKeepsInv(s);
    case Settle(id, outcome) => SettleKeepsInv(s, id, outcome);
    case _ => StartKeepsInv(s);
  }

  lemma {:induction false} RunKeepsInv<D, E>(s: Poll<D, E>, events: seq<Event<D, E>>)
    requires Inv(s)
    ensures Inv(Run(s, events))
    decreases |events|
  {
    if events != [] {
      StepKeepsInv(s, events[0]);
      RunKeepsInv(Step(s, events[0]), events[1..]);
    }
  }

  /**
   In every interleaving at most one fetch is not aborted and it is the slot's, results are
   published in strictly increasing start order, and what is shown is what was last published.
   */
  lemma EveryRun<D, E>(events: seq<Event<D, E>>)
    ensures var s := Run(Initial<D, E>(), events);
            && (forall a, b :: a in s.open && b in s.open && !s.open[a] && !s.open[b] ==> a == b && s.slot == Some(a))
            && (s.inFlight <==> exists a :: a in s.open && !s.open[a])
            && (forall i, j :: 0 <= i < j < |s.log| ==> s.log[i].id < s.log[j].id)
            && s.data == LastData(s.log) && s.error == LastError(s.log)
  {
    RunKeepsInv(Initial<D, E>(), events);
  }

  /** An aborted fetch that settles late publishes nothing and frees nobody else's slot. */
  lemma AbortedSettlesQuietly<D, E>(s: Poll<D, E>, id: nat, outcome: Outcome<D, E>)
    requires Inv(s) && id in s.open && s.open[id]
    ensures var t := Step(s, Settle(id, outcome));
            && t.data == s.data && t.error == s.error && t.log == s.log
            && t.inFlight == s.inFlight
            && (s.inFlight ==> t.slot == s.slot && t.loading)
            && t.open == s.open - {id}
  {
  }

  /** A run takes its events one after the other. */
  lemma {:induction false} RunAppend<D, E>(s: Poll<D, E>, events: seq<Event<D, E>>, e: Event<D, E>)
    ensures Run(s, []) == s && Run(s, events + [e]) == Step(Run(s, events), e)
    decreases |events|
  {
    if events == [] {
      assert events + [e] == [e] && [e][1..] == [];
    } else {
      assert (events + [e])[1..] == events[1..] + [e];
      RunAppend(Step(s, events[0]), events[1..], e);
    }
  }

  /** A new fetch holds the slot, and it is the only one that can still publish. */
  ghost predicate FetchUnderWay<D, E>(s: Poll<D, E>, t: Poll<D, E>) {
    && t.next == s.next + 1 && t.inFlight && t.loading && t.slot == Some(s.next)
    && t.open.Keys == s.open.Keys + {s.next}
    && (forall id :: id in t.open ==> (!t.open[id] <==> id == s.next))
    && t.data == s.data && t.error == s.error && t.log == s.log
  }

  /** Mounting, or new deps, start a fetch at once, whatever was under way, and abort all others. */
  lemma ArmStarts<D, E>(s: Poll<D, E>)
    requires Inv(s)
    ensures FetchUnderWay(s, Step(s, Arm))
  {
    CleanKeepsInv(s);
  }

  /** The first render shows nothing but that it is loading, and its effect fetches. */
  lemma MountFetches<D, E>()
    ensures var s := Initial<D, E>();
            && s.loading && s.data == None && s.error == None
            && FetchUnderWay(s, Step(s, Arm)) && Step(s, Arm).open == map[0 := false]
  {
    ArmStarts(Initial<D, E>());
  }

  /** A tick, a refresh or a return to the tab starts a fetch exactly when none is under way. */
  lemma StartsWhenIdle<D, E>(s: Poll<D, E>, e: Event<D, E>)
    requires Inv(s) && (e.Tick? || e.Visibility? || e.Refresh?)
    ensures Step(s, e).next > s.next <==> !e.hidden && forall id :: id in s.open ==> s.open[id]
    ensures Step(s, e) == s || FetchUnderWay(s, Step(s, e))
  {
    if !s.inFlight && !e.hidden { assert Step(s, e) == Started(s); }
  }

  /** A fetch that was not aborted shows its result when it settles, and frees the slot. */
  lemma SettleShows<D, E>(s: Poll<D, E>, id: nat, outcome: Outcome<D, E>)
    requires Inv(s) && id in s.open && !s.open[id]
    ensures var t := Step(s, Settle(id, outcome));
            && !t.inFlight && t.slot == None && !t.loading && t.open == s.open - {id} && t.next == s.next
            && t.data == (if outcome.Loaded? then Some(outcome.data) else s.data)
            && t.error == (if outcome.Loaded? then None else if outcome.Failed? then Some(outcome.error) else s.error)
            && t.log == s.log + if outcome.AbortError? then [] else [Published(id, outcome)]
  {
  }

  /** An unmount aborts everything, starts nothing and leaves what is shown. */
  lemma UnmountAborts<D, E>(s: Poll<D, E>)
    requires Inv(s)
    ensures var t := Step(s, Unmount);
            && !t.inFlight && t.next == s.next && t.open.Keys == s.open.Keys
            && (forall id :: id in t.open ==> t.open[id])
            && t.data == s.data && t.error == s.error && t.loading == s.loading && t.log == s.log
  {
  }

  // ----- after a re-arm

  /** Nothing started before fetch `k` can be published any more. */
  ghost predicate Cut<D, E>(s: Poll<D, E>, k: nat) {
    k <= s.next && forall id :: id in s.open && id < k ==> s.open[id]
  }

  lemma StepKeepsCut<D, E>(s: Poll<D, E>, e: Event<D, E>, k: nat)
    requires Inv(s) && Cut(s, k)
    ensures Cut(Step(s, e), k)
    ensures s.log <= Step(s, e).log
    ensures forall i :: |s.log| <= i < |Step(s, e).log| ==> Step(s, e).log[i].id >= k
  {
  }

  lemma {:induction false} RunKeepsCut<D, E>(s: Poll<D, E>, events: seq<Event<D, E>>, k: nat)
    requires Inv(s) && Cut(s, k)
    ensures s.log <= Run(s, events).log
    ensures forall i :: |s.log| <= i < |Run(s, events).log| ==> Run(s, events).log[i].id >= k
    decreases |events|
  {
    if events != [] {
      var t := Step(s, events[0]);
      StepKeepsCut(s, events[0], k);
      StepKeepsInv(s, events[0]);
      RunKeepsCut(t, events[1..], k);
      forall i | |s.log| <= i < |t.log| ensures Run(t, events[1..]).log[i] == t.log[i] {}
    }
  }

  /** After new deps, or an unmount, no result of an earlier fetch is ever published. */
  lemma OldResultsNeverPublished<D, E>(s: Poll<D, E>, e: Event<D, E>, events: seq<Event<D, E>>)
    requires Inv(s) && (e.Arm? || e.Unmount?)
    ensures var end := Run(Step(s, e), events);
            s.log <= end.log && forall i :: |s.log| <= i < |end.log| ==> end.log[i].id >= s.next
  {
    CleanKeepsInv(s);
    StepKeepsInv(s, e);
    RunKeepsCut(Step(s, e), events, s.next);
  }

  /** So an unmounted hook that nobody refreshes keeps what it showed. */
  lemma {:induction false} QuietAfterUnmount<D, E>(s: Poll<D, E>, events: seq<Event<D, E>>)
    requires Inv(s) && (forall id :: id in s.open ==> s.open[id])
    requires forall i :: 0 <= i < |events| ==> events[i].Settle?
    ensures Run(s, events).data == s.data && Run(s, events).error == s.error && !Run(s, events).inFlight
    decreases |events|
  {
    if events != [] {
      StepKeepsInv(s, events[0]);
      QuietAfterUnmount(Step(s, events[0]), events[1..]);
    }
  }
}
