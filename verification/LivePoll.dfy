/**
 `useLivePoll`: the manager's snapshot poll. Unlike `usePoll`, a settling fetch frees the slot
 whether or not it still owns it, so "never two overlapping requests" holds only under a
 condition. Failures back the interval off.
 */
module LivePoll {
  import opened Fetches
  import opened Numbers
  import opened Wrappers

  // ----- scheduling decisions (live.js)

  const POLL_MAX_MS := 60000

  /** `nextPollIntervalMs` with the default cap. */
  function NextPollIntervalMs(currentMs: nat, base: nat): nat {
    Min(2 * (if currentMs >= base then currentMs else base), POLL_MAX_MS)
  }

  predicate ShouldPoll(enabled: bool, inFlight: bool, hidden: bool) {
    enabled && !inFlight && !hidden
  }

  function Doubled(base: nat, k: nat): nat {
    if k == 0 then base else 2 * Doubled(base, k - 1)
  }

  /** The interval after `k` failures in a row. */
  function Interval(base: nat, k: nat): nat {
    if k == 0 then base else Min(Doubled(base, k), POLL_MAX_MS)
  }

  lemma {:induction false} DoubledGrows(base: nat, k: nat)
    ensures base <= Doubled(base, k)
  {
    if k > 0 { DoubledGrows(base, k - 1); }
  }

  /** One more failure moves from one interval to the next, also with a base above the cap. */
  lemma NextInterval(base: nat, k: nat)
    ensures NextPollIntervalMs(Interval(base, k), base) == Interval(base, k + 1)
  {
    DoubledGrows(base, k);
  }

  /** The closed form min(base * 2^k, cap) is exact for every k just when the base is within the cap. */
  lemma ClosedForm(base: nat)
    ensures (forall k: nat :: Interval(base, k) == Min(Doubled(base, k), POLL_MAX_MS)) <==> base <= POLL_MAX_MS
  {
    assert Interval(base, 0) == base && Doubled(base, 0) == base;
  }

  /** Twice the interval in use, or twice the base where that is larger, up to a minute. */
  lemma NextDoubles(currentMs: nat, base: nat)
    ensures var next := NextPollIntervalMs(currentMs, base);
            && next <= 60000
            && (next < 60000 ==> next == 2 * currentMs || next == 2 * base)
            && (next == 60000 || (next >= 2 * currentMs && next >= 2 * base))
  {
  }

  /** The manager's own intervals, in milliseconds, as failures follow one another. */
  lemma DefaultIntervals()
    ensures Interval(5000, 0) == 5000 && Interval(5000, 1) == 10000 && Interval(5000, 2) == 20000
    ensures Interval(5000, 3) == 40000 && forall k: nat :: k >= 4 ==> Interval(5000, k) == 60000
  {
    assert Doubled(5000, 1) == 10000;
    assert Doubled(5000, 2) == 20000;
    assert Doubled(5000, 3) == 40000;
    assert Doubled(5000, 4) == 80000;
    forall k: nat | k >= 4 ensures Interval(5000, k) == 60000 { DoubledFrom(5000, 4, k); }
  }

  lemma {:induction false} DoubledFrom(base: nat, j: nat, k: nat)
    requires j <= k
    ensures Doubled(base, j) <= Doubled(base, k)
  {
    if j < k { DoubledFrom(base, j, k - 1); }
  }

  // ----- the hook's state

  datatype Poll<D, E> = Poll(
    mounted: bool,
    enabled: bool,
    tick: bool,
    inFlight: bool,
    slot: Option<nat>,
    next: nat,
    open: map<nat, bool>,      // fetches not settled yet, and whether their signal is aborted
    snapshot: Option<D>,
    error: Option<E>,
    backoff: nat,
    base: nat,
    log: seq<Published<D, E>>) // oldest first

  datatype Event<D, E> =
    | Render(enabled: bool, newFetcher: bool, tick: bool, hidden: bool)
    | Unmount
    | Tick(hidden: bool)
    | Visibility(hidden: bool)
    | Refresh(hidden: bool)
    | Settle(id: nat, outcome: Outcome<D, E>)

  /** Nothing on display changes, nor the interval. */
  ghost predicate SameDisplay<D, E>(s: Poll<D, E>, t: Poll<D, E>) {
    t.log == s.log && t.snapshot == s.snapshot && t.error == s.error && t.backoff == s.backoff && t.base == s.base
  }

  function Started<D, E>(s: Poll<D, E>): (t: Poll<D, E>)
    ensures SameDisplay(s, t)
  {
    if s.inFlight then s
    else s.(inFlight := true, slot := Some(s.next), next := s.next + 1, open := s.open[s.next := false])
  }

  /** The first render fetches when it is enabled. */
  function Mounted<D, E>(base: nat, enabled: bool, tick: bool): Poll<D, E> {
    var s := Poll(true, enabled, tick, false, None, 0, map[], None, None, base, base, []);
    if enabled then Started(s) else s
  }

  function Cleaned<D, E>(s: Poll<D, E>): (t: Poll<D, E>)
    ensures SameDisplay(s, t)
  {
    s.(open := if s.slot.Some? && s.slot.value in s.open then s.open[s.slot.value := true] else s.open, inFlight := false)
  }

  /** A re-render: the enable effect re-runs on a change, then entering live mode fetches. */
  function Rendered<D, E>(s: Poll<D, E>, enabled: bool, newFetcher: bool, tick: bool, hidden: bool): (t: Poll<D, E>)
    ensures SameDisplay(s, t)
  {
    var changed := enabled != s.enabled || newFetcher;
    var cleaned := if changed && s.enabled then Cleaned(s) else s;
    var switched := cleaned.(enabled := enabled, tick := tick);
    var armed := if changed && enabled then Started(switched) else switched;
    if tick && !s.tick && ShouldPoll(true, armed.inFlight, hidden) then Started(armed) else armed
  }

  function Settled<D, E>(s: Poll<D, E>, id: nat, outcome: Outcome<D, E>): Poll<D, E> {
    if id !in s.open then s
    else
      var p := if s.open[id] || outcome.AbortError? then s
               else if outcome.Loaded? then
                 s.(snapshot := Some(outcome.data), error := None, backoff := s.base,
                    log := s.log + [Published(id, outcome)])
               else
                 s.(error := Some(outcome.error), backoff := NextPollIntervalMs(s.backoff, s.base),
                    log := s.log + [Published(id, outcome)]);
      p.(slot := if s.slot == Some(id) then None else s.slot, inFlight := false, open := s.open - {id})
  }

  function Step<D, E>(s: Poll<D, E>, e: Event<D, E>): Poll<D, E> {
    match e
    case Render(enabled, newFetcher, tick, hidden) => if s.mounted then Rendered(s, enabled, newFetcher, tick, hidden) else s
    case Unmount => if s.mounted && s.enabled then Cleaned(s).(mounted := false) else s.(mounted := false)
    case Tick(hidden) => if s.mounted && s.tick && ShouldPoll(s.enabled, s.inFlight, hidden) then Started(s) else s
    case Visibility(hidden) => if s.mounted && s.tick && ShouldPoll(s.enabled, s.inFlight, hidden) then Started(s) else s
    case Refresh(hidden) => if ShouldPoll(s.enabled, s.inFlight, hidden) then Started(s) else s
    case Settle(id, outcome) => Settled(s, id, outcome)
  }

  function Run<D, E>(s: Poll<D, E>, events: seq<Event<D, E>>): Poll<D, E>
    decreases |events|
  {
    if events == [] then s else Run(Step(s, events[0]), events[1..])
  }

  // ----- the hook

  class UseLivePoll<D, E> {
    var mounted: bool
    var enabledRef: bool
    var tickRef: bool
    var inFlightRef: bool
    var abortRef: Option<nat>
    var started: nat
    var controllers: map<nat, bool>
    var snapshot: Option<D>
    var error: Option<E>
    var backoffRef: nat
    const intervalMs: nat
    ghost var log: seq<Published<D, E>>

    ghost function View(): Poll<D, E>
      reads this
    {
      Poll(mounted, enabledRef, tickRef, inFlightRef, abortRef, started, controllers,
           snapshot, error, backoffRef, intervalMs, log)
    }

    constructor (intervalMs: nat, enabled: bool, tick: bool)
      ensures View() == Mounted<D, E>(intervalMs, enabled, tick)
    {
      this.intervalMs := intervalMs;
      mounted, enabledRef, tickRef, inFlightRef := true, enabled, tick, false;
      abortRef, started, controllers := None, 0, map[];
      snapshot, error, backoffRef := None, None, intervalMs;
      log := [];
      new;
      if enabled { RunFetch(); }
    }

    method RunFetch()
      modifies this
      ensures View() == Started(old(View()))
    {
      if inFlightRef { return; }
      inFlightRef := true;
      var controller := started;
      started := started + 1;
      controllers := controllers[controller := false];
      abortRef := Some(controller);
    }

    /** What follows the `await` of the fetch that `controller` belongs to. */
    method Continue(controller: nat, outcome: Outcome<D, E>)
      requires controller in controllers
      modifies this
      ensures View() == Step(old(View()), Settle(controller, outcome))
    {
      if !controllers[controller] {
        match outcome
        case Loaded(next) =>
          snapshot := Some(next);
          error := None;
          backoffRef := intervalMs;
          log := log + [Published(controller, outcome)];
        case Failed(err) =>
          error := Some(err);
          backoffRef := NextPollIntervalMs(backoffRef, intervalMs);
          log := log + [Published(controller, outcome)];
        case AbortError =>
      }
      if abortRef == Some(controller) { abortRef := None; }
      inFlightRef := false;
      controllers := controllers - {controller};
    }

    method Cleanup()
      modifies this
      ensures View() == Cleaned(old(View()))
    {
      if abortRef.Some? && abortRef.value in controllers { controllers := controllers[abortRef.value := true]; }
      inFlightRef := false;
    }

    method OnRender(enabled: bool, newFetcher: bool, tick: bool, hidden: bool)
      requires mounted
      modifies this
      ensures View() == Step(old(View()), Render(enabled, newFetcher, tick, hidden))
    {
      var changed, wasTick := enabled != enabledRef || newFetcher, tickRef;
      if changed && enabledRef { Cleanup(); }
      enabledRef, tickRef := enabled, tick;
      if changed && enabled { RunFetch(); }
      if tick && !wasTick && ShouldPoll(true, inFlightRef, hidden) { RunFetch(); }
    }

    method OnUnmount()
      requires mounted
      modifies this
      ensures View() == Step(old(View()), Unmount)
    {
      if enabledRef { Cleanup(); }
      mounted := false;
    }

    /** The interval's callback; a return to the tab does the same. */
    method OnTick(hidden: bool)
      requires mounted && tickRef
      modifies this
      ensures View() == Step(old(View()), Tick(hidden)) == Step(old(View()), Visibility(hidden))
    {
      if ShouldPoll(enabledRef, inFlightRef, hidden) { RunFetch(); }
    }

    method OnRefresh(hidden: bool)
      modifies this
      ensures View() == Step(old(View()), Refresh(hidden))
    {
      if ShouldPoll(enabledRef, inFlightRef, hidden) { RunFetch(); }
    }
  }

  // ----- what is shown, and how long it waits

  ghost predicate ShownInv<D, E>(s: Poll<D, E>) {
    && s.snapshot == LastData(s.log)
    && s.error == LastError(s.log)
    && s.backoff == Interval(s.base, FailuresInARow(s.log))
  }

  lemma StepKeepsShown<D, E>(s: Poll<D, E>, e: Event<D, E>)
    requires ShownInv(s)
    ensures ShownInv(Step(s, e)) && Step(s, e).base == s.base
  {
    if e.Settle? {
      SettleKeepsShown(s, e.id, e.outcome);
      assert Step(s, e) == Settled(s, e.id, e.outcome);
    } else {
      OnlySettlesShow(s, e);
      DisplayKeepsShown(s, Step(s, e));
    }
  }

  lemma DisplayKeepsShown<D, E>(s: Poll<D, E>, t: Poll<D, E>)
    requires ShownInv(s) && SameDisplay(s, t)
    ensures ShownInv(t) && t.base == s.base
  {
  }

  lemma OnlySettlesShow<D, E>(s: Poll<D, E>, e: Event<D, E>)
    requires !e.Settle?
    ensures SameDisplay(s, Step(s, e))
  {
  }

  lemma SettleKeepsShown<D, E>(s: Poll<D, E>, id: nat, outcome: Outcome<D, E>)
    requires ShownInv(s)
    ensures ShownInv(Settled(s, id, outcome)) && Settled(s, id, outcome).base == s.base
  {
    LogGrows(s.log, Published(id, outcome));
    NextInterval(s.base, FailuresInARow(s.log));
  }

  lemma {:induction false} RunKeepsShown<D, E>(s: Poll<D, E>, events: seq<Event<D, E>>)
    requires ShownInv(s)
    ensures ShownInv(Run(s, events)) && Run(s, events).base == s.base
    decreases |events|
  {
    if events != [] {
      StepKeepsShown(s, events[0]);
      RunKeepsShown(Step(s, events[0]), events[1..]);
    }
  }

  /**
   In every run the snapshot is the last one that loaded, and the interval is the base doubled
   once per failure since, up to the cap; a success brings it back to the base.
   */
  lemma BackoffOfEveryRun<D, E>(base: nat, enabled: bool, tick: bool, events: seq<Event<D, E>>)
    ensures var s := Run(Mounted<D, E>(base, enabled, tick), events);
            && s.snapshot == LastData(s.log)
            && s.error == LastError(s.log)
            && s.backoff == Interval(base, FailuresInARow(s.log))
            && (s.log != [] && s.log[|s.log| - 1].outcome.Loaded? ==> s.backoff == base && s.error.None?)
  {
    RunKeepsShown(Mounted<D, E>(base, enabled, tick), events);
  }

  // ----- overlap

  ghost predicate NoOverlap<D, E>(s: Poll<D, E>) {
    forall a, b :: a in s.open && b in s.open && !s.open[a] && !s.open[b] ==> a == b
  }

  /** Either the slot's fetch is the only one left, or whatever is left has been aborted. */
  ghost predicate Clear<D, E>(s: Poll<D, E>) {
    if s.inFlight then s.slot.Some? && s.open == map[s.slot.value := false]
    else forall id :: id in s.open ==> s.open[id]
  }

  /**
   What every step must keep: no fetch beside the slot's, and nothing left over, aborted or not,
   while the enabled hook is idle and its interval may fire.
   */
  ghost predicate Orderly<D, E>(s: Poll<D, E>) {
    && Clear(s)
    && (s.mounted && s.enabled && !s.inFlight ==> s.open == map[])
    && forall id :: id in s.open ==> id < s.next
  }

  /**
   A re-render that starts a fetch, or a refresh through a handle kept after the unmount, leaves
   no aborted fetch unsettled. Ticks, visibility and refreshes of the mounted hook are free.
   */
  ghost predicate RearmsSettled<D, E>(s: Poll<D, E>, e: Event<D, E>) {
    (e.Render? || !s.mounted) && Step(s, e).next > s.next ==>
      forall id :: id in Step(s, e).open ==> !Step(s, e).open[id]
  }

  ghost predicate AllRearmsSettled<D, E>(s: Poll<D, E>, events: seq<Event<D, E>>)
    decreases |events|
  {
    events != [] ==> RearmsSettled(s, events[0]) && AllRearmsSettled(Step(s, events[0]), events[1..])
  }

  lemma RenderKeepsOrder<D, E>(s: Poll<D, E>, enabled: bool, newFetcher: bool, tick: bool, hidden: bool)
    requires Orderly(s) && s.mounted
    requires RearmsSettled(s, Render(enabled, newFetcher, tick, hidden))
    ensures Orderly(Rendered(s, enabled, newFetcher, tick, hidden))
  {
  }

  lemma StepKeepsOrder<D, E>(s: Poll<D, E>, e: Event<D, E>)
    requires Orderly(s) && RearmsSettled(s, e)
    ensures Orderly(Step(s, e))
  {
    match e
    case Render(enabled, newFetcher, tick, hidden) =>
      if s.mounted { RenderKeepsOrder(s, enabled, newFetcher, tick, hidden); }
    case Settle(id, outcome) => SettleKeepsOrder(s, id, outcome);
    case _ =>
  }

  lemma SettleKeepsOrder<D, E>(s: Poll<D, E>, id: nat, outcome: Outcome<D, E>)
    requires Orderly(s)
    ensures Orderly(Settled(s, id, outcome))
  {
  }

  /**
   Two requests never overlap in a run in which every re-enable, new fetcher or late refresh that
   starts a fetch finds the aborted ones settled.
   */
  lemma {:induction false} NoOverlapWhenSettled<D, E>(s: Poll<D, E>, events: seq<Event<D, E>>)
    requires Orderly(s) && AllRearmsSettled(s, events)
    ensures Orderly(Run(s, events)) && NoOverlap(Run(s, events))
    decreases |events|
  {
    if events != [] {
      StepKeepsOrder(s, events[0]);
      NoOverlapWhenSettled(Step(s, events[0]), events[1..]);
    }
  }

  /** A hook just mounted starts out that way. */
  lemma MountedIsOrderly<D, E>(base: nat, enabled: bool, tick: bool)
    ensures Orderly(Mounted<D, E>(base, enabled, tick))
  {
  }

  /** No re-render and no unmount: nothing aborts a fetch. */
  predicate Undisturbed<D, E>(events: seq<Event<D, E>>) {
    forall i :: 0 <= i < |events| ==> !events[i].Render? && !events[i].Unmount?
  }

  /** One fetch on its own, or none at all. */
  ghost predicate Single<D, E>(s: Poll<D, E>) {
    Clear(s) && (!s.inFlight ==> s.open == map[])
  }

  lemma {:induction false} SingleStays<D, E>(s: Poll<D, E>, events: seq<Event<D, E>>)
    requires Single(s) && Undisturbed(events)
    ensures NoOverlap(Run(s, events))
    decreases |events|
  {
    if events != [] {
      assert Single(Step(s, events[0]));
      SingleStays(Step(s, events[0]), events[1..]);
    }
  }

  /** The late settle of an aborted fetch frees the slot under the new one, and a refresh overlaps it. */
  lemma StaleFetchOverlaps<D, E>(s: Poll<D, E>, id: nat)
    requires s.enabled && Clear(s) && !s.inFlight && id in s.open && s.next !in s.open
    ensures !NoOverlap(Run(Started(s), [Settle(id, AbortError), Refresh(false)]))
  {
    var t, settle, refresh := Started(s), Event<D, E>.Settle(id, AbortError), Event<D, E>.Refresh(false);
    var late := Step(t, settle);
    var both := Step(late, refresh);
    assert [settle, refresh][1..] == [refresh] && [refresh][1..] == [];
    assert Run(late, [refresh]) == Run(both, []);
    assert Run(t, [settle, refresh]) == both;
    assert s.next in both.open && s.next + 1 in both.open && !both.open[s.next] && !both.open[s.next + 1];
  }

  /**
   Starting a fetch can lead to overlapping requests, with nothing re-rendered, exactly when an
   aborted fetch is still unsettled at that moment.
   */
  lemma OverlapExactlyWhenStale<D, E>(s: Poll<D, E>)
    requires s.enabled && Clear(s) && !s.inFlight && forall id :: id in s.open ==> id < s.next
    ensures (forall events :: Undisturbed(events) ==> NoOverlap(Run(Started(s), events))) <==> s.open == map[]
  {
    if s.open == map[] {
      forall events | Undisturbed<D, E>(events) ensures NoOverlap(Run(Started(s), events)) {
        SingleStays(Started(s), events);
      }
    } else {
      var id :| id in s.open;
      StaleFetchOverlaps(s, id);
      assert Undisturbed<D, E>([Settle(id, AbortError), Refresh(false)]);
    }
  }

  // ----- what each event does

  /** A run takes its events one after the other. */
  lemma {:induction false} RunAppend<D, E>(s: Poll<D, E>, events: seq<Event<D, E>>, e: Event<D, E>)
    ensures Run(s, []) == s && Run(s, events + [e]) == Step(Run(s, events), e)
    decreases |events|
  {
    if events == [] {
      assert events + [e] == [e] && [e][1..] == [];
    } else {
      assert (events + [e])[1..] == events[1..] + [e];
      RunAppend(Step(s, events[0]), events[1..], e);
    }
  }

  /** A new fetch holds the slot, not aborted; nothing else changed. */
  ghost predicate FetchUnderWay<D, E>(s: Poll<D, E>, t: Poll<D, E>) {
    && t.inFlight && t.slot == Some(s.next) && t.next == s.next + 1 && t.open == s.open[s.next := false]
    && t.mounted == s.mounted && t.enabled == s.enabled && t.tick == s.tick && SameDisplay(s, t)
  }

  /**
   A tick or a return to the tab starts a fetch exactly when the mounted hook is enabled, ticking,
   visible and idle; a refresh does not ask whether it is mounted or ticking.
   */
  lemma EventStarts<D, E>(s: Poll<D, E>, e: Event<D, E>)
    requires e.Tick? || e.Visibility? || e.Refresh?
    ensures var starts := s.enabled && !s.inFlight && !e.hidden && (e.Refresh? || (s.mounted && s.tick));
            if starts then FetchUnderWay(s, Step(s, e)) else Step(s, e) == s
  {
  }

  /** Mounting fetches at once exactly when the hook is enabled. */
  lemma MountFetches<D, E>(base: nat, enabled: bool, tick: bool)
    ensures var s := Mounted<D, E>(base, enabled, tick);
            && s.mounted && s.enabled == enabled && s.tick == tick && s.inFlight == enabled
            && s.open == (if enabled then map[0 := false] else map[]) && s.next == (if enabled then 1 else 0)
            && s.slot == (if enabled then Some(0) else None)
            && s.snapshot == None && s.error == None && s.backoff == s.base == base && s.log == []
  {
  }

  /** What a re-render takes over, aborts and starts. */
  lemma RenderDoes<D, E>(s: Poll<D, E>, enabled: bool, newFetcher: bool, tick: bool, hidden: bool)
    requires s.mounted
    ensures var t := Step(s, Render(enabled, newFetcher, tick, hidden));
            var rerun := enabled != s.enabled || newFetcher;
            var cleans := rerun && s.enabled;
            var entersLive := tick && !s.tick && !hidden;
            && t.mounted && t.enabled == enabled && t.tick == tick && SameDisplay(s, t)
            && (t.next > s.next <==> (!s.inFlight || cleans) && ((rerun && enabled) || entersLive))
            && t.next <= s.next + 1
            && (t.next > s.next ==> t.inFlight && t.slot == Some(s.next) && s.next in t.open && !t.open[s.next])
            && (t.next == s.next ==> t.inFlight == (s.inFlight && !cleans) && t.slot == s.slot)
            && forall id :: id in s.open && id != s.next ==>
                 id in t.open && t.open[id] == (s.open[id] || (cleans && s.slot == Some(id)))
  {
  }

  /** Whoever settles frees the slot; only a fetch that was not aborted shows its result. */
  lemma SettleShows<D, E>(s: Poll<D, E>, id: nat, outcome: Outcome<D, E>)
    requires id in s.open
    ensures var t := Step(s, Settle(id, outcome));
            var shows := !s.open[id] && !outcome.AbortError?;
            && !t.inFlight && t.open == s.open - {id} && t.next == s.next
            && t.slot == (if s.slot == Some(id) then None else s.slot)
            && t.snapshot == (if shows && outcome.Loaded? then Some(outcome.data) else s.snapshot)
            && t.error == (if !shows then s.error else if outcome.Loaded? then None else Some(outcome.error))
            && t.log == s.log + (if shows then [Published(id, outcome)] else [])
            && (!shows ==> t.backoff == s.backoff) && (shows && outcome.Loaded? ==> t.backoff == s.base)
  {
  }

  /** An unmount aborts the fetch in the slot of an enabled hook and starts nothing. */
  lemma UnmountAborts<D, E>(s: Poll<D, E>)
    requires s.mounted
    ensures var t := Step(s, Unmount);
            && !t.mounted && t.next == s.next && SameDisplay(s, t) && t.open.Keys == s.open.Keys
            && t.inFlight == (s.inFlight && !s.enabled)
            && forall id :: id in s.open ==> t.open[id] == (s.open[id] || (s.enabled && s.slot == Some(id)))
  {
  }

  // ----- entering live mode

  /**
   A render that leaves the hook disabled starts a fetch exactly when it turns ticking on in a
   visible tab and, after the cleanup, nothing is in flight: the effect asks as if it were enabled.
   */
  lemma DisabledRenderFetches<D, E>(s: Poll<D, E>, newFetcher: bool, tick: bool, hidden: bool)
    requires s.mounted
    ensures Step(s, Render(false, newFetcher, tick, hidden)).next > s.next <==>
            tick && !s.tick && !hidden && (s.enabled || !s.inFlight)
  {
  }

  /** A hook that was never enabled fetches all the same. */
  lemma NeverEnabledFetches<D, E>(base: nat)
    ensures var s := Run(Mounted<D, E>(base, false, false), [Render(false, false, true, false)]);
            !s.enabled && s.inFlight && s.open == map[0 := false]
  {
    var s, e := Mounted<D, E>(base, false, false), Event<D, E>.Render(false, false, true, false);
    DisabledRenderFetches(s, false, true, false);
    assert Run(s, [e]) == Run(Step(s, e), []);
  }
}
