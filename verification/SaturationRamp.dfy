/**
 The saturation ramp: waves of a thread pool whose requests go through one `Harness` that counts
 how many are in flight. Steps of different threads interleave freely within a wave.
 */
module SaturationRamp {
  import opened Counting
  import opened Numbers

  datatype Entry = Entry(level: nat, canary: bool, task: nat, atSend: nat, atReply: nat)

  /** A pool thread: free, with a task that passed the stop check, inside `send`, or about to log. */
  datatype Phase = Idle | Ready(task: nat) | Inside(task: nat, atSend: nat) | Replied(task: nat, atSend: nat, atReply: nat)

  datatype Ramp = Ramp(level: nat, tasks: nat, taken: nat, phases: seq<Phase>, stop: bool,
                       inflight: nat, peak: nat, log: seq<Entry>)

  datatype Action =
    | Take(thread: nat)                 // the next task, dropped when the stop event is set
    | Enter(thread: nat)
    | Leave(thread: nat)
    | Log(thread: nat, stops: bool)     // `stops`: a failure without --continue-after-400
    | NextWave(level: nat, tasks: nat)  // the pool is joined, a new one starts
    | Canary                            // fired by the main thread between waves

  /** Before the first wave. */
  function Initial(): (s: Ramp)
    ensures Inv(s)
  {
    Ramp(0, 0, 0, [], false, 0, 0, [])
  }

  /** The pool's `with` block is over: every task taken, every thread free. */
  predicate Joined(s: Ramp) {
    s.taken == s.tasks && forall t :: 0 <= t < |s.phases| ==> s.phases[t] == Idle
  }

  predicate Enabled(s: Ramp, a: Action) {
    match a
    case Take(t) => t < |s.phases| && s.phases[t] == Idle && s.taken < s.tasks
    case Enter(t) => t < |s.phases| && s.phases[t].Ready?
    case Leave(t) => t < |s.phases| && s.phases[t].Inside?
    case Log(t, _) => t < |s.phases| && s.phases[t].Replied?
    case NextWave(level, _) => Joined(s) && !s.stop && level > 0
    case Canary => Joined(s)
  }

  /** `fire` up to the send: one more in flight, and the depth is noted. */
  function Entered(s: Ramp, t: nat): Ramp
    requires t < |s.phases| && s.phases[t].Ready?
  {
    var depth := s.inflight + 1;
    s.(inflight := depth, peak := Max(s.peak, depth), phases := s.phases[t := Inside(s.phases[t].task, depth)])
  }

  function Leaving(s: Ramp, t: nat): Ramp
    requires t < |s.phases| && s.phases[t].Inside? && s.inflight > 0
  {
    s.(inflight := s.inflight - 1, phases := s.phases[t := Replied(s.phases[t].task, s.phases[t].atSend, s.inflight)])
  }

  function Logged(s: Ramp, t: nat, stops: bool): Ramp
    requires t < |s.phases| && s.phases[t].Replied?
  {
    var p := s.phases[t];
    s.(phases := s.phases[t := Idle], stop := s.stop || stops,
       log := s.log + [Entry(s.level, false, p.task, p.atSend, p.atReply)])
  }

  function Step(s: Ramp, a: Action): Ramp
    requires Inv(s) && Enabled(s, a)
  {
    match a
    case Take(t) =>
      s.(taken := s.taken + 1, phases := if s.stop then s.phases else s.phases[t := Ready(s.taken + 1)])
    case Enter(t) => Entered(s, t)
    case Leave(t) => InsideCounts(s, t); Leaving(s, t)
    case Log(t, stops) => Logged(s, t, stops)
    case NextWave(level, tasks) =>
      s.(level := level, tasks := tasks, taken := 0, phases := seq(level, _ => Idle))
    case Canary =>
      s.(peak := Max(s.peak, s.inflight + 1), log := s.log + [Entry(s.level, true, 1, s.inflight + 1, s.inflight + 1)])
  }

  // ----- the harness object

  class Harness {
    var inflight: nat
    var peakInflight: nat
    var log: seq<Entry>

    constructor ()
      ensures inflight == 0 && peakInflight == 0 && log == []
    {
      inflight, peakInflight, log := 0, 0, [];
    }

    /** The first `with self.lock` of `fire`. */
    method EnterSend(ghost s: Ramp, t: nat) returns (depthAtSend: nat)
      requires Inv(s) && Enabled(s, Enter(t)) && inflight == s.inflight && peakInflight == s.peak && log == s.log
      modifies this
      ensures var s' := Step(s, Enter(t));
              && inflight == s'.inflight && peakInflight == s'.peak && log == s'.log
              && s'.phases[t] == Inside(s.phases[t].task, depthAtSend)
    {
      inflight := inflight + 1;
      depthAtSend := inflight;
      peakInflight := if inflight > peakInflight then inflight else peakInflight;
    }

    /** The second: what is in flight as the reply arrives still counts this request. */
    method LeaveSend(ghost s: Ramp, t: nat) returns (depthAtReply: nat)
      requires Inv(s) && Enabled(s, Leave(t)) && inflight == s.inflight && peakInflight == s.peak && log == s.log
      modifies this
      ensures var s' := Step(s, Leave(t));
              && inflight == s'.inflight && peakInflight == s'.peak && log == s'.log
              && s'.phases[t] == Replied(s.phases[t].task, s.phases[t].atSend, depthAtReply)
    {
      InsideCounts(s, t);
      depthAtReply := inflight;
      inflight := inflight - 1;
    }

    method AppendLog(ghost s: Ramp, t: nat, stops: bool, entry: Entry)
      requires Inv(s) && Enabled(s, Log(t, stops)) && inflight == s.inflight && peakInflight == s.peak && log == s.log
      requires entry == Entry(s.level, false, s.phases[t].task, s.phases[t].atSend, s.phases[t].atReply)
      modifies this
      ensures var s' := Step(s, Log(t, stops)); inflight == s'.inflight && peakInflight == s'.peak && log == s'.log
    {
      log := log + [entry];
    }
  }

  // ----- what every run keeps

  predicate IsInside(p: Phase) {
    p.Inside?
  }

  /** The deepest send the log or a thread holds. */
  function Deepest(log: seq<Entry>): nat {
    if log == [] then 0 else Max(Deepest(log[..|log| - 1]), log[|log| - 1].atSend)
  }

  function Depth(p: Phase): nat {
    match p
    case Inside(_, d) => d
    case Replied(_, d, _) => d
    case _ => 0
  }

  function Underway(ps: seq<Phase>): nat {
    if ps == [] then 0 else Max(Underway(ps[..|ps| - 1]), Depth(ps[|ps| - 1]))
  }

  predicate EntryOk(e: Entry) {
    1 <= e.atSend && 1 <= e.atReply && (e.canary || (e.atSend <= e.level && e.atReply <= e.level))
  }

  predicate PhaseOk(p: Phase, level: nat) {
    match p
    case Inside(_, d) => 1 <= d <= level
    case Replied(_, d, r) => 1 <= d <= level && 1 <= r <= level
    case _ => true
  }

  ghost predicate Inv(s: Ramp) {
    && |s.phases| == s.level
    && s.inflight == Count(s.phases, IsInside)
    && s.peak == Max(Deepest(s.log), Underway(s.phases))
    && EntriesOk(s) && PhasesOk(s)
  }

  ghost predicate EntriesOk(s: Ramp) {
    forall i :: 0 <= i < |s.log| ==> EntryOk(s.log[i])
  }

  ghost predicate PhasesOk(s: Ramp) {
    forall t :: 0 <= t < |s.phases| ==> PhaseOk(s.phases[t], s.level)
  }

  lemma InsideCounts(s: Ramp, t: nat)
    requires Inv(s) && t < |s.phases| && s.phases[t].Inside?
    ensures 0 < s.inflight <= s.level
  {
    CountBounds(s.phases, IsInside);
  }

  lemma {:induction false} UnderwayBounds(ps: seq<Phase>, t: nat)
    requires t < |ps|
    ensures Depth(ps[t]) <= Underway(ps)
  {
    if t < |ps| - 1 { UnderwayBounds(ps[..|ps| - 1], t); }
  }

  lemma {:induction false} UnderwayUpdate(ps: seq<Phase>, t: nat, p: Phase)
    requires t < |ps| && Depth(p) >= Depth(ps[t])
    ensures Underway(ps[t := p]) == Max(Underway(ps), Depth(p))
  {
    if t == |ps| - 1 {
      assert ps[t := p][..t] == ps[..t];
    } else {
      assert ps[t := p][..|ps| - 1] == ps[..|ps| - 1][t := p];
      UnderwayUpdate(ps[..|ps| - 1], t, p);
    }
  }

  /** Taking a thread's depth out and remembering it elsewhere loses nothing. */
  lemma {:induction false} UnderwayMoved(ps: seq<Phase>, t: nat)
    requires t < |ps|
    ensures Max(Underway(ps[t := Idle]), Depth(ps[t])) == Underway(ps)
  {
    if t == |ps| - 1 {
      assert ps[t := Idle][..t] == ps[..t];
    } else {
      assert ps[t := Idle][..|ps| - 1] == ps[..|ps| - 1][t := Idle];
      UnderwayMoved(ps[..|ps| - 1], t);
    }
  }

  lemma {:induction false} AllIdle(ps: seq<Phase>)
    requires forall t :: 0 <= t < |ps| ==> ps[t] == Idle
    ensures Underway(ps) == 0 && Count(ps, IsInside) == 0
  {
    if ps != [] { AllIdle(ps[..|ps| - 1]); }
  }

  /** A request enters only while fewer than `level` are inside: its own thread is not. */
  lemma RoomToEnter(s: Ramp, t: nat)
    requires Inv(s) && t < |s.phases| && !s.phases[t].Inside?
    ensures s.inflight < s.level
  {
    CountBounds(s.phases, IsInside);
  }

  lemma TakeKeepsInv(s: Ramp, t: nat)
    requires Inv(s) && Enabled(s, Take(t))
    ensures Inv(Step(s, Take(t)))
  {
    CountUpdate(s.phases, IsInside, t, Ready(s.taken + 1));
    UnderwayUpdate(s.phases, t, Ready(s.taken + 1));
  }

  lemma EnterKeepsInv(s: Ramp, t: nat)
    requires Inv(s) && Enabled(s, Enter(t))
    ensures Inv(Step(s, Enter(t)))
  {
    var p := Inside(s.phases[t].task, s.inflight + 1);
    RoomToEnter(s, t);
    CountUpdate(s.phases, IsInside, t, p);
    UnderwayUpdate(s.phases, t, p);
    PhaseSet(s, t, p);
  }

  lemma PhaseSet(s: Ramp, t: nat, p: Phase)
    requires PhasesOk(s) && t < |s.phases| && PhaseOk(p, s.level)
    ensures PhasesOk(s.(phases := s.phases[t := p]))
  {
  }

  lemma LeaveKeepsInv(s: Ramp, t: nat)
    requires Inv(s) && Enabled(s, Leave(t))
    ensures Inv(Step(s, Leave(t)))
  {
    InsideCounts(s, t);
    var p := Replied(s.phases[t].task, s.phases[t].atSend, s.inflight);
    CountUpdate(s.phases, IsInside, t, p);
    UnderwayUpdate(s.phases, t, p);
    UnderwayBounds(s.phases, t);
  }

  lemma LogKeepsInv(s: Ramp, t: nat, stops: bool)
    requires Inv(s) && Enabled(s, Log(t, stops))
    ensures Inv(Step(s, Log(t, stops)))
  {
    CountUpdate(s.phases, IsInside, t, Idle);
    LogKeepsPeak(s, t, stops);
    LogKeepsEntries(s, t, stops);
  }

  lemma LogKeepsPeak(s: Ramp, t: nat, stops: bool)
    requires t < |s.phases| && s.phases[t].Replied? && s.peak == Max(Deepest(s.log), Underway(s.phases))
    ensures var d := Logged(s, t, stops); d.peak == Max(Deepest(d.log), Underway(d.phases))
  {
    UnderwayMoved(s.phases, t);
    assert Logged(s, t, stops).log[..|s.log|] == s.log;
  }

  lemma LogKeepsEntries(s: Ramp, t: nat, stops: bool)
    requires t < |s.phases| && s.phases[t].Replied? && EntriesOk(s) && PhasesOk(s)
    ensures EntriesOk(Logged(s, t, stops)) && PhasesOk(Logged(s, t, stops))
  {
    assert PhaseOk(s.phases[t], s.level);
  }

  lemma StepKeepsInv(s: Ramp, a: Action)
    requires Inv(s) && Enabled(s, a)
    ensures Inv(Step(s, a))
  {
    match a
    case Take(t) => TakeKeepsInv(s, t);
    case Enter(t) => EnterKeepsInv(s, t);
    case Leave(t) => LeaveKeepsInv(s, t);
    case Log(t, stops) => LogKeepsInv(s, t, stops);
    case NextWave(level, tasks) => WaveKeepsInv(s, level, tasks);
    case Canary => CanaryKeepsInv(s);
  }

  lemma WaveKeepsInv(s: Ramp, level: nat, tasks: nat)
    requires Inv(s) && Enabled(s, NextWave(level, tasks))
    ensures Inv(Step(s, NextWave(level, tasks)))
  {
    AllIdle(s.phases);
    AllIdle(Step(s, NextWave(level, tasks)).phases);
  }

  lemma CanaryKeepsInv(s: Ramp)
    requires Inv(s) && Enabled(s, Canary)
    ensures Inv(Step(s, Canary))
  {
    AllIdle(s.phases);
    DeepestAppend(s.log, Entry(s.level, true, 1, 1, 1));
    forall i | 0 <= i < |s.log| ensures EntryOk(s.log[i]) {}
  }

  lemma DeepestAppend(log: seq<Entry>, e: Entry)
    ensures Deepest(log + [e]) == Max(Deepest(log), e.atSend)
  {
    assert (log + [e])[..|log|] == log;
  }

  ghost predicate Schedule(s: Ramp, actions: seq<Action>)
    requires Inv(s)
    decreases |actions|
  {
    actions != [] ==>
      Enabled(s, actions[0]) && (StepKeepsInv(s, actions[0]); Schedule(Step(s, actions[0]), actions[1..]))
  }

  ghost function Run(s: Ramp, actions: seq<Action>): (t: Ramp)
    requires Inv(s) && Schedule(s, actions)
    ensures Inv(t)
    decreases |actions|
  {
    if actions == [] then s
    else
      StepKeepsInv(s, actions[0]);
      Run(Step(s, actions[0]), actions[1..])
  }

  /**
   At every point of every run the counter is the number of threads between entry and exit and
   never above the wave's level; each logged depth is within its own wave's level.
   */
  lemma InflightWithinLevel(actions: seq<Action>)
    requires Schedule(Initial(), actions)
    ensures var s := Run(Initial(), actions);
            && s.inflight == Count(s.phases, IsInside) <= s.level
            && forall i :: 0 <= i < |s.log| && !s.log[i].canary ==> 1 <= s.log[i].atSend <= s.log[i].level
  {
    var s := Run(Initial(), actions);
    CountBounds(s.phases, IsInside);
    forall i | 0 <= i < |s.log| ensures EntryOk(s.log[i]) {}
  }

  /** When a wave is joined nothing is in flight, and the peak is the deepest send on record. */
  lemma EndsAtZero(actions: seq<Action>)
    requires Schedule(Initial(), actions) && Joined(Run(Initial(), actions))
    ensures var s := Run(Initial(), actions); s.inflight == 0 && s.peak == Deepest(s.log)
  {
    AllIdle(Run(Initial(), actions).phases);
  }

  /** The recorded maximum is reached by some request, and no request went deeper. */
  lemma {:induction false} DeepestIsMaximum(log: seq<Entry>)
    ensures forall i :: 0 <= i < |log| ==> log[i].atSend <= Deepest(log)
    ensures log != [] ==> exists i :: 0 <= i < |log| && log[i].atSend == Deepest(log)
  {
    if log != [] {
      var init := log[..|log| - 1];
      DeepestIsMaximum(init);
      if init != [] && Deepest(init) >= log[|log| - 1].atSend {
        var i :| 0 <= i < |init| && init[i].atSend == Deepest(init);
        assert log[i].atSend == Deepest(log);
      } else {
        assert log[|log| - 1].atSend == Deepest(log);
      }
    }
  }

  lemma {:induction false} RunAppend(s: Ramp, actions: seq<Action>, a: Action)
    requires Inv(s) && Schedule(s, actions) && Enabled(Run(s, actions), a)
    ensures Schedule(s, actions + [a]) && Run(s, []) == s
    ensures Run(s, actions + [a]) == Step(Run(s, actions), a)
    decreases |actions|
  {
    if actions == [] {
      assert [] + [a] == [a];
    } else {
      StepKeepsInv(s, actions[0]);
      assert (actions + [a])[1..] == actions[1..] + [a];
      RunAppend(Step(s, actions[0]), actions[1..], a);
    }
  }

  // ----- every task of a wave is sent once

  /** A wave of free threads starts at once, none of its tasks taken. */
  lemma WaveStarts(s: Ramp, level: nat, tasks: nat)
    requires Inv(s) && level > 0 && (s == Initial() || (Joined(s) && !s.stop))
    ensures Enabled(s, NextWave(level, tasks))
    ensures var t := Step(s, NextWave(level, tasks));
      && t.level == level && |t.phases| == level && (forall i :: 0 <= i < level ==> t.phases[i] == Idle)
      && t.tasks == tasks && t.taken == 0 && !t.stop && t.log == s.log
      && (s == Initial() ==> t.log == [] && t.peak == 0)
  {
    assert Joined(Initial()) && !Initial().stop;
  }

  function Holds(task: nat): Phase -> bool {
    (p: Phase) => p != Idle && p.task == task
  }

  function Of(task: nat): Entry -> bool {
    (e: Entry) => !e.canary && e.task == task
  }

  /** How often the task stands in the log since entry `from`, or with a thread. */
  ghost function Sent(s: Ramp, from: nat, task: nat): nat
    requires from <= |s.log|
  {
    Count(s.log[from..], Of(task)) + Count(s.phases, Holds(task))
  }

  /** Each task taken so far is there once, unless the stop event dropped it; no other is. */
  ghost predicate SentOnce(s: Ramp, from: nat, task: nat) {
    && from <= |s.log| && s.taken <= s.tasks
    && Sent(s, from, task) <= (if 1 <= task <= s.taken then 1 else 0)
    && (!s.stop ==> Sent(s, from, task) == if 1 <= task <= s.taken then 1 else 0)
  }

  lemma StepSendsOnce(s: Ramp, a: Action, from: nat, task: nat)
    requires Inv(s) && Enabled(s, a) && SentOnce(s, from, task) && !a.NextWave? && !a.Canary?
    ensures SentOnce(Step(s, a), from, task) && Step(s, a).tasks == s.tasks
  {
    match a
    case Take(t) => CountUpdate(s.phases, Holds(task), t, Ready(s.taken + 1));
    case Enter(t) => CountUpdate(s.phases, Holds(task), t, Entered(s, t).phases[t]);
    case Leave(t) => InsideCounts(s, t); CountUpdate(s.phases, Holds(task), t, Leaving(s, t).phases[t]);
    case Log(t, stops) => LogSendsOnce(s, t, stops, from, task);
  }

  lemma LogSendsOnce(s: Ramp, t: nat, stops: bool, from: nat, task: nat)
    requires t < |s.phases| && s.phases[t].Replied? && SentOnce(s, from, task)
    ensures SentOnce(Logged(s, t, stops), from, task)
  {
    CountUpdate(s.phases, Holds(task), t, Idle);
    var after := Logged(s, t, stops).log[from..];
    assert after[..|after| - 1] == s.log[from..];
  }

  lemma {:induction false} RunSendsOnce(s: Ramp, actions: seq<Action>, from: nat, task: nat)
    requires Inv(s) && Schedule(s, actions) && SentOnce(s, from, task)
    requires forall i :: 0 <= i < |actions| ==> !actions[i].NextWave? && !actions[i].Canary?
    ensures SentOnce(Run(s, actions), from, task) && Run(s, actions).tasks == s.tasks
    decreases |actions|
  {
    if actions != [] {
      StepKeepsInv(s, actions[0]);
      StepSendsOnce(s, actions[0], from, task);
      RunSendsOnce(Step(s, actions[0]), actions[1..], from, task);
    }
  }

  /** A wave that is joined unstopped has logged each of its tasks once; a stopped one none of them twice. */
  lemma WaveSendsEachTaskOnce(s: Ramp, level: nat, tasks: nat, actions: seq<Action>, task: nat)
    requires Inv(s) && Enabled(s, NextWave(level, tasks)) && Inv(Step(s, NextWave(level, tasks)))
    requires Schedule(Step(s, NextWave(level, tasks)), actions)
    requires forall i :: 0 <= i < |actions| ==> !actions[i].NextWave? && !actions[i].Canary?
    requires Joined(Run(Step(s, NextWave(level, tasks)), actions))
    ensures var t := Run(Step(s, NextWave(level, tasks)), actions);
      && |s.log| <= |t.log|
      && var times := Count(t.log[|s.log|..], Of(task));
      times <= (if 1 <= task <= tasks then 1 else 0) && (!t.stop ==> times == if 1 <= task <= tasks then 1 else 0)
  {
    var first := Step(s, NextWave(level, tasks));
    CountBounds(first.phases, Holds(task));
    assert first.log[|s.log|..] == [];
    RunSendsOnce(first, actions, |s.log|, task);
    CountBounds(Run(first, actions).phases, Holds(task));
  }

  // ----- behind the stop event

  predicate IsLoad(e: Entry) {
    !e.canary
  }

  predicate IsBusy(p: Phase) {
    p != Idle
  }

  function Loads(log: seq<Entry>): nat {
    Count(log, IsLoad)
  }

  function Busy(ps: seq<Phase>): nat {
    Count(ps, IsBusy)
  }

  lemma StepDrains(s: Ramp, a: Action)
    requires Inv(s) && Enabled(s, a) && s.stop
    ensures var t := Step(s, a); t.stop && Loads(t.log) + Busy(t.phases) == Loads(s.log) + Busy(s.phases)
  {
    match a
    case Take(t) =>
    case Enter(t) => CountUpdate(s.phases, IsBusy, t, Entered(s, t).phases[t]);
    case Leave(t) => InsideCounts(s, t); CountUpdate(s.phases, IsBusy, t, Leaving(s, t).phases[t]);
    case Log(t, stops) => CountUpdate(s.phases, IsBusy, t, Idle); assert Logged(s, t, stops).log[..|s.log|] == s.log;
    case Canary => assert Step(s, Canary).log[..|s.log|] == s.log;
  }

  /** Once the event is set no request starts: just those the threads hold are still logged. */
  lemma {:induction false} StopDrains(s: Ramp, actions: seq<Action>)
    requires Inv(s) && s.stop && Schedule(s, actions)
    ensures var t := Run(s, actions);
      t.stop && Loads(t.log) + Busy(t.phases) == Loads(s.log) + Busy(s.phases) && Busy(s.phases) <= s.level
    decreases |actions|
  {
    CountBounds(s.phases, IsBusy);
    if actions != [] {
      StepKeepsInv(s, actions[0]);
      StepDrains(s, actions[0]);
      StopDrains(Step(s, actions[0]), actions[1..]);
    }
  }

  /** A load that fails sets the event, and then just what the threads held with it is logged; no wave follows. */
  lemma FailureDrains(s: Ramp, t: nat, actions: seq<Action>)
    requires Inv(s) && Enabled(s, Log(t, true)) && Inv(Step(s, Log(t, true)))
    requires Schedule(Step(s, Log(t, true)), actions)
    ensures var u := Run(Step(s, Log(t, true)), actions);
      && Loads(u.log) + Busy(u.phases) == Loads(s.log) + Busy(s.phases)
      && forall level, tasks :: !Enabled(u, NextWave(level, tasks))
    ensures Step(s, Log(t, false)).stop == s.stop
  {
    var u := Step(s, Log(t, true));
    CountUpdate(s.phases, IsBusy, t, Idle);
    assert u.log[..|s.log|] == s.log;
    StopDrains(u, actions);
  }
}
