/**
 The probe workers of the replica hunt: each checks the stop flag, claims the next number under
 the lock, sends its probe, and records the result under the lock. Steps of different workers
 interleave freely.
 */
module WorkerPool {
  import opened Counting

  /** Where a worker stands. `Quit` saw the stop flag, `Exhausted` claimed a number past the end. */
  datatype Phase = AtTop | Checked | Sending(probe: nat) | Quit | Exhausted

  datatype Result = Result(probe: nat, worker: nat)

  datatype Pool = Pool(counter: nat, stop: bool, phases: seq<Phase>, results: seq<Result>)

  datatype Action =
    | Check(worker: nat)
    | Claim(worker: nat)
    | Record(worker: nat, shed: bool)   // the reply is in; `shed` with --stop-on-shed sets the flag

  function Initial(concurrency: nat): Pool {
    Pool(0, false, seq(concurrency, _ => AtTop), [])
  }

  predicate Enabled(s: Pool, a: Action) {
    a.worker < |s.phases| &&
    match a
    case Check(w) => s.phases[w] == AtTop
    case Claim(w) => s.phases[w] == Checked
    case Record(w, _) => s.phases[w].Sending?
  }

  function Moved(s: Pool, w: nat, p: Phase): Pool
    requires w < |s.phases|
  {
    s.(phases := s.phases[w := p])
  }

  function Step(s: Pool, a: Action, count: nat): Pool
    requires Enabled(s, a)
  {
    match a
    case Check(w) => Moved(s, w, if s.stop then Quit else Checked)
    case Claim(w) =>
      var i := s.counter + 1;
      Moved(s, w, if i > count then Exhausted else Sending(i)).(counter := i)
    case Record(w, shed) =>
      Moved(s, w, AtTop).(results := s.results + [Result(s.phases[w].probe, w)], stop := s.stop || shed)
  }

  /** A schedule: every action enabled when its turn comes. */
  predicate Schedule(s: Pool, actions: seq<Action>, count: nat)
    decreases |actions|
  {
    actions != [] ==> Enabled(s, actions[0]) && Schedule(Step(s, actions[0], count), actions[1..], count)
  }

  function Run(s: Pool, actions: seq<Action>, count: nat): Pool
    requires Schedule(s, actions, count)
    decreases |actions|
  {
    if actions == [] then s else Run(Step(s, actions[0], count), actions[1..], count)
  }

  // ----- the shared state and a worker's turns

  class Hunt {
    const count: nat
    var counter: nat
    var stopped: bool
    var results: seq<Result>
    var phases: seq<Phase>

    ghost function View(): Pool
      reads this
    {
      Pool(counter, stopped, phases, results)
    }

    constructor (count: nat, concurrency: nat)
      ensures View() == Initial(concurrency) && this.count == count
    {
      this.count := count;
      counter, stopped, results := 0, false, [];
      phases := seq(concurrency, _ => AtTop);
    }

    method CheckStop(w: nat)
      requires Enabled(View(), Check(w))
      modifies this
      ensures View() == Step(old(View()), Check(w), count)
    {
      phases := phases[w := if stopped then Quit else Checked];
    }

    /** The body of the first `with lock`, and the test that follows it. */
    method ClaimNext(w: nat)
      requires Enabled(View(), Claim(w))
      modifies this
      ensures View() == Step(old(View()), Claim(w), count)
    {
      counter := counter + 1;
      var i := counter;
      phases := phases[w := if i > count then Exhausted else Sending(i)];
    }

    /** The body of the second `with lock`. */
    method RecordResult(w: nat, shed: bool)
      requires Enabled(View(), Record(w, shed))
      modifies this
      ensures View() == Step(old(View()), Record(w, shed), count)
    {
      results := results + [Result(phases[w].probe, w)];
      if shed { stopped := true; }
      phases := phases[w := AtTop];
    }
  }

  // ----- what every schedule keeps

  predicate Recorded(s: Pool, i: nat) {
    exists r :: r in s.results && r.probe == i
  }

  predicate InHand(s: Pool, i: nat) {
    exists w :: 0 <= w < |s.phases| && s.phases[w] == Sending(i)
  }

  function Claimed(s: Pool, count: nat): nat {
    if s.counter <= count then s.counter else count
  }

  /** Every claimed number is recorded or in one worker's hand, never both and never twice. */
  ghost predicate ExactlyOnce(s: Pool, count: nat) {
    && (forall i, j :: 0 <= i < j < |s.results| ==> s.results[i].probe != s.results[j].probe)
    && (forall v, w :: 0 <= v < w < |s.phases| && s.phases[v].Sending? && s.phases[w].Sending? ==>
          s.phases[v].probe != s.phases[w].probe)
    && (forall i :: Recorded(s, i) ==> !InHand(s, i))
    && forall i: nat :: Recorded(s, i) || InHand(s, i) <==> 1 <= i <= Claimed(s, count)
  }

  predicate IsExhausted(p: Phase) {
    p == Exhausted
  }

  ghost predicate Counted(s: Pool, count: nat) {
    && Count(s.phases, IsExhausted) == (if s.counter > count then s.counter - count else 0)
    && (!s.stop ==> forall w :: 0 <= w < |s.phases| ==> s.phases[w] != Quit)
  }

  ghost predicate Inv(s: Pool, count: nat) {
    ExactlyOnce(s, count) && Counted(s, count)
  }

  lemma InitialInv(concurrency: nat, count: nat)
    ensures Inv(Initial(concurrency), count)
  {
    CountBounds(Initial(concurrency).phases, IsExhausted);
  }

  lemma MoveCounts(s: Pool, a: Action, count: nat)
    requires Enabled(s, a) && Counted(s, count)
    ensures Counted(Step(s, a, count), count)
  {
    CountUpdate(s.phases, IsExhausted, a.worker, Step(s, a, count).phases[a.worker]);
  }

  lemma ClaimKeepsOnce(s: Pool, w: nat, count: nat)
    requires Enabled(s, Claim(w)) && ExactlyOnce(s, count)
    ensures ExactlyOnce(Step(s, Claim(w), count), count)
  {
    var t := Step(s, Claim(w), count);
    var i := s.counter + 1;
    assert i <= count ==> !InHand(s, i) && !Recorded(s, i);
    forall j: nat ensures InHand(t, j) <==> InHand(s, j) || (i <= count && j == i) {
      HandsAfter(s, t, w, j);
    }
    forall j: nat ensures Recorded(t, j) <==> Recorded(s, j) {}
  }

  lemma HandsAfter(s: Pool, t: Pool, w: nat, j: nat)
    requires w < |s.phases| && |t.phases| == |s.phases| && t.phases == s.phases[w := t.phases[w]]
    ensures s.phases[w] != Sending(j) && t.phases[w] != Sending(j) ==> (InHand(t, j) <==> InHand(s, j))
    ensures t.phases[w] == Sending(j) ==> InHand(t, j)
    ensures s.phases[w] == Sending(j) ==> InHand(s, j)
  {
    if v :| 0 <= v < |s.phases| && s.phases[v] == Sending(j) && v != w { assert t.phases[v] == Sending(j); }
    if v :| 0 <= v < |t.phases| && t.phases[v] == Sending(j) && v != w { assert s.phases[v] == Sending(j); }
  }

  lemma RecordKeepsOnce(s: Pool, w: nat, shed: bool, count: nat)
    requires Enabled(s, Record(w, shed)) && ExactlyOnce(s, count)
    ensures ExactlyOnce(Step(s, Record(w, shed), count), count)
  {
    var t := Step(s, Record(w, shed), count);
    var i := s.phases[w].probe;
    assert InHand(s, i) && !Recorded(s, i);
    var r := Result(i, w);
    assert forall q :: q in t.results <==> q in s.results || q == r;
    forall j: nat ensures Recorded(t, j) <==> Recorded(s, j) || j == i {
      if j == i { assert r in t.results; }
    }
    forall j: nat ensures InHand(t, j) <==> InHand(s, j) && j != i {
      HandsAfter(s, t, w, j);
    }
    forall k | 0 <= k < |s.results| ensures s.results[k].probe != i {
      assert s.results[k] in s.results;
    }
  }

  lemma CheckKeepsOnce(s: Pool, w: nat, count: nat)
    requires Enabled(s, Check(w)) && ExactlyOnce(s, count)
    ensures ExactlyOnce(Step(s, Check(w), count), count)
  {
    var t := Step(s, Check(w), count);
    forall j: nat ensures InHand(t, j) <==> InHand(s, j) { HandsAfter(s, t, w, j); }
    forall j: nat ensures Recorded(t, j) <==> Recorded(s, j) {}
  }

  lemma StepKeepsInv(s: Pool, a: Action, count: nat)
    requires Enabled(s, a) && Inv(s, count)
    ensures Inv(Step(s, a, count), count)
  {
    MoveCounts(s, a, count);
    match a
    case Check(w) => CheckKeepsOnce(s, w, count);
    case Claim(w) => ClaimKeepsOnce(s, w, count);
    case Record(w, shed) => RecordKeepsOnce(s, w, shed, count);
  }

  lemma {:induction false} RunKeepsInv(s: Pool, actions: seq<Action>, count: nat)
    requires Schedule(s, actions, count) && Inv(s, count)
    ensures Inv(Run(s, actions, count), count) && |Run(s, actions, count).phases| == |s.phases|
    decreases |actions|
  {
    if actions != [] {
      StepKeepsInv(s, actions[0], count);
      RunKeepsInv(Step(s, actions[0], count), actions[1..], count);
    }
  }

  predicate Finished(s: Pool) {
    forall w :: 0 <= w < |s.phases| ==> s.phases[w] == Quit || s.phases[w] == Exhausted
  }

  /**
   When the threads are joined, every claimed number has exactly one result. If nobody stopped
   the hunt, these are all of 1..count, and each worker has moved the counter once past the end.
   */
  lemma EveryProbeOnce(concurrency: nat, count: nat, actions: seq<Action>)
    requires concurrency > 0
    requires Schedule(Initial(concurrency), actions, count) && Finished(Run(Initial(concurrency), actions, count))
    ensures var s := Run(Initial(concurrency), actions, count);
            && (forall i, j :: 0 <= i < j < |s.results| ==> s.results[i].probe != s.results[j].probe)
            && (forall i: nat :: Recorded(s, i) <==> 1 <= i <= Claimed(s, count))
            && (!s.stop ==> s.counter == count + concurrency && Claimed(s, count) == count)
  {
    InitialInv(concurrency, count);
    RunKeepsInv(Initial(concurrency), actions, count);
    var s := Run(Initial(concurrency), actions, count);
    forall i ensures !InHand(s, i) {}
    CountBounds(s.phases, IsExhausted);
  }

  // ----- after a stop

  /** The results a worker can still record once the flag is up. */
  function Left(p: Phase): nat {
    if p == Checked || p.Sending? then 1 else 0
  }

  function RecordedBy(results: seq<Result>, w: nat): nat {
    if results == [] then 0
    else RecordedBy(results[..|results| - 1], w) + if results[|results| - 1].worker == w then 1 else 0
  }

  lemma {:induction false} RecordedCount(results: seq<Result>, w: nat)
    ensures RecordedBy(results, w) == |set i | 0 <= i < |results| && results[i].worker == w|
  {
    var own := set i | 0 <= i < |results| && results[i].worker == w;
    if results == [] {
      assert own == {};
    } else {
      var init, n := results[..|results| - 1], |results| - 1;
      var before := set i | 0 <= i < |init| && init[i].worker == w;
      RecordedCount(init, w);
      assert n !in before && own == before + if results[n].worker == w then {n} else {};
    }
  }

  /** What a worker has recorded and may still record. */
  function Due(s: Pool, w: nat): nat {
    RecordedBy(s.results, w) + if w < |s.phases| then Left(s.phases[w]) else 0
  }

  lemma StepAfterStop(s: Pool, a: Action, count: nat, w: nat)
    requires Enabled(s, a) && s.stop
    ensures Step(s, a, count).stop && Due(Step(s, a, count), w) <= Due(s, w)
  {
    if a.Record? {
      assert Step(s, a, count).results[..|s.results|] == s.results;
    }
  }

  lemma {:induction false} DueNeverGrows(s: Pool, actions: seq<Action>, count: nat, w: nat)
    requires Schedule(s, actions, count) && s.stop
    ensures Due(Run(s, actions, count), w) <= Due(s, w)
    decreases |actions|
  {
    if actions != [] {
      StepAfterStop(s, actions[0], count, w);
      DueNeverGrows(Step(s, actions[0], count), actions[1..], count, w);
    }
  }

  /**
   Once a worker has recorded the result that sets the flag, it records nothing more, and every
   other worker at most one more probe.
   */
  lemma AtMostOneMoreAfterStop(s: Pool, stopper: nat, actions: seq<Action>, count: nat, w: nat)
    requires Enabled(s, Record(stopper, true)) && w < |s.phases|
    requires Schedule(Step(s, Record(stopper, true), count), actions, count)
    ensures var stopped := Step(s, Record(stopper, true), count);
            var more := RecordedBy(Run(stopped, actions, count).results, w) - RecordedBy(stopped.results, w);
            more <= (if w == stopper then 0 else 1)
  {
    DueNeverGrows(Step(s, Record(stopper, true), count), actions, count, w);
  }

  // ----- termination

  function Weight(p: Phase): nat {
    match p
    case AtTop => 1
    case Sending(_) => 2
    case _ => 0
  }

  function Weights(ps: seq<Phase>): nat {
    if ps == [] then 0 else Weights(ps[..|ps| - 1]) + Weight(ps[|ps| - 1])
  }

  lemma {:induction false} WeightsUpdate(ps: seq<Phase>, w: nat, p: Phase)
    requires w < |ps|
    ensures Weights(ps[w := p]) == Weights(ps) - Weight(ps[w]) + Weight(p)
  {
    if w == |ps| - 1 {
      assert ps[w := p][..w] == ps[..w];
    } else {
      assert ps[w := p][..|ps| - 1] == ps[..|ps| - 1][w := p];
      WeightsUpdate(ps[..|ps| - 1], w, p);
    }
  }

  /** The turns left, at most. */
  function Fuel(s: Pool, count: nat): int {
    3 * (count + |s.phases| - s.counter) + Weights(s.phases)
  }

  lemma CounterBound(s: Pool, count: nat)
    requires Counted(s, count)
    ensures s.counter <= count + |s.phases|
  {
    CountBounds(s.phases, IsExhausted);
  }

  /** No schedule is longer than its fuel, so the pool always comes to an end. */
  lemma {:induction false} SchedulesEnd(s: Pool, actions: seq<Action>, count: nat)
    requires Schedule(s, actions, count) && Inv(s, count)
    ensures |actions| <= Fuel(s, count)
    decreases |actions|
  {
    CounterBound(s, count);
    if actions != [] {
      var a := actions[0];
      var t := Step(s, a, count);
      WeightsUpdate(s.phases, a.worker, t.phases[a.worker]);
      StepKeepsInv(s, a, count);
      SchedulesEnd(t, actions[1..], count);
    }
  }

  lemma {:induction false} RunAppend(s: Pool, actions: seq<Action>, a: Action, count: nat)
    requires Schedule(s, actions, count) && Enabled(Run(s, actions, count), a)
    ensures Schedule(s, actions + [a], count) && Run(s, [], count) == s
    ensures Run(s, actions + [a], count) == Step(Run(s, actions, count), a, count)
    decreases |actions|
  {
    if actions == [] {
      assert [] + [a] == [a];
    } else {
      assert (actions + [a])[1..] == actions[1..] + [a];
      RunAppend(Step(s, actions[0], count), actions[1..], a, count);
    }
  }

  /** An unstopped worker that is at its top, or at the first number of a new pool, goes on to send it. */
  lemma UnstoppedWorkerSends(s: Pool, w: nat, count: nat)
    requires w < |s.phases| && s.phases[w] == AtTop && !s.stop && s.counter < count
    ensures Enabled(s, Check(w)) && Enabled(Step(s, Check(w), count), Claim(w))
    ensures var t := Step(Step(s, Check(w), count), Claim(w), count);
      && t == s.(counter := s.counter + 1, phases := s.phases[w := Sending(s.counter + 1)])
      && Enabled(t, Record(w, false))
  {
    assert s.phases[w := Checked][w := Sending(s.counter + 1)] == s.phases[w := Sending(s.counter + 1)];
  }

  /** A pool that is not finished can always go on, and a new one starts with the first number. */
  lemma NeverStuck(s: Pool, concurrency: nat)
    ensures Finished(s) <==> forall a: Action :: !Enabled(s, a)
    ensures var t := Initial(concurrency);
      && |t.phases| == concurrency && !t.stop && t.counter == 0
      && forall w :: 0 <= w < concurrency ==> t.phases[w] == AtTop
  {
    if !Finished(s) {
      var w :| 0 <= w < |s.phases| && s.phases[w] != Quit && s.phases[w] != Exhausted;
      assert Enabled(s, Check(w)) || Enabled(s, Claim(w)) || Enabled(s, Record(w, false));
    }
  }
}
