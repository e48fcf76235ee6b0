/** Deadlock freedom and termination of the collector loops, and what interrupts can do to them. */
module Liveness {
  import opened Basics
  import opened Remote
  import opened Protocol
  import opened Conservation
  import opened Delivery

  // ---------------------------------------------------------------- a measure on states

  ghost function ScriptCost(s: Script, tail: nat): (n: nat)
    ensures n > tail
  {
    match s
    case Last(r, _) => 1 + 2 * |r| + tail
    case More(r, rest) => 1 + 2 * |r| + ScriptCost(rest, tail)
  }

  ghost function ContCost(t: Task, cont: Cont): nat {
    match cont
    case Done => 1
    case Running(s) => ScriptCost(s, 3)
    case Copying(s) => ScriptCost(s, 4 + if t.exec.Some? then ScriptCost(t.exec.value, 3) else 1)
  }

  ghost function PhaseCost(p: Phase): nat {
    match p
    case Idle => 0
    case Got(t) => 1 + ContCost(t, StartCont(t))
    case Busy(t, out, cont) => 2 * |out| + ContCost(t, cont)
  }

  ghost function CostWeights(): Weights {
    Weights((t: Task) => 3 + ContCost(t, StartCont(t)), (t: Task) => 2 + ContCost(t, StartCont(t)),
            (w: Worker) => PhaseCost(w.phase), (m: Output) => 1, (m: Output) => 0, (t: Task) => 0)
  }

  ghost function ControlCost(s: State): nat {
    var w := |s.workers|;
    match s.control
    case Receiving => 0
    case Exited => 0
    case Draining => 2 * w + 2
    case Stopping(k, _) => if k < w then 2 * (w - k) + 1 else 1
    case Posting(k, _) => if k < w then 2 * (w - k) else 0
  }

  ghost function Measure(s: State): nat {
    Potential(CostWeights(), s) + ControlCost(s)
  }

  lemma {:induction false} PollCost(p: Phase, stop: bool)
    requires p.Busy? && p.out == [] && !p.cont.Done?
    ensures PhaseCost(PollPhase(p, stop)) < PhaseCost(p)
  {
  }

  /** A step of the feeder, of a worker or of the select loop costs something and leaves the handler
      of interrupts alone. */
  lemma {:induction false} PlainStepCost(c: Config, s: State, st: Step)
    requires Enabled(c, s, st) && !st.Interrupt? && !st.Handle?
    ensures Delta(c, CostWeights(), s, st) < 0
    ensures ControlCost(Apply(c, s, st)) == ControlCost(s)
    ensures |Apply(c, s, st).workers| == |s.workers|
  {
    if st.Poll? {
      PollCost(s.workers[st.k].phase, s.workers[st.k].stop);
    }
  }

  lemma {:induction false} HandleCost(c: Config, s: State)
    requires Enabled(c, s, Handle)
    ensures Delta(c, CostWeights(), s, Handle) + ControlCost(Apply(c, s, Handle)) < ControlCost(s)
    ensures |Apply(c, s, Handle).workers| == |s.workers|
  {
  }

  /** Every step but the arrival of an interrupt makes the measure smaller. */
  lemma {:induction false} StepMeasure(c: Config, s: State, st: Step)
    requires Enabled(c, s, st)
    ensures st.Interrupt? ==> Measure(Apply(c, s, st)) == Measure(s) + 2 * |s.workers| + 2
    ensures !st.Interrupt? ==> Measure(Apply(c, s, st)) < Measure(s)
    ensures |Apply(c, s, st).workers| == |s.workers|
  {
    StepPotential(c, CostWeights(), s, st);
    if st.Handle? {
      HandleCost(c, s);
    } else if !st.Interrupt? {
      PlainStepCost(c, s, st);
    }
  }

  ghost function Interrupts(run: seq<Step>): nat {
    if run == [] then 0 else (if run[0].Interrupt? then 1 else 0) + Interrupts(run[1..])
  }

  lemma {:induction false} RunLengthFrom(c: Config, s: State, run: seq<Step>, d: nat)
    requires Legal(c, s, run) && d == 2 * |s.workers| + 3
    ensures |run| + Measure(Exec(c, s, run)) <= Measure(s) + d * Interrupts(run)
    decreases |run|
  {
    if run != [] {
      StepMeasure(c, s, run[0]);
      RunLengthFrom(c, Apply(c, s, run[0]), run[1..], d);
      MulSucc(d, Interrupts(run[1..]));
    }
  }

  lemma {:induction false} MulSucc(d: nat, i: nat)
    ensures d * (1 + i) == d + d * i
  {
  }

  /** Termination: no run is longer than the initial measure plus what its interrupts add. */
  lemma {:induction false} RunLength(c: Config, s: State, run: seq<Step>)
    requires Legal(c, s, run)
    ensures |run| + Measure(Exec(c, s, run)) <= Measure(s) + (2 * |s.workers| + 3) * Interrupts(run)
  {
    RunLengthFrom(c, s, run, 2 * |s.workers| + 3);
  }

  // ---------------------------------------------------------------- terminal states

  /** Nothing can happen any more unless a new interrupt arrives. */
  ghost predicate Terminal(c: Config, s: State) {
    forall st | Enabled(c, s, st) :: st.Interrupt?
  }

  /** The collector waits for the finishing messages of drained tasks. */
  ghost predicate HungOnDrained(s: State) {
    && s.control.Receiving? && s.unfed == [] && PoolQuiet(s)
    && s.running == |s.drained| && s.drained != []
  }

  /** The interrupt handler waits for a full stop buffer whose worker cannot empty it: the worker is
      idle for good, or waits for the collector to make room in the data channel. */
  ghost predicate HungOnToken(c: Config, s: State) {
    && s.control.Posting? && s.control.k < |s.workers|
    && s.workers[s.control.k].stop
    && var p := s.workers[s.control.k].phase;
       (p.Idle? && s.queue == []) || (p.Busy? && p.out != [] && |s.data| == c.cap)
  }

  /** The synchronous feed of Distribute waits for room in the queue while every worker waits for
      room in the data channel. */
  ghost predicate HungOnFeed(c: Config, s: State) {
    && c.command.Distribute? && s.control.Receiving?
    && s.unfed != [] && |s.queue| == c.cap && |s.data| == c.cap
    && forall k | 0 <= k < |s.workers| :: s.workers[k].phase.Busy? && s.workers[k].phase.out != []
  }

  /** With no step enabled, a worker is idle with nothing queued, or blocked on a full channel. */
  lemma {:induction false} TerminalWorker(c: Config, s: State, k: nat)
    requires Terminal(c, s) && k < |s.workers|
    ensures var p := s.workers[k].phase;
            (p.Idle? && s.queue == []) || (p.Busy? && p.out != [] && |s.data| >= c.cap)
  {
    assert !Enabled(c, s, Take(k)) && !Enabled(c, s, Mark(k)) && !Enabled(c, s, Poll(k));
    assert !Enabled(c, s, Send(k)) && !Enabled(c, s, Clear(k));
  }

  lemma {:induction false} TerminalShapes(c: Config, n: nat, s: State)
    requires Inv(c, n, s) && Terminal(c, s)
    requires s.running == |s.unfed| + |s.queue| + OwedCount(c.command, Any, s.workers)
                          + FinCount(c.command, Any, s.data) + |s.drained|
    ensures s.control.Exited? || HungOnDrained(s) || HungOnToken(c, s) || HungOnFeed(c, s)
  {
    assert !Enabled(c, s, Handle) && !Enabled(c, s, Receive) && !Enabled(c, s, Feed);
    forall k | 0 <= k < |s.workers|
      ensures var p := s.workers[k].phase;
              (p.Idle? && s.queue == []) || (p.Busy? && p.out != [] && |s.data| >= c.cap)
    {
      TerminalWorker(c, s, k);
    }
    if s.control.Receiving? && !(c.command.Distribute? && s.unfed != []) {
      assert s.data == [];
      assert s.workers[0].phase.Idle?;
      QuietOwesNothing(c.command, Any, s.workers);
    }
  }

  /** Every way a command can come to rest: it has exited, or it is stuck in one of three ways, two of
      which need an interrupt and the third of which needs Distribute. */
  lemma {:induction false} TerminalStates(c: Config, tasks: seq<Task>, workers: seq<Worker>, run: seq<Step>)
    requires ValidStart(c, tasks, workers)
    requires Legal(c, Start(tasks, [], workers), run)
    requires Terminal(c, Exec(c, Start(tasks, [], workers), run))
    ensures var s := Exec(c, Start(tasks, [], workers), run);
            s.control.Exited? || HungOnDrained(s) || HungOnToken(c, s) || HungOnFeed(c, s)
  {
    TasksConserved(c, tasks, workers, run, Any);
    RunningMeans(c, tasks, workers, run);
    TerminalShapes(c, |tasks|, Exec(c, Start(tasks, [], workers), run));
  }

  // ---------------------------------------------------------------- uninterrupted runs

  predicate Uninterrupted(run: seq<Step>) {
    forall i | 0 <= i < |run| :: !run[i].Interrupt?
  }

  ghost predicate Calm(s: State) {
    (s.control.Receiving? || s.control.Exited?) && s.drained == [] && s.posted == 0
  }

  lemma {:induction false} StaysCalm(c: Config, s: State, run: seq<Step>)
    requires Calm(s) && Legal(c, s, run) && Uninterrupted(run)
    ensures Calm(Exec(c, s, run)) && |Exec(c, s, run).workers| == |s.workers|
    ensures NoTokens(s) ==> NoTokens(Exec(c, s, run)) && Exec(c, s, run).cut == s.cut
    decreases |run|
  {
    if run != [] {
      assert !run[0].Interrupt?;
      StaysCalm(c, Apply(c, s, run[0]), run[1..]);
    }
  }

  /** How many hosts a command takes without being interrupted: any number for Parallel and Collapse,
      as many as fit in the queue and in the hands of the workers for Distribute. */
  predicate Accepts(c: Config, hosts: nat, pool: nat) {
    c.command.Distribute? ==> hosts <= c.cap + pool
  }

  lemma {:induction false} PoolStays(c: Config, s: State, run: seq<Step>)
    requires Legal(c, s, run)
    ensures |Exec(c, s, run).workers| == |s.workers|
    decreases |run|
  {
    if run != [] {
      PoolStays(c, Apply(c, s, run[0]), run[1..]);
    }
  }

  /** A command of an accepted size never waits on its own feed. */
  lemma {:induction false} NeverHungOnFeed(c: Config, tasks: seq<Task>, workers: seq<Worker>, run: seq<Step>)
    requires ValidStart(c, tasks, workers) && Accepts(c, |tasks|, |workers|)
    requires Legal(c, Start(tasks, [], workers), run)
    ensures !HungOnFeed(c, Exec(c, Start(tasks, [], workers), run))
  {
    var s := Exec(c, Start(tasks, [], workers), run);
    TasksConserved(c, tasks, workers, run, Any);
    PoolStays(c, Start(tasks, [], workers), run);
    if HungOnFeed(c, s) {
      forall k | 0 <= k < |s.workers| ensures HeldWeight()(s.workers[k]) == 1 {}
      SumAll(HeldWeight(), s.workers, 1);
      assert false;
    }
  }

  /** Deadlock freedom: without interrupts, nothing but the exit of the loop brings a command of an
      accepted size to rest. */
  lemma {:induction false} NoDeadlock(c: Config, tasks: seq<Task>, workers: seq<Worker>, run: seq<Step>)
    requires ValidStart(c, tasks, workers) && Accepts(c, |tasks|, |workers|)
    requires Legal(c, Start(tasks, [], workers), run) && Uninterrupted(run)
    requires Terminal(c, Exec(c, Start(tasks, [], workers), run))
    ensures Exec(c, Start(tasks, [], workers), run).control.Exited?
  {
    StaysCalm(c, Start(tasks, [], workers), run);
    TerminalStates(c, tasks, workers, run);
    NeverHungOnFeed(c, tasks, workers, run);
  }

  /** A step that can be taken, if there is one that is not an interrupt. */
  lemma {:induction false} NextStep(c: Config, s: State) returns (st: Step)
    requires !Terminal(c, s)
    ensures Enabled(c, s, st) && !st.Interrupt?
  {
    st :| Enabled(c, s, st) && !st.Interrupt?;
  }

  /** An uninterrupted run that has not come to rest goes on by a step that lowers the measure. */
  lemma {:induction false} GoOn(c: Config, s0: State, run: seq<Step>) returns (st: Step)
    requires Legal(c, s0, run) && Uninterrupted(run) && !Terminal(c, Exec(c, s0, run))
    ensures !st.Interrupt? && Legal(c, s0, run + [st]) && Uninterrupted(run + [st])
    ensures Measure(Exec(c, s0, run + [st])) < Measure(Exec(c, s0, run))
  {
    st := NextStep(c, Exec(c, s0, run));
    StepMeasure(c, Exec(c, s0, run), st);
    RunOneMore(c, s0, run, st);
  }

  lemma {:induction false} Rejoin<T>(a: seq<T>, x: T, b: seq<T>)
    ensures a + ([x] + b) == a + [x] + b && a + [] == a
  {
  }

  /** Every uninterrupted run of an accepted size can be continued to the exit of the loop, and by
      RunLength it cannot avoid it for ever. */
  lemma {:induction false} ReachesExit(c: Config, tasks: seq<Task>, workers: seq<Worker>, run: seq<Step>)
      returns (more: seq<Step>)
    requires ValidStart(c, tasks, workers) && Accepts(c, |tasks|, |workers|)
    requires Legal(c, Start(tasks, [], workers), run) && Uninterrupted(run)
    ensures Legal(c, Start(tasks, [], workers), run + more) && Uninterrupted(run + more)
    ensures Exec(c, Start(tasks, [], workers), run + more).control.Exited?
    decreases Measure(Exec(c, Start(tasks, [], workers), run))
  {
    var s0 := Start(tasks, [], workers);
    if Terminal(c, Exec(c, s0, run)) {
      NoDeadlock(c, tasks, workers, run);
      more := [];
      assert run + more == run;
    } else {
      var st := GoOn(c, s0, run);
      var rest := ReachesExit(c, tasks, workers, run + [st]);
      Rejoin(run, st, rest);
      more := [st] + rest;
    }
  }
}
