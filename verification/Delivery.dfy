/** The accounting of the collector loops over whole runs: what `running` means, when a loop can
    exit, and what the pool looks like when it does. */
module Delivery {
  import opened Basics
  import opened Remote
  import opened Protocol
  import opened Conservation

  ghost const Any: Choice := (h: Host) => true

  ghost function Only(h: Host): Choice { (x: Host) => x == h }

  ghost function FinCount(command: Command, sel: Choice, ms: seq<Output>): nat {
    Sum(FinWeight(command, sel), ms)
  }

  ghost function TaskCount(sel: Choice, ts: seq<Task>): nat {
    Sum(TaskWeight(sel), ts)
  }

  ghost function OwedCount(command: Command, sel: Choice, ws: seq<Worker>): nat {
    Sum(OwedWeight(command, sel), ws)
  }

  /** `running` is what the command started with minus the finishing messages received, and the
      loop exits exactly when it reaches zero. */
  ghost predicate Counting(c: Config, n: nat, s: State) {
    && s.running + FinCount(c.command, Any, s.received) == n
    && s.running >= 0
    && (s.running == 0 <==> s.control.Exited?)
  }

  /** A task held by a worker that still has something to do for it. */
  ghost function Held(w: Worker): nat {
    if Quiet(w) then 0 else 1
  }

  ghost function HeldWeight(): Worker -> nat { (w: Worker) => Held(w) }

  /** Every task of the command is unfed, queued, taken or drained, and each worker that has work
      has taken a task of its own. */
  ghost predicate Accounted(n: nat, s: State) {
    && n == |s.unfed| + |s.queue| + s.taken + |s.drained|
    && Sum(HeldWeight(), s.workers) <= s.taken
  }

  /** The finishing message ends the stream of its task and the channel is first in first out: when
      no worker owes anything, only a proper tail follows the last finishing message. */
  ghost predicate TailFinished(c: Config, s: State) {
    OwedCount(c.command, Any, s.workers) == 0 ==> Tail(c.command, s.data)
  }

  ghost predicate Inv(c: Config, n: nat, s: State) {
    Shaped(c, s) && Counting(c, n, s) && Accounted(n, s) && TailFinished(c, s)
  }

  // ---------------------------------------------------------------- the invariant is kept

  lemma {:induction false} StepCounting(c: Config, n: nat, s: State, st: Step)
    requires Counting(c, n, s) && Enabled(c, s, st)
    ensures Counting(c, n, Apply(c, s, st))
  {
    if st.Receive? {
      SumSnoc(FinWeight(c.command, Any), s.received, s.data[0]);
    }
  }

  lemma {:induction false} StepAccounted(c: Config, n: nat, s: State, st: Step)
    requires Accounted(n, s) && Enabled(c, s, st)
    ensures Accounted(n, Apply(c, s, st))
  {
    var s' := Apply(c, s, st);
    match st
    case Take(k) => SumUpdate(HeldWeight(), s.workers, k, s'.workers[k]);
    case Mark(k) => SumUpdate(HeldWeight(), s.workers, k, s'.workers[k]);
    case Poll(k) => SumUpdate(HeldWeight(), s.workers, k, s'.workers[k]);
    case Send(k) => SumUpdate(HeldWeight(), s.workers, k, s'.workers[k]);
    case Clear(k) => SumUpdate(HeldWeight(), s.workers, k, s'.workers[k]);
    case Handle =>
      if s.control.Posting? {
        var k := s.control.k;
        SumUpdate(HeldWeight(), s.workers, k, s'.workers[k]);
      }
    case _ =>
  }

  /** A proper tail without a finishing message is empty, or for Distribute the trace of failed
      copies. */
  lemma {:induction false} TailWithoutFin(command: Command, ms: seq<Output>)
    requires Tail(command, ms) && FinCount(command, Any, ms) == 0
    ensures command.Execute? ==> ms == []
    ensures forall i | 0 <= i < |ms| :: ms[i].ExecFinished?
  {
    if ms != [] {
      var init, last := ms[..|ms| - 1], ms[|ms| - 1];
      assert ms == init + [last];
      SumSnoc(FinWeight(command, Any), init, last);
      TailWithoutFin(command, init);
    }
  }

  /** A worker that owes nothing has nothing to send but the trace of a failed copy. */
  lemma {:induction false} OwesNothing(command: Command, w: Worker)
    requires PhaseOk(command, w.phase) && Owed(command, Any, w.phase) == 0
    ensures command.Execute? ==> Quiet(w)
    ensures w.phase.Busy? ==> w.phase.cont.Done? && forall i | 0 <= i < |w.phase.out| :: w.phase.out[i].ExecFinished?
    ensures !w.phase.Got?
  {
    if w.phase.Busy? {
      TailWithoutFin(command, w.phase.out);
    }
  }

  lemma {:induction false} StepTail(c: Config, s: State, st: Step)
    requires Shaped(c, s) && TailFinished(c, s) && Enabled(c, s, st)
    ensures TailFinished(c, Apply(c, s, st))
  {
    var s' := Apply(c, s, st);
    var f := OwedWeight(c.command, Any);
    if OwedCount(c.command, Any, s'.workers) == 0 {
      match st
      case Take(k) => SumMember(f, s'.workers, k);
      case Mark(k) => SumUpdate(f, s.workers, k, s'.workers[k]);
      case Poll(k) =>
        SumUpdate(f, s.workers, k, s'.workers[k]);
        PollOwes(c.command, Any, s.workers[k].phase, s.workers[k].stop);
      case Send(k) => SendTail(c, s, k);
      case Clear(k) => SumUpdate(f, s.workers, k, s'.workers[k]);
      case Receive => TailDrop(c.command, s.data);
      case Handle =>
        if s.control.Posting? {
          SumUpdate(f, s.workers, s.control.k, s'.workers[s.control.k]);
        }
      case _ =>
    }
  }

  lemma {:induction false} SendTail(c: Config, s: State, k: nat)
    requires Shaped(c, s) && TailFinished(c, s) && Enabled(c, s, Send(k))
    requires OwedCount(c.command, Any, Apply(c, s, Send(k)).workers) == 0
    ensures Tail(c.command, s.data + [s.workers[k].phase.out[0]])
  {
    var s' := Apply(c, s, Send(k));
    var m := s.workers[k].phase.out[0];
    var f := OwedWeight(c.command, Any);
    SumUpdate(f, s.workers, k, s'.workers[k]);
    SumMember(f, s'.workers, k);
    assert (s.data + [m])[..|s.data|] == s.data;
    if !Counted(c.command, m) {
      OwesNothing(c.command, s.workers[k]);
    }
  }

  lemma {:induction false} StepInv(c: Config, n: nat, s: State, st: Step)
    requires Inv(c, n, s) && Enabled(c, s, st)
    ensures Inv(c, n, Apply(c, s, st))
  {
    StepShaped(c, s, st);
    StepCounting(c, n, s, st);
    StepAccounted(c, n, s, st);
    StepTail(c, s, st);
  }

  lemma {:induction false} RunInv(c: Config, n: nat, s: State, run: seq<Step>)
    requires Inv(c, n, s) && Legal(c, s, run)
    ensures Inv(c, n, Exec(c, s, run))
    decreases |run|
  {
    if run != [] {
      StepInv(c, n, s, run[0]);
      RunInv(c, n, Apply(c, s, run[0]), run[1..]);
    }
  }

  lemma {:induction false} StartInv(c: Config, tasks: seq<Task>, workers: seq<Worker>)
    requires ValidStart(c, tasks, workers)
    ensures Inv(c, |tasks|, Start(tasks, [], workers))
  {
    SumAll(HeldWeight(), workers, 0);
  }

  // ---------------------------------------------------------------- the order of the hosts

  /** What is not yet taken or drained stands in the queue and in the feed as the list has it. */
  predicate Ordered(tasks: seq<Task>, s: State) {
    var n := s.taken + |s.drained|;
    n <= |tasks| && s.queue + s.unfed == tasks[n..]
  }

  lemma {:induction false} StepOrdered(c: Config, tasks: seq<Task>, s: State, st: Step)
    requires Ordered(tasks, s) && Enabled(c, s, st)
    ensures Ordered(tasks, Apply(c, s, st))
  {
    var n := s.taken + |s.drained|;
    if st.Feed? {
      assert s.queue + [s.unfed[0]] + s.unfed[1..] == s.queue + s.unfed;
    } else if s.queue != [] {
      assert s.queue[1..] + s.unfed == (s.queue + s.unfed)[1..] == tasks[n + 1..];
    }
  }

  /** In every run the hosts leave the queue in the order of the list, be it to a worker or drained. */
  lemma {:induction false} HostsInOrder(c: Config, tasks: seq<Task>, s: State, run: seq<Step>)
    requires Ordered(tasks, s) && Legal(c, s, run)
    ensures Ordered(tasks, Exec(c, s, run))
    decreases |run|
  {
    if run != [] {
      StepOrdered(c, tasks, s, run[0]);
      HostsInOrder(c, tasks, Apply(c, s, run[0]), run[1..]);
    }
  }

  /** A worker that takes a task gets the next host of the list. */
  lemma {:induction false} TakesNext(c: Config, tasks: seq<Task>, workers: seq<Worker>, run: seq<Step>, k: nat)
    requires Legal(c, Start(tasks, [], workers), run)
    requires Enabled(c, Exec(c, Start(tasks, [], workers), run), Take(k))
    ensures var s := Exec(c, Start(tasks, [], workers), run);
            var n := s.taken + |s.drained|;
            n < |tasks| && Apply(c, s, Take(k)).workers[k].phase == Got(tasks[n])
  {
    var s0, s := Start(tasks, [], workers), Exec(c, Start(tasks, [], workers), run);
    assert [] + tasks == tasks && tasks[0..] == tasks;
    HostsInOrder(c, tasks, s0, run);
    assert (s.queue + s.unfed)[0] == s.queue[0];
  }

  // ---------------------------------------------------------------- one finishing message per task

  /** No worker owes more than the finishing message of its one task: none is among its unsent messages
      while a read loop goes on, and at most one is when the loops are over. */
  ghost predicate OwesOne(command: Command, s: State) {
    forall k | 0 <= k < |s.workers| :: Owed(command, Any, s.workers[k].phase) <= 1
  }

  lemma {:induction false} StepOwesOne(c: Config, s: State, st: Step)
    requires Shaped(c, s) && OwesOne(c.command, s) && Enabled(c, s, st)
    ensures OwesOne(c.command, Apply(c, s, st))
  {
    match st
    case Poll(k) => PollOwes(c.command, Any, s.workers[k].phase, s.workers[k].stop);
    case _ =>
  }

  lemma {:induction false} OneFinishing(c: Config, s: State, run: seq<Step>)
    requires Shaped(c, s) && OwesOne(c.command, s) && Legal(c, s, run)
    ensures OwesOne(c.command, Exec(c, s, run))
    decreases |run|
  {
    if run != [] {
      StepShaped(c, s, run[0]);
      StepOwesOne(c, s, run[0]);
      OneFinishing(c, Apply(c, s, run[0]), run[1..]);
    }
  }

  // ---------------------------------------------------------------- whole runs

  lemma {:induction false} CountAny(ts: seq<Task>)
    ensures TaskCount(Any, ts) == |ts|
  {
    SumAll(TaskWeight(Any), ts, 1);
  }

  lemma {:induction false} QuietOwesNothing(command: Command, sel: Choice, ws: seq<Worker>)
    requires forall k | 0 <= k < |ws| :: Quiet(ws[k])
    ensures OwedCount(command, sel, ws) == 0
  {
    var f := OwedWeight(command, sel);
    forall k | 0 <= k < |ws| ensures f(ws[k]) == 0 {}
    SumAll(f, ws, 0);
  }

  /** Conservation: in every reachable state, for every choice of hosts, each task of the command is
      unfed, queued, held with its finishing message unsent, finished in the channel, received, or
      drained, and in exactly one of these places. */
  lemma {:induction false} TasksConserved(c: Config, tasks: seq<Task>, workers: seq<Worker>, run: seq<Step>,
                                          sel: Choice)
    requires ValidStart(c, tasks, workers)
    requires Legal(c, Start(tasks, [], workers), run)
    ensures var s := Exec(c, Start(tasks, [], workers), run);
            && Inv(c, |tasks|, s)
            && TaskCount(sel, tasks) ==
               TaskCount(sel, s.unfed) + TaskCount(sel, s.queue) + OwedCount(c.command, sel, s.workers)
               + FinCount(c.command, sel, s.data) + FinCount(c.command, sel, s.received) + TaskCount(sel, s.drained)
  {
    var s0 := Start(tasks, [], workers);
    StartInv(c, tasks, workers);
    RunInv(c, |tasks|, s0, run);
    RunOutstanding(c, sel, s0, run);
    QuietOwesNothing(c.command, sel, workers);
  }

  /** `running` is the number of tasks whose finishing message has not been received, drained tasks
      included: nothing ever subtracts those. */
  lemma {:induction false} RunningMeans(c: Config, tasks: seq<Task>, workers: seq<Worker>, run: seq<Step>)
    requires ValidStart(c, tasks, workers)
    requires Legal(c, Start(tasks, [], workers), run)
    ensures var s := Exec(c, Start(tasks, [], workers), run);
            s.running == |s.unfed| + |s.queue| + OwedCount(c.command, Any, s.workers)
                         + FinCount(c.command, Any, s.data) + |s.drained|
  {
    var s := Exec(c, Start(tasks, [], workers), run);
    TasksConserved(c, tasks, workers, run, Any);
    CountAny(tasks);
    CountAny(s.unfed);
    CountAny(s.queue);
    CountAny(s.drained);
  }

  /** At exit, interrupts or not, no task was drained or left behind and every host of the list has
      been reported as many times as it was listed; Parallel and Collapse leave a quiet pool. */
  lemma {:induction false} ExitDelivers(c: Config, tasks: seq<Task>, workers: seq<Worker>, run: seq<Step>)
    requires ValidStart(c, tasks, workers)
    requires Legal(c, Start(tasks, [], workers), run)
    requires Exec(c, Start(tasks, [], workers), run).control.Exited?
    ensures var s := Exec(c, Start(tasks, [], workers), run);
            && s.unfed == [] && s.queue == [] && s.drained == []
            && OwedCount(c.command, Any, s.workers) == 0 && FinCount(c.command, Any, s.data) == 0
            && (forall h :: FinCount(c.command, Only(h), s.received) == TaskCount(Only(h), tasks))
            && (c.command.Execute? ==> PoolQuiet(s))
  {
    var s := Exec(c, Start(tasks, [], workers), run);
    TasksConserved(c, tasks, workers, run, Any);
    RunningMeans(c, tasks, workers, run);
    forall h ensures FinCount(c.command, Only(h), s.received) == TaskCount(Only(h), tasks) {
      TasksConserved(c, tasks, workers, run, Only(h));
      SumMonotone(OwedWeight(c.command, Only(h)), OwedWeight(c.command, Any), s.workers) by {
        OwedOnlyAny(c.command, h, s.workers);
      }
      FinOnlyAny(c.command, h, s.data);
    }
    if c.command.Execute? {
      forall k | 0 <= k < |s.workers| ensures Quiet(s.workers[k]) {
        SumMember(OwedWeight(Execute, Any), s.workers, k);
        OwesNothing(Execute, s.workers[k]);
      }
      TailWithoutFin(Execute, s.data);
    }
  }

  lemma {:induction false} FinOnlyAny(command: Command, h: Host, ms: seq<Output>)
    ensures FinCount(command, Only(h), ms) <= FinCount(command, Any, ms)
  {
    var f, g := FinWeight(command, Only(h)), FinWeight(command, Any);
    forall i | 0 <= i < |ms| ensures f(ms[i]) <= g(ms[i]) {}
    SumMonotone(f, g, ms);
  }

  lemma {:induction false} OwedOnlyAny(command: Command, h: Host, ws: seq<Worker>)
    ensures forall k | 0 <= k < |ws| :: OwedWeight(command, Only(h))(ws[k]) <= OwedWeight(command, Any)(ws[k])
  {
    forall k | 0 <= k < |ws|
      ensures OwedWeight(command, Only(h))(ws[k]) <= OwedWeight(command, Any)(ws[k])
    {
      if ws[k].phase.Busy? {
        FinOnlyAny(command, h, ws[k].phase.out);
      }
    }
  }

  /** A run that drained a task can never exit: the collector waits for as many messages as were
      drained once everything else is done. */
  lemma {:induction false} DrainedTasksHang(c: Config, tasks: seq<Task>, workers: seq<Worker>, run: seq<Step>)
    requires ValidStart(c, tasks, workers)
    requires Legal(c, Start(tasks, [], workers), run)
    requires Exec(c, Start(tasks, [], workers), run).drained != []
    ensures var s := Exec(c, Start(tasks, [], workers), run);
            && !s.control.Exited?
            && (forall more | Legal(c, s, more) :: !Exec(c, s, more).control.Exited?)
            && (s.unfed == [] && PoolQuiet(s) ==> s.running == |s.drained|)
  {
    var s0 := Start(tasks, [], workers);
    var s := Exec(c, s0, run);
    RunningMeans(c, tasks, workers, run);
    TasksConserved(c, tasks, workers, run, Any);
    if s.unfed == [] && PoolQuiet(s) {
      QuietOwesNothing(c.command, Any, s.workers);
    }
    forall more | Legal(c, s, more) ensures !Exec(c, s, more).control.Exited? {
      RunsCompose(c, s0, run, more);
      DrainedStays(c, s, more);
      if Exec(c, s, more).control.Exited? {
        ExitDelivers(c, tasks, workers, run + more);
        assert false;
      }
    }
  }

  lemma {:induction false} DrainedStays(c: Config, s: State, run: seq<Step>)
    requires Legal(c, s, run)
    ensures |Exec(c, s, run).drained| >= |s.drained|
    decreases |run|
  {
    if run != [] {
      DrainedStays(c, Apply(c, s, run[0]), run[1..]);
    }
  }

  lemma {:induction false} RunsCompose(c: Config, s: State, a: seq<Step>, b: seq<Step>)
    requires Legal(c, s, a) && Legal(c, Exec(c, s, a), b)
    ensures Legal(c, s, a + b) && Exec(c, s, a + b) == Exec(c, Exec(c, s, a), b)
    decreases |a|
  {
    if a == [] {
      assert a + b == b;
    } else {
      assert (a + b)[0] == a[0] && (a + b)[1..] == a[1..] + b;
      RunsCompose(c, Apply(c, s, a[0]), a[1..], b);
    }
  }

  lemma {:induction false} RunOneMore(c: Config, s: State, run: seq<Step>, st: Step)
    requires Legal(c, s, run) && Enabled(c, Exec(c, s, run), st)
    ensures Legal(c, s, run + [st]) && Exec(c, s, run + [st]) == Apply(c, Exec(c, s, run), st)
  {
    var s' := Exec(c, s, run);
    assert [st][1..] == [];
    assert Legal(c, Apply(c, s', st), []) && Exec(c, Apply(c, s', st), []) == Apply(c, s', st);
    assert Exec(c, s', [st]) == Exec(c, Apply(c, s', [st][0]), [st][1..]);
    RunsCompose(c, s, run, [st]);
  }

  lemma {:induction false} ConsRun(c: Config, s: State, st: Step, next: State, rest: seq<Step>)
    requires Enabled(c, s, st) && next == Apply(c, s, st) && Legal(c, next, rest)
    ensures Legal(c, s, [st] + rest) && Exec(c, s, [st] + rest) == Exec(c, next, rest)
  {
    assert ([st] + rest)[1..] == rest;
  }
}
