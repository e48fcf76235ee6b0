/** What one command leaves in the pool for the next: the messages of failed copies, and what they
    do to a command that starts over them (src/remote/worker.go:109-114, src/cli/cli.go:623-635). */
module Handover {
  import opened Basics
  import opened Remote
  import opened Protocol
  import opened Conservation
  import opened Delivery

  ghost function BadCopyOf(h: Host): Output -> nat {
    (m: Output) => if m.CopyFinished? && m.host == h && m.code != 0 then 1 else 0
  }

  ghost function ExecOf(h: Host): Output -> nat {
    (m: Output) => if m.ExecFinished? && m.host == h then 1 else 0
  }

  ghost function Unsent(f: Output -> nat): Worker -> nat {
    (w: Worker) => if w.phase.Busy? then Sum(f, w.phase.out) else 0
  }

  ghost function MessageWeights(f: Output -> nat): Weights {
    Weights((t: Task) => 0, (t: Task) => 0, Unsent(f), f, f, (t: Task) => 0)
  }

  /** A failed copy produces one ExecFinished with its CopyFinished, a successful one none. */
  lemma {:induction false} CopyRoundPairs(t: Task, r: seq<Piece>, code: int, h: Host)
    ensures Sum(BadCopyOf(h), Emit(t.host, r)) == 0 && Sum(ExecOf(h), Emit(t.host, r)) == 0
    ensures Sum(BadCopyOf(h), CopyEnd(t, code)) == Sum(ExecOf(h), CopyEnd(t, code))
    ensures Sum(BadCopyOf(h), Emit(t.host, r) + CopyEnd(t, code)) == Sum(ExecOf(h), Emit(t.host, r) + CopyEnd(t, code))
  {
    var bad, exec, out, end := BadCopyOf(h), ExecOf(h), Emit(t.host, r), CopyEnd(t, code);
    SumAll(bad, out, 0);
    SumAll(exec, out, 0);
    var copied, failed := CopyFinished(t.host, code), ExecFinished(t.host, ERR_COPY_FAILED);
    assert end == [copied] + if code != 0 then [failed] else [];
    SumSnoc(bad, [], copied);
    SumSnoc(exec, [], copied);
    assert [] + [copied] == [copied];
    SumSnoc(bad, [copied], failed);
    SumSnoc(exec, [copied], failed);
    SumAppend(bad, out, end);
    SumAppend(exec, out, end);
  }

  lemma {:induction false} PollPairs(p: Phase, stop: bool, h: Host)
    requires p.Busy? && p.out == [] && p.cont.Copying?
    ensures Sum(BadCopyOf(h), PollPhase(p, stop).out) == Sum(ExecOf(h), PollPhase(p, stop).out)
  {
    var s := p.cont.s;
    CopyRoundPairs(p.task, s.round, if s.Last? then s.code else 0, h);
    CopyRoundPairs(p.task, [], ERR_FORCE_STOP, h);
  }

  lemma {:induction false} StepPairs(c: Config, s: State, st: Step, h: Host)
    requires c.command.Distribute? && Shaped(c, s) && Enabled(c, s, st)
    ensures Delta(c, MessageWeights(BadCopyOf(h)), s, st) == Delta(c, MessageWeights(ExecOf(h)), s, st)
  {
    match st
    case Poll(k) =>
      PollPairs(s.workers[k].phase, s.workers[k].stop, h);
      assert Apply(c, s, st).workers[k].phase == PollPhase(s.workers[k].phase, s.workers[k].stop);
    case Send(k) => assert Apply(c, s, st).workers[k].phase.out == s.workers[k].phase.out[1..];
    case _ =>
  }

  lemma {:induction false} RunPairs(c: Config, s: State, run: seq<Step>, h: Host)
    requires c.command.Distribute? && Shaped(c, s) && Legal(c, s, run)
    requires Potential(MessageWeights(BadCopyOf(h)), s) == Potential(MessageWeights(ExecOf(h)), s)
    ensures Potential(MessageWeights(BadCopyOf(h)), Exec(c, s, run)) == Potential(MessageWeights(ExecOf(h)), Exec(c, s, run))
    decreases |run|
  {
    if run != [] {
      StepPairs(c, s, run[0], h);
      StepPotential(c, MessageWeights(BadCopyOf(h)), s, run[0]);
      StepPotential(c, MessageWeights(ExecOf(h)), s, run[0]);
      StepShaped(c, s, run[0]);
      RunPairs(c, Apply(c, s, run[0]), run[1..], h);
    }
  }

  lemma {:induction false} NoTaskWeight(f: Output -> nat, ts: seq<Task>)
    ensures Sum(MessageWeights(f).unfed, ts) == 0
  {
    SumAll(MessageWeights(f).unfed, ts, 0);
  }

  lemma {:induction false} SumOfQuiet(f: Output -> nat, ws: seq<Worker>)
    requires forall k | 0 <= k < |ws| :: Quiet(ws[k])
    ensures Sum(Unsent(f), ws) == 0
  {
    forall k | 0 <= k < |ws| ensures Unsent(f)(ws[k]) == 0 {}
    SumAll(Unsent(f), ws, 0);
  }

  /** Only the traces of failed copies are left in the channel or still to be sent. */
  ghost predicate OnlyFailedCopies(s: State) {
    && (forall i | 0 <= i < |s.data| :: s.data[i].ExecFinished? && s.data[i].code == ERR_COPY_FAILED)
    && forall k | 0 <= k < |s.workers| ::
         var p := s.workers[k].phase;
         && !p.Got?
         && (p.Busy? ==> p.cont.Done? && forall i | 0 <= i < |p.out| :: p.out[i].ExecFinished? && p.out[i].code == ERR_COPY_FAILED)
  }

  ghost function Leftover(h: Host, s: State): nat {
    Sum(Unsent(ExecOf(h)), s.workers) + Sum(ExecOf(h), s.data)
  }

  /** When Distribute exits, interrupted or not, what it leaves behind is ExecFinished(ErrCopyFailed)
      messages, and together with those the collector already dropped there is exactly one for every
      host it reports as failed. */
  lemma {:induction false} DistributeLeaves(c: Config, tasks: seq<Task>, workers: seq<Worker>, run: seq<Step>)
    requires c.command.Distribute? && ValidStart(c, tasks, workers)
    requires Legal(c, Start(tasks, [], workers), run)
    requires Exec(c, Start(tasks, [], workers), run).control.Exited?
    ensures var s := Exec(c, Start(tasks, [], workers), run);
            && s.queue == [] && OnlyFailedCopies(s)
            && forall h :: Leftover(h, s) + Sum(ExecOf(h), s.received) == Sum(BadCopyOf(h), s.received)
  {
    var s0 := Start(tasks, [], workers);
    var s := Exec(c, s0, run);
    TasksConserved(c, tasks, workers, run, Any);
    ExitDelivers(c, tasks, workers, run);
    StartInv(c, tasks, workers);
    TailWithoutFin(c.command, s.data);
    forall k | 0 <= k < |s.workers|
      ensures var p := s.workers[k].phase;
              !p.Got? && (p.Busy? ==> p.cont.Done? && forall i | 0 <= i < |p.out| :: p.out[i].ExecFinished? && p.out[i].code == ERR_COPY_FAILED)
    {
      SumMember(OwedWeight(c.command, Any), s.workers, k);
      OwesNothing(c.command, s.workers[k]);
    }
    forall h ensures Leftover(h, s) + Sum(ExecOf(h), s.received) == Sum(BadCopyOf(h), s.received) {
      LeftoverOf(c, s0, run, h);
    }
  }

  lemma {:induction false} LeftoverOf(c: Config, s0: State, run: seq<Step>, h: Host)
    requires c.command.Distribute? && Shaped(c, s0) && Legal(c, s0, run)
    requires s0.data == [] && s0.received == [] && forall k | 0 <= k < |s0.workers| :: Quiet(s0.workers[k])
    requires OnlyFailedCopies(Exec(c, s0, run))
    ensures var s := Exec(c, s0, run);
            Leftover(h, s) + Sum(ExecOf(h), s.received) == Sum(BadCopyOf(h), s.received)
  {
    var s := Exec(c, s0, run);
    var bad, exec := BadCopyOf(h), ExecOf(h);
    var pots := [s0, s];
    SumOfQuiet(bad, s0.workers);
    SumOfQuiet(exec, s0.workers);
    forall f, i | (f == bad || f == exec) && 0 <= i < 2
      ensures Sum(MessageWeights(f).unfed, pots[i].unfed) == 0
      ensures Sum(MessageWeights(f).queue, pots[i].queue) == 0
      ensures Sum(MessageWeights(f).drained, pots[i].drained) == 0
    {
      NoTaskWeight(f, pots[i].unfed);
      NoTaskWeight(f, pots[i].queue);
      NoTaskWeight(f, pots[i].drained);
    }
    RunPairs(c, s0, run, h);
    SumAll(bad, s.data, 0);
    forall k | 0 <= k < |s.workers| ensures Unsent(bad)(s.workers[k]) == 0 {
      if s.workers[k].phase.Busy? { SumAll(bad, s.workers[k].phase.out, 0); }
    }
    SumAll(Unsent(bad), s.workers, 0);
  }

  /** A Distribute without failed copies hands over a quiet pool. */
  lemma {:induction false} CleanDistribute(c: Config, tasks: seq<Task>, workers: seq<Worker>, run: seq<Step>)
    requires c.command.Distribute? && ValidStart(c, tasks, workers)
    requires Legal(c, Start(tasks, [], workers), run)
    requires Exec(c, Start(tasks, [], workers), run).control.Exited?
    requires forall h :: Sum(BadCopyOf(h), Exec(c, Start(tasks, [], workers), run).received) == 0
    ensures PoolQuiet(Exec(c, Start(tasks, [], workers), run))
  {
    var s := Exec(c, Start(tasks, [], workers), run);
    DistributeLeaves(c, tasks, workers, run);
    if s.data != [] {
      DataLeft(s);
    }
    forall k | 0 <= k < |s.workers| ensures Quiet(s.workers[k]) {
      if !Quiet(s.workers[k]) {
        WorkerLeft(s, k);
      }
    }
  }

  lemma {:induction false} DataLeft(s: State)
    requires OnlyFailedCopies(s) && s.data != []
    ensures exists h :: Leftover(h, s) > 0
  {
    var h := s.data[0].host;
    SumMember(ExecOf(h), s.data, 0);
    assert Leftover(h, s) > 0;
  }

  lemma {:induction false} WorkerLeft(s: State, k: nat)
    requires OnlyFailedCopies(s) && k < |s.workers| && !Quiet(s.workers[k])
    ensures exists h :: Leftover(h, s) > 0
  {
    var out := s.workers[k].phase.out;
    var h := out[0].host;
    SumMember(ExecOf(h), out, 0);
    SumMember(Unsent(ExecOf(h)), s.workers, k);
    assert Leftover(h, s) > 0;
  }

  // ---------------------------------------------------------------- starting over what was left

  /** The ExecFinished messages already in the pool when a command starts. */
  ghost function Stale(data: seq<Output>, workers: seq<Worker>): nat {
    FinCount(Execute, Any, data) + OwedCount(Execute, Any, workers)
  }

  /** Parallel or Collapse started over stale messages takes them for its own: when its loop exits,
      as many of its finishing messages as there were stale ones are still missing. It does what it
      promises exactly when there were none. */
  lemma {:induction false} StaleMessagesCount(c: Config, tasks: seq<Task>, data: seq<Output>, workers: seq<Worker>,
                                              run: seq<Step>)
    requires c.command.Execute? && Shaped(c, Start(tasks, data, workers))
    requires Legal(c, Start(tasks, data, workers), run)
    requires Exec(c, Start(tasks, data, workers), run).control.Exited?
    ensures var s := Exec(c, Start(tasks, data, workers), run);
            |s.unfed| + |s.queue| + |s.drained| + Stale(s.data, s.workers) == Stale(data, workers)
  {
    var s0 := Start(tasks, data, workers);
    var s := Exec(c, s0, run);
    RunOutstanding(c, Any, s0, run);
    RunCounting(c, |tasks|, s0, run);
    CountAny(tasks);
    CountAny(s.unfed);
    CountAny(s.queue);
    CountAny(s.drained);
  }

  lemma {:induction false} RunCounting(c: Config, n: nat, s: State, run: seq<Step>)
    requires Counting(c, n, s) && Legal(c, s, run)
    ensures Counting(c, n, Exec(c, s, run))
    decreases |run|
  {
    if run != [] {
      StepCounting(c, n, s, run[0]);
      RunCounting(c, n, Apply(c, s, run[0]), run[1..]);
    }
  }

  /** `runscript` is Distribute followed by Parallel or Collapse over the same pool. When the second
      loop exits, it is short of one finishing message for each failed copy whose ExecFinished the
      first loop had not dropped; without failed copies it is complete and the pool is quiet. */
  lemma {:induction false} RunscriptShortfall(cap: nat, copies: seq<Task>, workers: seq<Worker>, first: seq<Step>,
                                              tasks: seq<Task>, second: seq<Step>)
    requires ValidStart(Config(cap, Distribute), copies, workers) && AllFit(Execute, tasks)
    requires Legal(Config(cap, Distribute), Start(copies, [], workers), first)
    requires var s := Exec(Config(cap, Distribute), Start(copies, [], workers), first);
             && s.control.Exited?
             && Legal(Config(cap, Execute), Start(tasks, s.data, s.workers), second)
             && Exec(Config(cap, Execute), Start(tasks, s.data, s.workers), second).control.Exited?
    ensures var s := Exec(Config(cap, Distribute), Start(copies, [], workers), first);
            var e := Exec(Config(cap, Execute), Start(tasks, s.data, s.workers), second);
            && |e.unfed| + |e.queue| + |e.drained| + Stale(e.data, e.workers) == Stale(s.data, s.workers)
            && ((forall h :: Sum(BadCopyOf(h), s.received) == 0) ==> e.unfed == [] && PoolQuiet(e))
  {
    var c1, c2 := Config(cap, Distribute), Config(cap, Execute);
    var s := Exec(c1, Start(copies, [], workers), first);
    DistributeLeaves(c1, copies, workers, first);
    TasksConserved(c1, copies, workers, first, Any);
    forall k | 0 <= k < |s.workers| ensures PhaseOk(Execute, s.workers[k].phase) {
      if s.workers[k].phase.Busy? && s.workers[k].phase.out != [] {
        assert s.workers[k].phase.out[|s.workers[k].phase.out| - 1].ExecFinished?;
      }
    }
    StaleMessagesCount(c2, tasks, s.data, s.workers, second);
    if forall h :: Sum(BadCopyOf(h), s.received) == 0 {
      CleanDistribute(c1, copies, workers, first);
      ExitDelivers(c2, tasks, s.workers, second);
    }
  }

  const FAILING_COPY := Task("h", Some(Last([], 1)), None)

  const COPY_TRACE := ExecFinished("h", ERR_COPY_FAILED)

  lemma {:induction false} FailingCopyReads()
    ensures PollPhase(Busy(FAILING_COPY, [], Copying(Last([], 1))), false)
            == Busy(FAILING_COPY, [CopyFinished("h", 1), COPY_TRACE], Done)
  {
    assert Emit("h", []) == [];
    assert CopyEnd(FAILING_COPY, 1) == [CopyFinished("h", 1), COPY_TRACE];
  }

  /** Distribute to one host that refuses the file, up to the send that follows its exit. */
  lemma {:induction false} FailedCopyRun(cap: nat) returns (run: seq<Step>)
    requires cap >= 1
    ensures var c, s0 := Config(cap, Distribute), Start([FAILING_COPY], [], [Worker(Idle, false)]);
            && Legal(c, s0, run)
            && Exec(c, s0, run) == State([], [], [COPY_TRACE], [Worker(Busy(FAILING_COPY, [], Done), false)],
                                         Exited, 0, [CopyFinished("h", 1)], 1, [], 0, [])
  {
    var c := Config(cap, Distribute);
    var s0 := Start([FAILING_COPY], [], [Worker(Idle, false)]);
    var s3 := FailingState([], Busy(FAILING_COPY, [], Copying(Last([], 1))), Receiving, []);
    var s4 := FailingState([], Busy(FAILING_COPY, [CopyFinished("h", 1), COPY_TRACE], Done), Receiving, []);
    var s7 := FailingState([COPY_TRACE], Busy(FAILING_COPY, [], Done), Exited, [CopyFinished("h", 1)]);
    FailingCopyReads();
    FailedCopyStarts(c, s3);
    var end := FailedCopyEnds(c, s4, s7);
    ConsRun(c, s3, Poll(0), s4, end);
    RunsCompose(c, s0, [Feed, Take(0), Mark(0)], [Poll(0)] + end);
    run := [Feed, Take(0), Mark(0)] + ([Poll(0)] + end);
  }

  function FailingState(data: seq<Output>, p: Phase, control: Control, received: seq<Output>): State {
    State([], [], data, [Worker(p, false)], control, if control.Exited? then 0 else 1, received, 1, [], 0, [])
  }

  lemma {:induction false} FailedCopyStarts(c: Config, s3: State)
    requires c.command.Distribute? && c.cap >= 1
    requires s3 == FailingState([], Busy(FAILING_COPY, [], Copying(Last([], 1))), Receiving, [])
    ensures Legal(c, Start([FAILING_COPY], [], [Worker(Idle, false)]), [Feed, Take(0), Mark(0)])
    ensures Exec(c, Start([FAILING_COPY], [], [Worker(Idle, false)]), [Feed, Take(0), Mark(0)]) == s3
  {
    var s0 := Start([FAILING_COPY], [], [Worker(Idle, false)]);
    var s1 := s0.(unfed := [], queue := [FAILING_COPY]);
    var s2 := FailingState([], Got(FAILING_COPY), Receiving, []);
    assert Apply(c, s2, Mark(0)) == s3;
    ConsRun(c, s2, Mark(0), s3, []);
    assert Apply(c, s1, Take(0)) == s2;
    ConsRun(c, s1, Take(0), s2, [Mark(0)]);
    assert Apply(c, s0, Feed) == s1;
    ConsRun(c, s0, Feed, s1, [Take(0)] + [Mark(0)]);
    assert [Feed] + ([Take(0)] + [Mark(0)]) == [Feed, Take(0), Mark(0)] && [Mark(0)] + [] == [Mark(0)];
  }

  lemma {:induction false} FailedCopyEnds(c: Config, s4: State, s7: State) returns (run: seq<Step>)
    requires c.command.Distribute? && c.cap >= 1
    requires s4 == FailingState([], Busy(FAILING_COPY, [CopyFinished("h", 1), COPY_TRACE], Done), Receiving, [])
    requires s7 == FailingState([COPY_TRACE], Busy(FAILING_COPY, [], Done), Exited, [CopyFinished("h", 1)])
    ensures Legal(c, s4, run) && Exec(c, s4, run) == s7
  {
    var s5 := FailingState([CopyFinished("h", 1)], Busy(FAILING_COPY, [COPY_TRACE], Done), Receiving, []);
    var s6 := FailingState([], Busy(FAILING_COPY, [COPY_TRACE], Done), Exited, [CopyFinished("h", 1)]);
    assert s6.data + [COPY_TRACE] == s7.data && [COPY_TRACE][1..] == [];
    assert s6.workers[0 := Worker(Busy(FAILING_COPY, [], Done), false)] == s7.workers;
    assert Apply(c, s6, Send(0)) == s7;
    ConsRun(c, s6, Send(0), s7, []);
    assert Apply(c, s5, Receive) == s6;
    ConsRun(c, s5, Receive, s6, [Send(0)] + []);
    assert Apply(c, s4, Send(0)) == s5;
    ConsRun(c, s4, Send(0), s5, [Receive] + ([Send(0)] + []));
    run := [Send(0)] + ([Receive] + ([Send(0)] + []));
  }

  /** The shortfall happens: one failed copy, and the next command of one host exits before that host
      has even been queued, reporting the failed one in its place. */
  lemma {:induction false} FailedCopySpoilsNext(cap: nat, t: Task) returns (first: seq<Step>, second: seq<Step>)
    requires cap >= 1 && Fits(Execute, t)
    ensures var c1, c2 := Config(cap, Distribute), Config(cap, Execute);
            var s0 := Start([FAILING_COPY], [], [Worker(Idle, false)]);
            && Legal(c1, s0, first) && Exec(c1, s0, first).control.Exited?
            && var s := Exec(c1, s0, first);
               && Legal(c2, Start([t], s.data, s.workers), second)
               && var e := Exec(c2, Start([t], s.data, s.workers), second);
                  e.control.Exited? && e.unfed == [t] && e.received == [COPY_TRACE]
  {
    first := FailedCopyRun(cap);
    var c2 := Config(cap, Execute);
    var e0 := Start([t], [COPY_TRACE], [Worker(Busy(FAILING_COPY, [], Done), false)]);
    second := [Receive];
    ConsRun(c2, e0, Receive, Apply(c2, e0, Receive), []);
    assert [Receive] + [] == second;
  }
}
