/** What SIGINT does: every stop token is accounted for, every consumed token costs one task its
    success, and a token can outlive the command it was posted for
    (src/remote/pool.go:37-61, src/remote/worker.go:145-162). */
module Interrupts {
  import opened Basics
  import opened Remote
  import opened Protocol
  import opened Conservation
  import opened Delivery
  import opened Liveness

  ghost function TokenWeight(): Worker -> nat { (w: Worker) => if w.stop then 1 else 0 }

  ghost function Tokens(ws: seq<Worker>): nat { Sum(TokenWeight(), ws) }

  /** Stop tokens are neither lost nor made up: those there were plus those posted are those consumed
      plus those still buffered. */
  lemma {:induction false} TokensConserved(c: Config, s: State, run: seq<Step>)
    requires Legal(c, s, run)
    ensures var e := Exec(c, s, run);
            Tokens(s.workers) + e.posted + |s.cut| == Tokens(e.workers) + s.posted + |e.cut|
    decreases |run|
  {
    if run != [] {
      StepTokens(c, s, run[0]);
      TokensConserved(c, Apply(c, s, run[0]), run[1..]);
    }
  }

  lemma {:induction false} StepTokens(c: Config, s: State, st: Step)
    requires Enabled(c, s, st)
    ensures var e := Apply(c, s, st);
            Tokens(s.workers) + e.posted + |s.cut| == Tokens(e.workers) + s.posted + |e.cut|
  {
    var e := Apply(c, s, st);
    match st
    case Take(k) => SumUpdate(TokenWeight(), s.workers, k, e.workers[k]);
    case Mark(k) => SumUpdate(TokenWeight(), s.workers, k, e.workers[k]);
    case Poll(k) => SumUpdate(TokenWeight(), s.workers, k, e.workers[k]);
    case Send(k) => SumUpdate(TokenWeight(), s.workers, k, e.workers[k]);
    case Clear(k) => SumUpdate(TokenWeight(), s.workers, k, e.workers[k]);
    case Handle => if s.control.Posting? { SumUpdate(TokenWeight(), s.workers, s.control.k, e.workers[s.control.k]); }
    case _ =>
  }

  // ---------------------------------------------------------------- tokens and failures

  ghost function Bad(command: Command, h: Host, m: Output): nat {
    if Counted(command, m) && m.host == h && m.code != 0 then 1 else 0
  }

  ghost function BadWeight(command: Command, h: Host): Output -> nat { (m: Output) => Bad(command, h, m) }

  ghost function BadUnsent(command: Command, h: Host): Worker -> nat {
    (w: Worker) => if w.phase.Busy? then Sum(BadWeight(command, h), w.phase.out) else 0
  }

  ghost function BadWeights(command: Command, h: Host): Weights {
    Weights((t: Task) => 0, (t: Task) => 0, BadUnsent(command, h), BadWeight(command, h), BadWeight(command, h), (t: Task) => 0)
  }

  /** The failures of a host that have been reported or are about to be. */
  ghost function Failures(c: Config, h: Host, s: State): nat {
    Potential(BadWeights(c.command, h), s)
  }

  ghost function CutWeight(h: Host): Host -> nat { (x: Host) => if x == h then 1 else 0 }

  ghost function Cuts(h: Host, s: State): nat { Sum(CutWeight(h), s.cut) }

  /** A poll that finds a token ends the phase with exactly one counted message of nonzero code; a
      poll that finds none takes no failure back. */
  lemma {:induction false} PollBad(command: Command, p: Phase, stop: bool, h: Host)
    requires p.Busy? && p.out == [] && !p.cont.Done? && PhaseOk(command, p)
    ensures stop ==> Sum(BadWeight(command, h), PollPhase(p, stop).out) == if p.task.host == h then 1 else 0
    ensures stop ==> PollPhase(p, stop).cont.Done?
  {
    if stop {
      var f, t := BadWeight(command, h), p.task;
      var copied, failed := CopyFinished(t.host, ERR_FORCE_STOP), ExecFinished(t.host, ERR_COPY_FAILED);
      var stopped := ExecFinished(t.host, ERR_FORCE_STOP);
      SumSnoc(f, [], copied);
      assert [] + [copied] == [copied];
      SumSnoc(f, [copied], failed);
      SumSnoc(f, [], stopped);
      assert [] + [stopped] == [stopped];
    }
  }

  lemma {:induction false} PollCuts(c: Config, s: State, k: nat, h: Host)
    requires Shaped(c, s) && Enabled(c, s, Poll(k))
    ensures var e, w := Apply(c, s, Poll(k)), s.workers[k];
            var hit := if w.stop && w.phase.task.host == h then 1 else 0;
            && Cuts(h, e) == Cuts(h, s) + hit
            && (if w.stop then Failures(c, h, e) == Failures(c, h, s) + hit else Failures(c, h, e) >= Failures(c, h, s))
  {
    StepPotential(c, BadWeights(c.command, h), s, Poll(k));
    PollBad(c.command, s.workers[k].phase, s.workers[k].stop, h);
    SumSnoc(CutWeight(h), s.cut, s.workers[k].phase.task.host);
    assert Apply(c, s, Poll(k)).workers[k].phase == PollPhase(s.workers[k].phase, s.workers[k].stop);
  }

  lemma {:induction false} SendCuts(c: Config, s: State, k: nat, h: Host)
    requires Shaped(c, s) && Enabled(c, s, Send(k))
    ensures Failures(c, h, Apply(c, s, Send(k))) == Failures(c, h, s)
  {
    StepPotential(c, BadWeights(c.command, h), s, Send(k));
    assert Apply(c, s, Send(k)).workers[k].phase.out == s.workers[k].phase.out[1..];
  }

  lemma {:induction false} OtherCuts(c: Config, s: State, st: Step, h: Host)
    requires Shaped(c, s) && Enabled(c, s, st) && !st.Poll? && !st.Send?
    ensures Failures(c, h, Apply(c, s, st)) == Failures(c, h, s)
  {
    StepPotential(c, BadWeights(c.command, h), s, st);
  }

  /** A consumed token adds exactly one failure and one cut of the host it stops; no other step adds a cut
      or takes a failure back. */
  lemma {:induction false} StepCuts(c: Config, s: State, st: Step, h: Host)
    requires Shaped(c, s) && Enabled(c, s, st)
    ensures var e := Apply(c, s, st);
            if st.Poll? && s.workers[st.k].stop then
              var hit := if s.workers[st.k].phase.task.host == h then 1 else 0;
              Failures(c, h, e) == Failures(c, h, s) + hit && Cuts(h, e) == Cuts(h, s) + hit
            else Failures(c, h, e) >= Failures(c, h, s) && Cuts(h, e) == Cuts(h, s)
  {
    match st
    case Poll(k) => PollCuts(c, s, k, h);
    case Send(k) => SendCuts(c, s, k, h);
    case _ => OtherCuts(c, s, st, h);
  }

  lemma {:induction false} RunCuts(c: Config, s: State, run: seq<Step>, h: Host)
    requires Shaped(c, s) && Legal(c, s, run)
    ensures Failures(c, h, Exec(c, s, run)) - Cuts(h, Exec(c, s, run)) >= Failures(c, h, s) - Cuts(h, s)
    decreases |run|
  {
    if run != [] {
      StepCuts(c, s, run[0], h);
      StepShaped(c, s, run[0]);
      RunCuts(c, Apply(c, s, run[0]), run[1..], h);
    }
  }

  lemma {:induction false} BadIsFin(command: Command, h: Host, ms: seq<Output>)
    ensures Sum(BadWeight(command, h), ms) <= FinCount(command, Any, ms)
  {
    var f, g := BadWeight(command, h), FinWeight(command, Any);
    forall i | 0 <= i < |ms| ensures f(ms[i]) <= g(ms[i]) {}
    SumMonotone(f, g, ms);
  }

  /** Interrupt accounting at exit: every token consumed cut one copy or exec phase of some host, and
      that host is reported as failed at least as many times as it was cut. */
  lemma {:induction false} CutsAreErrors(c: Config, tasks: seq<Task>, workers: seq<Worker>, run: seq<Step>, h: Host)
    requires ValidStart(c, tasks, workers)
    requires Legal(c, Start(tasks, [], workers), run)
    requires Exec(c, Start(tasks, [], workers), run).control.Exited?
    ensures var s := Exec(c, Start(tasks, [], workers), run);
            && Tokens(workers) + s.posted == Tokens(s.workers) + |s.cut|
            && Cuts(h, s) <= Sum(BadWeight(c.command, h), s.received)
  {
    var s0 := Start(tasks, [], workers);
    var s := Exec(c, s0, run);
    TokensConserved(c, s0, run);
    StartInv(c, tasks, workers);
    RunCuts(c, s0, run, h);
    TasksConserved(c, tasks, workers, run, Any);
    ExitDelivers(c, tasks, workers, run);
    BadIsFin(c.command, h, s.data);
    var f := BadUnsent(c.command, h);
    forall k | 0 <= k < |s.workers| ensures f(s.workers[k]) == 0 {
      SumMember(OwedWeight(c.command, Any), s.workers, k);
      if s.workers[k].phase.Busy? { BadIsFin(c.command, h, s.workers[k].phase.out); }
    }
    SumAll(f, s.workers, 0);
    var w := BadWeights(c.command, h);
    SumAll(w.unfed, s.unfed, 0);
    SumAll(w.queue, s.queue, 0);
    SumAll(w.drained, s.drained, 0);
  }

  // ---------------------------------------------------------------- tokens that outlive their task

  /** A task as Parallel and Collapse make them: a copy and then a command, both silent. */
  const ECHO := Task("h", Some(Last([], 0)), Some(Last([], 0)))

  const COPIED := CopyFinished("h", 0)

  const DONE := ExecFinished("h", 0)

  /** A pool of one worker that runs this task, in the course of which the copy is reported. */
  function Running1(data: seq<Output>, p: Phase, received: seq<Output>): State {
    State([], [], data, [Worker(p, false)], Receiving, 1, received, 1, [], 0, [])
  }

  /** The worker has sent its last message but not yet cleared its busy flag. */
  function Finishing(stop: bool, control: Control, posted: nat): State {
    State([], [], [DONE], [Worker(Busy(ECHO, [], Done), stop)], control, 1, [COPIED], 1, [], posted, [])
  }

  function OnlyEcho(): State { Start([ECHO], [], [Worker(Idle, false)]) }

  lemma {:induction false} CopyStarted(c: Config) returns (run: seq<Step>)
    requires c.command.Execute? && c.cap >= 1
    ensures Legal(c, OnlyEcho(), run)
    ensures Exec(c, OnlyEcho(), run) == Running1([], Busy(ECHO, [], Copying(Last([], 0))), [])
  {
    var s0 := OnlyEcho();
    var s1 := s0.(unfed := [], queue := [ECHO]);
    var s2 := Running1([], Got(ECHO), []);
    var s3 := Running1([], Busy(ECHO, [], Copying(Last([], 0))), []);
    ConsRun(c, s2, Mark(0), s3, []);
    run := [Mark(0)] + [];
    assert Apply(c, s1, Take(0)) == s2;
    ConsRun(c, s1, Take(0), s2, run);
    run := [Take(0)] + run;
    assert Apply(c, s0, Feed) == s1;
    ConsRun(c, s0, Feed, s1, run);
    run := [Feed] + run;
  }

  lemma {:induction false} CopyReported(c: Config) returns (run: seq<Step>)
    requires c.command.Execute? && c.cap >= 1
    ensures Legal(c, OnlyEcho(), run)
    ensures Exec(c, OnlyEcho(), run) == Running1([], Busy(ECHO, [], Running(Last([], 0))), [COPIED])
  {
    var s4 := Running1([], Busy(ECHO, [COPIED], Running(Last([], 0))), []);
    var s5 := Running1([COPIED], Busy(ECHO, [], Running(Last([], 0))), []);
    run := CopyStarted(c);
    assert CopyEnd(ECHO, 0) == [COPIED] && AfterCopy(ECHO, 0) == Running(Last([], 0)) && Emit("h", []) == [];
    assert PollPhase(Busy(ECHO, [], Copying(Last([], 0))), false) == Busy(ECHO, [COPIED], Running(Last([], 0)));
    RunOneMore(c, OnlyEcho(), run, Poll(0));
    run := run + [Poll(0)];
    assert Exec(c, OnlyEcho(), run) == s4;
    assert [] + [COPIED] == [COPIED] && [COPIED][1..] == [];
    assert s4.workers[0 := Worker(Busy(ECHO, [], Running(Last([], 0))), false)] == s5.workers;
    RunOneMore(c, OnlyEcho(), run, Send(0));
    run := run + [Send(0)];
    assert Exec(c, OnlyEcho(), run) == s5;
    RunOneMore(c, OnlyEcho(), run, Receive);
    run := run + [Receive];
  }

  lemma {:induction false} FinishingReached(c: Config) returns (run: seq<Step>)
    requires c.command.Execute? && c.cap >= 1
    ensures Legal(c, OnlyEcho(), run) && Exec(c, OnlyEcho(), run) == Finishing(false, Receiving, 0)
  {
    run := CopyReported(c);
    var s6 := Running1([], Busy(ECHO, [], Running(Last([], 0))), [COPIED]);
    var s7 := Running1([], Busy(ECHO, [DONE], Done), [COPIED]);
    assert Emit("h", []) == [] && [] + [DONE] == [DONE] && [DONE][1..] == [];
    assert Apply(c, s6, Poll(0)) == s7;
    RunOneMore(c, OnlyEcho(), run, Poll(0));
    run := run + [Poll(0)];
    assert s7.workers[0 := Worker(Busy(ECHO, [], Done), false)] == Finishing(false, Receiving, 0).workers;
    assert Apply(c, s7, Send(0)) == Finishing(false, Receiving, 0);
    RunOneMore(c, OnlyEcho(), run, Send(0));
    run := run + [Send(0)];
  }

  /** The handler posts a token to a worker that has nothing left to stop. */
  lemma {:induction false} TokenPosted(c: Config) returns (run: seq<Step>)
    requires c.command.Execute? && c.cap >= 1
    ensures Legal(c, Finishing(false, Receiving, 0), run)
    ensures Exec(c, Finishing(false, Receiving, 0), run) == Finishing(true, Receiving, 1)
  {
    var s0 := Finishing(false, Receiving, 0);
    var s1 := Finishing(false, Draining, 0);
    var s2 := Finishing(false, Stopping(0, 0), 0);
    var s3 := Finishing(false, Posting(0, 0), 0);
    var s4 := Finishing(true, Stopping(1, 1), 1);
    var s5 := Finishing(true, Receiving, 1);
    ConsRun(c, s4, Handle, s5, []);
    assert Apply(c, s3, Handle) == s4;
    ConsRun(c, s3, Handle, s4, [Handle] + []);
    run := [Handle] + ([Handle] + []);
    ConsRun(c, s2, Handle, s3, run);
    run := [Handle] + run;
    ConsRun(c, s1, Handle, s2, run);
    run := [Handle] + run;
    ConsRun(c, s0, Interrupt, s1, run);
    run := [Interrupt] + run;
  }

  /** A stop token can outlive the task it was aimed at: an interrupt in the window before the busy
      flag is cleared, and the command exits in success with the token still in the buffer. The first
      poll of the next task of that worker, whatever it copies, will be stopped by it. */
  lemma {:induction false} TokenOutlivesCommand(c: Config, next: Task) returns (run: seq<Step>)
    requires c.command.Execute? && c.cap >= 1 && next.copy.Some?
    ensures Legal(c, OnlyEcho(), run)
    ensures var s := Exec(c, OnlyEcho(), run);
            && s.control.Exited? && s.received == [COPIED, DONE] && PoolQuiet(s)
            && |s.workers| == 1 && s.workers[0].stop
            && PollPhase(Busy(next, [], StartCont(next)), s.workers[0].stop) == Busy(next, CopyEnd(next, ERR_FORCE_STOP), Done)
  {
    var a := FinishingReached(c);
    var b := TokenPosted(c);
    RunsCompose(c, OnlyEcho(), a, b);
    assert [COPIED] + [DONE] == [COPIED, DONE] && [DONE][1..] == [];
    RunOneMore(c, OnlyEcho(), a + b, Receive);
    run := a + b + [Receive];
  }

  /** A second interrupt in the same window leaves the handler waiting for a token that nobody will
      take: the command hangs although its only task has succeeded. */
  lemma {:induction false} SecondInterruptHangs(c: Config) returns (run: seq<Step>)
    requires c.command.Execute? && c.cap >= 1
    ensures Legal(c, OnlyEcho(), run)
    ensures Terminal(c, Exec(c, OnlyEcho(), run)) && HungOnToken(c, Exec(c, OnlyEcho(), run))
    ensures Exec(c, OnlyEcho(), run).data == [DONE] && Exec(c, OnlyEcho(), run).drained == []
  {
    var a := FinishingReached(c);
    var b := TokenPosted(c);
    RunsCompose(c, OnlyEcho(), a, b);
    run := a + b;
    RunOneMore(c, OnlyEcho(), run, Interrupt);
    run := run + [Interrupt];
    RunOneMore(c, OnlyEcho(), run, Handle);
    run := run + [Handle];
    RunOneMore(c, OnlyEcho(), run, Handle);
    run := run + [Handle];
    assert Exec(c, OnlyEcho(), run) == Finishing(true, Posting(0, 0), 1);
    RunOneMore(c, OnlyEcho(), run, Clear(0));
    run := run + [Clear(0)];
    assert Exec(c, OnlyEcho(), run).workers == [Worker(Idle, true)];
  }

  // ---------------------------------------------------------------- the feeder goes on

  /** The feeder hands over a host and the handler drops it, n times. */
  function FeedAndDrain(n: nat): seq<Step> { if n == 0 then [] else [Feed, Handle] + FeedAndDrain(n - 1) }

  lemma {:induction false} DrainsAll(c: Config, s: State)
    requires c.command.Execute? && c.cap >= 1 && s.control.Draining? && s.queue == []
    ensures Legal(c, s, FeedAndDrain(|s.unfed|))
    ensures Exec(c, s, FeedAndDrain(|s.unfed|)) == s.(unfed := [], drained := s.drained + s.unfed)
    decreases |s.unfed|
  {
    if s.unfed != [] {
      var run, rest := FeedAndDrain(|s.unfed|), FeedAndDrain(|s.unfed| - 1);
      var s1 := Apply(c, s, Feed);
      var s2 := Apply(c, s1, Handle);
      assert run[1..][1..] == rest && s2.unfed == s.unfed[1..];
      DrainsAll(c, s2);
      assert s2.drained + s2.unfed == s.drained + s.unfed;
    } else {
      assert s.drained + s.unfed == s.drained;
    }
  }

  /** The feeder of Parallel and Collapse does not stop for an interrupt: one interrupt can drop every host of
      the list, however short the queue is. */
  lemma {:induction false} EverythingDrained(c: Config, tasks: seq<Task>, workers: seq<Worker>)
    requires c.command.Execute? && ValidStart(c, tasks, workers) && tasks != []
    ensures var run := [Interrupt] + FeedAndDrain(|tasks|);
            && Legal(c, Start(tasks, [], workers), run)
            && var e := Exec(c, Start(tasks, [], workers), run);
               e.drained == tasks && e.taken == 0 && e.workers == workers
  {
    var s, run := Start(tasks, [], workers), [Interrupt] + FeedAndDrain(|tasks|);
    assert Apply(c, s, Interrupt).unfed == tasks && run[1..] == FeedAndDrain(|tasks|);
    DrainsAll(c, Apply(c, s, Interrupt));
    assert [] + tasks == tasks;
  }
}
