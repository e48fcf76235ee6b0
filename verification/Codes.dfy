/** Where the reported codes come from (src/remote/worker.go:91-126, src/executer/distribute.go:26-50): in every
    run, interrupted or not, a code is that of the task's own process, of a stop or of a failed copy. */
module Codes {
  import opened Basics
  import opened Remote
  import opened Protocol
  import opened Conservation
  import opened Delivery
  import opened Liveness
  import opened Results
  import opened Schedule

  /** What a task may report; stops only count when there can be any. */
  ghost predicate MayReport(t: Task, m: Output, stops: bool) {
    match m
    case Chunk(_, _, _) => true
    case CopyFinished(_, code) => t.copy.Some? && (code == ExitCode(t.copy.value) || (stops && code == ERR_FORCE_STOP))
    case ExecFinished(_, code) =>
      || (t.copy.Some? && code == ERR_COPY_FAILED)
      || (t.exec.Some? && (code == ExitCode(t.exec.value) || (stops && code == ERR_FORCE_STOP)))
  }

  ghost predicate Honest(tasks: seq<Task>, m: Output, stops: bool) {
    exists i :: 0 <= i < |tasks| && tasks[i].host == m.host && MayReport(tasks[i], m, stops)
  }

  ghost predicate AllHonest(tasks: seq<Task>, ms: seq<Output>, stops: bool) {
    forall i | 0 <= i < |ms| :: Honest(tasks, ms[i], stops)
  }

  /** The loop that goes on belongs to the process of the task. */
  ghost predicate OwnProcess(t: Task, cont: Cont) {
    match cont
    case Done => true
    case Copying(s) => t.copy.Some? && ExitCode(s) == ExitCode(t.copy.value)
    case Running(s) => t.exec.Some? && ExitCode(s) == ExitCode(t.exec.value)
  }

  ghost predicate OwnPhase(tasks: seq<Task>, p: Phase, stops: bool) {
    match p
    case Idle => true
    case Got(t) => t in tasks
    case Busy(t, out, cont) =>
      && AllHonest(tasks, out, stops)
      && (!cont.Done? ==> t in tasks && OwnProcess(t, cont))
  }

  ghost predicate Inv(tasks: seq<Task>, s: State, stops: bool) {
    && (forall t | t in s.unfed || t in s.queue :: t in tasks)
    && AllHonest(tasks, s.data, stops) && AllHonest(tasks, s.received, stops)
    && (forall k | 0 <= k < |s.workers| :: OwnPhase(tasks, s.workers[k].phase, stops))
    && (!stops ==> NoTokens(s) && Calm(s))
  }

  lemma {:induction false} HonestTask(tasks: seq<Task>, t: Task, m: Output, stops: bool)
    requires t in tasks && t.host == m.host && MayReport(t, m, stops)
    ensures Honest(tasks, m, stops)
  {
    var i :| 0 <= i < |tasks| && tasks[i] == t;
  }

  lemma {:induction false} EmitHonest(tasks: seq<Task>, t: Task, round: seq<Piece>, end: seq<Output>, stops: bool)
    requires t in tasks && forall i | 0 <= i < |end| :: end[i].host == t.host && MayReport(t, end[i], stops)
    ensures AllHonest(tasks, Emit(t.host, round) + end, stops)
  {
    var out := Emit(t.host, round) + end;
    forall i | 0 <= i < |out| ensures Honest(tasks, out[i], stops) {
      HonestTask(tasks, t, out[i], stops);
    }
  }

  lemma {:induction false} PollHonest(tasks: seq<Task>, p: Phase, stop: bool, stops: bool)
    requires p.Busy? && p.out == [] && !p.cont.Done? && OwnPhase(tasks, p, stops) && (stop ==> stops)
    ensures OwnPhase(tasks, PollPhase(p, stop), stops)
  {
    var t, s := p.task, p.cont.s;
    if stop {
      StopHonest(tasks, t, stops);
    } else if s.More? {
      EmitHonest(tasks, t, s.round, [], stops);
      assert Emit(t.host, s.round) + [] == Emit(t.host, s.round);
    } else if p.cont.Copying? {
      EmitHonest(tasks, t, s.round, CopyEnd(t, s.code), stops);
    } else {
      EmitHonest(tasks, t, s.round, [ExecFinished(t.host, s.code)], stops);
    }
  }

  lemma {:induction false} StopHonest(tasks: seq<Task>, t: Task, stops: bool)
    requires stops && t in tasks
    ensures t.copy.Some? ==> AllHonest(tasks, CopyEnd(t, ERR_FORCE_STOP), stops)
    ensures t.exec.Some? ==> AllHonest(tasks, [ExecFinished(t.host, ERR_FORCE_STOP)], stops)
  {
    if t.copy.Some? {
      EmitHonest(tasks, t, [], CopyEnd(t, ERR_FORCE_STOP), stops);
      assert Emit(t.host, []) + CopyEnd(t, ERR_FORCE_STOP) == CopyEnd(t, ERR_FORCE_STOP);
    }
    if t.exec.Some? {
      HonestTask(tasks, t, ExecFinished(t.host, ERR_FORCE_STOP), stops);
    }
  }

  lemma {:induction false} StepHonest(c: Config, tasks: seq<Task>, s: State, st: Step, stops: bool)
    requires Inv(tasks, s, stops) && Enabled(c, s, st) && (st.Interrupt? ==> stops)
    ensures Inv(tasks, Apply(c, s, st), stops)
  {
    match st
    case Poll(k) => PollHonest(tasks, s.workers[k].phase, s.workers[k].stop, stops);
    case Send(k) => SendHonest(c, tasks, s, k, stops);
    case _ =>
  }

  lemma {:induction false} SendHonest(c: Config, tasks: seq<Task>, s: State, k: nat, stops: bool)
    requires Inv(tasks, s, stops) && Enabled(c, s, Send(k))
    ensures Inv(tasks, Apply(c, s, Send(k)), stops)
  {
    var out := s.workers[k].phase.out;
    assert Honest(tasks, out[0], stops);
    assert forall i | 0 <= i < |out[1..]| :: out[1..][i] == out[i + 1];
  }

  lemma {:induction false} RunHonest(c: Config, tasks: seq<Task>, s: State, run: seq<Step>, stops: bool)
    requires Inv(tasks, s, stops) && Legal(c, s, run) && (Uninterrupted(run) || stops)
    ensures Inv(tasks, Exec(c, s, run), stops)
    decreases |run|
  {
    if run != [] {
      assert run[0].Interrupt? ==> stops;
      StepHonest(c, tasks, s, run[0], stops);
      RunHonest(c, tasks, Apply(c, s, run[0]), run[1..], stops);
    }
  }

  lemma {:induction false} StartHonest(c: Config, tasks: seq<Task>, workers: seq<Worker>, stops: bool)
    requires ValidStart(c, tasks, workers) && (stops || NoTokens(Start(tasks, [], workers)))
    ensures Inv(tasks, Start(tasks, [], workers), stops)
  {
  }

  lemma {:induction false} LastIsReceived(command: Command, ms: seq<Output>)
    requires LastCounted(command, ms).Some?
    ensures exists m | m in ms :: Counted(command, m) && m.code == LastCounted(command, ms).value
  {
    var last := ms[|ms| - 1];
    if Counted(command, last) {
      assert last in ms;
    } else {
      LastIsReceived(command, ms[..|ms| - 1]);
      var m :| m in ms[..|ms| - 1] && Counted(command, m) && m.code == LastCounted(command, ms).value;
      assert m in ms;
    }
  }

  lemma {:induction false} OfProj(h: Host, ms: seq<Output>, m: Output)
    requires m in Proj(h, ms)
    ensures m in ms && m.host == h
  {
    var init, last := ms[..|ms| - 1], ms[|ms| - 1];
    assert ms == init + [last];
    ProjSnoc(h, init, last);
    if m in Proj(h, init) {
      OfProj(h, init, m);
    }
  }

  /** Whatever the schedule and the interrupts, a code that a command records for a host is one that a task of
      this host may report. */
  lemma {:induction false} CodesAreHonest(c: Config, tasks: seq<Task>, workers: seq<Worker>, run: seq<Step>, h: Host,
                                          stops: bool)
    requires ValidStart(c, tasks, workers) && Legal(c, Start(tasks, [], workers), run)
    requires stops || (NoTokens(Start(tasks, [], workers)) && Uninterrupted(run))
    requires h in Collect(c.command, Exec(c, Start(tasks, [], workers), run).received).codes
    ensures var code := Collect(c.command, Exec(c, Start(tasks, [], workers), run).received).codes[h];
            exists i :: 0 <= i < |tasks| && tasks[i].host == h &&
              MayReport(tasks[i], if c.command.Execute? then ExecFinished(h, code) else CopyFinished(h, code), stops)
  {
    var s := Exec(c, Start(tasks, [], workers), run);
    StartHonest(c, tasks, workers, stops);
    RunHonest(c, tasks, Start(tasks, [], workers), run, stops);
    CodeByHost(c.command, s.received, h);
    LastIsReceived(c.command, Proj(h, s.received));
    var m :| m in Proj(h, s.received) && Counted(c.command, m) && m.code == LastCounted(c.command, Proj(h, s.received)).value;
    OfProj(h, s.received, m);
    assert Honest(tasks, m, stops);
  }

  lemma {:induction false} SomeCounted(command: Command, h: Host, ms: seq<Output>)
    requires FinCount(command, Only(h), ms) > 0
    ensures LastCounted(command, Proj(h, ms)).Some?
  {
    if ms != [] {
      var init, last := ms[..|ms| - 1], ms[|ms| - 1];
      assert ms == init + [last];
      SumSnoc(FinWeight(command, Only(h)), init, last);
      ProjSnoc(h, init, last);
      if last.host == h {
        LastCountedSnoc(command, Proj(h, init), last);
      }
      if !Counted(command, last) || last.host != h {
        SomeCounted(command, h, init);
      }
    }
  }

  lemma {:induction false} HasTask(tasks: seq<Task>, i: nat)
    requires i < |tasks|
    ensures TaskCount(Only(tasks[i].host), tasks) > 0
  {
    SumMember(TaskWeight(Only(tasks[i].host)), tasks, i);
  }

  /** An undisturbed Distribute over distinct hosts records for every host the exit code of its own copy. */
  lemma {:induction false} DistributeReports(c: Config, tasks: seq<Task>, workers: seq<Worker>, run: seq<Step>, i: nat)
    requires c.command.Distribute? && ValidStart(c, tasks, workers) && Distinct(tasks) && i < |tasks|
    requires NoTokens(Start(tasks, [], workers)) && Legal(c, Start(tasks, [], workers), run) && Uninterrupted(run)
    requires Exec(c, Start(tasks, [], workers), run).control.Exited?
    ensures var r := Collect(Distribute, Exec(c, Start(tasks, [], workers), run).received);
            tasks[i].host in r.codes && r.codes[tasks[i].host] == ExitCode(tasks[i].copy.value)
  {
    var h, s := tasks[i].host, Exec(c, Start(tasks, [], workers), run);
    ExitDelivers(c, tasks, workers, run);
    HasTask(tasks, i);
    SomeCounted(Distribute, h, s.received);
    CodeByHost(Distribute, s.received, h);
    CodesAreHonest(c, tasks, workers, run, h, false);
  }
}
