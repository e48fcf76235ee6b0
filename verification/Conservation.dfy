/** What every step of the protocol keeps: no task is lost or counted twice, whatever the
    interleaving and however many interrupts arrive. */
module Conservation {
  import opened Basics
  import opened Remote
  import opened Protocol

  // ---------------------------------------------------------------- weighing a state

  /** A weight for every place a task or a message can be in. */
  datatype Weights = Weights(
    unfed: Task -> nat, queue: Task -> nat, worker: Worker -> nat,
    data: Output -> nat, received: Output -> nat, drained: Task -> nat)

  ghost function Potential(w: Weights, s: State): nat {
    Sum(w.unfed, s.unfed) + Sum(w.queue, s.queue) + Sum(w.worker, s.workers)
    + Sum(w.data, s.data) + Sum(w.received, s.received) + Sum(w.drained, s.drained)
  }

  /** How much the places touched by a step change. */
  ghost function Delta(c: Config, w: Weights, s: State, st: Step): int
    requires Enabled(c, s, st)
  {
    var s' := Apply(c, s, st);
    match st
    case Feed => w.queue(s.unfed[0]) - w.unfed(s.unfed[0])
    case Take(k) => w.worker(s'.workers[k]) - w.worker(s.workers[k]) - w.queue(s.queue[0])
    case Mark(k) => w.worker(s'.workers[k]) - w.worker(s.workers[k])
    case Poll(k) => w.worker(s'.workers[k]) - w.worker(s.workers[k])
    case Send(k) => w.worker(s'.workers[k]) - w.worker(s.workers[k]) + w.data(s.workers[k].phase.out[0])
    case Clear(k) => w.worker(s'.workers[k]) - w.worker(s.workers[k])
    case Receive => w.received(s.data[0]) - w.data(s.data[0])
    case Interrupt => 0
    case Handle =>
      match s.control
      case Draining => if s.queue == [] then 0 else w.drained(s.queue[0]) - w.queue(s.queue[0])
      case Posting(k, _) => w.worker(s'.workers[k]) - w.worker(s.workers[k])
      case _ => 0
  }

  lemma {:induction false} StepPotential(c: Config, w: Weights, s: State, st: Step)
    requires Enabled(c, s, st)
    ensures Potential(w, Apply(c, s, st)) == Potential(w, s) + Delta(c, w, s, st)
  {
    match st
    case Feed => SumSnoc(w.queue, s.queue, s.unfed[0]);
    case Take(k) => SumUpdate(w.worker, s.workers, k, Apply(c, s, st).workers[k]);
    case Mark(k) => SumUpdate(w.worker, s.workers, k, Apply(c, s, st).workers[k]);
    case Poll(k) => SumUpdate(w.worker, s.workers, k, Apply(c, s, st).workers[k]);
    case Send(k) =>
      SumUpdate(w.worker, s.workers, k, Apply(c, s, st).workers[k]);
      SumSnoc(w.data, s.data, s.workers[k].phase.out[0]);
    case Clear(k) => SumUpdate(w.worker, s.workers, k, Apply(c, s, st).workers[k]);
    case Receive => SumSnoc(w.received, s.received, s.data[0]);
    case Interrupt =>
    case Handle =>
      match s.control
      case Draining => if s.queue != [] { SumSnoc(w.drained, s.drained, s.queue[0]); }
      case Posting(k, _) => SumUpdate(w.worker, s.workers, k, Apply(c, s, st).workers[k]);
      case _ =>
  }

  // ---------------------------------------------------------------- finishing messages

  /** A choice of hosts: all of them to count tasks, one of them to follow a host. */
  type Choice = Host -> bool

  ghost function One(sel: Choice, h: Host): nat {
    if sel(h) then 1 else 0
  }

  ghost function Fin(command: Command, sel: Choice, m: Output): nat {
    if Counted(command, m) then One(sel, m.host) else 0
  }

  ghost function TaskWeight(sel: Choice): Task -> nat {
    (t: Task) => One(sel, t.host)
  }

  ghost function FinWeight(command: Command, sel: Choice): Output -> nat {
    (m: Output) => Fin(command, sel, m)
  }

  /** The counted messages a worker has still to send. */
  ghost function Owed(command: Command, sel: Choice, p: Phase): nat {
    match p
    case Idle => 0
    case Got(t) => One(sel, t.host)
    case Busy(t, out, cont) =>
      Sum(FinWeight(command, sel), out)
      + if cont.Copying? || (cont.Running? && command.Execute?) then One(sel, t.host) else 0
  }

  ghost function OwedWeight(command: Command, sel: Choice): Worker -> nat {
    (w: Worker) => Owed(command, sel, w.phase)
  }

  ghost function FinWeights(command: Command, sel: Choice): Weights {
    Weights(TaskWeight(sel), TaskWeight(sel), OwedWeight(command, sel),
            FinWeight(command, sel), FinWeight(command, sel), TaskWeight(sel))
  }

  /** What may follow the last counted message of a stream: nothing, but for the ExecFinished that a
      failed copy sends even to Distribute. */
  predicate Tail(command: Command, ms: seq<Output>) {
    ms == [] ||
    var last := ms[|ms| - 1];
    Counted(command, last) || (command.Distribute? && last.ExecFinished? && Tail(command, ms[..|ms| - 1]))
  }

  /** Distribute never sees the exit code of a command, since it runs none. */
  predicate CodesOk(command: Command, ms: seq<Output>) {
    command.Distribute? ==> forall i | 0 <= i < |ms| && ms[i].ExecFinished? :: ms[i].code == ERR_COPY_FAILED
  }

  /** A worker only holds tasks of the command, only Execute runs anything, and a worker with no loop
      left to run has nothing but a proper tail to send. */
  ghost predicate PhaseOk(command: Command, p: Phase) {
    match p
    case Idle => true
    case Got(t) => Fits(command, t)
    case Busy(t, out, cont) =>
      && (!cont.Done? ==> Fits(command, t))
      && (cont.Running? ==> command.Execute?)
      && (cont.Done? ==> Tail(command, out))
      && CodesOk(command, out)
  }

  lemma {:induction false} EmitOwesNothing(command: Command, sel: Choice, h: Host, r: seq<Piece>)
    ensures Sum(FinWeight(command, sel), Emit(h, r)) == 0
  {
    var f, out := FinWeight(command, sel), Emit(h, r);
    forall i | 0 <= i < |out| ensures f(out[i]) == 0 {
      assert !Counted(command, out[i]);
    }
    SumAll(f, out, 0);
  }

  lemma {:induction false} CopyEndOwes(command: Command, sel: Choice, t: Task, code: int)
    ensures Sum(FinWeight(command, sel), CopyEnd(t, code))
            == if command.Distribute? || code != 0 then One(sel, t.host) else 0
  {
    var f := FinWeight(command, sel);
    SumSnoc(f, [], CopyFinished(t.host, code));
    assert [] + [CopyFinished(t.host, code)] == [CopyFinished(t.host, code)];
    if code != 0 {
      SumSnoc(f, [CopyFinished(t.host, code)], ExecFinished(t.host, ERR_COPY_FAILED));
    }
  }

  /** A round followed by a final message owes what the final message owes. */
  lemma {:induction false} EmitThenOwes(command: Command, sel: Choice, h: Host, r: seq<Piece>, end: Output)
    ensures Sum(FinWeight(command, sel), Emit(h, r)) == 0
    ensures Sum(FinWeight(command, sel), Emit(h, r) + [end]) == Fin(command, sel, end)
    ensures Sum(FinWeight(command, sel), [end]) == Fin(command, sel, end)
  {
    var f := FinWeight(command, sel);
    EmitOwesNothing(command, sel, h, r);
    SumSnoc(f, Emit(h, r), end);
    SumSnoc(f, [], end);
    assert [] + [end] == [end];
  }

  /** A turn of a read loop neither adds nor loses a finishing message, stopped or not. */
  lemma {:induction false} PollOwes(command: Command, sel: Choice, p: Phase, stop: bool)
    requires p.Busy? && p.out == [] && !p.cont.Done?
    requires PhaseOk(command, p)
    ensures PhaseOk(command, PollPhase(p, stop))
    ensures Owed(command, sel, PollPhase(p, stop)) == Owed(command, sel, p)
  {
    if p.cont.Copying? {
      CopyingOwes(command, sel, p, stop);
    } else {
      RunningOwes(command, sel, p, stop);
    }
  }

  lemma {:induction false} CopyingOwes(command: Command, sel: Choice, p: Phase, stop: bool)
    requires p.Busy? && p.out == [] && p.cont.Copying?
    requires PhaseOk(command, p)
    ensures PhaseOk(command, PollPhase(p, stop))
    ensures Owed(command, sel, PollPhase(p, stop)) == One(sel, p.task.host)
  {
    var t, s := p.task, p.cont.s;
    if stop {
      CopyEndOwes(command, sel, t, ERR_FORCE_STOP);
    } else {
      EmitOwesNothing(command, sel, t.host, s.round);
      if s.Last? {
        CopyEndOwes(command, sel, t, s.code);
        SumAppend(FinWeight(command, sel), Emit(t.host, s.round), CopyEnd(t, s.code));
      }
    }
  }

  lemma {:induction false} RunningOwes(command: Command, sel: Choice, p: Phase, stop: bool)
    requires p.Busy? && p.out == [] && p.cont.Running?
    requires PhaseOk(command, p)
    ensures PhaseOk(command, PollPhase(p, stop))
    ensures Owed(command, sel, PollPhase(p, stop)) == One(sel, p.task.host)
  {
    var t, s := p.task, p.cont.s;
    if stop {
      EmitThenOwes(command, sel, t.host, [], ExecFinished(t.host, ERR_FORCE_STOP));
    } else if s.Last? {
      EmitThenOwes(command, sel, t.host, s.round, ExecFinished(t.host, s.code));
    } else {
      EmitOwesNothing(command, sel, t.host, s.round);
    }
  }

  /** The finishing messages of the chosen hosts that exist or are still to come, plus the tasks
      that were thrown away. */
  ghost function Outstanding(command: Command, sel: Choice, s: State): nat {
    Potential(FinWeights(command, sel), s)
  }

  // ---------------------------------------------------------------- well-formed states

  ghost predicate Shaped(c: Config, s: State) {
    && c.cap >= 1 && |s.workers| >= 1
    && |s.queue| <= c.cap && |s.data| <= c.cap
    && AllFit(c.command, s.unfed) && AllFit(c.command, s.queue) && CodesOk(c.command, s.data)
    && (forall k | 0 <= k < |s.workers| :: PhaseOk(c.command, s.workers[k].phase))
    && (s.control.Posting? ==> s.control.k < |s.workers|)
  }

  lemma {:induction false} TailDrop(command: Command, ms: seq<Output>)
    requires ms != [] && Tail(command, ms)
    ensures Tail(command, ms[1..])
  {
    if |ms| > 1 && !Counted(command, ms[|ms| - 1]) {
      TailDrop(command, ms[..|ms| - 1]);
      assert ms[1..][..|ms| - 2] == ms[..|ms| - 1][1..];
    }
  }

  lemma {:induction false} StepShaped(c: Config, s: State, st: Step)
    requires Shaped(c, s) && Enabled(c, s, st)
    ensures Shaped(c, Apply(c, s, st))
  {
    match st
    case Poll(k) => PollOwes(c.command, h => true, s.workers[k].phase, s.workers[k].stop);
    case Send(k) => if s.workers[k].phase.cont.Done? { TailDrop(c.command, s.workers[k].phase.out); }
    case _ =>
  }

  /** Each step moves finishing messages between two places or leaves them alone. */
  lemma {:induction false} StepMoves(c: Config, sel: Choice, s: State, st: Step)
    requires Shaped(c, s) && Enabled(c, s, st)
    ensures Delta(c, FinWeights(c.command, sel), s, st) == 0
  {
    if st.Poll? {
      PollOwes(c.command, sel, s.workers[st.k].phase, s.workers[st.k].stop);
    }
  }

  lemma {:induction false} StepOutstanding(c: Config, sel: Choice, s: State, st: Step)
    requires Shaped(c, s) && Enabled(c, s, st)
    ensures Outstanding(c.command, sel, Apply(c, s, st)) == Outstanding(c.command, sel, s)
  {
    StepPotential(c, FinWeights(c.command, sel), s, st);
    StepMoves(c, sel, s, st);
  }

  /** Whatever the schedule, and whatever was in the channels when the command started, finishing
      messages are only moved: one per task not yet run, held, on its way, received or drained. */
  lemma {:induction false} RunOutstanding(c: Config, sel: Choice, s: State, run: seq<Step>)
    requires Shaped(c, s) && Legal(c, s, run)
    ensures Shaped(c, Exec(c, s, run))
    ensures Outstanding(c.command, sel, Exec(c, s, run)) == Outstanding(c.command, sel, s)
    decreases |run|
  {
    if run != [] {
      StepShaped(c, s, run[0]);
      StepOutstanding(c, sel, s, run[0]);
      RunOutstanding(c, sel, Apply(c, s, run[0]), run[1..]);
    }
  }
}
