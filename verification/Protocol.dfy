/** The feeder, the worker pool, the collector loop and the interrupt handler as one transition
    system: src/remote/worker.go, src/remote/pool.go and the loops of src/executer. */
module Protocol {
  import opened Basics
  import opened Remote

  /** What is left of a task once the outputs already produced have been sent. */
  datatype Cont = Copying(s: Script) | Running(s: Script) | Done

  /** `Got` is a worker between the receive and `w.busy = true`; `Busy` is the window in which the
      busy flag is set, up to and including the last send. */
  datatype Phase =
    | Idle
    | Got(task: Task)
    | Busy(task: Task, out: seq<Output>, cont: Cont)

  /** `stop` says whether the one-slot stop buffer is full. */
  datatype Worker = Worker(phase: Phase, stop: bool)

  /** The collector goroutine: its select loop, the three stages of ForceStopAllTasks, or gone. */
  datatype Control =
    | Receiving
    | Draining
    | Stopping(k: nat, stopped: nat)
    | Posting(k: nat, stopped: nat)
    | Exited

  /** Parallel and Collapse count ExecFinished; Distribute counts CopyFinished and feeds the queue
      itself before it starts to receive. */
  datatype Command = Execute | Distribute

  datatype Config = Config(cap: nat, command: Command)

  /** The last five fields are history: what the collector received, how many tasks were taken from
      the queue, which were drained, how many stop tokens were posted and whose phases they cut. */
  datatype State = State(
    unfed: seq<Task>, queue: seq<Task>, data: seq<Output>, workers: seq<Worker>,
    control: Control, running: int,
    received: seq<Output>, taken: nat, drained: seq<Task>, posted: nat, cut: seq<Host>)

  datatype Step =
    | Feed | Take(k: nat) | Mark(k: nat) | Poll(k: nat) | Send(k: nat) | Clear(k: nat)
    | Receive | Interrupt | Handle

  predicate Counted(command: Command, m: Output) {
    match command
    case Execute => m.ExecFinished?
    case Distribute => m.CopyFinished?
  }

  // ---------------------------------------------------------------- worker

  function StartCont(t: Task): Cont {
    if t.copy.Some? then Copying(t.copy.value) else AfterCopy(t, 0)
  }

  function AfterCopy(t: Task, code: int): Cont {
    if code == 0 && t.exec.Some? then Running(t.exec.value) else Done
  }

  function CopyEnd(t: Task, code: int): seq<Output> {
    [CopyFinished(t.host, code)] + if code != 0 then [ExecFinished(t.host, ERR_COPY_FAILED)] else []
  }

  /** One turn of the read loop of `copy` or `cmd`; `stop` is what checkStop returned. */
  function PollPhase(p: Phase, stop: bool): Phase
    requires p.Busy? && p.out == [] && !p.cont.Done?
  {
    var t := p.task;
    match p.cont
    case Copying(s) =>
      if stop then Busy(t, CopyEnd(t, ERR_FORCE_STOP), Done)
      else (match s
            case Last(r, code) => Busy(t, Emit(t.host, r) + CopyEnd(t, code), AfterCopy(t, code))
            case More(r, rest) => Busy(t, Emit(t.host, r), Copying(rest)))
    case Running(s) =>
      if stop then Busy(t, [ExecFinished(t.host, ERR_FORCE_STOP)], Done)
      else (match s
            case Last(r, code) => Busy(t, Emit(t.host, r) + [ExecFinished(t.host, code)], Done)
            case More(r, rest) => Busy(t, Emit(t.host, r), Running(rest)))
  }

  // ---------------------------------------------------------------- steps

  predicate Enabled(c: Config, s: State, st: Step) {
    match st
    case Feed => s.unfed != [] && |s.queue| < c.cap && (c.command.Distribute? ==> s.control.Receiving?)
    case Take(k) => k < |s.workers| && s.workers[k].phase.Idle? && s.queue != []
    case Mark(k) => k < |s.workers| && s.workers[k].phase.Got?
    case Poll(k) =>
      k < |s.workers| && s.workers[k].phase.Busy? && s.workers[k].phase.out == [] && !s.workers[k].phase.cont.Done?
    case Send(k) =>
      k < |s.workers| && s.workers[k].phase.Busy? && s.workers[k].phase.out != [] && |s.data| < c.cap
    case Clear(k) => k < |s.workers| && s.workers[k].phase.Busy? && s.workers[k].phase.out == [] && s.workers[k].phase.cont.Done?
    case Receive => Listening(c, s) && s.data != []
    case Interrupt => Listening(c, s)
    case Handle =>
      match s.control
      case Draining => true
      case Stopping(_, _) => true
      case Posting(k, _) => k < |s.workers| && !s.workers[k].stop
      case _ => false
  }

  /** The collector is in its select statement. */
  predicate Listening(c: Config, s: State) {
    s.control.Receiving? && (c.command.Distribute? ==> s.unfed == [])
  }

  function SetWorker(s: State, k: nat, w: Worker): State
    requires k < |s.workers|
  {
    s.(workers := s.workers[k := w])
  }

  function Apply(c: Config, s: State, st: Step): State
    requires Enabled(c, s, st)
  {
    match st
    case Feed => s.(unfed := s.unfed[1..], queue := s.queue + [s.unfed[0]])
    case Take(k) =>
      SetWorker(s.(queue := s.queue[1..], taken := s.taken + 1), k, s.workers[k].(phase := Got(s.queue[0])))
    case Mark(k) =>
      var t := s.workers[k].phase.task;
      SetWorker(s, k, s.workers[k].(phase := Busy(t, [], StartCont(t))))
    case Poll(k) =>
      var w := s.workers[k];
      SetWorker(s.(cut := if w.stop then s.cut + [w.phase.task.host] else s.cut), k,
                Worker(PollPhase(w.phase, w.stop), false))
    case Send(k) =>
      var p := s.workers[k].phase;
      SetWorker(s.(data := s.data + [p.out[0]]), k, s.workers[k].(phase := p.(out := p.out[1..])))
    case Clear(k) => SetWorker(s, k, s.workers[k].(phase := Idle))
    case Receive =>
      var m := s.data[0];
      var left := if Counted(c.command, m) then s.running - 1 else s.running;
      s.(data := s.data[1..], received := s.received + [m], running := left,
         control := if Counted(c.command, m) && left == 0 then Exited else Receiving)
    case Interrupt => s.(control := Draining)
    case Handle => ApplyHandle(s)
  }

  /** One turn of a loop of ForceStopAllTasks: drop a queued task, look at a busy flag, or post a
      stop token. */
  function ApplyHandle(s: State): State
    requires s.control.Draining? || s.control.Stopping? || (s.control.Posting? && s.control.k < |s.workers|)
  {
    match s.control
    case Draining =>
      if s.queue == [] then s.(control := Stopping(0, 0))
      else s.(queue := s.queue[1..], drained := s.drained + [s.queue[0]])
    case Stopping(k, n) =>
      if k >= |s.workers| then s.(control := Receiving)
      else if s.workers[k].phase.Busy? then s.(control := Posting(k, n))
      else s.(control := Stopping(k + 1, n))
    case Posting(k, n) =>
      SetWorker(s.(control := Stopping(k + 1, n + 1), posted := s.posted + 1), k, s.workers[k].(stop := true))
  }

  // ---------------------------------------------------------------- runs

  predicate Legal(c: Config, s: State, run: seq<Step>)
    decreases |run|
  {
    run == [] || (Enabled(c, s, run[0]) && Legal(c, Apply(c, s, run[0]), run[1..]))
  }

  function Exec(c: Config, s: State, run: seq<Step>): State
    requires Legal(c, s, run)
    decreases |run|
  {
    if run == [] then s else Exec(c, Apply(c, s, run[0]), run[1..])
  }

  /** The tasks a command may create: Parallel and Collapse always have something to run, Distribute
      has a file to copy and nothing to run. */
  predicate Fits(command: Command, t: Task) {
    match command
    case Execute => t.exec.Some?
    case Distribute => t.copy.Some? && t.exec.None?
  }

  predicate AllFit(command: Command, ts: seq<Task>) {
    forall i | 0 <= i < |ts| :: Fits(command, ts[i])
  }

  /** A worker that holds nothing unsent: waiting, or about to clear its busy flag. */
  predicate Quiet(w: Worker) {
    w.phase.Idle? || (w.phase.Busy? && w.phase.out == [] && w.phase.cont.Done?)
  }

  predicate PoolQuiet(s: State) {
    s.queue == [] && s.data == [] && forall k | 0 <= k < |s.workers| :: Quiet(s.workers[k])
  }

  predicate NoTokens(s: State) {
    forall k | 0 <= k < |s.workers| :: !s.workers[k].stop
  }

  /** A command starts over a given pool. */
  function Start(tasks: seq<Task>, data: seq<Output>, workers: seq<Worker>): State {
    State(tasks, [], data, workers, if tasks == [] then Exited else Receiving, |tasks|, [], 0, [], 0, [])
  }

  predicate ValidStart(c: Config, tasks: seq<Task>, workers: seq<Worker>) {
    && c.cap >= 1 && |workers| >= 1
    && AllFit(c.command, tasks)
    && forall k | 0 <= k < |workers| :: Quiet(workers[k])
  }
}
