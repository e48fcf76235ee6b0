/** Schedule independence of Collapse: what a complete uninterrupted run reports depends on the tasks
    and not on the interleaving of feeder, workers and collector. */
module Schedule {
  import opened Basics
  import opened Remote
  import opened Protocol
  import opened Conservation
  import opened Delivery
  import opened Liveness
  import opened Results

  // ---------------------------------------------------------------- streams

  ghost function ScriptTrace(h: Host, s: Script): seq<Output> {
    match s
    case Last(r, _) => Emit(h, r)
    case More(r, rest) => Emit(h, r) + ScriptTrace(h, rest)
  }

  ghost function ExitCode(s: Script): int {
    match s
    case Last(_, code) => code
    case More(_, rest) => ExitCode(rest)
  }

  /** What a worker will still send for a task when no token stops it. */
  ghost function Future(t: Task, cont: Cont): seq<Output> {
    match cont
    case Done => []
    case Running(s) => ScriptTrace(t.host, s) + [ExecFinished(t.host, ExitCode(s))]
    case Copying(s) =>
      ScriptTrace(t.host, s) + CopyEnd(t, ExitCode(s)) +
      match AfterCopy(t, ExitCode(s))
      case Running(e) => ScriptTrace(t.host, e) + [ExecFinished(t.host, ExitCode(e))]
      case _ => []
  }

  /** All the messages of a task that runs undisturbed. */
  ghost function Trace(t: Task): seq<Output> { Future(t, StartCont(t)) }

  ghost function Pending(p: Phase): seq<Output> {
    match p
    case Idle => []
    case Got(t) => Trace(t)
    case Busy(t, out, cont) => out + Future(t, cont)
  }

  ghost function PhaseHost(p: Phase, h: Host): bool {
    !p.Idle? && p.task.host == h
  }

  ghost function PendingOf(h: Host): Worker -> seq<Output> {
    (w: Worker) => if PhaseHost(w.phase, h) then Pending(w.phase) else []
  }

  ghost function PlanOf(h: Host): Task -> seq<Output> {
    (t: Task) => if t.host == h then Trace(t) else []
  }

  /** Everything about a host: received, in the channel, with a worker, and planned. */
  ghost function Stream(h: Host, s: State): seq<Output> {
    Proj(h, s.received) + Proj(h, s.data) + FlatMap(PendingOf(h), s.workers)
    + FlatMap(PlanOf(h), s.queue) + FlatMap(PlanOf(h), s.unfed)
  }

  ghost predicate OwnMessages(s: State) {
    forall k | 0 <= k < |s.workers| && s.workers[k].phase.Busy? ::
      forall i | 0 <= i < |s.workers[k].phase.out| :: s.workers[k].phase.out[i].host == s.workers[k].phase.task.host
  }

  ghost predicate PollOk(p: Phase)
    requires p.Busy? && p.out == [] && !p.cont.Done?
  {
    var q := PollPhase(p, false);
    Pending(q) == Pending(p) && q.task == p.task && forall i | 0 <= i < |q.out| :: q.out[i].host == p.task.host
  }

  lemma {:induction false} PollPending(p: Phase)
    requires p.Busy? && p.out == [] && !p.cont.Done?
    ensures PollOk(p)
  {
    if p.cont.Copying? {
      PollCopying(p);
    } else {
      PollRunning(p);
    }
  }

  lemma {:induction false} PollCopying(p: Phase)
    requires p.Busy? && p.out == [] && p.cont.Copying?
    ensures PollOk(p)
  {
    var t, s := p.task, p.cont.s;
    if s.Last? {
      AfterCopyFuture(t, s.code);
      assert Pending(p) == Emit(t.host, s.round) + CopyEnd(t, s.code) + Future(t, AfterCopy(t, s.code));
    } else {
      CopyingFuture(t, s);
    }
  }

  lemma {:induction false} Regroup<T>(a: seq<T>, b: seq<T>, c: seq<T>)
    ensures [] + (a + b + c) == a + (b + c)
  {
  }

  lemma {:induction false} PollRunning(p: Phase)
    requires p.Busy? && p.out == [] && p.cont.Running?
    ensures PollOk(p)
  {
    var t, s := p.task, p.cont.s;
    if s.More? {
      Regroup(Emit(t.host, s.round), ScriptTrace(t.host, s.rest), [ExecFinished(t.host, ExitCode(s.rest))]);
    }
  }

  lemma {:induction false} AfterCopyFuture(t: Task, code: int)
    ensures Future(t, AfterCopy(t, code)) ==
            match AfterCopy(t, code)
            case Running(e) => ScriptTrace(t.host, e) + [ExecFinished(t.host, ExitCode(e))]
            case _ => []
  {
  }

  lemma {:induction false} CopyingFuture(t: Task, s: Script)
    requires s.More?
    ensures Future(t, Copying(s)) == Emit(t.host, s.round) + Future(t, Copying(s.rest))
  {
    var code := ExitCode(s);
    AfterCopyFuture(t, code);
    var end, rest := CopyEnd(t, code), Future(t, AfterCopy(t, code));
    assert Future(t, Copying(s)) == (Emit(t.host, s.round) + ScriptTrace(t.host, s.rest)) + end + rest;
  }

  // ---------------------------------------------------------------- one owner at a time

  lemma {:induction false} SumAtMostOne<T(!new)>(f: T -> nat, s: seq<T>, k: nat, j: nat)
    requires k < |s| && j < |s| && k != j
    ensures f(s[k]) + f(s[j]) <= Sum(f, s)
  {
    SumUpdate(f, s, k, s[j]);
    var s' := s[k := s[j]];
    if k == 0 {
      SumMember(f, s[1..], j - 1);
    } else if j == 0 {
      SumMember(f, s[1..], k - 1);
    } else {
      SumAtMostOne(f, s[1..], k - 1, j - 1);
    }
  }

  /** Nobody but worker `k` has anything pending for the host. */
  ghost predicate OnlyHolder(h: Host, ws: seq<Worker>, k: nat) {
    forall j | 0 <= j < |ws| && j != k :: PendingOf(h)(ws[j]) == []
  }

  lemma {:induction false} PendingOwes(h: Host, w: Worker)
    requires PhaseOk(Execute, w.phase) && PhaseHost(w.phase, h) && !Quiet(w)
    requires w.phase.Busy? ==> forall i | 0 <= i < |w.phase.out| :: w.phase.out[i].host == h
    ensures Owed(Execute, Only(h), w.phase) >= 1
  {
    if w.phase.Busy? && w.phase.cont.Done? {
      var out := w.phase.out;
      SumMember(FinWeight(Execute, Only(h)), out, |out| - 1);
    }
  }

  lemma {:induction false} HolderIsAlone(c: Config, h: Host, s: State, k: nat)
    requires c.command.Execute? && Shaped(c, s) && OwnMessages(s) && k < |s.workers|
    requires OwedCount(Execute, Only(h), s.workers) <= 1
    requires PhaseHost(s.workers[k].phase, h) && !Quiet(s.workers[k])
    ensures OnlyHolder(h, s.workers, k)
  {
    PendingOwes(h, s.workers[k]);
    forall j | 0 <= j < |s.workers| && j != k ensures PendingOf(h)(s.workers[j]) == [] {
      SumAtMostOne(OwedWeight(Execute, Only(h)), s.workers, k, j);
      if PhaseHost(s.workers[j].phase, h) && !Quiet(s.workers[j]) {
        PendingOwes(h, s.workers[j]);
      }
    }
  }

  lemma {:induction false} NobodyHolds(c: Config, h: Host, s: State)
    requires c.command.Execute? && Shaped(c, s) && OwnMessages(s)
    requires OwedCount(Execute, Only(h), s.workers) == 0
    ensures forall j | 0 <= j < |s.workers| :: PendingOf(h)(s.workers[j]) == []
  {
    forall j | 0 <= j < |s.workers| ensures PendingOf(h)(s.workers[j]) == [] {
      SumMember(OwedWeight(Execute, Only(h)), s.workers, j);
      if PhaseHost(s.workers[j].phase, h) && !Quiet(s.workers[j]) {
        PendingOwes(h, s.workers[j]);
      }
    }
  }

  lemma {:induction false} FlatMapSame<T(!new), U>(f: T -> seq<U>, s: seq<T>, k: nat, x: T)
    requires k < |s| && f(x) == f(s[k])
    ensures FlatMap(f, s[k := x]) == FlatMap(f, s)
  {
    if k == 0 {
      assert s[k := x][1..] == s[1..];
    } else {
      assert s[k := x][1..] == s[1..][k - 1 := x];
      FlatMapSame(f, s[1..], k - 1, x);
    }
  }

  // ---------------------------------------------------------------- steps keep the stream

  /** At most one task of the host is in play. */
  ghost predicate Single(h: Host, s: State) {
    OwedCount(Execute, Only(h), s.workers) + TaskCount(Only(h), s.queue) <= 1
  }

  lemma {:induction false} StepOwnMessages(c: Config, s: State, st: Step)
    requires OwnMessages(s) && NoTokens(s) && Enabled(c, s, st)
    ensures OwnMessages(Apply(c, s, st))
  {
    if st.Poll? {
      PollPending(s.workers[st.k].phase);
    }
  }

  /** Sending takes the message from the front of what is pending for its host. */
  lemma {:induction false} SendPending(h: Host, ws: seq<Worker>, k: nat, w': Worker)
    requires k < |ws| && ws[k].phase.Busy? && ws[k].phase.out != []
    requires w'.phase == ws[k].phase.(out := ws[k].phase.out[1..])
    requires ws[k].phase.task.host == h ==> OnlyHolder(h, ws, k)
    ensures FlatMap(PendingOf(h), ws) ==
            (if ws[k].phase.task.host == h then [ws[k].phase.out[0]] else []) + FlatMap(PendingOf(h), ws[k := w'])
  {
    if ws[k].phase.task.host == h {
      FlatMapOnly(PendingOf(h), ws, k);
      FlatMapOnly(PendingOf(h), ws[k := w'], k);
      assert Pending(ws[k].phase) == [ws[k].phase.out[0]] + Pending(w'.phase);
    } else {
      FlatMapSame(PendingOf(h), ws, k, w');
    }
  }

  lemma {:induction false} SendStream(c: Config, h: Host, s: State, k: nat)
    requires c.command.Execute? && Shaped(c, s) && OwnMessages(s) && Single(h, s)
    requires Enabled(c, s, Send(k))
    ensures Stream(h, Apply(c, s, Send(k))) == Stream(h, s)
  {
    var s' := Apply(c, s, Send(k));
    var p := s.workers[k].phase;
    var m := p.out[0];
    assert m.host == p.task.host;
    if m.host == h {
      HolderIsAlone(c, h, s, k);
    }
    SendPending(h, s.workers, k, s'.workers[k]);
    ProjSnoc(h, s.data, m);
    SameStream(Proj(h, s.received), Proj(h, s.data), Proj(h, s'.data), if m.host == h then [m] else [],
               FlatMap(PendingOf(h), s.workers), FlatMap(PendingOf(h), s'.workers), FlatMap(PlanOf(h), s.queue),
               FlatMap(PlanOf(h), s.unfed));
  }

  lemma {:induction false} SameStream<T>(a: seq<T>, b: seq<T>, b': seq<T>, m: seq<T>, c: seq<T>, c': seq<T>,
                                         d: seq<T>, e: seq<T>)
    requires b' == b + m && c == m + c'
    ensures a + b' + c' + d + e == a + b + c + d + e
  {
  }

  /** A task moves from the front of the queue to worker `k`. */
  lemma {:induction false} MoveTask<T>(a: seq<T>, b: seq<T>, w: seq<T>, w': seq<T>, q: seq<T>, q': seq<T>, e: seq<T>,
                                       m: seq<T>)
    requires q == m + q' && w' == w + m
    ensures a + b + w' + q' + e == a + b + w + q + e
  {
  }

  lemma {:induction false} TakePending(h: Host, ws: seq<Worker>, k: nat, w': Worker, t: Task)
    requires k < |ws| && ws[k].phase.Idle? && w'.phase == Got(t)
    requires t.host == h ==> forall j | 0 <= j < |ws| :: PendingOf(h)(ws[j]) == []
    ensures FlatMap(PendingOf(h), ws[k := w']) == FlatMap(PendingOf(h), ws) + PlanOf(h)(t)
  {
    if t.host == h {
      FlatMapNone(PendingOf(h), ws);
      FlatMapOnly(PendingOf(h), ws[k := w'], k);
    } else {
      FlatMapSame(PendingOf(h), ws, k, w');
    }
  }

  lemma {:induction false} TakeStream(c: Config, h: Host, s: State, k: nat)
    requires c.command.Execute? && Shaped(c, s) && OwnMessages(s) && Single(h, s)
    requires Enabled(c, s, Take(k))
    ensures Stream(h, Apply(c, s, Take(k))) == Stream(h, s)
  {
    var s' := Apply(c, s, Take(k));
    var t := s.queue[0];
    if t.host == h {
      assert TaskCount(Only(h), s.queue) >= 1;
      NobodyHolds(c, h, s);
    }
    TakePending(h, s.workers, k, s'.workers[k], t);
    MoveTask(Proj(h, s.received), Proj(h, s.data), FlatMap(PendingOf(h), s.workers), FlatMap(PendingOf(h), s'.workers),
             FlatMap(PlanOf(h), s.queue), FlatMap(PlanOf(h), s'.queue), FlatMap(PlanOf(h), s.unfed), PlanOf(h)(t));
  }

  lemma {:induction false} PollStream(c: Config, h: Host, s: State, k: nat)
    requires NoTokens(s) && Enabled(c, s, Poll(k))
    ensures Stream(h, Apply(c, s, Poll(k))) == Stream(h, s)
  {
    PollPending(s.workers[k].phase);
    FlatMapSame(PendingOf(h), s.workers, k, Apply(c, s, Poll(k)).workers[k]);
  }

  lemma {:induction false} MarkStream(c: Config, h: Host, s: State, k: nat)
    requires Enabled(c, s, Mark(k))
    ensures Stream(h, Apply(c, s, Mark(k))) == Stream(h, s)
  {
    FlatMapSame(PendingOf(h), s.workers, k, Apply(c, s, Mark(k)).workers[k]);
  }

  lemma {:induction false} ClearStream(c: Config, h: Host, s: State, k: nat)
    requires Enabled(c, s, Clear(k))
    ensures Stream(h, Apply(c, s, Clear(k))) == Stream(h, s)
  {
    FlatMapSame(PendingOf(h), s.workers, k, Apply(c, s, Clear(k)).workers[k]);
  }

  lemma {:induction false} MoveRight<T>(a: seq<T>, b: seq<T>, m: seq<T>, e: seq<T>)
    ensures a + (b + m) + e == a + b + (m + e)
  {
  }

  lemma {:induction false} FeedStream(c: Config, h: Host, s: State)
    requires Enabled(c, s, Feed)
    ensures Stream(h, Apply(c, s, Feed)) == Stream(h, s)
  {
    FlatMapSnoc(PlanOf(h), s.queue, s.unfed[0]);
    MoveRight(Proj(h, s.received) + Proj(h, s.data) + FlatMap(PendingOf(h), s.workers),
              FlatMap(PlanOf(h), s.queue), PlanOf(h)(s.unfed[0]), FlatMap(PlanOf(h), s.unfed[1..]));
  }

  lemma {:induction false} MoveFirst<T>(a: seq<T>, m: seq<T>, b: seq<T>, c: seq<T>, d: seq<T>, e: seq<T>)
    ensures (a + m) + b + c + d + e == a + (m + b) + c + d + e
  {
  }

  lemma {:induction false} ReceiveStream(c: Config, h: Host, s: State)
    requires Enabled(c, s, Receive)
    ensures Stream(h, Apply(c, s, Receive)) == Stream(h, s)
  {
    var m := s.data[0];
    FlatMapSnoc(OfHost(h), s.received, m);
    MoveFirst(Proj(h, s.received), OfHost(h)(m), Proj(h, s.data[1..]), FlatMap(PendingOf(h), s.workers),
              FlatMap(PlanOf(h), s.queue), FlatMap(PlanOf(h), s.unfed));
  }

  lemma {:induction false} StepStream(c: Config, h: Host, s: State, st: Step)
    requires c.command.Execute? && Shaped(c, s) && OwnMessages(s) && NoTokens(s) && Single(h, s)
    requires Enabled(c, s, st) && !st.Handle?
    ensures Stream(h, Apply(c, s, st)) == Stream(h, s)
  {
    match st
    case Feed => FeedStream(c, h, s);
    case Take(k) => TakeStream(c, h, s, k);
    case Mark(k) => MarkStream(c, h, s, k);
    case Poll(k) => PollStream(c, h, s, k);
    case Send(k) => SendStream(c, h, s, k);
    case Clear(k) => ClearStream(c, h, s, k);
    case Receive => ReceiveStream(c, h, s);
    case Interrupt =>
  }

  /** No host is listed twice. */
  predicate Distinct(tasks: seq<Task>) {
    forall i, j | 0 <= i < j < |tasks| :: tasks[i].host != tasks[j].host
  }

  lemma {:induction false} DistinctCount(tasks: seq<Task>, h: Host)
    requires Distinct(tasks)
    ensures TaskCount(Only(h), tasks) <= 1
    ensures (forall i | 0 <= i < |tasks| :: tasks[i].host != h) ==> TaskCount(Only(h), tasks) == 0
  {
    if tasks != [] {
      DistinctCount(tasks[1..], h);
    }
  }

  lemma {:induction false} StreamGoesOn(c: Config, s: State, st: Step, h: Host)
    requires c.command.Execute? && Shaped(c, s) && OwnMessages(s) && NoTokens(s) && Calm(s)
    requires Outstanding(Execute, Only(h), s) <= 1 && Enabled(c, s, st) && !st.Interrupt?
    ensures var e := Apply(c, s, st);
            && Stream(h, e) == Stream(h, s) && Shaped(c, e) && OwnMessages(e) && NoTokens(e) && Calm(e)
            && Outstanding(Execute, Only(h), e) <= 1
  {
    StepStream(c, h, s, st);
    StepOwnMessages(c, s, st);
    StepShaped(c, s, st);
    StepOutstanding(c, Only(h), s, st);
  }

  lemma {:induction false} RunStream(c: Config, s: State, run: seq<Step>, h: Host)
    requires c.command.Execute? && Shaped(c, s) && OwnMessages(s) && NoTokens(s) && Calm(s)
    requires Outstanding(Execute, Only(h), s) <= 1
    requires Legal(c, s, run) && Uninterrupted(run)
    ensures Stream(h, Exec(c, s, run)) == Stream(h, s)
    ensures OwnMessages(Exec(c, s, run))
    decreases |run|
  {
    if run != [] {
      assert !run[0].Interrupt?;
      StreamGoesOn(c, s, run[0], h);
      RunStream(c, Apply(c, s, run[0]), run[1..], h);
    }
  }

  // ---------------------------------------------------------------- complete runs

  /** An uninterrupted run of Parallel or Collapse, over distinct hosts and a quiet pool without stop
      tokens, from its start to the exit of its loop. */
  ghost predicate Complete(c: Config, tasks: seq<Task>, workers: seq<Worker>, run: seq<Step>) {
    && c.command.Execute? && ValidStart(c, tasks, workers) && Distinct(tasks)
    && NoTokens(Start(tasks, [], workers))
    && Legal(c, Start(tasks, [], workers), run) && Uninterrupted(run)
    && Exec(c, Start(tasks, [], workers), run).control.Exited?
  }

  lemma {:induction false} StreamAtStart(c: Config, tasks: seq<Task>, workers: seq<Worker>, h: Host)
    requires ValidStart(c, tasks, workers)
    ensures Stream(h, Start(tasks, [], workers)) == FlatMap(PlanOf(h), tasks)
    ensures OwnMessages(Start(tasks, [], workers))
  {
    forall k | 0 <= k < |workers| ensures PendingOf(h)(workers[k]) == [] {}
    FlatMapNone(PendingOf(h), workers);
  }

  lemma {:induction false} StreamAtEnd(s: State, h: Host)
    requires PoolQuiet(s) && s.unfed == []
    ensures Stream(h, s) == Proj(h, s.received)
  {
    forall k | 0 <= k < |s.workers| ensures PendingOf(h)(s.workers[k]) == [] {}
    FlatMapNone(PendingOf(h), s.workers);
  }

  /** In every complete run the collector receives, about each host, exactly the messages of the one
      worker that ran it, in order. */
  lemma {:induction false} ReceivedTrace(c: Config, tasks: seq<Task>, workers: seq<Worker>, run: seq<Step>, h: Host)
    requires Complete(c, tasks, workers, run)
    ensures Proj(h, Exec(c, Start(tasks, [], workers), run).received) == FlatMap(PlanOf(h), tasks)
  {
    var s0 := Start(tasks, [], workers);
    DistinctCount(tasks, h);
    StartInv(c, tasks, workers);
    TasksConserved(c, tasks, workers, [], Only(h));
    QuietOwesNothing(Execute, Only(h), workers);
    StreamAtStart(c, tasks, workers, h);
    RunStream(c, s0, run, h);
    ExitDelivers(c, tasks, workers, run);
    StreamAtEnd(Exec(c, s0, run), h);
  }

  lemma {:induction false} PlanOfTask(tasks: seq<Task>, i: nat)
    requires Distinct(tasks) && i < |tasks|
    ensures FlatMap(PlanOf(tasks[i].host), tasks) == Trace(tasks[i])
  {
    FlatMapOnly(PlanOf(tasks[i].host), tasks, i);
  }

  lemma {:induction false} NoPlan(tasks: seq<Task>, h: Host)
    requires forall i | 0 <= i < |tasks| :: tasks[i].host != h
    ensures FlatMap(PlanOf(h), tasks) == []
  {
    FlatMapNone(PlanOf(h), tasks);
  }

  /** What Collapse reports, stated from the tasks alone: for each host the standard output of its own
      task in order and the code of its last ExecFinished; nothing about any other host. */
  lemma {:induction false} CollapseReports(c: Config, tasks: seq<Task>, workers: seq<Worker>, run: seq<Step>)
    requires Complete(c, tasks, workers, run)
    ensures var r := Collect(Execute, Exec(c, Start(tasks, [], workers), run).received);
            && (forall h | h in r.outputs || h in r.codes :: exists i :: 0 <= i < |tasks| && tasks[i].host == h)
            && forall i | 0 <= i < |tasks| ::
                 var h, out := tasks[i].host, Trace(tasks[i]);
                 Matches(r, h, out) && h in r.codes
  {
    var s := Exec(c, Start(tasks, [], workers), run);
    var r := Collect(Execute, s.received);
    forall h | h in r.outputs || h in r.codes ensures exists i :: 0 <= i < |tasks| && tasks[i].host == h {
      if forall i | 0 <= i < |tasks| :: tasks[i].host != h {
        ReceivedTrace(c, tasks, workers, run, h);
        CollectByHost(s.received, h);
        NoPlan(tasks, h);
      }
    }
    forall i | 0 <= i < |tasks|
      ensures var h, out := tasks[i].host, Trace(tasks[i]);
              Matches(r, h, out) && h in r.codes
    {
      var h := tasks[i].host;
      ReceivedTrace(c, tasks, workers, run, h);
      CollectByHost(s.received, h);
      PlanOfTask(tasks, i);
      TraceFinishes(tasks[i]);
    }
  }

  lemma {:induction false} TraceFinishes(t: Task)
    requires t.exec.Some?
    ensures LastCode(Trace(t)).Some?
  {
    var out := Trace(t);
    assert out[|out| - 1].ExecFinished?;
  }

  /** Schedule independence: two complete runs with the same tasks, whatever their schedules, pool
      sizes and channel capacities, report the same codes, the same output of every host and the same
      hosts as successful and as failed. */
  lemma {:induction false} ScheduleIndependence(c1: Config, c2: Config, tasks: seq<Task>, w1: seq<Worker>,
                                                w2: seq<Worker>, run1: seq<Step>, run2: seq<Step>)
    requires Complete(c1, tasks, w1, run1) && Complete(c2, tasks, w2, run2)
    ensures var r1 := Collect(Execute, Exec(c1, Start(tasks, [], w1), run1).received);
            var r2 := Collect(Execute, Exec(c2, Start(tasks, [], w2), run2).received);
            && r1.codes == r2.codes && r1.outputs == r2.outputs
            && multiset(r1.success) == multiset(r2.success) && multiset(r1.error) == multiset(r2.error)
  {
    var m1, m2 := Exec(c1, Start(tasks, [], w1), run1).received, Exec(c2, Start(tasks, [], w2), run2).received;
    var r1, r2 := Collect(Execute, m1), Collect(Execute, m2);
    forall h
      ensures h in r1.codes <==> h in r2.codes
      ensures h in r1.outputs <==> h in r2.outputs
      ensures h in r1.codes ==> r1.codes[h] == r2.codes[h]
      ensures h in r1.outputs ==> r1.outputs[h] == r2.outputs[h]
      ensures multiset(r1.success)[h] == multiset(r2.success)[h]
      ensures multiset(r1.error)[h] == multiset(r2.error)[h]
    {
      ReceivedTrace(c1, tasks, w1, run1, h);
      ReceivedTrace(c2, tasks, w2, run2, h);
      CollectByHost(m1, h);
      CollectByHost(m2, h);
      ReportedByHost(m1, h);
      ReportedByHost(m2, h);
    }
  }

  lemma {:induction false} AbsorbReportsSame(r: ExecResult, r1: ExecResult, m: Output, h: Host)
    requires multiset(r.success)[h] == multiset(r1.success)[h] && multiset(r.error)[h] == multiset(r1.error)[h]
    ensures var e, e1 := Absorb(Execute, r, m), if m.host == h then Absorb(Execute, r1, m) else r1;
            multiset(e.success)[h] == multiset(e1.success)[h] && multiset(e.error)[h] == multiset(e1.error)[h]
  {
  }

  /** The number of successes and failures of a host depends on the messages about it alone. */
  lemma {:induction false} ReportedByHost(ms: seq<Output>, h: Host)
    ensures multiset(Collect(Execute, ms).success)[h] == multiset(Collect(Execute, Proj(h, ms)).success)[h]
    ensures multiset(Collect(Execute, ms).error)[h] == multiset(Collect(Execute, Proj(h, ms)).error)[h]
  {
    if ms != [] {
      var init, m := ms[..|ms| - 1], ms[|ms| - 1];
      assert ms == init + [m];
      ReportedByHost(init, h);
      CollectSnoc(Execute, init, m);
      CollectSnoc(Execute, Proj(h, init), m);
      ProjSnoc(h, init, m);
      AbsorbReportsSame(Collect(Execute, init), Collect(Execute, Proj(h, init)), m, h);
    }
  }
}
