/** A worker on its own, in the form the program has it (src/remote/worker.go:80-162, and the read loops
    of src/remote/copy.go and src/remote/cmd.go seen through what they forward): it sends exactly the
    messages that the phases of the protocol send. */
module WorkerLoop {
  import opened Basics
  import opened Remote
  import opened Protocol
  import opened Schedule

  /** `posts(j)` says whether ForceStop puts a token into the buffer before the j-th checkStop of a task;
      for the j after the last one the token arrives too late for the task. */
  type Posts = nat -> bool

  /** What a task has sent, and how often its stop buffer was looked at. */
  datatype End = End(out: seq<Output>, polls: nat)

  // ---------------------------------------------------------------- the phases of the protocol

  function Rounds(s: Script): nat { if s.Last? then 1 else 1 + Rounds(s.rest) }

  function Turns(t: Task, cont: Cont): nat {
    match cont
    case Done => 0
    case Running(s) => Rounds(s)
    case Copying(s) => Rounds(s) + if t.exec.Some? then Rounds(t.exec.value) else 0
  }

  /** A worker phase driven to its end by the transition function of the protocol. */
  ghost function Drive(p: Phase, stop: bool, posts: Posts, j: nat): End
    requires p.Busy?
    decreases Turns(p.task, p.cont)
  {
    if p.cont.Done? then End(p.out, j)
    else
      var d := Drive(PollPhase(p.(out := []), stop || posts(j)), false, posts, j + 1);
      End(p.out + d.out, d.polls)
  }

  ghost function TaskEnd(t: Task, stop: bool, posts: Posts): End {
    Drive(Busy(t, [], StartCont(t)), stop, posts, 0)
  }

  /** The token that is in the buffer when the task is over. */
  ghost predicate Leftover(t: Task, stop: bool, posts: Posts) {
    var n := TaskEnd(t, stop, posts).polls;
    posts(n) || (n == 0 && stop)
  }

  ghost function AllOut(tasks: seq<Task>, posts: seq<Posts>, stop: bool): seq<Output>
    requires |posts| == |tasks|
  {
    if tasks == [] then []
    else TaskEnd(tasks[0], stop, posts[0]).out + AllOut(tasks[1..], posts[1..], Leftover(tasks[0], stop, posts[0]))
  }

  // ---------------------------------------------------------------- one read loop

  datatype LoopEnd = LoopEnd(out: seq<Output>, code: int, polls: nat)

  ghost function ReadLoop(h: Host, s: Script, stop: bool, posts: Posts, j: nat): LoopEnd {
    if stop || posts(j) then LoopEnd([], ERR_FORCE_STOP, j + 1)
    else match s
      case Last(r, code) => LoopEnd(Emit(h, r), code, j + 1)
      case More(r, rest) =>
        var e := ReadLoop(h, rest, false, posts, j + 1);
        LoopEnd(Emit(h, r) + e.out, e.code, e.polls)
  }

  lemma {:induction false} RunningIsLoop(t: Task, s: Script, out: seq<Output>, stop: bool, posts: Posts, j: nat)
    ensures var e := ReadLoop(t.host, s, stop, posts, j);
            Drive(Busy(t, out, Running(s)), stop, posts, j) == End(out + (e.out + [ExecFinished(t.host, e.code)]), e.polls)
    decreases s
  {
    var p := Busy(t, out, Running(s));
    var q := PollPhase(p.(out := []), stop || posts(j));
    if stop || posts(j) {
      assert [] + [ExecFinished(t.host, ERR_FORCE_STOP)] == q.out;
    } else if s.More? {
      var e := ReadLoop(t.host, s.rest, false, posts, j + 1);
      RunningIsLoop(t, s.rest, Emit(t.host, s.round), false, posts, j + 1);
      assert Emit(t.host, s.round) + e.out + [ExecFinished(t.host, e.code)]
          == Emit(t.host, s.round) + (e.out + [ExecFinished(t.host, e.code)]);
    }
  }

  lemma {:induction false} DriveOut(t: Task, out: seq<Output>, cont: Cont, stop: bool, posts: Posts, j: nat)
    ensures var d, e := Drive(Busy(t, out, cont), stop, posts, j), Drive(Busy(t, [], cont), stop, posts, j);
            d == End(out + e.out, e.polls)
  {
    if !cont.Done? {
      var p := Busy(t, [], cont);
      assert Busy(t, out, cont).(out := []) == p;
      var e := Drive(PollPhase(p, stop || posts(j)), false, posts, j + 1);
      assert [] + e.out == e.out;
    } else {
      assert out + [] == out;
    }
  }

  /** A copy loop, its report, and whatever the task does next. */
  ghost function AfterLoop(t: Task, e: LoopEnd, posts: Posts): End {
    var d := Drive(Busy(t, [], AfterCopy(t, e.code)), false, posts, e.polls);
    End(e.out + CopyEnd(t, e.code) + d.out, d.polls)
  }

  lemma {:induction false} CopyingIsLoop(t: Task, s: Script, out: seq<Output>, stop: bool, posts: Posts, j: nat)
    ensures var a := AfterLoop(t, ReadLoop(t.host, s, stop, posts, j), posts);
            Drive(Busy(t, out, Copying(s)), stop, posts, j) == End(out + a.out, a.polls)
    decreases s
  {
    var p := Busy(t, out, Copying(s));
    var q := PollPhase(p.(out := []), stop || posts(j));
    if stop || posts(j) {
      assert [] + CopyEnd(t, ERR_FORCE_STOP) + [] == q.out;
    } else if s.Last? {
      DriveOut(t, q.out, q.cont, false, posts, j + 1);
    } else {
      var r, e := Emit(t.host, s.round), ReadLoop(t.host, s.rest, false, posts, j + 1);
      CopyingIsLoop(t, s.rest, r, false, posts, j + 1);
      Rejoin(r, e.out, CopyEnd(t, e.code), Drive(Busy(t, [], AfterCopy(t, e.code)), false, posts, e.polls).out);
    }
  }

  lemma {:induction false} Rejoin4<T>(a: seq<T>, b: seq<T>, c: seq<T>)
    requires |b| <= |c| && c[..|b|] == b
    ensures a + b + c[|b|..] == a + ([] + c)
  {
  }

  lemma {:induction false} LoopPolls(h: Host, s: Script, stop: bool, posts: Posts, j: nat)
    ensures ReadLoop(h, s, stop, posts, j).polls > j
    decreases s
  {
    if !stop && !posts(j) && s.More? {
      LoopPolls(h, s.rest, false, posts, j + 1);
    }
  }

  lemma {:induction false} Rejoin<T>(a: seq<T>, b: seq<T>, c: seq<T>, d: seq<T>)
    ensures a + b + c + d == a + (b + c + d)
  {
  }

  // ---------------------------------------------------------------- the worker

  class TaskWorker {
    var busy: bool
    var stop: bool
    var data: seq<Output>
    var polls: nat  // how often checkStop has run for this task: the clock of the environment

    constructor ()
      ensures !busy && !stop && data == []
    {
      busy, stop, data, polls := false, false, [], 0;
    }

    /** Takes a token out of the buffer if there is one. */
    method CheckStop() returns (stopped: bool)
      modifies this`stop, this`polls
      ensures stopped == old(stop) && !stop && polls == old(polls) + 1
    {
      stopped, stop, polls := stop, false, polls + 1;
    }

    /** ForceStop, called by the pool or not: it posts a token if it finds the busy flag raised. A second
        token would have to wait for the buffer. */
    method Post(now: bool)
      modifies this`stop
      ensures stop == (old(stop) || (now && busy))
    {
      if now && busy {
        stop := true;
      }
    }

    method SendRound(h: Host, round: seq<Piece>)
      modifies this`data
      ensures data == old(data) + Emit(h, round)
    {
      var i := 0;
      while i < |round|
        invariant i <= |round| && data == old(data) + Emit(h, round)[..i]
      {
        data := data + [Chunk(round[i].stream, h, round[i].data)];
        i := i + 1;
      }
    }

    /** The loops of copy and cmd: a look at the stop buffer before every turn, the exit code after the
        last one. They run while the busy flag is raised. */
    method ReadProcess(h: Host, script: Script, posts: Posts) returns (code: int)
      requires busy
      modifies this`stop, this`data, this`polls
      ensures var e := ReadLoop(h, script, old(stop), posts, old(polls));
              data == old(data) + e.out && code == e.code && polls == e.polls && !stop
    {
      var s := script;
      ghost var e := ReadLoop(h, script, stop, posts, polls);
      while true
        invariant var now := ReadLoop(h, s, stop, posts, polls);
                  data + now.out == old(data) + e.out && now.code == e.code && now.polls == e.polls
        decreases s
      {
        Post(posts(polls));
        var stopped := CheckStop();
        if stopped {
          assert data + [] == data;
          return ERR_FORCE_STOP;
        }
        SendRound(h, s.round);
        match s
        case Last(_, exit) => return exit;
        case More(_, rest) => s := rest;
      }
    }

    /** The copy part of a task. */
    method CopyPart(t: Task, script: Script, posts: Posts) returns (result: int)
      requires busy
      modifies this`stop, this`data, this`polls
      ensures var e := ReadLoop(t.host, script, old(stop), posts, old(polls));
              data == old(data) + (e.out + CopyEnd(t, e.code)) && result == e.code && polls == e.polls && !stop
    {
      result := ReadProcess(t.host, script, posts);
      data := data + [CopyFinished(t.host, result)];
      if result != 0 {
        data := data + [ExecFinished(t.host, ERR_COPY_FAILED)];
      }
    }

    /** The rest of a task after a copy that ended with the given code, or without one. */
    method ExecPart(t: Task, copied: int, posts: Posts)
      requires busy
      modifies this`stop, this`data, this`polls
      ensures var d := Drive(Busy(t, [], AfterCopy(t, copied)), old(stop), posts, old(polls));
              && data == old(data) + d.out && polls == d.polls >= old(polls)
              && stop == (polls == old(polls) && old(stop))
    {
      hide ReadLoop;
      if copied == 0 && t.exec.Some? {
        RunningIsLoop(t, t.exec.value, [], stop, posts, polls);
        LoopPolls(t.host, t.exec.value, stop, posts, polls);
        var result := ReadProcess(t.host, t.exec.value, posts);
        data := data + [ExecFinished(t.host, result)];
      } else {
        assert data + [] == data;
      }
    }

    /** One iteration of run: copy, report, and exec unless the copy failed. */
    method RunTask(t: Task, posts: Posts)
      modifies this
      ensures data == old(data) + TaskEnd(t, old(stop), posts).out
      ensures stop == Leftover(t, old(stop), posts) && !busy
    {
      polls := 0;
      busy := true;
      if t.copy.Some? {
        CopyingIsLoop(t, t.copy.value, [], stop, posts, 0);
        LoopPolls(t.host, t.copy.value, stop, posts, 0);
        ghost var before, e := data, ReadLoop(t.host, t.copy.value, stop, posts, 0);
        var result := CopyPart(t, t.copy.value, posts);
        ExecPart(t, result, posts);
        Rejoin4(before, e.out + CopyEnd(t, e.code), AfterLoop(t, e, posts).out);
      } else {
        ExecPart(t, 0, posts);
      }
      Post(posts(polls));
      busy := false;
    }

    /** The loop over the queue. */
    method Run(tasks: seq<Task>, posts: seq<Posts>)
      requires |posts| == |tasks|
      modifies this
      ensures data == old(data) + AllOut(tasks, posts, old(stop))
    {
      var i := 0;
      while i < |tasks|
        invariant i <= |tasks|
        invariant data + AllOut(tasks[i..], posts[i..], stop) == old(data) + AllOut(tasks, posts, old(stop))
      {
        assert tasks[i..][1..] == tasks[i + 1..] && posts[i..][1..] == posts[i + 1..];
        RunTask(tasks[i], posts[i]);
        i := i + 1;
      }
    }
  }

  // ---------------------------------------------------------------- without interrupts

  ghost predicate NeverPosted(posts: Posts) { forall j :: !posts(j) }

  lemma {:induction false} LoopTrace(h: Host, s: Script, posts: Posts, j: nat)
    requires NeverPosted(posts)
    ensures ReadLoop(h, s, false, posts, j).out == ScriptTrace(h, s) && ReadLoop(h, s, false, posts, j).code == ExitCode(s)
    decreases s
  {
    if s.More? {
      LoopTrace(h, s.rest, posts, j + 1);
    }
  }

  /** Nobody stops the task: the worker sends the trace that schedule independence speaks of. */
  lemma {:induction false} TaskTrace(t: Task, posts: Posts)
    requires NeverPosted(posts)
    ensures TaskEnd(t, false, posts).out == Trace(t) && !Leftover(t, false, posts)
  {
    if t.copy.Some? {
      var s := t.copy.value;
      var e := ReadLoop(t.host, s, false, posts, 0);
      CopyingIsLoop(t, s, [], false, posts, 0);
      LoopTrace(t.host, s, posts, 0);
      if e.code == 0 && t.exec.Some? {
        RunningIsLoop(t, t.exec.value, [], false, posts, e.polls);
        LoopTrace(t.host, t.exec.value, posts, e.polls);
      }
    } else if t.exec.Some? {
      RunningIsLoop(t, t.exec.value, [], false, posts, 0);
      LoopTrace(t.host, t.exec.value, posts, 0);
    }
  }

  /** A token left in the buffer by an earlier task stops a task that nobody aimed at, in its first phase,
      which then fails with the code of a stop. */
  lemma {:induction false} StaleToken(t: Task, posts: Posts)
    requires t.copy.Some? || t.exec.Some?
    ensures TaskEnd(t, true, posts) ==
            End(if t.copy.Some? then CopyEnd(t, ERR_FORCE_STOP) else [ExecFinished(t.host, ERR_FORCE_STOP)], 1)
  {
    if t.copy.Some? {
      CopyingIsLoop(t, t.copy.value, [], true, posts, 0);
    } else {
      RunningIsLoop(t, t.exec.value, [], true, posts, 0);
    }
  }

  /** So a token that comes when the loops of one task are over is the end of the next task of the worker,
      which copies and runs nothing. */
  lemma {:induction false} LateTokenStopsNext(first: Task, next: Task, p1: Posts, p2: Posts)
    requires next.copy.Some? || next.exec.Some?
    requires p1(TaskEnd(first, false, p1).polls)
    ensures AllOut([first, next], [p1, p2], false) ==
            TaskEnd(first, false, p1).out
            + if next.copy.Some? then CopyEnd(next, ERR_FORCE_STOP) else [ExecFinished(next.host, ERR_FORCE_STOP)]
  {
    var tasks, posts := [first, next], [p1, p2];
    assert tasks[1..] == [next] && posts[1..] == [p2] && [next][1..] == [] && [p2][1..] == [];
    StaleToken(next, p2);
    var end := TaskEnd(next, true, p2).out;
    assert AllOut([next], [p2], true) == end + [] == end;
  }
}
