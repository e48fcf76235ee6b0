/** From what a remote process prints to what Collapse shows for its host: the read loop of the worker
    composed with the protocol and the collector. */
module EndToEnd {
  import opened Basics
  import opened Remote
  import opened Protocol
  import opened Results
  import opened Schedule
  import opened CmdStream
  import opened Executer
  import CS = CopyStream
  import opened CmdExactly
  import WL = WorkerLoop

  /** The rounds that the read loop of a worker produced, as the script of the task in the protocol. */
  function ScriptOf(rounds: seq<seq<Piece>>, code: int): Script
    requires rounds != []
  {
    if |rounds| == 1 then Last(rounds[0], code) else More(rounds[0], ScriptOf(rounds[1..], code))
  }

  lemma {:induction false} StdoutAppend(a: seq<Output>, b: seq<Output>)
    ensures StdoutOf(a + b) == StdoutOf(a) + StdoutOf(b)
    decreases |b|
  {
    if b == [] {
      assert a + b == a;
      assert StdoutOf(a) + "" == StdoutOf(a);
    } else {
      var init, last := b[..|b| - 1], b[|b| - 1];
      assert a + b == (a + init) + [last] && b == init + [last];
      StdoutAppend(a, init);
      OneMoreMessage(a + init, last);
      OneMoreMessage(init, last);
    }
  }

  lemma {:induction false} StdoutOfRound(h: Host, r: seq<Piece>)
    ensures StdoutOf(Emit(h, r)) == Sent(Stdout, r)
  {
    if r != [] {
      var init, last := r[..|r| - 1], r[|r| - 1];
      assert r == init + [last];
      StdoutOfRound(h, init);
      assert Emit(h, r) == Emit(h, init) + [Chunk(last.stream, h, last.data)];
      OneMoreMessage(Emit(h, init), Chunk(last.stream, h, last.data));
      SentSnoc(Stdout, init, last);
    }
  }

  lemma {:induction false} FlatCons(rounds: seq<seq<Piece>>)
    requires rounds != []
    ensures Flat(rounds) == rounds[0] + Flat(rounds[1..])
  {
    var n := |rounds| - 1;
    if n == 0 {
      assert rounds[..0] == [] && rounds[1..] == [] && [] + rounds[0] == rounds[0] + [];
    } else {
      var init, rest := rounds[..n], rounds[1..];
      FlatCons(init);
      assert init[0] == rounds[0] && init[1..] == rest[..n - 1];
      Associate(rounds[0], Flat(rest[..n - 1]), rounds[n]);
    }
  }

  lemma {:induction false} Associate<T>(a: seq<T>, b: seq<T>, c: seq<T>)
    ensures a + b + c == a + (b + c)
  {
  }

  lemma {:induction false} StdoutOfScript(h: Host, rounds: seq<seq<Piece>>, code: int)
    requires rounds != []
    ensures StdoutOf(ScriptTrace(h, ScriptOf(rounds, code))) == Sent(Stdout, Flat(rounds))
  {
    StdoutOfRound(h, rounds[0]);
    FlatCons(rounds);
    SentAppend(Stdout, rounds[0], Flat(rounds[1..]));
    if |rounds| == 1 {
      assert rounds[1..] == [] && Sent(Stdout, Flat(rounds[1..])) == "";
      assert Sent(Stdout, rounds[0]) + "" == Sent(Stdout, rounds[0]);
    } else {
      StdoutOfScript(h, rounds[1..], code);
      StdoutAppend(Emit(h, rounds[0]), ScriptTrace(h, ScriptOf(rounds[1..], code)));
    }
  }

  /** A worker forwards no standard output of a copy (src/remote/copy.go:36-52). */
  predicate NoStdout(s: Script) {
    (forall i | 0 <= i < |s.round| :: !s.round[i].stream.Stdout?) && (s.More? ==> NoStdout(s.rest))
  }

  /** What the read loop of a copy forwards is such a script. */
  lemma {:induction false} CopyIsQuiet(rounds: seq<seq<Piece>>, code: int)
    requires rounds != [] && CS.AllQuiet(rounds)
    ensures NoStdout(ScriptOf(rounds, code))
  {
    assert CS.Quiet(rounds[0]);
    if |rounds| > 1 {
      assert forall k | 0 <= k < |rounds[1..]| :: rounds[1..][k] == rounds[k + 1];
      CopyIsQuiet(rounds[1..], code);
    }
  }

  lemma {:induction false} QuietRound(h: Host, r: seq<Piece>)
    requires forall i | 0 <= i < |r| :: !r[i].stream.Stdout?
    ensures StdoutOf(Emit(h, r)) == ""
  {
    StdoutOfRound(h, r);
    forall i | 0 <= i < |r| ensures TextOf(Stdout)(r[i]) == "" {}
    FlatMapNone(TextOf(Stdout), r);
  }

  lemma {:induction false} QuietScript(h: Host, s: Script)
    requires NoStdout(s)
    ensures StdoutOf(ScriptTrace(h, s)) == ""
  {
    QuietRound(h, s.round);
    if s.More? {
      QuietScript(h, s.rest);
      StdoutAppend(Emit(h, s.round), ScriptTrace(h, s.rest));
    }
  }

  lemma {:induction false} NoChunks(ms: seq<Output>)
    requires forall i | 0 <= i < |ms| :: !ms[i].Chunk?
    ensures StdoutOf(ms) == ""
  {
    if ms != [] {
      NoChunks(ms[..|ms| - 1]);
    }
  }

  /** The standard output of the whole trace of a task is what its command forwarded. */
  lemma {:induction false} TraceStdout(t: Task, rounds: seq<seq<Piece>>, code: int)
    requires rounds != [] && t.exec == Some(ScriptOf(rounds, code))
    requires t.copy.Some? ==> NoStdout(t.copy.value) && ExitCode(t.copy.value) == 0
    ensures StdoutOf(Trace(t)) == Sent(Stdout, Flat(rounds))
  {
    var run := ScriptTrace(t.host, t.exec.value);
    var end := [ExecFinished(t.host, ExitCode(t.exec.value))];
    StdoutOfScript(t.host, rounds, code);
    NoChunks(end);
    StdoutAppend(run, end);
    assert Sent(Stdout, Flat(rounds)) + "" == Sent(Stdout, Flat(rounds));
    if t.copy.Some? {
      var copy, done := ScriptTrace(t.host, t.copy.value), CopyEnd(t, 0);
      QuietScript(t.host, t.copy.value);
      NoChunks(done);
      StdoutAppend(copy, done);
      StdoutAppend(copy + done, run + end);
      assert Trace(t) == copy + done + (run + end);
    }
  }

  /** What Collapse shows for a host in any complete run, and the code it reports: the standard output of
      its process in order, less the prompt and the echo that the worker swallowed. After a wrong password
      that is the output before the failure and one message, with the code of a stop. Without raise it is
      the whole output if and only if no chunk of the first four non-empty reads is a failure. */
  lemma {:induction false} CollapseShows(c: Config, tasks: seq<Task>, workers: seq<Worker>, run: seq<Step>, i: nat,
                                         p: Patterns, raise: RaiseType, password: string, turns: seq<Turn>,
                                         wait: Wait, rounds: seq<seq<Piece>>, st: Loop, ending: Ending, turn: nat,
                                         log: Log, code: int)
    requires Complete(c, tasks, workers, run) && i < |tasks|
    requires Outcome(p, raise, password, turns, wait, rounds, st, ending, turn, log, code) && !ending.Open?
    requires rounds != [] && tasks[i].exec == Some(ScriptOf(rounds, code))
    requires tasks[i].copy.Some? ==> NoStdout(tasks[i].copy.value) && ExitCode(tasks[i].copy.value) == 0
    ensures var r, h := Collect(Execute, Exec(c, Start(tasks, [], workers), run).received), tasks[i].host;
            var shown := if h in r.outputs then r.outputs[h] else "";
            && h in r.codes && r.codes[h] == CodeOf(ending, wait)
            && (ending.Finished? ==> r.codes[h] == match wait case Clean => 0 case Exited(status) => status case Lost => 32500)
            && (!ending.Finished? ==> r.codes[h] == 32501)
            && shown == Forwarded(log) + (if ending.WrongPassword? then AUTH_FAILURE else "")
            && Decided(p, raise.RaiseNone?, password, Looked(turns), st, ending, log)
            && (!ending.WrongPassword? ==> Raw(log) == Join(Reads(Stdouts(turns[..turn]))))
            && (raise.RaiseNone? && NoFailure(p, turns) ==> shown == Join(Reads(Stdouts(turns[..turn]))))
            && (raise.RaiseNone? && !NoFailure(p, turns) ==> shown == Join(Before(p, turns)) + AUTH_FAILURE && r.codes[h] == ERR_FORCE_STOP)
  {
    CollapseReports(c, tasks, workers, run);
    TraceStdout(tasks[i], rounds, code);
    TraceCode(tasks[i], ExitCode(tasks[i].exec.value));
    ScriptCode(rounds, code);
    CmdDecided(p, raise, password, turns, wait, rounds, st, ending, turn, log, code);
    if raise.RaiseNone? {
      NoneShows(p, password, turns, wait, rounds, st, ending, turn, log, code);
    }
  }

  /** No chunk that is looked at matches the wrong-password message. */
  ghost predicate NoFailure(p: Patterns, turns: seq<Turn>) {
    forall m | 0 <= m < |Looked(turns)| :: !p.wrong(Looked(turns)[m])
  }

  /** The chunks before the first failure, when no password is to be sent. */
  ghost function Before(p: Patterns, turns: seq<Turn>): seq<string> { Looked(turns)[..CutAt(p, true, Looked(turns))] }

  lemma {:induction false} NoneShows(p: Patterns, password: string, turns: seq<Turn>, wait: Wait,
                                     rounds: seq<seq<Piece>>, st: Loop, ending: Ending, turn: nat, log: Log,
                                     code: int)
    requires Outcome(p, RaiseNone, password, turns, wait, rounds, st, ending, turn, log, code)
    ensures ending.WrongPassword? <==> !NoFailure(p, turns)
    ensures Forwarded(log) == if NoFailure(p, turns) then Join(Reads(Stdouts(turns[..turn]))) else Join(Before(p, turns))
  {
    NoneFailsExactly(p, password, turns, wait, rounds, st, ending, turn, log, code);
    CmdDecided(p, RaiseNone, password, turns, wait, rounds, st, ending, turn, log, code);
  }

  /** The last message of an undisturbed task carries the exit code of its command. */
  lemma {:induction false} TraceCode(t: Task, code: int)
    requires t.exec.Some? && code == ExitCode(t.exec.value)
    requires t.copy.Some? ==> ExitCode(t.copy.value) == 0
    ensures LastCode(Trace(t)) == Some(code)
  {
    var out := Trace(t);
    assert out[|out| - 1] == ExecFinished(t.host, code);
  }

  lemma {:induction false} ScriptCode(rounds: seq<seq<Piece>>, code: int)
    requires rounds != []
    ensures ExitCode(ScriptOf(rounds, code)) == code
  {
    if |rounds| > 1 {
      ScriptCode(rounds[1..], code);
    }
  }

  predicate FullChunks(ms: seq<Output>) {
    forall i | 0 <= i < |ms| && IsStdout(ms[i]) :: ms[i].data != ""
  }

  lemma {:induction false} TextOrNone(ms: seq<Output>)
    requires FullChunks(ms)
    ensures HasStdout(ms) <==> StdoutOf(ms) != ""
  {
    if ms != [] {
      var init := ms[..|ms| - 1];
      assert forall i | 0 <= i < |init| :: init[i] == ms[i];
      TextOrNone(init);
    }
  }

  lemma {:induction false} FlatFull(rounds: seq<seq<Piece>>)
    requires forall k | 0 <= k < |rounds| :: NoneEmpty(rounds[k])
    ensures NoneEmpty(Flat(rounds))
  {
    if rounds != [] {
      FlatFull(rounds[..|rounds| - 1]);
    }
  }

  lemma {:induction false} QuietFull(h: Host, s: Script)
    requires NoStdout(s)
    ensures FullChunks(ScriptTrace(h, s))
  {
    if s.More? {
      QuietFull(h, s.rest);
    }
  }

  lemma {:induction false} TraceFull(t: Task, rounds: seq<seq<Piece>>, code: int)
    requires rounds != [] && t.exec == Some(ScriptOf(rounds, code)) && forall k | 0 <= k < |rounds| :: NoneEmpty(rounds[k])
    requires t.copy.Some? ==> NoStdout(t.copy.value) && ExitCode(t.copy.value) == 0
    ensures FullChunks(Trace(t))
  {
    ScriptText(t.host, rounds, code);
    FlatFull(rounds);
    if t.copy.Some? {
      QuietFull(t.host, t.copy.value);
    }
  }

  /** Collapse has an entry for a host exactly when there is something to show: a command that prints nothing,
      or only a prompt and its echo, leaves none. */
  lemma {:induction false} ShownOrAbsent(c: Config, tasks: seq<Task>, workers: seq<Worker>, run: seq<Step>, i: nat,
                                         turns: seq<Turn>, rounds: seq<seq<Piece>>, n: nat, wrong: bool, code: int)
    requires Complete(c, tasks, workers, run) && i < |tasks|
    requires n <= |turns| && DebugInv(turns, n, wrong, rounds)
    requires rounds != [] && tasks[i].exec == Some(ScriptOf(rounds, code))
    requires tasks[i].copy.Some? ==> NoStdout(tasks[i].copy.value) && ExitCode(tasks[i].copy.value) == 0
    ensures var r, h := Collect(Execute, Exec(c, Start(tasks, [], workers), run).received), tasks[i].host;
            h in r.outputs <==> Sent(Stdout, Flat(rounds)) != ""
  {
    CollapseReports(c, tasks, workers, run);
    TraceStdout(tasks[i], rounds, code);
    TraceFull(tasks[i], rounds, code);
    TextOrNone(Trace(tasks[i]));
  }

  // ---------------------------------------------------------------- a copy and what follows it

  lemma {:induction false} EmitAppend(h: Host, a: seq<Piece>, b: seq<Piece>)
    ensures Emit(h, a + b) == Emit(h, a) + Emit(h, b)
  {
  }

  /** The script of a read loop is what the loop forwarded, turn by turn. */
  lemma {:induction false} ScriptText(h: Host, rounds: seq<seq<Piece>>, code: int)
    requires rounds != []
    ensures ScriptTrace(h, ScriptOf(rounds, code)) == Emit(h, Flat(rounds))
  {
    FlatCons(rounds);
    EmitAppend(h, rounds[0], Flat(rounds[1..]));
    if |rounds| > 1 {
      ScriptText(h, rounds[1..], code);
    } else {
      assert rounds[1..] == [] && Emit(h, []) == [];
    }
  }

  /** What a task sends whose copy loop has forwarded `rounds` and returned `code`. */
  lemma {:induction false} CopyTrace(t: Task, rounds: seq<seq<Piece>>, code: int)
    requires rounds != [] && t.copy == Some(ScriptOf(rounds, code))
    ensures var copied := Emit(t.host, Flat(rounds));
            Trace(t) ==
              if code != 0 then copied + [CopyFinished(t.host, code), ExecFinished(t.host, ERR_COPY_FAILED)]
              else if t.exec.None? then copied + [CopyFinished(t.host, 0)]
              else copied + [CopyFinished(t.host, 0)]
                     + (ScriptTrace(t.host, t.exec.value) + [ExecFinished(t.host, ExitCode(t.exec.value))])
  {
    ScriptText(t.host, rounds, code);
    ScriptCode(rounds, code);
    var copied, end := Emit(t.host, Flat(rounds)), CopyEnd(t, code);
    assert copied + end + [] == copied + end;
  }

  /** A copy that ends with a status other than 0 is the end of its task: the worker reports the status, then
      that the copy failed, and runs nothing. After a copy that ends well the command is run and reported. */
  lemma {:induction false} CopyDecides(t: Task, p: Patterns, turns: seq<Turn>, wait: Wait, rounds: seq<seq<Piece>>,
                                       st: CS.Pipes, ending: Ending, turn: nat, code: int, posts: WL.Posts)
    requires CS.CopyLoop(p, turns, turn, rounds, st) && CS.CopyEnded(turns, turn, ending) && ending.Finished?
    requires code == CodeOf(ending, wait) && rounds != [] && t.copy == Some(ScriptOf(rounds, code)) && WL.NeverPosted(posts)
    ensures var sent, copied := WL.TaskEnd(t, false, posts).out, Emit(t.host, Flat(rounds));
            && (wait.Exited? && wait.status != 0 ==>
                sent == copied + [CopyFinished(t.host, wait.status), ExecFinished(t.host, 32502)])
            && (wait.Lost? ==> sent == copied + [CopyFinished(t.host, 32500), ExecFinished(t.host, 32502)])
            && (wait.Clean? && t.exec.Some? ==>
                sent == copied + [CopyFinished(t.host, 0)]
                        + (ScriptTrace(t.host, t.exec.value) + [ExecFinished(t.host, ExitCode(t.exec.value))]))
            && (wait.Clean? && t.exec.None? ==> sent == copied + [CopyFinished(t.host, 0)])
  {
    WL.TaskTrace(t, posts);
    CopyTrace(t, rounds, code);
  }

  lemma {:induction false} NothingShown(h: Host, rounds: seq<seq<Piece>>, code: int, end: seq<Output>)
    requires rounds != [] && CS.AllQuiet(rounds) && forall i | 0 <= i < |end| :: !end[i].Chunk?
    ensures !HasStdout(ScriptTrace(h, ScriptOf(rounds, code)) + end)
  {
    CopyIsQuiet(rounds, code);
    QuietTrace(h, ScriptOf(rounds, code));
    NoStdoutIn(ScriptTrace(h, ScriptOf(rounds, code)) + end);
  }

  lemma {:induction false} QuietTrace(h: Host, s: Script)
    requires NoStdout(s)
    ensures forall i | 0 <= i < |ScriptTrace(h, s)| :: !IsStdout(ScriptTrace(h, s)[i])
  {
    if s.More? {
      QuietTrace(h, s.rest);
    }
  }

  lemma {:induction false} NoStdoutIn(ms: seq<Output>)
    requires forall i | 0 <= i < |ms| :: !IsStdout(ms[i])
    ensures !HasStdout(ms)
  {
    if ms != [] {
      NoStdoutIn(ms[..|ms| - 1]);
    }
  }

  /** A failed copy reports its code last and prints nothing. */
  lemma {:induction false} FailedCopyTrace(t: Task, rounds: seq<seq<Piece>>, code: int)
    requires code != 0 && rounds != [] && CS.AllQuiet(rounds) && t.copy == Some(ScriptOf(rounds, code))
    ensures !HasStdout(Trace(t)) && LastCode(Trace(t)) == Some(ERR_COPY_FAILED)
  {
    var copied, report := Emit(t.host, Flat(rounds)), CopyFinished(t.host, code);
    var last := ExecFinished(t.host, ERR_COPY_FAILED);
    CopyTrace(t, rounds, code);
    ScriptText(t.host, rounds, code);
    NothingShown(t.host, rounds, code, [report, last]);
    OneMoreMessage(copied + [report], last);
    assert copied + [report, last] == copied + [report] + [last];
  }

  /** What Collapse says of a host whose copy failed, in every complete run: the code of a failed copy, and no
      output, whatever the command would have printed. */
  lemma {:induction false} FailedCopyShows(c: Config, tasks: seq<Task>, workers: seq<Worker>, run: seq<Step>, i: nat,
                                           rounds: seq<seq<Piece>>, code: int)
    requires Complete(c, tasks, workers, run) && i < |tasks| && code != 0
    requires rounds != [] && CS.AllQuiet(rounds) && tasks[i].copy == Some(ScriptOf(rounds, code))
    ensures var r, h := Collect(Execute, Exec(c, Start(tasks, [], workers), run).received), tasks[i].host;
            h in r.codes && r.codes[h] == 32502 && h !in r.outputs
  {
    CollapseReports(c, tasks, workers, run);
    FailedCopyTrace(tasks[i], rounds, code);
  }

  /** The groups that Collapse prints are the same in every complete run, whatever the schedules and
      whatever the order in which the outputs map is run through. */
  lemma {:induction false} CollapseGroups(c1: Config, c2: Config, tasks: seq<Task>, w1: seq<Worker>, w2: seq<Worker>,
                                          run1: seq<Step>, run2: seq<Step>, g1: map<string, seq<Host>>,
                                          g2: map<string, seq<Host>>)
    requires Complete(c1, tasks, w1, run1) && Complete(c2, tasks, w2, run2)
    requires Grouped(Collect(Execute, Exec(c1, Start(tasks, [], w1), run1).received).outputs, g1)
    requires Grouped(Collect(Execute, Exec(c2, Start(tasks, [], w2), run2).received).outputs, g2)
    ensures g1.Keys == g2.Keys && forall v | v in g1 :: multiset(g1[v]) == multiset(g2[v])
  {
    ScheduleIndependence(c1, c2, tasks, w1, w2, run1, run2);
    GroupingIsUnique(Collect(Execute, Exec(c1, Start(tasks, [], w1), run1).received).outputs, g1, g2);
  }
}
