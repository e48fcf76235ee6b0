/** What the collector loops make of the messages they receive (src/executer/executer.go:30-43,
    src/executer/collapse.go:57-102, src/executer/distribute.go:26-50). */
module Results {
  import opened Basics
  import opened Remote
  import opened Protocol
  import opened Conservation
  import opened Delivery
  import opened Interrupts

  datatype ExecResult = ExecResult(codes: map<Host, int>, success: seq<Host>, error: seq<Host>, outputs: map<Host, string>)

  const NO_RESULT := ExecResult(map[], [], [], map[])

  /** The case of the select loop for one message. */
  function Absorb(command: Command, r: ExecResult, m: Output): ExecResult {
    if Counted(command, m) then
      var r' := r.(codes := r.codes[m.host := m.code]);
      if m.code == 0 then r'.(success := r.success + [m.host]) else r'.(error := r.error + [m.host])
    else if command.Execute? && m.Chunk? && m.stream.Stdout? then
      r.(outputs := r.outputs[m.host := (if m.host in r.outputs then r.outputs[m.host] else "") + m.data])
    else
      r
  }

  function Collect(command: Command, ms: seq<Output>): ExecResult {
    if ms == [] then NO_RESULT else Absorb(command, Collect(command, ms[..|ms| - 1]), ms[|ms| - 1])
  }

  lemma {:induction false} CollectSnoc(command: Command, ms: seq<Output>, m: Output)
    ensures Collect(command, ms + [m]) == Absorb(command, Collect(command, ms), m)
  {
    assert (ms + [m])[..|ms|] == ms;
  }

  // ---------------------------------------------------------------- hosts reported

  lemma {:induction false} AbsorbReports(command: Command, r: ExecResult, m: Output, h: Host)
    ensures var r' := Absorb(command, r, m);
            && multiset(r'.success)[h] + multiset(r'.error)[h]
               == multiset(r.success)[h] + multiset(r.error)[h] + Fin(command, Only(h), m)
            && multiset(r'.error)[h] == multiset(r.error)[h] + Bad(command, h, m)
  {
  }

  /** Success and Error together list a host once for each finishing message about it, and Error once
      for each of these with a nonzero code. */
  lemma {:induction false} Reported(command: Command, ms: seq<Output>, h: Host)
    ensures var r := Collect(command, ms);
            && multiset(r.success)[h] + multiset(r.error)[h] == FinCount(command, Only(h), ms)
            && multiset(r.error)[h] == Sum(BadWeight(command, h), ms)
  {
    if ms != [] {
      var init, m := ms[..|ms| - 1], ms[|ms| - 1];
      assert ms == init + [m];
      Reported(command, init, h);
      CollectSnoc(command, init, m);
      AbsorbReports(command, Collect(command, init), m, h);
      SumSnoc(FinWeight(command, Only(h)), init, m);
      SumSnoc(BadWeight(command, h), init, m);
    }
  }

  function HostsOf(tasks: seq<Task>): seq<Host> {
    seq(|tasks|, i requires 0 <= i < |tasks| => tasks[i].host)
  }

  lemma {:induction false} HostCount(tasks: seq<Task>, h: Host)
    ensures multiset(HostsOf(tasks))[h] == TaskCount(Only(h), tasks)
  {
    if tasks != [] {
      HostCount(tasks[1..], h);
      assert HostsOf(tasks) == [tasks[0].host] + HostsOf(tasks[1..]);
    }
  }

  /** At exit of Parallel, Collapse or Distribute, interrupted or not, Success plus Error is the host
      list as a multiset. */
  lemma {:induction false} AllHostsReported(c: Config, tasks: seq<Task>, workers: seq<Worker>, run: seq<Step>)
    requires ValidStart(c, tasks, workers)
    requires Legal(c, Start(tasks, [], workers), run)
    requires Exec(c, Start(tasks, [], workers), run).control.Exited?
    ensures var r := Collect(c.command, Exec(c, Start(tasks, [], workers), run).received);
            multiset(r.success) + multiset(r.error) == multiset(HostsOf(tasks))
  {
    var s := Exec(c, Start(tasks, [], workers), run);
    var r := Collect(c.command, s.received);
    ExitDelivers(c, tasks, workers, run);
    forall h ensures multiset(r.success)[h] + multiset(r.error)[h] == multiset(HostsOf(tasks))[h] {
      Reported(c.command, s.received, h);
      HostCount(tasks, h);
    }
  }

  lemma {:induction false} CutCount(hs: seq<Host>, h: Host)
    ensures multiset(hs)[h] == Sum(CutWeight(h), hs)
  {
    if hs != [] {
      CutCount(hs[1..], h);
      assert hs == [hs[0]] + hs[1..];
    }
  }

  /** At exit, the hosts whose copy or exec phase was cut by a stop token are all among the errors, as
      often as they were cut. */
  lemma {:induction false} CutHostsFail(c: Config, tasks: seq<Task>, workers: seq<Worker>, run: seq<Step>)
    requires ValidStart(c, tasks, workers)
    requires Legal(c, Start(tasks, [], workers), run)
    requires Exec(c, Start(tasks, [], workers), run).control.Exited?
    ensures var s := Exec(c, Start(tasks, [], workers), run);
            multiset(s.cut) <= multiset(Collect(c.command, s.received).error)
  {
    var s := Exec(c, Start(tasks, [], workers), run);
    forall h ensures multiset(s.cut)[h] <= multiset(Collect(c.command, s.received).error)[h] {
      CutsAreErrors(c, tasks, workers, run, h);
      CutCount(s.cut, h);
      Reported(c.command, s.received, h);
    }
  }

  // ---------------------------------------------------------------- the part of a host

  ghost function OfHost(h: Host): Output -> seq<Output> {
    (m: Output) => if m.host == h then [m] else []
  }

  /** The messages about one host, in order. */
  ghost function Proj(h: Host, ms: seq<Output>): seq<Output> { FlatMap(OfHost(h), ms) }

  predicate IsStdout(m: Output) { m.Chunk? && m.stream.Stdout? }

  ghost predicate HasStdout(ms: seq<Output>) {
    ms != [] && (IsStdout(ms[|ms| - 1]) || HasStdout(ms[..|ms| - 1]))
  }

  ghost function StdoutOf(ms: seq<Output>): string {
    if ms == [] then ""
    else StdoutOf(ms[..|ms| - 1]) + if IsStdout(ms[|ms| - 1]) then ms[|ms| - 1].data else ""
  }

  ghost function LastCode(ms: seq<Output>): Option<int> {
    if ms == [] then None
    else if ms[|ms| - 1].ExecFinished? then Some(ms[|ms| - 1].code)
    else LastCode(ms[..|ms| - 1])
  }

  lemma {:induction false} OneMoreMessage(ms: seq<Output>, m: Output)
    ensures HasStdout(ms + [m]) <==> HasStdout(ms) || IsStdout(m)
    ensures StdoutOf(ms + [m]) == StdoutOf(ms) + if IsStdout(m) then m.data else ""
    ensures LastCode(ms + [m]) == if m.ExecFinished? then Some(m.code) else LastCode(ms)
  {
    var all := ms + [m];
    assert all[..|ms|] == ms && all[|ms|] == m;
  }

  lemma {:induction false} ProjSnoc(h: Host, ms: seq<Output>, m: Output)
    ensures Proj(h, ms + [m]) == if m.host == h then Proj(h, ms) + [m] else Proj(h, ms)
  {
    FlatMapSnoc(OfHost(h), ms, m);
  }

  /** What a result says about a host. */
  ghost predicate Says(r: ExecResult, h: Host, some: bool, out: string, code: Option<int>) {
    && (h in r.outputs <==> some)
    && out == (if h in r.outputs then r.outputs[h] else "")
    && code == (if h in r.codes then Some(r.codes[h]) else None)
  }

  /** What a result says about a host, against the messages about it. */
  ghost predicate Matches(r: ExecResult, h: Host, p: seq<Output>) {
    Says(r, h, HasStdout(p), StdoutOf(p), LastCode(p))
  }

  lemma {:induction false} AbsorbSays(r: ExecResult, h: Host, some: bool, out: string, code: Option<int>, m: Output)
    requires Says(r, h, some, out, code)
    ensures m.host != h ==> Says(Absorb(Execute, r, m), h, some, out, code)
    ensures m.host == h ==> Says(Absorb(Execute, r, m), h, some || IsStdout(m), out + (if IsStdout(m) then m.data else ""),
                                 if m.ExecFinished? then Some(m.code) else code)
  {
    assert out + "" == out;
  }

  /** What the collector of Collapse knows about a host depends on the messages about that host
      alone, and is their standard output in order and their last exit code. */
  lemma {:induction false} CollectByHost(ms: seq<Output>, h: Host)
    ensures Matches(Collect(Execute, ms), h, Proj(h, ms))
  {
    if ms != [] {
      var init, m := ms[..|ms| - 1], ms[|ms| - 1];
      assert ms == init + [m];
      CollectByHost(init, h);
      CollectSnoc(Execute, init, m);
      ProjSnoc(h, init, m);
      var p := Proj(h, init);
      AbsorbSays(Collect(Execute, init), h, HasStdout(p), StdoutOf(p), LastCode(p), m);
      OneMoreMessage(p, m);
    }
  }

  // ---------------------------------------------------------------- codes, for all commands

  /** The code of the last counted message. */
  ghost function LastCounted(command: Command, ms: seq<Output>): Option<int> {
    if ms == [] then None
    else if Counted(command, ms[|ms| - 1]) then Some(ms[|ms| - 1].code)
    else LastCounted(command, ms[..|ms| - 1])
  }

  lemma {:induction false} LastCountedSnoc(command: Command, ms: seq<Output>, m: Output)
    ensures LastCounted(command, ms + [m]) == if Counted(command, m) then Some(m.code) else LastCounted(command, ms)
  {
    assert (ms + [m])[..|ms|] == ms;
  }

  ghost function CodeFor(r: ExecResult, h: Host): Option<int> { if h in r.codes then Some(r.codes[h]) else None }

  lemma {:induction false} AbsorbCode(command: Command, r: ExecResult, m: Output, h: Host)
    ensures CodeFor(Absorb(command, r, m), h) == if Counted(command, m) && m.host == h then Some(m.code) else CodeFor(r, h)
  {
  }

  /** The code recorded for a host is that of the last counted message about it: CopyFinished for
      Distribute, ExecFinished for the others. */
  lemma {:induction false} CodeByHost(command: Command, ms: seq<Output>, h: Host)
    ensures CodeFor(Collect(command, ms), h) == LastCounted(command, Proj(h, ms))
  {
    if ms != [] {
      var init, m := ms[..|ms| - 1], ms[|ms| - 1];
      assert ms == init + [m];
      CodeByHost(command, init, h);
      CollectSnoc(command, init, m);
      AbsorbCode(command, Collect(command, init), m, h);
      ProjSnoc(h, init, m);
      LastCountedSnoc(command, Proj(h, init), m);
    }
  }

  /** Distribute keeps no output. */
  lemma {:induction false} DistributeKeepsNone(ms: seq<Output>)
    ensures Collect(Distribute, ms).outputs == map[]
  {
    if ms != [] {
      DistributeKeepsNone(ms[..|ms| - 1]);
    }
  }

  ghost function Finished(command: Command, ok: bool): Output -> seq<Host> {
    (m: Output) => if Counted(command, m) && (m.code == 0) == ok then [m.host] else []
  }

  /** Successes and failures are listed in the order in which they are reported. */
  lemma {:induction false} ListedInOrder(command: Command, ms: seq<Output>)
    ensures Collect(command, ms).success == FlatMap(Finished(command, true), ms)
    ensures Collect(command, ms).error == FlatMap(Finished(command, false), ms)
  {
    if ms != [] {
      var init, m := ms[..|ms| - 1], ms[|ms| - 1];
      assert ms == init + [m];
      ListedInOrder(command, init);
      CollectSnoc(command, init, m);
      FlatMapSnoc(Finished(command, true), init, m);
      FlatMapSnoc(Finished(command, false), init, m);
    }
  }
}
