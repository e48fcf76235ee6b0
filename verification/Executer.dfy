/** The loops of the executers and of the pool in the form the program has them: a collector that
    updates its record message by message (src/executer/collapse.go:57-102,
    src/executer/parallel.go:53-100, src/executer/distribute.go:26-50), the grouping of hosts by output
    (src/executer/collapse.go:108-114) and ForceStopAllTasks (src/remote/pool.go:37-61). */
module Executer {
  import opened Basics
  import opened Remote
  import opened Protocol
  import opened Conservation
  import opened Delivery
  import opened Results

  lemma {:induction false} NextMessage(command: Command, stream: seq<Output>, used: nat)
    requires used < |stream|
    ensures Collect(command, stream[..used + 1]) == Absorb(command, Collect(command, stream[..used]), stream[used])
    ensures FinCount(command, Any, stream[..used + 1]) ==
            FinCount(command, Any, stream[..used]) + if Counted(command, stream[used]) then 1 else 0
  {
    CollectSnoc(command, stream[..used], stream[used]);
    SumSnoc(FinWeight(command, Any), stream[..used], stream[used]);
    assert stream[..used + 1] == stream[..used] + [stream[used]];
  }

  class Collector {
    const command: Command
    var running: int
    var codes: map<Host, int>
    var success: seq<Host>
    var error: seq<Host>
    var outputs: map<Host, string>

    function View(): ExecResult
      reads this
    {
      ExecResult(codes, success, error, outputs)
    }

    constructor (command: Command, hosts: nat)
      ensures this.command == command && running == hosts && View() == NO_RESULT
    {
      this.command := command;
      running := hosts;
      codes, success, error, outputs := map[], [], [], map[];
    }

    /** One message of the data channel; `done` breaks the run loop. */
    method Receive(m: Output) returns (done: bool)
      modifies this
      ensures View() == Absorb(command, old(View()), m)
      ensures running == old(running) - (if Counted(command, m) then 1 else 0)
      ensures done <==> Counted(command, m) && running == 0
    {
      done := false;
      match m
      case Chunk(stream, host, data) =>
        if command.Execute? && stream.Stdout? {
          outputs := outputs[host := (if host in outputs then outputs[host] else "") + data];
        }
      case CopyFinished(host, code) =>
        if command.Distribute? {
          done := Report(host, code);
        }
      case ExecFinished(host, code) =>
        if command.Execute? {
          done := Report(host, code);
        }
    }

    method Report(host: Host, code: int) returns (done: bool)
      modifies this
      ensures codes == old(codes)[host := code] && outputs == old(outputs)
      ensures success == old(success) + (if code == 0 then [host] else [])
      ensures error == old(error) + (if code == 0 then [] else [host])
      ensures running == old(running) - 1 && (done <==> running == 0)
    {
      codes := codes[host := code];
      if code == 0 {
        success := success + [host];
      } else {
        error := error + [host];
      }
      running := running - 1;
      done := running == 0;
    }

    /** The run loop over what the channel delivers. It stops at the message that completes the count
        and at no other, with the result of everything received up to there. */
    method Run(stream: seq<Output>) returns (used: nat, done: bool)
      requires running > 0 && View() == NO_RESULT
      modifies this
      ensures used <= |stream| && View() == Collect(command, stream[..used])
      ensures running == old(running) - FinCount(command, Any, stream[..used])
      ensures done ==> used > 0 && running == 0 && Counted(command, stream[used - 1])
      ensures !done ==> used == |stream| && running > 0
    {
      used, done := 0, false;
      while used < |stream| && !done
        invariant used <= |stream| && View() == Collect(command, stream[..used])
        invariant running == old(running) - FinCount(command, Any, stream[..used])
        invariant if done then used > 0 && running == 0 && Counted(command, stream[used - 1]) else running > 0
        decreases |stream| - used, if done then 0 else 1
      {
        NextMessage(command, stream, used);
        done := Receive(stream[used]);
        used := used + 1;
      }
    }
  }

  /** All of the count in a part of the messages, and the last message counts: the part is everything. */
  lemma {:induction false} CountedLast(command: Command, ms: seq<Output>, used: nat)
    requires used <= |ms| && ms != [] && Counted(command, ms[|ms| - 1])
    requires FinCount(command, Any, ms[..used]) == FinCount(command, Any, ms)
    ensures used == |ms|
  {
    if used < |ms| {
      var f := FinWeight(command, Any);
      assert ms == ms[..used] + ms[used..];
      SumAppend(f, ms[..used], ms[used..]);
      SumMember(f, ms[used..], |ms| - used - 1);
    }
  }

  /** The run loop of the program, given what the protocol delivered to it, ends at the last message
      received and nowhere before it. */
  lemma {:induction false} LoopEndsAtExit(c: Config, tasks: seq<Task>, workers: seq<Worker>, run: seq<Step>, used: nat)
    requires ValidStart(c, tasks, workers) && tasks != []
    requires Legal(c, Start(tasks, [], workers), run)
    requires Exec(c, Start(tasks, [], workers), run).control.Exited?
    requires var ms := Exec(c, Start(tasks, [], workers), run).received;
             && 0 < used <= |ms| && Counted(c.command, ms[used - 1])
             && FinCount(c.command, Any, ms[..used]) == |tasks|
    ensures used == |Exec(c, Start(tasks, [], workers), run).received|
  {
    StartInv(c, tasks, workers);
    RunLastCounted(c, Start(tasks, [], workers), run);
    RunInv(c, |tasks|, Start(tasks, [], workers), run);
    CountedLast(c.command, Exec(c, Start(tasks, [], workers), run).received, used);
  }

  /** The collector exits on a counted message, so that message is the last one it receives. */
  predicate LastCounted(c: Config, s: State) {
    s.control.Exited? ==> s.received != [] && Counted(c.command, s.received[|s.received| - 1])
  }

  lemma {:induction false} StepLastCounted(c: Config, s: State, st: Step)
    requires LastCounted(c, s) && Enabled(c, s, st)
    ensures LastCounted(c, Apply(c, s, st))
  {
  }

  lemma {:induction false} RunLastCounted(c: Config, s: State, run: seq<Step>)
    requires LastCounted(c, s) && Legal(c, s, run)
    ensures LastCounted(c, Exec(c, s, run))
    decreases |run|
  {
    if run != [] {
      StepLastCounted(c, s, run[0]);
      RunLastCounted(c, Apply(c, s, run[0]), run[1..]);
    }
  }

  // ---------------------------------------------------------------- hosts by output

  predicate Printed(outputs: map<Host, string>, h: Host, v: string) {
    h in outputs && outputs[h] == v
  }

  /** Under an output text stand exactly the hosts that printed it, each once. */
  ghost predicate GroupOf(outputs: map<Host, string>, v: string, hosts: seq<Host>) {
    forall h :: multiset(hosts)[h] == if Printed(outputs, h, v) then 1 else 0
  }

  /** Every output text of some host has its group, and there is no other group. */
  ghost predicate Grouped(outputs: map<Host, string>, groups: map<string, seq<Host>>) {
    groups.Keys == outputs.Values && forall v | v in groups :: GroupOf(outputs, v, groups[v])
  }

  /** The loop over the outputs map, which the language runs through in any order. */
  method GroupOutputs(outputs: map<Host, string>) returns (groups: map<string, seq<Host>>)
    ensures Grouped(outputs, groups)
  {
    groups := map[];
    var rest := outputs.Keys;
    ghost var seen: map<Host, string> := map[];
    while rest != {}
      invariant rest <= outputs.Keys && seen == map h | h in outputs && h !in rest :: outputs[h]
      invariant Grouped(seen, groups)
      decreases |rest|
    {
      var k :| k in rest;
      var v := outputs[k];
      var hosts := if v in groups then groups[v] else [];
      AddToGroup(seen, groups, k, v);
      groups := groups[v := hosts + [k]];
      rest := rest - {k};
      seen := seen[k := v];
    }
    assert seen == outputs;
  }

  lemma {:induction false} AddToGroup(seen: map<Host, string>, groups: map<string, seq<Host>>, k: Host, v: string)
    requires Grouped(seen, groups) && k !in seen
    ensures var hosts := if v in groups then groups[v] else [];
            Grouped(seen[k := v], groups[v := hosts + [k]])
  {
    var hosts := if v in groups then groups[v] else [];
    var seen', groups' := seen[k := v], groups[v := hosts + [k]];
    forall x ensures x in groups' <==> x in seen'.Values {
      if x in seen.Values {
        var h :| h in seen && seen[h] == x;
        assert h in seen' && seen'[h] == x;
      }
      assert seen'[k] == v;
    }
    forall x | x in groups' ensures GroupOf(seen', x, groups'[x]) {
      forall h ensures multiset(groups'[x])[h] == if Printed(seen', h, x) then 1 else 0 {
        if v !in groups { assert !Printed(seen, h, v); }
        assert x in groups ==> GroupOf(seen, x, groups[x]);
      }
    }
  }

  /** The partition of the hosts does not depend on the order of that loop. */
  lemma {:induction false} GroupingIsUnique(outputs: map<Host, string>, g1: map<string, seq<Host>>,
                                            g2: map<string, seq<Host>>)
    requires Grouped(outputs, g1) && Grouped(outputs, g2)
    ensures g1.Keys == g2.Keys && forall v | v in g1 :: multiset(g1[v]) == multiset(g2[v])
  {
    forall v | v in g1 ensures multiset(g1[v]) == multiset(g2[v]) {
      assert GroupOf(outputs, v, g1[v]) && GroupOf(outputs, v, g2[v]);
      forall h ensures multiset(g1[v])[h] == multiset(g2[v])[h] {}
    }
  }

  // ---------------------------------------------------------------- ForceStopAllTasks

  /** A busy worker whose stop buffer still holds a token: posting another one blocks. */
  predicate Blocked(w: Worker) { w.phase.Busy? && w.stop }

  function Stop(w: Worker): Worker { if w.phase.Busy? then w.(stop := true) else w }

  /** The first blocked worker from the `k`th on, or the end of the pool. */
  function FirstBlocked(ws: seq<Worker>, k: nat): (b: nat)
    requires k <= |ws|
    ensures k <= b <= |ws| && (b < |ws| ==> Blocked(ws[b])) && forall j | k <= j < b :: !Blocked(ws[j])
    decreases |ws| - k
  {
    if k == |ws| || Blocked(ws[k]) then k else FirstBlocked(ws, k + 1)
  }

  /** The busy workers from the `k`th up to, not including, the `b`th. */
  function BusyBetween(ws: seq<Worker>, k: nat, b: nat): nat
    requires b <= |ws|
    decreases b - k
  {
    if k >= b then 0 else (if ws[k].phase.Busy? then 1 else 0) + BusyBetween(ws, k + 1, b)
  }

  function StopBetween(ws: seq<Worker>, k: nat, b: nat): seq<Worker> {
    seq(|ws|, i requires 0 <= i < |ws| => if k <= i < b then Stop(ws[i]) else ws[i])
  }

  /** The call returns how many tasks it stopped, or hangs in the post to a worker. */
  datatype ForceStop = Returned(stopped: nat) | Hangs(k: nat, stopped: nat)

  function ForceStopOf(ws: seq<Worker>, k: nat, stopped: nat): ForceStop
    requires k <= |ws|
  {
    var b := FirstBlocked(ws, k);
    var n := stopped + BusyBetween(ws, k, b);
    if b == |ws| then Returned(n) else Hangs(b, n)
  }

  class Pool {
    var queue: seq<Task>
    var workers: seq<Worker>

    constructor (size: nat)
      ensures queue == [] && |workers| == size && forall k | 0 <= k < size :: workers[k] == Worker(Idle, false)
    {
      queue := [];
      workers := seq(size, i => Worker(Idle, false));
    }

    /** Drops the queued tasks and stops the busy workers, up to the first whose buffer is still full:
        there the call hangs, and the workers behind it are left as they were. */
    method ForceStopAllTasks() returns (r: ForceStop)
      modifies this
      ensures queue == []
      ensures r == ForceStopOf(old(workers), 0, 0)
      ensures workers == StopBetween(old(workers), 0, FirstBlocked(old(workers), 0))
    {
      while queue != []
        invariant workers == old(workers)
        decreases |queue|
      {
        queue := queue[1..];
      }
      var stopped, n := 0, 0;
      ghost var before := workers;
      while n < |workers|
        invariant n <= |workers| == |before| && queue == []
        invariant workers == StopBetween(before, 0, n)
        invariant FirstBlocked(before, 0) == FirstBlocked(before, n)
        invariant ForceStopOf(before, 0, 0) == ForceStopOf(before, n, stopped)
      {
        if workers[n].phase.Busy? {
          if workers[n].stop {
            return Hangs(n, stopped);
          }
          workers := workers[n := workers[n].(stop := true)];
          stopped := stopped + 1;
        }
        n := n + 1;
      }
      r := Returned(stopped);
    }
  }

  lemma {:induction false} DrainAll(c: Config, s: State) returns (run: seq<Step>)
    requires s.control.Draining?
    ensures Legal(c, s, run)
    ensures Exec(c, s, run) == s.(queue := [], drained := s.drained + s.queue, control := Stopping(0, 0))
    decreases |s.queue|
  {
    var s' := Apply(c, s, Handle);
    var rest := [];
    if s.queue != [] {
      rest := DrainAll(c, s');
      assert s.drained + [s.queue[0]] + s.queue[1..] == s.drained + s.queue;
    }
    ConsRun(c, s, Handle, s', rest);
    run := [Handle] + rest;
  }

  /** Where the handler stands when it cannot go on alone. */
  function ControlOf(r: ForceStop): Control {
    match r
    case Returned(_) => Receiving
    case Hangs(k, n) => Posting(k, n)
  }

  /** The state in which the stopping loop, left alone from the `k`th worker on, comes to rest. */
  function Posted(s: State, k: nat, n: nat): State
    requires k <= |s.workers|
  {
    var b := FirstBlocked(s.workers, k);
    s.(workers := StopBetween(s.workers, k, b), control := ControlOf(ForceStopOf(s.workers, k, n)),
       posted := s.posted + BusyBetween(s.workers, k, b))
  }

  /** A worker that is not busy is passed over. */
  lemma {:induction false} NonePosted(s: State, s1: State, k: nat, n: nat)
    requires k < |s.workers| && !s.workers[k].phase.Busy? && s1 == s.(control := Stopping(k + 1, n))
    ensures Posted(s1, k + 1, n) == Posted(s, k, n)
  {
    var b := FirstBlocked(s.workers, k);
    assert StopBetween(s.workers, k, b) == StopBetween(s.workers, k + 1, b);
  }

  lemma {:induction false} PostAll(c: Config, s: State, k: nat, n: nat) returns (run: seq<Step>)
    requires s.control == Stopping(k, n) && k <= |s.workers|
    ensures Legal(c, s, run) && Exec(c, s, run) == Posted(s, k, n)
    decreases |s.workers| - k
  {
    var s1 := Apply(c, s, Handle);
    if k == |s.workers| {
      assert StopBetween(s.workers, k, k) == s.workers;
      ConsRun(c, s, Handle, s1, []);
      run := [Handle] + [];
    } else if !s.workers[k].phase.Busy? {
      var rest := PostAll(c, s1, k + 1, n);
      NonePosted(s, s1, k, n);
      ConsRun(c, s, Handle, s1, rest);
      run := [Handle] + rest;
    } else if s.workers[k].stop {
      assert StopBetween(s.workers, k, k) == s.workers;
      ConsRun(c, s, Handle, s1, []);
      run := [Handle] + [];
    } else {
      var s2 := Apply(c, s1, Handle);
      var rest := PostAll(c, s2, k + 1, n + 1);
      OnePosted(s, s2, k, n);
      ConsRun(c, s1, Handle, s2, rest);
      ConsRun(c, s, Handle, s1, [Handle] + rest);
      run := [Handle] + ([Handle] + rest);
    }
  }

  /** One token posted, and the rest of the loop from there. */
  lemma {:induction false} OnePosted(s: State, s2: State, k: nat, n: nat)
    requires k < |s.workers| && s.workers[k].phase.Busy? && !s.workers[k].stop
    requires s2 == s.(workers := s.workers[k := s.workers[k].(stop := true)], control := Stopping(k + 1, n + 1),
                      posted := s.posted + 1)
    ensures Posted(s2, k + 1, n + 1) == Posted(s, k, n)
  {
    var b := FirstBlocked(s.workers, k);
    AheadSame(s.workers, s2.workers, k + 1, b);
    assert StopBetween(s.workers, k, b) == StopBetween(s2.workers, k + 1, b);
  }

  /** What stands before the `k`th worker does not matter. */
  lemma {:induction false} AheadSame(a: seq<Worker>, b: seq<Worker>, k: nat, end: nat)
    requires |a| == |b| && k <= |a| && end <= |a| && forall j | k <= j < |a| :: a[j] == b[j]
    ensures FirstBlocked(a, k) == FirstBlocked(b, k) && BusyBetween(a, k, end) == BusyBetween(b, k, end)
    decreases |a| - k
  {
    if k < |a| {
      AheadSame(a, b, k + 1, end);
    }
  }

  /** The handler of the protocol, left alone, does to the pool what ForceStopAllTasks does: it moves
      the queue to the drained tasks and fills the stop buffers of the busy workers, up to the end or
      up to the worker at which the method hangs; there no step of the handler is possible. */
  lemma {:induction false} HandlerIsForceStop(c: Config, s: State) returns (run: seq<Step>)
    requires s.control.Draining?
    ensures Legal(c, s, run)
    ensures var b := FirstBlocked(s.workers, 0);
            Exec(c, s, run) == s.(queue := [], drained := s.drained + s.queue, workers := StopBetween(s.workers, 0, b),
                                  posted := s.posted + BusyBetween(s.workers, 0, b),
                                  control := ControlOf(ForceStopOf(s.workers, 0, 0)))
    ensures !Enabled(c, Exec(c, s, run), Handle)
  {
    var drain := DrainAll(c, s);
    var post := PostAll(c, Exec(c, s, drain), 0, 0);
    RunsCompose(c, s, drain, post);
    run := drain + post;
  }
}
