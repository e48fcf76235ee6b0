/** The bound of Distribute is sharp: one host more than the queue and the workers can hold, and
    talkative copies, and the synchronous feed (src/executer/distribute.go:21-23) never ends. */
module Jam {
  import opened Basics
  import opened Remote
  import opened Protocol
  import opened Conservation
  import opened Delivery
  import opened Liveness

  /** A copy that prints something in each of `k` turns of its read loop and then ends. */
  function Chat(k: nat): Script {
    if k == 0 then Last([], 0) else More([Piece(Debug, "x")], Chat(k - 1))
  }

  /** A copy that prints one message more than the data channel holds, one in every turn. */
  function Chatty(cap: nat): Task { Task("h", Some(Chat(cap + 1)), None) }

  const MESSAGE := Chunk(Debug, "h", "x")

  /** A worker with one message to send and `k` more turns to go. */
  function Talking(cap: nat, k: nat): Worker { Worker(Busy(Chatty(cap), [MESSAGE], Copying(Chat(k))), false) }

  function Tasks(cap: nat, n: nat): seq<Task> { seq(n, i => Chatty(cap)) }

  function IdlePool(pool: nat): seq<Worker> { seq(pool, i => Worker(Idle, false)) }

  function JamConfig(cap: nat): Config { Config(cap, Distribute) }

  /** The first `k` workers have taken a task and want to report. */
  function Pool(cap: nat, pool: nat, k: nat): seq<Worker> {
    seq(pool, i => if i < k then Talking(cap, cap) else Worker(Idle, false))
  }

  function Taken(cap: nat, n: nat, pool: nat, k: nat): State
    requires k <= n
  {
    State(Tasks(cap, n - k), [], [], Pool(cap, pool, k), Receiving, n, [], k, [], 0, [])
  }

  function Queued(cap: nat, n: nat, pool: nat, j: nat): State
    requires pool + j <= n
  {
    State(Tasks(cap, n - pool - j), Tasks(cap, j), [], Pool(cap, pool, pool), Receiving, n, [], pool, [], 0, [])
  }

  function Sent(cap: nat, n: nat, pool: nat, i: nat): State
    requires 1 <= pool && pool + cap <= n && i <= cap
  {
    State(Tasks(cap, n - pool - cap), Tasks(cap, cap), seq(i, j => MESSAGE), Pool(cap, pool, pool)[0 := Talking(cap, cap - i)],
          Receiving, n, [], pool, [], 0, [])
  }

  /** One more worker takes a task and reads its first output. */
  lemma {:induction false} TakeOne(cap: nat, n: nat, pool: nat, i: nat) returns (run: seq<Step>)
    requires cap >= 1 && i < pool && pool < n
    ensures Legal(JamConfig(cap), Taken(cap, n, pool, i), run) && Uninterrupted(run)
    ensures Exec(JamConfig(cap), Taken(cap, n, pool, i), run) == Taken(cap, n, pool, i + 1)
  {
    var c, s, t := JamConfig(cap), Taken(cap, n, pool, i), Chatty(cap);
    var s1 := s.(unfed := Tasks(cap, n - i - 1), queue := [t]);
    var s2 := Stage(cap, n, pool, i, Worker(Got(t), false));
    var s3 := Stage(cap, n, pool, i, Worker(Busy(t, [], Copying(Chat(cap + 1))), false));
    var s4 := Stage(cap, n, pool, i, Talking(cap, cap));
    assert [t][1..] == [] && [] + [t] == [t] && s.unfed[0] == t && s.unfed[1..] == s1.unfed;
    assert Emit("h", [Piece(Debug, "x")]) == [MESSAGE];
    assert s4.workers == Pool(cap, pool, i + 1);
    assert Apply(c, s3, Poll(i)).workers == s4.workers;
    ConsRun(c, s3, Poll(i), s4, []);
    run := [Poll(i)] + [];
    assert Apply(c, s2, Mark(i)).workers == s3.workers;
    ConsRun(c, s2, Mark(i), s3, run);
    run := [Mark(i)] + run;
    assert Apply(c, s1, Take(i)) == s2;
    ConsRun(c, s1, Take(i), s2, run);
    run := [Take(i)] + run;
    assert Apply(c, s, Feed) == s1;
    ConsRun(c, s, Feed, s1, run);
    run := [Feed] + run;
  }

  /** Worker `i` has taken one more task and is in the given state. */
  function Stage(cap: nat, n: nat, pool: nat, i: nat, w: Worker): State
    requires i < pool && i < n
  {
    State(Tasks(cap, n - i - 1), [], [], Pool(cap, pool, i)[i := w], Receiving, n, [], i + 1, [], 0, [])
  }

  lemma {:induction false} TakeAll(cap: nat, n: nat, pool: nat, k: nat) returns (run: seq<Step>)
    requires cap >= 1 && k <= pool && pool < n
    ensures var s0 := Start(Tasks(cap, n), [], IdlePool(pool));
            && Legal(JamConfig(cap), s0, run) && Uninterrupted(run)
            && Exec(JamConfig(cap), s0, run) == Taken(cap, n, pool, k)
  {
    if k == 0 {
      assert IdlePool(pool) == Pool(cap, pool, 0);
      run := [];
    } else {
      var before := TakeAll(cap, n, pool, k - 1);
      var one := TakeOne(cap, n, pool, k - 1);
      RunsCompose(JamConfig(cap), Start(Tasks(cap, n), [], IdlePool(pool)), before, one);
      run := before + one;
    }
  }

  lemma {:induction false} QueueAll(cap: nat, n: nat, pool: nat, j: nat) returns (run: seq<Step>)
    requires cap >= 1 && 1 <= pool && pool + cap < n && j <= cap
    ensures var s0 := Start(Tasks(cap, n), [], IdlePool(pool));
            && Legal(JamConfig(cap), s0, run) && Uninterrupted(run)
            && Exec(JamConfig(cap), s0, run) == Queued(cap, n, pool, j)
  {
    var c, s0 := JamConfig(cap), Start(Tasks(cap, n), [], IdlePool(pool));
    if j == 0 {
      run := TakeAll(cap, n, pool, pool);
      assert Tasks(cap, 0) == [];
    } else {
      var before := QueueAll(cap, n, pool, j - 1);
      var s := Exec(c, s0, before);
      RunOneMore(c, s0, before, Feed);
      assert s.unfed[1..] == Tasks(cap, n - pool - j);
      assert s.queue + [Chatty(cap)] == Tasks(cap, j);
      run := before + [Feed];
    }
  }

  lemma {:induction false} SendAll(cap: nat, n: nat, pool: nat, i: nat) returns (run: seq<Step>)
    requires cap >= 1 && 1 <= pool && pool + cap < n && i <= cap
    ensures var s0 := Start(Tasks(cap, n), [], IdlePool(pool));
            && Legal(JamConfig(cap), s0, run) && Uninterrupted(run)
            && Exec(JamConfig(cap), s0, run) == Sent(cap, n, pool, i)
  {
    var c, s0 := JamConfig(cap), Start(Tasks(cap, n), [], IdlePool(pool));
    if i == 0 {
      run := QueueAll(cap, n, pool, cap);
      assert Pool(cap, pool, pool)[0 := Talking(cap, cap)] == Pool(cap, pool, pool);
    } else {
      var before := SendAll(cap, n, pool, i - 1);
      var s := Exec(c, s0, before);
      SendOne(cap, n, pool, i - 1);
      RunOneMore(c, s0, before, Send(0));
      RunOneMore(c, s0, before + [Send(0)], Poll(0));
      run := before + [Send(0)] + [Poll(0)];
    }
  }

  /** The first worker sends its message and reads the next. */
  lemma {:induction false} SendOne(cap: nat, n: nat, pool: nat, i: nat)
    requires 1 <= pool && pool + cap <= n && i < cap
    ensures var c, s := JamConfig(cap), Sent(cap, n, pool, i);
            && Enabled(c, s, Send(0)) && Enabled(c, Apply(c, s, Send(0)), Poll(0))
            && Apply(c, Apply(c, s, Send(0)), Poll(0)) == Sent(cap, n, pool, i + 1)
  {
    var c, s := JamConfig(cap), Sent(cap, n, pool, i);
    var s1 := Apply(c, s, Send(0));
    assert [MESSAGE][1..] == [] && s1.workers[0] == Worker(Busy(Chatty(cap), [], Copying(Chat(cap - i))), false);
    assert s1.data == seq(i + 1, j => MESSAGE);
    var s2 := Apply(c, s1, Poll(0));
    assert Emit("h", [Piece(Debug, "x")]) == [MESSAGE];
    assert s2.workers[0] == Talking(cap, cap - i - 1);
    assert s2.workers == Sent(cap, n, pool, i + 1).workers;
  }

  /** A Distribute to more hosts than it accepts can get stuck with hosts never queued. */
  lemma {:induction false} DistributeJams(cap: nat, n: nat, pool: nat) returns (run: seq<Step>)
    requires cap >= 1 && pool >= 1 && n > cap + pool
    ensures var c, s0 := JamConfig(cap), Start(Tasks(cap, n), [], IdlePool(pool));
            && ValidStart(c, Tasks(cap, n), IdlePool(pool))
            && Legal(c, s0, run) && Uninterrupted(run)
            && Terminal(c, Exec(c, s0, run)) && HungOnFeed(c, Exec(c, s0, run))
  {
    run := SendAll(cap, n, pool, cap);
    var c := JamConfig(cap);
    var s := Exec(c, Start(Tasks(cap, n), [], IdlePool(pool)), run);
    assert s == Sent(cap, n, pool, cap);
    forall k | 0 <= k < |s.workers| ensures s.workers[k].phase.Busy? && s.workers[k].phase.out != [] {
      assert s.workers[k] == if k == 0 then Talking(cap, 0) else Talking(cap, cap);
    }
    forall st | Enabled(c, s, st) ensures st.Interrupt? {}
  }

  /** No uninterrupted run of the command over `n` hosts and `pool` quiet workers comes to rest
      before its loop has exited, whatever the hosts print. */
  ghost predicate NeverStuck(c: Config, n: nat, pool: nat) {
    forall tasks, workers, run |
      && |tasks| == n && |workers| == pool && ValidStart(c, tasks, workers)
      && Legal(c, Start(tasks, [], workers), run) && Uninterrupted(run)
      && Terminal(c, Exec(c, Start(tasks, [], workers), run)) ::
      Exec(c, Start(tasks, [], workers), run).control.Exited?
  }

  /** A command is free of deadlock exactly for the sizes it accepts: every size for Parallel and
      Collapse, at most queue capacity plus pool size for Distribute. */
  lemma {:induction false} NeverStuckExactly(c: Config, n: nat, pool: nat)
    requires c.cap >= 1 && pool >= 1
    ensures NeverStuck(c, n, pool) <==> Accepts(c, n, pool)
  {
    if Accepts(c, n, pool) {
      forall tasks, workers, run |
        && |tasks| == n && |workers| == pool && ValidStart(c, tasks, workers)
        && Legal(c, Start(tasks, [], workers), run) && Uninterrupted(run)
        && Terminal(c, Exec(c, Start(tasks, [], workers), run))
        ensures Exec(c, Start(tasks, [], workers), run).control.Exited?
      {
        NoDeadlock(c, tasks, workers, run);
      }
    } else {
      var run := DistributeJams(c.cap, n, pool);
      assert c == JamConfig(c.cap);
      assert !Exec(c, Start(Tasks(c.cap, n), [], IdlePool(pool)), run).control.Exited?;
    }
  }
}
