/** When an interrupted command ends (src/remote/pool.go:37-61, src/executer/parallel.go:53-100): exactly
    when its interrupts drained nothing and its handler is not blocked. */
module Interrupted {
  import opened Basics
  import opened Remote
  import opened Protocol
  import opened Conservation
  import opened Delivery
  import opened Liveness

  /** A command that has come to rest has exited if and only if no task was drained, the handler does not
      wait for a full stop buffer and Distribute does not wait on its own feed. */
  lemma {:induction false} EndsExactly(c: Config, tasks: seq<Task>, workers: seq<Worker>, run: seq<Step>)
    requires ValidStart(c, tasks, workers)
    requires Legal(c, Start(tasks, [], workers), run)
    requires Terminal(c, Exec(c, Start(tasks, [], workers), run))
    ensures var s := Exec(c, Start(tasks, [], workers), run);
            s.control.Exited? <==> s.drained == [] && !HungOnToken(c, s) && !HungOnFeed(c, s)
  {
    TerminalStates(c, tasks, workers, run);
    if Exec(c, Start(tasks, [], workers), run).control.Exited? {
      ExitDelivers(c, tasks, workers, run);
    }
  }

  // ---------------------------------------------------------------- one interrupt

  /** The stop buffers that the handler has still to look at are empty, when `seen` interrupts have been
      handled or are being handled and none or one of them was. */
  ghost predicate Ahead(s: State, seen: nat) {
    if seen == 0 then (s.control.Receiving? || s.control.Exited?) && NoTokens(s)
    else match s.control
      case Draining => NoTokens(s)
      case Stopping(k, _) => EmptyFrom(s.workers, k)
      case Posting(k, _) => EmptyFrom(s.workers, k)
      case _ => true
  }

  ghost predicate EmptyFrom(ws: seq<Worker>, k: nat) {
    forall j | k <= j < |ws| :: !ws[j].stop
  }

  lemma {:induction false} StepAhead(c: Config, s: State, st: Step, seen: nat)
    requires Ahead(s, seen) && Enabled(c, s, st) && (st.Interrupt? ==> seen == 0)
    ensures Ahead(Apply(c, s, st), if st.Interrupt? then 1 else seen)
  {
  }

  lemma {:induction false} RunAhead(c: Config, s: State, run: seq<Step>, seen: nat)
    requires Ahead(s, seen) && Legal(c, s, run) && seen + Interrupts(run) <= 1
    ensures Ahead(Exec(c, s, run), seen + Interrupts(run))
    decreases |run|
  {
    if run != [] {
      StepAhead(c, s, run[0], seen);
      RunAhead(c, Apply(c, s, run[0]), run[1..], if run[0].Interrupt? then 1 else seen);
    }
  }

  /** A command of an accepted size, started without stop tokens and interrupted at most once, has exited
      when it comes to rest if and only if the interrupt drained no task. */
  lemma {:induction false} OneInterruptExactly(c: Config, tasks: seq<Task>, workers: seq<Worker>, run: seq<Step>)
    requires ValidStart(c, tasks, workers) && Accepts(c, |tasks|, |workers|)
    requires NoTokens(Start(tasks, [], workers))
    requires Legal(c, Start(tasks, [], workers), run) && Interrupts(run) <= 1
    requires Terminal(c, Exec(c, Start(tasks, [], workers), run))
    ensures var s := Exec(c, Start(tasks, [], workers), run); s.control.Exited? <==> s.drained == []
  {
    RunAhead(c, Start(tasks, [], workers), run, 0);
    EndsExactly(c, tasks, workers, run);
    NeverHungOnFeed(c, tasks, workers, run);
  }
}
