/** When cmd writes the password, what it deletes and when it fails (src/remote/cmd.go:33-116), stated from
    the reads alone: which chunk is the prompt, which its echo, which the failure. */
module CmdExactly {
  import opened Basics
  import opened Remote
  import opened CmdStream

  /** The chunks that can be looked at: those of the first four non-empty reads made before a stop or the
      end of both pipes. */
  ghost function Looked(turns: seq<Turn>): seq<string> {
    Early(Reads(Stdouts(turns[..Limit(turns, 0)])))
  }

  // ---------------------------------------------------------------- what the positions mean

  lemma {:induction false} PromptMeans(p: Patterns, none: bool, es: seq<string>)
    ensures var i := PromptAt(p, none, es);
            && (i < |es| <==> !none && exists m | 0 <= m < |es| :: p.prompt(es[m]))
            && (i < |es| ==> p.prompt(es[i])) && (!none ==> forall m | 0 <= m < i :: !p.prompt(es[m]))
  {
    FirstMeans(p.prompt, es, 0, |es|);
  }

  lemma {:induction false} EchoMeans(p: Patterns, none: bool, es: seq<string>)
    ensures var i, j := PromptAt(p, none, es), EchoAt(p, none, es);
            && (j < |es| <==> exists m | i < m < |es| :: p.echo(es[m]))
            && (j < |es| ==> i < j && p.echo(es[j])) && forall m | i < m < j :: !p.echo(es[m])
  {
    FirstMeans(p.echo, es, PromptAt(p, none, es) + 1, |es|);
  }

  /** A chunk that can be a failure: after the prompt, or anywhere when no password is to be sent, and not
      the echo. */
  ghost predicate Fails(p: Patterns, none: bool, es: seq<string>, m: nat) {
    m < |es| && (none || PromptAt(p, none, es) < m) && m != EchoAt(p, none, es) && p.wrong(es[m])
  }

  lemma {:induction false} CutMeans(p: Patterns, none: bool, es: seq<string>)
    ensures var k := CutAt(p, none, es);
            && (k < |es| <==> exists m: nat :: Fails(p, none, es, m))
            && (k < |es| ==> Fails(p, none, es, k)) && forall m: nat | m < k :: !Fails(p, none, es, m)
  {
    var from := if none then 0 else PromptAt(p, none, es) + 1;
    FirstMeans(p.wrong, es, from, EchoAt(p, none, es));
    var k := CutAt(p, none, es);
    if k < |es| {
      assert Fails(p, none, es, k);
    }
    if m: nat :| Fails(p, none, es, m) {
      assert from <= m < |es|;
    }
  }

  // ---------------------------------------------------------------- from the turns taken to the turns given

  lemma {:induction false} ReadsAppend(a: seq<Read>, b: seq<Read>) returns (more: seq<string>)
    ensures Reads(a + b) == Reads(a) + more
    decreases |b|
  {
    if b == [] {
      more := [];
      assert a + b == a;
    } else {
      var init, last := b[..|b| - 1], b[|b| - 1];
      var some := ReadsAppend(a, init);
      ReadsSnoc(a + init, last);
      assert a + b == a + init + [last];
      if Reads(a + b) == Reads(a + init) {
        more := some;
      } else {
        more := some + [last.buf];
      }
    }
  }

  lemma {:induction false} EarlyAppend(a: seq<string>, b: seq<string>) returns (more: seq<string>)
    ensures Early(a + b) == Early(a) + more
    decreases |b|
  {
    if b == [] {
      more := [];
      assert a + b == a;
    } else {
      var init, last := b[..|b| - 1], b[|b| - 1];
      var some := EarlyAppend(a, init);
      EarlySnoc(a + init, last);
      assert a + b == a + init + [last];
      more := if |a + init| < 4 then some + SplitAfter(last) else some;
      Associative(Early(a), some, SplitAfter(last));
    }
  }

  lemma {:induction false} Associative<T>(a: seq<T>, b: seq<T>, c: seq<T>)
    ensures a + b + c == a + (b + c)
  {
  }

  lemma {:induction false} LookedGrows(turns: seq<Turn>, turn: nat) returns (more: seq<string>)
    requires turn <= Limit(turns, 0)
    ensures Looked(turns) == Early(Reads(Stdouts(turns[..turn]))) + more
  {
    var n := Limit(turns, 0);
    var a, b := Stdouts(turns[..turn]), Stdouts(turns[..n])[turn..];
    assert Stdouts(turns[..n]) == a + b;
    var bufs := ReadsAppend(a, b);
    more := EarlyAppend(Reads(a), bufs);
  }

  /** The positions do not depend on how far the loop got. */
  lemma {:induction false} SamePositions(p: Patterns, none: bool, es: seq<string>, more: seq<string>, wrong: bool)
    requires wrong <==> CutAt(p, none, es) < |es|
    requires !wrong ==> more == []
    ensures var all := es + more;
            && (wrong <==> CutAt(p, none, all) < |all|)
            && (wrong ==> CutAt(p, none, all) == CutAt(p, none, es) && all[..CutAt(p, none, all)] == es[..CutAt(p, none, es)])
  {
    if wrong {
      CutStable(p, none, es, more);
    } else {
      assert es + more == es;
    }
  }

  lemma {:induction false} PromptBefore(p: Patterns, none: bool, es: seq<string>, k: nat)
    requires k <= |es|
    ensures PromptAt(p, none, es[..k]) == if PromptAt(p, none, es) < k then PromptAt(p, none, es) else k
  {
    PromptMeans(p, none, es[..k]);
    PromptMeans(p, none, es);
    var i := PromptAt(p, none, es);
    if !none && i < k {
      assert es[..k][i] == es[i];
      assert forall m | 0 <= m < |es[..k]| :: es[..k][m] == es[m];
    }
    if !none && i >= k {
      assert forall m | 0 <= m < |es[..k]| :: es[..k][m] == es[m];
    }
  }

  lemma {:induction false} EchoBefore(p: Patterns, none: bool, es: seq<string>, k: nat)
    requires k <= |es|
    ensures EchoAt(p, none, es[..k]) == if EchoAt(p, none, es) < k then EchoAt(p, none, es) else k
  {
    PromptBefore(p, none, es, k);
    EchoMeans(p, none, es[..k]);
    EchoMeans(p, none, es);
    assert forall m | 0 <= m < |es[..k]| :: es[..k][m] == es[m];
  }

  // ---------------------------------------------------------------- the theorem

  /** What cmd has written, deleted and cut, from the chunks alone. */
  ghost predicate Decided(p: Patterns, none: bool, password: string, es: seq<string>, st: Loop, ending: Ending, log: Log) {
    var i, j, k := PromptAt(p, none, es), EchoAt(p, none, es), CutAt(p, none, es);
    && (ending.WrongPassword? <==> k < |es|)
    && st.written == (if i < |es| then [password + "\n"] else [])
    && (if i < |es| then log.a == Join(es[..i]) && log.prompt == es[i] else Raw(log) == log.a)
    && (if j < k then i < j && log.b == Join(es[i + 1..j]) && log.echo == es[j] else log.echo == "" && log.c == "")
    && (k < |es| ==> Raw(log) == Join(es[..k]))
  }

  lemma {:induction false} SliceOfPrefix<T>(s: seq<T>, k: nat, i: nat, j: nat)
    requires i <= j <= k <= |s|
    ensures s[..k][i..j] == s[i..j] && s[..k][..j] == s[..j]
  {
  }

  lemma {:induction false} MarkedSays(p: Patterns, none: bool, es: seq<string>, f: Filter, asked: bool, log: Log)
    requires var k := CutAt(p, none, es); Marked(p, none, es[..k], f, asked, log)
    ensures var i, j, k := PromptAt(p, none, es), EchoAt(p, none, es), CutAt(p, none, es);
            && asked == (i < |es|)
            && (if i < |es| then log.a == Join(es[..i]) && log.prompt == es[i] else Raw(log) == log.a)
            && (if j < k then i < j && log.b == Join(es[i + 1..j]) && log.echo == es[j] else log.echo == "" && log.c == "")
  {
    var i, j, k := PromptAt(p, none, es), EchoAt(p, none, es), CutAt(p, none, es);
    PromptBefore(p, none, es, k);
    EchoBefore(p, none, es, k);
    CutMeans(p, none, es);
    EchoMeans(p, none, es);
    if none {
      assert i == |es| && j == |es|;
    }
    if i < k {
      SliceOfPrefix(es, k, 0, i);
      if j < k {
        SliceOfPrefix(es, k, i + 1, j);
      }
    }
  }

  /** Every outcome of cmd is decided by the chunks of the first four non-empty reads: the password is
      written if and only if one of them is a prompt, the command fails if and only if one of them is a
      failure, and the deleted and the cut chunks are the ones at those positions. */
  lemma {:induction false} CmdDecided(p: Patterns, raise: RaiseType, password: string, turns: seq<Turn>, wait: Wait,
                                      rounds: seq<seq<Piece>>, st: Loop, ending: Ending, turn: nat, log: Log,
                                      code: int)
    requires Outcome(p, raise, password, turns, wait, rounds, st, ending, turn, log, code)
    ensures Decided(p, raise.RaiseNone?, password, Looked(turns), st, ending, log)
  {
    var none, es, all := raise.RaiseNone?, Early(Reads(Stdouts(turns[..turn]))), Looked(turns);
    var more := LookedGrows(turns, turn);
    if !st.wrong {
      TurnIsLimit(turns, turn, st, ending);
      NoMore(es, more);
    }
    SamePositions(p, none, es, more, st.wrong);
    var k := CutAt(p, none, all);
    assert all[..k] == es[..CutAt(p, none, es)];
    MarkedSays(p, none, all, st.filter, st.written != [], log);
  }

  lemma {:induction false} NoMore<T>(es: seq<T>, more: seq<T>)
    requires es + more == es
    ensures more == []
  {
    assert |es + more| == |es| + |more|;
  }

  lemma {:induction false} TurnIsLimit(turns: seq<Turn>, turn: nat, st: Loop, ending: Ending)
    requires EndInv(turns, turn, st, ending) && !st.wrong && (ending.Open? ==> turn == |turns|)
    ensures turn == Limit(turns, 0)
  {
  }

  /** Without raise the password is never written and nothing is deleted, but the command still fails, if
      and only if some chunk of the first four non-empty reads is a wrong-password message. */
  lemma {:induction false} NoneFailsExactly(p: Patterns, password: string, turns: seq<Turn>, wait: Wait,
                                            rounds: seq<seq<Piece>>, st: Loop, ending: Ending, turn: nat, log: Log,
                                            code: int)
    requires Outcome(p, RaiseNone, password, turns, wait, rounds, st, ending, turn, log, code)
    ensures ending.WrongPassword? <==> exists m | 0 <= m < |Looked(turns)| :: p.wrong(Looked(turns)[m])
    ensures st.written == [] && Forwarded(log) == Raw(log)
  {
    var es := Looked(turns);
    CmdDecided(p, RaiseNone, password, turns, wait, rounds, st, ending, turn, log, code);
    CutMeans(p, true, es);
    EchoMeans(p, true, es);
    if m :| 0 <= m < |es| && p.wrong(es[m]) {
      assert Fails(p, true, es, m);
    }
    assert log.a + "" == log.a;
  }

  /** With raise the password is written, once, if and only if such a chunk is a prompt. */
  lemma {:induction false} AskedExactly(p: Patterns, raise: RaiseType, password: string, turns: seq<Turn>, wait: Wait,
                                        rounds: seq<seq<Piece>>, st: Loop, ending: Ending, turn: nat, log: Log,
                                        code: int)
    requires !raise.RaiseNone? && Outcome(p, raise, password, turns, wait, rounds, st, ending, turn, log, code)
    ensures st.written == if exists m | 0 <= m < |Looked(turns)| :: p.prompt(Looked(turns)[m]) then [password + "\n"] else []
  {
    CmdDecided(p, raise, password, turns, wait, rounds, st, ending, turn, log, code);
    PromptMeans(p, false, Looked(turns));
  }

  // ---------------------------------------------------------------- inputs

  lemma {:induction false} LastNewline(s: string)
    requires s != "" && forall i | 0 <= i < |s| - 1 :: s[i] != '\n'
    ensures LineLength(s) == |s|
  {
    if |s| > 1 {
      LastNewline(s[1..]);
    }
  }

  lemma {:induction false} OneLine(s: string)
    requires s != "" && forall i | 0 <= i < |s| - 1 :: s[i] != '\n'
    ensures SplitAfter(s) == if s[|s| - 1] == '\n' then [s, ""] else [s]
  {
    LastNewline(s);
    if s[|s| - 1] == '\n' {
      var rest := s[|s|..];
      assert s[..|s|] == s && rest == "" && LineLength(rest) == 0;
      assert SplitAfter(rest) == [rest];
      assert SplitAfter(s) == [s] + [rest];
    }
  }

  function OutputTurn(s: string): seq<Turn> { [Turn(false, Data(s), Data(""))] }

  lemma {:induction false} EarlyOne(s: string)
    requires s != ""
    ensures Reads([Data(s)]) == [s] && Early([s]) == SplitAfter(s)
  {
    assert [Data(s)][1..] == [] && [s] + [] == [s];
    assert [s][..0] == [] && Chunks([s]) == Chunks([]) + SplitAfter(s) == [] + SplitAfter(s) == SplitAfter(s);
  }

  lemma {:induction false} OutputTurnLimit(s: string)
    ensures Limit(OutputTurn(s), 0) == 1 && !BothClosed(OutputTurn(s), 1)
    ensures Stdouts(OutputTurn(s)[..1]) == [Data(s)]
  {
    var turns := OutputTurn(s);
    assert turns[..1] == turns && Stdouts(turns) == [Data(s)] && turns[..0] == [];
    assert Limit(turns, 1) == 1;
  }

  /** One turn that reads a text from standard output. */
  lemma {:induction false} OutputTurnLooked(s: string)
    requires s != ""
    ensures Looked(OutputTurn(s)) == SplitAfter(s)
  {
    OutputTurnLimit(s);
    EarlyOne(s);
  }

  predicate Line(s: string) { s != "" && forall i | 0 <= i < |s| - 1 :: s[i] != '\n' }

  lemma {:induction false} FirstFails(p: Patterns, es: seq<string>)
    requires es != [] && p.wrong(es[0])
    ensures CutAt(p, true, es) == 0
  {
    CutMeans(p, true, es);
    EchoMeans(p, true, es);
    assert Fails(p, true, es, 0);
  }

  /** A command without raise that prints a line like what sudo says to a wrong password fails with the code
      of a stop, and its output is replaced by the message of a failed authentication. */
  lemma {:induction false} NoneFails(p: Patterns, s: string, wait: Wait, rounds: seq<seq<Piece>>, st: Loop,
                                     ending: Ending, turn: nat, log: Log, code: int)
    requires Line(s) && p.wrong(s)
    requires Outcome(p, RaiseNone, "", OutputTurn(s), wait, rounds, st, ending, turn, log, code)
    ensures ending == WrongPassword && code == ERR_FORCE_STOP && st.written == []
    ensures Sent(Stdout, Flat(rounds)) == "sudo: Authentication failure\n"
  {
    var turns, es := OutputTurn(s), Looked(OutputTurn(s));
    OneLine(s);
    OutputTurnLooked(s);
    assert es[0] == s;
    FirstFails(p, es);
    CmdDecided(p, RaiseNone, "", turns, wait, rounds, st, ending, turn, log, code);
    assert Raw(log) == "" by {
      assert es[..0] == [];
    }
    WrongText(p, RaiseNone, "", turns, wait, rounds, st, ending, turn, log, code);
  }

  /** After a failure the text sent is what came before it and one message. */
  lemma {:induction false} WrongText(p: Patterns, raise: RaiseType, password: string, turns: seq<Turn>, wait: Wait,
                                     rounds: seq<seq<Piece>>, st: Loop, ending: Ending, turn: nat, log: Log,
                                     code: int)
    requires Outcome(p, raise, password, turns, wait, rounds, st, ending, turn, log, code) && ending.WrongPassword?
    ensures Sent(Stdout, Flat(rounds)) == Forwarded(log) + AUTH_FAILURE && code == ERR_FORCE_STOP
    ensures |Forwarded(log)| <= |Raw(log)|
  {
  }

  lemma {:induction false} FirstAsks(p: Patterns, es: seq<string>)
    requires es != [] && p.prompt(es[0])
    ensures PromptAt(p, false, es) == 0
  {
    PromptMeans(p, false, es);
  }

  lemma {:induction false} AskedAtOnce(p: Patterns, password: string, es: seq<string>, st: Loop, ending: Ending,
                                       log: Log)
    requires es != [] && PromptAt(p, false, es) == 0 && Decided(p, false, password, es, st, ending, log)
    ensures st.written == [password + "\n"] && log.a == "" && log.prompt == es[0]
  {
    assert es[..0] == [];
  }

  /** Under sudo or su a line that matches the prompt is answered. */
  lemma {:induction false} PromptAnswered(p: Patterns, raise: RaiseType, password: string, s: string, wait: Wait,
                                          rounds: seq<seq<Piece>>, st: Loop, ending: Ending, turn: nat, log: Log,
                                          code: int)
    requires Line(s) && p.prompt(s) && !raise.RaiseNone?
    requires Outcome(p, raise, password, OutputTurn(s), wait, rounds, st, ending, turn, log, code)
    ensures st.written == [password + "\n"] && log.a == "" && log.prompt == s
  {
    var es := Looked(OutputTurn(s));
    assert es != [] && es[0] == s by {
      OneLine(s);
      OutputTurnLooked(s);
    }
    FirstAsks(p, es);
    assert Decided(p, false, password, es, st, ending, log) by {
      CmdDecided(p, raise, password, OutputTurn(s), wait, rounds, st, ending, turn, log, code);
    }
    AskedAtOnce(p, password, es, st, ending, log);
  }

  /** The texts of the program's own patterns are such lines (src/remote/worker.go:43-44). */
  lemma {:induction false} TheseAreLines()
    ensures Line("Sorry, try again.\n") && Line("Password:")
  {
  }
}
