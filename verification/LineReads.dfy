/** Several lines in one read: each is looked at on its own (src/remote/cmd.go:56-79 and 98-108,
    src/remote/copy.go:58-72). */
module LineReads {
  import opened Basics
  import opened Remote
  import opened CmdStream
  import opened CmdExactly
  import CS = CopyStream

  /** The part of a line that a read may end with. */
  predicate LineOrPart(s: string) { FullLine(s) || '\n' !in s }

  /** A line and what follows it, as the chunks of one read. */
  function TwoLines(a: string, b: string): seq<string> { if FullLine(b) then [a, b, ""] else [a, b] }

  lemma {:induction false} TwoLinesSplit(a: string, b: string)
    requires FullLine(a) && LineOrPart(b)
    ensures Lined(TwoLines(a, b)) && Join(TwoLines(a, b)) == a + b && SplitAfter(a + b) == TwoLines(a, b)
  {
    var lines := TwoLines(a, b);
    assert lines[1..][0] == b && lines[1..][1..] == lines[2..];
    assert Join(lines) == a + Join(lines[1..]) && Join(lines[1..]) == b + Join(lines[2..]);
    assert Join(lines[2..]) == "" by {
      if FullLine(b) {
        assert lines[2..] == [""] && Join([""]) == "" + Join([""][1..]);
      }
    }
    assert b + "" == b;
    SplitAfterExactly(a + b, lines);
  }

  // ---------------------------------------------------------------- standard output

  lemma {:induction false} FirstPrompt(p: Patterns, password: string, lines: seq<string>, i: nat, st: Loop,
                                       ending: Ending, log: Log)
    requires i < |lines| && p.prompt(lines[i]) && forall m | 0 <= m < i :: !p.prompt(lines[m])
    requires Decided(p, false, password, lines, st, ending, log)
    ensures st.written == [password + "\n"] && log.a == Join(lines[..i]) && log.prompt == lines[i]
  {
    PromptMeans(p, false, lines);
    assert PromptAt(p, false, lines) == i;
  }

  /** The first line of the read that matches is the prompt: it alone is deleted, and the lines before it
      are forwarded. */
  lemma {:induction false} PromptAmongLines(p: Patterns, raise: RaiseType, password: string, s: string,
                                            lines: seq<string>, i: nat, wait: Wait, rounds: seq<seq<Piece>>, st: Loop,
                                            ending: Ending, turn: nat, log: Log, code: int)
    requires Lined(lines) && Join(lines) == s && s != "" && !raise.RaiseNone?
    requires i < |lines| && p.prompt(lines[i]) && forall m | 0 <= m < i :: !p.prompt(lines[m])
    requires Outcome(p, raise, password, OutputTurn(s), wait, rounds, st, ending, turn, log, code)
    ensures st.written == [password + "\n"] && log.a == Join(lines[..i]) && log.prompt == lines[i]
  {
    SplitAfterExactly(s, lines);
    OutputTurnLooked(s);
    CmdDecided(p, raise, password, OutputTurn(s), wait, rounds, st, ending, turn, log, code);
    FirstPrompt(p, password, lines, i, st, ending, log);
  }

  lemma {:induction false} TextBefore(a: string, b: string, rest: string)
    requires a + b + rest == a + b
    ensures rest == ""
  {
    assert |a + b + rest| == |a + b| + |rest|;
  }

  /** What was read in one turn that has no failure before its end. */
  lemma {:induction false} OutputTurnRaw(p: Patterns, raise: RaiseType, password: string, s: string, wait: Wait,
                                         rounds: seq<seq<Piece>>, st: Loop, ending: Ending, turn: nat, log: Log,
                                         code: int)
    requires s != "" && Outcome(p, raise, password, OutputTurn(s), wait, rounds, st, ending, turn, log, code)
    ensures ending.WrongPassword? || Raw(log) == s
  {
    if !ending.WrongPassword? {
      OutputTurnLimit(s);
      EarlyOne(s);
      TurnIsLimit(OutputTurn(s), turn, st, ending);
      JoinOne(s);
    }
  }

  lemma {:induction false} JoinOne(s: string)
    ensures Join([s]) == s
  {
    assert Join([s]) == s + Join([s][1..]) && s + "" == s;
  }

  lemma {:induction false} SecondAsks(p: Patterns, password: string, a: string, b: string, st: Loop, ending: Ending,
                                      log: Log)
    requires !p.prompt(a) && p.prompt(b) && Decided(p, false, password, TwoLines(a, b), st, ending, log)
    ensures st.written == [password + "\n"] && log.a == a && log.prompt == b
  {
    var lines := TwoLines(a, b);
    assert lines[..1] == [a] && lines[1] == b;
    JoinOne(a);
    FirstPrompt(p, password, lines, 1, st, ending, log);
  }

  /** A line that is no prompt and then a prompt, read together: the line is forwarded, the prompt answered
      and deleted. */
  lemma {:induction false} PromptAfterLine(p: Patterns, raise: RaiseType, password: string, a: string, b: string,
                                           wait: Wait, rounds: seq<seq<Piece>>, st: Loop, ending: Ending, turn: nat,
                                           log: Log, code: int)
    requires FullLine(a) && !p.prompt(a) && LineOrPart(b) && p.prompt(b) && !raise.RaiseNone?
    requires Outcome(p, raise, password, OutputTurn(a + b), wait, rounds, st, ending, turn, log, code)
    ensures st.written == [password + "\n"] && log.a == a && log.prompt == b
    ensures !ending.WrongPassword? ==> Forwarded(log) == a && Sent(Stdout, Flat(rounds)) == a
  {
    TwoLinesSplit(a, b);
    OutputTurnLooked(a + b);
    CmdDecided(p, raise, password, OutputTurn(a + b), wait, rounds, st, ending, turn, log, code);
    SecondAsks(p, password, a, b, st, ending, log);
    if !ending.WrongPassword? {
      OutputTurnRaw(p, raise, password, a + b, wait, rounds, st, ending, turn, log, code);
      NothingElse(log, a, b);
      SentForwarded(p, raise, password, OutputTurn(a + b), wait, rounds, st, ending, turn, log, code);
    }
  }

  lemma {:induction false} NothingElse(log: Log, a: string, b: string)
    requires log.a == a && log.prompt == b && Raw(log) == a + b
    ensures Forwarded(log) == a
  {
    var rest := log.b + log.echo + log.c;
    assert Raw(log) == a + b + rest;
    TextBefore(a, b, rest);
    assert log.b == "" && log.c == "";
  }

  lemma {:induction false} SentForwarded(p: Patterns, raise: RaiseType, password: string, turns: seq<Turn>,
                                         wait: Wait, rounds: seq<seq<Piece>>, st: Loop, ending: Ending, turn: nat,
                                         log: Log, code: int)
    requires Outcome(p, raise, password, turns, wait, rounds, st, ending, turn, log, code) && !ending.WrongPassword?
    ensures Sent(Stdout, Flat(rounds)) == Forwarded(log)
  {
    assert Forwarded(log) + "" == Forwarded(log);
  }

  lemma {:induction false} SliceBehind(es: seq<string>, i: nat, j: nat)
    requires i < j < |es|
    ensures var rest, k := es[i + 1..], j - i - 1;
            k < |rest| && rest[..k] == es[i + 1..j] && rest[k] == es[j] && rest[k + 1..] == es[j + 1..]
  {
  }

  /** Two chunks taken out of a text. */
  lemma {:induction false} JoinTwice(es: seq<string>, i: nat, j: nat)
    requires i < j < |es|
    ensures Join(es) == (Join(es[..i]) + es[i]) + ((Join(es[i + 1..j]) + es[j]) + Join(es[j + 1..]))
  {
    JoinAround(es, i);
    SliceBehind(es, i, j);
    JoinAround(es[i + 1..], j - i - 1);
  }

  lemma {:induction false} AfterEcho(log: Log, es: seq<string>, i: nat, j: nat)
    requires i < j < |es| && log.a == Join(es[..i]) && log.prompt == es[i]
    requires log.b == Join(es[i + 1..j]) && log.echo == es[j] && Raw(log) == Join(es)
    ensures log.c == Join(es[j + 1..])
  {
    JoinTwice(es, i, j);
    SameEnd(log, Join(es[j + 1..]));
  }

  lemma {:induction false} SameEnd(log: Log, rest: string)
    requires Raw(log) == (log.a + log.prompt) + ((log.b + log.echo) + rest)
    ensures log.c == rest
  {
    var head, tail := log.a + log.prompt, log.b + log.echo;
    assert Raw(log) == head + (tail + log.c);
    Cancel(head, tail + log.c, tail + rest);
    Cancel(tail, log.c, rest);
  }

  lemma {:induction false} WithoutEcho(log: Log, es: seq<string>, i: nat)
    requires i < |es| && log.a == Join(es[..i]) && log.prompt == es[i] && log.echo == "" && log.c == "" && Raw(log) == Join(es)
    ensures log.b == Join(es[i + 1..])
  {
    JoinAround(es, i);
    assert Raw(log) == log.a + log.prompt + log.b;
    Cancel(log.a + log.prompt, log.b, Join(es[i + 1..]));
  }

  /** The text without the `i`th chunk and without a later `j`th, as far as there are such chunks. */
  function Remaining(es: seq<string>, i: nat, j: nat): string {
    if i >= |es| then Join(es)
    else if i < j < |es| then Join(es[..i]) + Join(es[i + 1..j]) + Join(es[j + 1..])
    else Join(es[..i]) + Join(es[i + 1..])
  }

  /** What is forwarded of one read in which no failure is found: every line but the first prompt and the
      first echo behind it. */
  lemma {:induction false} ForwardedLines(p: Patterns, raise: RaiseType, password: string, s: string,
                                          lines: seq<string>, wait: Wait, rounds: seq<seq<Piece>>, st: Loop,
                                          ending: Ending, turn: nat, log: Log, code: int)
    requires Lined(lines) && Join(lines) == s && s != "" && !raise.RaiseNone?
    requires Outcome(p, raise, password, OutputTurn(s), wait, rounds, st, ending, turn, log, code) && !ending.WrongPassword?
    ensures Sent(Stdout, Flat(rounds)) == Remaining(lines, PromptAt(p, false, lines), EchoAt(p, false, lines))
  {
    SplitAfterExactly(s, lines);
    OutputTurnLooked(s);
    CmdDecided(p, raise, password, OutputTurn(s), wait, rounds, st, ending, turn, log, code);
    OutputTurnRaw(p, raise, password, s, wait, rounds, st, ending, turn, log, code);
    SentForwarded(p, raise, password, OutputTurn(s), wait, rounds, st, ending, turn, log, code);
    ForwardedText(p, password, lines, st, ending, log);
  }

  lemma {:induction false} ForwardedText(p: Patterns, password: string, es: seq<string>, st: Loop, ending: Ending,
                                         log: Log)
    requires Decided(p, false, password, es, st, ending, log) && !ending.WrongPassword? && Raw(log) == Join(es)
    ensures Forwarded(log) == Remaining(es, PromptAt(p, false, es), EchoAt(p, false, es))
  {
    var i, j := PromptAt(p, false, es), EchoAt(p, false, es);
    EchoMeans(p, false, es);
    if i < |es| {
      if j < |es| {
        TextWithEcho(log, es, i, j);
      } else {
        TextWithoutEcho(log, es, i, j);
      }
    } else {
      OnlyFirst(log);
    }
  }

  lemma {:induction false} TextWithEcho(log: Log, es: seq<string>, i: nat, j: nat)
    requires i < j < |es| && log.a == Join(es[..i]) && log.prompt == es[i]
    requires log.b == Join(es[i + 1..j]) && log.echo == es[j] && Raw(log) == Join(es)
    ensures Forwarded(log) == Remaining(es, i, j)
  {
    AfterEcho(log, es, i, j);
  }

  lemma {:induction false} TextWithoutEcho(log: Log, es: seq<string>, i: nat, j: nat)
    requires i < |es| <= j && log.a == Join(es[..i]) && log.prompt == es[i] && log.echo == "" && log.c == "" && Raw(log) == Join(es)
    ensures Forwarded(log) == Remaining(es, i, j)
  {
    WithoutEcho(log, es, i);
    assert log.a + log.b + "" == log.a + log.b;
  }

  lemma {:induction false} OnlyFirst(log: Log)
    requires Raw(log) == log.a
    ensures Forwarded(log) == log.a
  {
    var rest := log.prompt + log.b + log.echo + log.c;
    assert Raw(log) == log.a + rest;
    assert |log.a + rest| == |log.a| + |rest|;
  }

  // ---------------------------------------------------------------- the first four reads

  function TextTurns(texts: seq<string>): seq<Turn> {
    seq(|texts|, i requires 0 <= i < |texts| => Turn(false, Data(texts[i]), Data("")))
  }

  function TextReads(texts: seq<string>): seq<Read> { seq(|texts|, i requires 0 <= i < |texts| => Data(texts[i])) }

  lemma {:induction false} ReadsOf(texts: seq<string>)
    requires forall i | 0 <= i < |texts| :: texts[i] != ""
    ensures Reads(TextReads(texts)) == texts
  {
    if texts != [] {
      assert TextReads(texts)[1..] == TextReads(texts[1..]);
      ReadsOf(texts[1..]);
      assert [texts[0]] + texts[1..] == texts;
    }
  }

  lemma {:induction false} NoEnd(texts: seq<string>, n: nat)
    requires n <= |texts|
    ensures Limit(TextTurns(texts), n) == |texts|
    decreases |texts| - n
  {
    var turns := TextTurns(texts);
    assert !BothClosed(turns, n) by {
      assert forall i | 0 <= i < n :: Stderrs(turns[..n])[i] == Data("");
    }
    if n < |texts| {
      NoEnd(texts, n + 1);
    }
  }

  /** Of a command that goes on printing, the chunks of four reads are looked at. */
  lemma {:induction false} FourReads(a: string, b: string, c: string, d: string, more: seq<string>)
    requires a != "" && b != "" && c != "" && d != "" && forall i | 0 <= i < |more| :: more[i] != ""
    ensures Looked(TextTurns([a, b, c, d] + more)) == SplitAfter(a) + SplitAfter(b) + SplitAfter(c) + SplitAfter(d)
  {
    var texts := [a, b, c, d] + more;
    var turns := TextTurns(texts);
    NoEnd(texts, 0);
    assert turns[..|texts|] == turns && Stdouts(turns) == TextReads(texts);
    ReadsOf(texts);
    FourChunks(a, b, c, d);
    assert texts[..4] == [a, b, c, d];
    assert |texts| <= 4 ==> texts == texts[..4];
    assert Limit(turns, 0) == |texts| && Looked(turns) == Early(texts) == Chunks(texts[..4]);
  }

  lemma {:induction false} FourChunks(a: string, b: string, c: string, d: string)
    ensures Chunks([a, b, c, d]) == SplitAfter(a) + SplitAfter(b) + SplitAfter(c) + SplitAfter(d)
  {
    ChunksSnoc([], a);
    ChunksSnoc([a], b);
    ChunksSnoc([a, b], c);
    ChunksSnoc([a, b, c], d);
    assert [] + [a] == [a] && [a] + [b] == [a, b] && [a, b] + [c] == [a, b, c] && [a, b, c] + [d] == [a, b, c, d];
    assert [] + SplitAfter(a) == SplitAfter(a);
  }

  lemma {:induction false} ChunksSnoc(bufs: seq<string>, buf: string)
    ensures Chunks(bufs + [buf]) == Chunks(bufs) + SplitAfter(buf)
  {
    assert (bufs + [buf])[..|bufs|] == bufs;
  }

  /** A prompt that comes later is not answered. */
  lemma {:induction false} LatePrompt(p: Patterns, raise: RaiseType, password: string, a: string, b: string,
                                      c: string, d: string, more: seq<string>, wait: Wait, rounds: seq<seq<Piece>>,
                                      st: Loop, ending: Ending, turn: nat, log: Log, code: int)
    requires a != "" && b != "" && c != "" && d != "" && forall i | 0 <= i < |more| :: more[i] != ""
    requires forall x | x in SplitAfter(a) + SplitAfter(b) + SplitAfter(c) + SplitAfter(d) :: !p.prompt(x)
    requires !raise.RaiseNone?
    requires Outcome(p, raise, password, TextTurns([a, b, c, d] + more), wait, rounds, st, ending, turn, log, code)
    ensures st.written == []
  {
    FourReads(a, b, c, d, more);
    AskedExactly(p, raise, password, TextTurns([a, b, c, d] + more), wait, rounds, st, ending, turn, log, code);
  }

  // ---------------------------------------------------------------- standard error

  /** Reads are taken in their order. */
  lemma {:induction false} NoticesAppend(p: Patterns, a: seq<string>, b: seq<string>)
    ensures Notices(p, a + b) == Notices(p, a) + Notices(p, b)
    decreases |b|
  {
    if b == [] {
      assert a + b == a && Notices(p, a) + "" == Notices(p, a);
    } else {
      var init, last := b[..|b| - 1], b[|b| - 1];
      assert a + b == a + init + [last] && b == init + [last];
      NoticesAppend(p, a, init);
      NoticesSnoc(p, a + init, last);
      NoticesSnoc(p, init, last);
      Reassociate(Notices(p, a), Notices(p, init), Join(Kept(p, SplitAfter(last))));
    }
  }

  /** Of the lines of a read those that are no notices are forwarded. */
  lemma {:induction false} NoticesOfLines(p: Patterns, s: string, lines: seq<string>)
    requires Lined(lines) && Join(lines) == s
    ensures Notices(p, [s]) == Join(Kept(p, lines))
  {
    SplitAfterExactly(s, lines);
    assert [s][..0] == [] && "" + Join(Kept(p, lines)) == Join(Kept(p, lines));
  }

  /** A line of its own and then a notice, read together: the notice alone is dropped. */
  lemma {:induction false} NoticeAfterLine(p: Patterns, a: string, b: string)
    requires FullLine(a) && !p.drop(a) && LineOrPart(b) && p.drop(b)
    ensures Notices(p, [a + b]) == a
  {
    TwoLinesSplit(a, b);
    NoticesOfLines(p, a + b, TwoLines(a, b));
    KeptTwo(p, a, b);
  }

  lemma {:induction false} KeptTwo(p: Patterns, a: string, b: string)
    requires !p.drop(a) && p.drop(b)
    ensures Join(Kept(p, TwoLines(a, b))) == a
  {
    assert Join(Kept(p, [])) == "";
    hide Kept, Join;
    KeptSnoc(p, [], a);
    KeptSnoc(p, [a], b);
    assert [] + [a] == [a] && [a] + [b] == [a, b] && "" + a == a;
    if FullLine(b) {
      KeptSnoc(p, [a, b], "");
      assert [a, b] + [""] == [a, b, ""];
    }
  }

  function ErrorTurn(s: string): seq<Turn> { [Turn(false, Eof, Data(s))] }

  lemma {:induction false} ErrorTurnReads(s: string)
    requires s != ""
    ensures Stderrs(ErrorTurn(s)[..1]) == [Data(s)] && Reads([Data(s)]) == [s]
    ensures Stdouts(ErrorTurn(s)[..1]) == [Eof] && Reads([Eof]) == []
    ensures Limit(ErrorTurn(s), 0) == 1
  {
    var turns := ErrorTurn(s);
    assert turns[..1] == turns && Stderrs(turns) == [Data(s)] && Stdouts(turns) == [Eof] && turns[..0] == [];
    assert [Data(s)][1..] == [] && [s] + [] == [s];
    assert !BothClosed(turns, 0) && Limit(turns, 1) == 1;
  }

  /** So does the read loop of a command... */
  lemma {:induction false} CmdNotice(p: Patterns, raise: RaiseType, password: string, a: string, b: string,
                                     wait: Wait, rounds: seq<seq<Piece>>, st: Loop, ending: Ending, turn: nat,
                                     log: Log, code: int)
    requires FullLine(a) && !p.drop(a) && LineOrPart(b) && p.drop(b)
    requires Outcome(p, raise, password, ErrorTurn(a + b), wait, rounds, st, ending, turn, log, code)
    ensures Sent(Stderr, Flat(rounds)) == a
  {
    ErrorTurnReads(a + b);
    NoticeAfterLine(p, a, b);
    assert turn <= 1;
    assert Early([]) == [] && ErrorTurn(a + b)[..0] == [];
    assert !st.wrong;
    TurnIsLimit(ErrorTurn(a + b), turn, st, ending);
  }

  /** ... and that of a copy. */
  lemma {:induction false} CopyNotice(p: Patterns, a: string, b: string, rounds: seq<seq<Piece>>, st: CS.Pipes)
    requires FullLine(a) && !p.drop(a) && LineOrPart(b) && p.drop(b)
    requires CS.CopyLoop(p, ErrorTurn(a + b), 1, rounds, st)
    ensures Sent(Stderr, Flat(rounds)) == a
  {
    ErrorTurnReads(a + b);
    NoticeAfterLine(p, a, b);
  }

  // ---------------------------------------------------------------- the debug stream

  lemma {:induction false} ReadsLength(rs: seq<Read>, r: Read)
    ensures |Join(Reads(rs + [r]))| == |Join(Reads(rs))| + |Copied(rs, r)|
    ensures Copied(rs, r) != "" ==> Join(Reads(rs + [r])) == Join(Reads(rs)) + Copied(rs, r)
  {
    ReadsSnoc(rs, r);
    if !Closed(rs) && r.Data? && r.buf != "" {
      JoinSnoc(Reads(rs), r.buf);
    }
  }

  /** What is copied is as much as both pipes gave, not counting what comes after their ends. */
  lemma {:induction false} DebugLength(turns: seq<Turn>, n: nat)
    requires n <= |turns|
    ensures |DebugText(turns, n, false)| == |Join(Reads(Stdouts(turns[..n])))| + |Join(Reads(Stderrs(turns[..n])))|
  {
    if n == 0 {
      assert Stdouts(turns[..0]) == [] && Stderrs(turns[..0]) == [];
    } else {
      var before, last := turns[..n - 1], turns[n - 1];
      assert Stdouts(turns[..n]) == Stdouts(before) + [last.stdout] && Stderrs(turns[..n]) == Stderrs(before) + [last.stderr];
      DebugLength(turns, n - 1);
      ReadsLength(Stdouts(before), last.stdout);
      ReadsLength(Stderrs(before), last.stderr);
    }
  }

  /** Of a command that prints nothing on standard error the debug stream is its standard output. */
  lemma {:induction false} DebugOfOutput(turns: seq<Turn>, n: nat)
    requires n <= |turns| && forall i | 0 <= i < n :: turns[i].stderr == Data("")
    ensures DebugText(turns, n, false) == Join(Reads(Stdouts(turns[..n])))
  {
    if n == 0 {
      assert Stdouts(turns[..0]) == [];
    } else {
      var before, last := turns[..n - 1], turns[n - 1];
      assert Stdouts(turns[..n]) == Stdouts(before) + [last.stdout];
      DebugOfOutput(turns, n - 1);
      ReadsLength(Stdouts(before), last.stdout);
      if Copied(Stdouts(before), last.stdout) == "" {
        ReadsSnoc(Stdouts(before), last.stdout);
      }
    }
  }

  /** Of one that prints nothing on standard output it is its standard error, notices included. */
  lemma {:induction false} DebugOfErrors(turns: seq<Turn>, n: nat)
    requires n <= |turns| && forall i | 0 <= i < n :: turns[i].stdout == Data("")
    ensures DebugText(turns, n, false) == Join(Reads(Stderrs(turns[..n])))
  {
    if n == 0 {
      assert Stderrs(turns[..0]) == [];
    } else {
      var before, last := turns[..n - 1], turns[n - 1];
      assert Stderrs(turns[..n]) == Stderrs(before) + [last.stderr];
      DebugOfErrors(turns, n - 1);
      ReadsLength(Stderrs(before), last.stderr);
      if Copied(Stderrs(before), last.stderr) == "" {
        ReadsSnoc(Stderrs(before), last.stderr);
      }
    }
  }
}
