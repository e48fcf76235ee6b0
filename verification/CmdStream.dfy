/** The read loop of a remote command (src/remote/cmd.go:17-119): what it forwards, what it swallows
    and when it cuts a stream short. */
module CmdStream {
  import opened Basics
  import opened Remote

  datatype RaiseType = RaiseNone | RaiseSudo | RaiseSu

  /** The regular expressions of src/remote/worker.go:41-47, as predicates on text. */
  datatype Patterns = Patterns(prompt: string -> bool, echo: string -> bool, wrong: string -> bool, drop: string -> bool)

  /** One non-blocking read: some bytes, possibly none, or the end of the stream. */
  datatype Read = Data(buf: string) | Eof

  /** One turn of the loop: what checkStop returns, and what the two pipes hold. */
  datatype Turn = Turn(stop: bool, stdout: Read, stderr: Read)

  datatype Ending = Open | Finished | ForceStopped | WrongPassword

  const AUTH_FAILURE := "sudo: Authentication failure\n"

  /** The text up to and including each newline, then the rest, as bytes.SplitAfter returns it. */
  function SplitAfter(s: string): (chunks: seq<string>)
    ensures Join(chunks) == s && chunks != []
  {
    var n := LineLength(s);
    if n == |s| && (n == 0 || s[n - 1] != '\n') then [s]
    else
      assert s[..n] + s[n..] == s;
      [s[..n]] + SplitAfter(s[n..])
  }

  function LineLength(s: string): (n: nat)
    ensures n <= |s| && (s != "" ==> n > 0)
    ensures forall i | 0 <= i < n - 1 :: s[i] != '\n'
    ensures n < |s| ==> n > 0 && s[n - 1] == '\n'
  {
    if s == "" then 0 else if s[0] == '\n' then 1 else 1 + LineLength(s[1..])
  }

  function Join(chunks: seq<string>): string {
    if chunks == [] then "" else chunks[0] + Join(chunks[1..])
  }

  lemma {:induction false} JoinAppend(a: seq<string>, b: seq<string>)
    ensures Join(a + b) == Join(a) + Join(b)
  {
    if a == [] {
      assert a + b == b;
    } else {
      assert (a + b)[1..] == a[1..] + b;
      JoinAppend(a[1..], b);
    }
  }

  lemma {:induction false} JoinSnoc(a: seq<string>, x: string)
    ensures Join(a + [x]) == Join(a) + x
  {
    JoinAppend(a, [x]);
    assert [x][1..] == [];
    assert x + "" == x;
  }

  predicate FullLine(s: string) { s != "" && s[|s| - 1] == '\n' && '\n' !in s[..|s| - 1] }

  /** Full lines, and then what stands after the last newline, which may be nothing. */
  predicate Lined(chunks: seq<string>) {
    chunks != [] && (forall i | 0 <= i < |chunks| - 1 :: FullLine(chunks[i])) && '\n' !in chunks[|chunks| - 1]
  }

  lemma {:induction false} HeadLine(s: string)
    requires var n := LineLength(s); n > 0 && s[n - 1] == '\n'
    ensures FullLine(s[..LineLength(s)])
  {
    var n := LineLength(s);
    assert s[..n][..n - 1] == s[..n - 1];
  }

  lemma {:induction false} LinedCons(line: string, chunks: seq<string>)
    requires FullLine(line) && Lined(chunks)
    ensures Lined([line] + chunks)
  {
  }

  lemma {:induction false} SplitLined(s: string)
    ensures Lined(SplitAfter(s))
    decreases |s|
  {
    var n := LineLength(s);
    if n < |s| || (n > 0 && s[n - 1] == '\n') {
      SplitLined(s[n..]);
      HeadLine(s);
      LinedCons(s[..n], SplitAfter(s[n..]));
    }
  }

  lemma {:induction false} LineEnds(line: string, rest: string)
    requires FullLine(line)
    ensures LineLength(line + rest) == |line|
    decreases |line|
  {
    assert (line + rest)[1..] == line[1..] + rest;
    if |line| > 1 {
      assert line[0] == line[..|line| - 1][0];
      assert line[1..][..|line| - 2] == line[..|line| - 1][1..];
      LineEnds(line[1..], rest);
    }
  }

  lemma {:induction false} NoLineEnds(s: string)
    requires '\n' !in s
    ensures LineLength(s) == |s|
  {
    if s != "" {
      NoLineEnds(s[1..]);
    }
  }

  lemma {:induction false} LinesSplit(chunks: seq<string>)
    requires Lined(chunks)
    ensures SplitAfter(Join(chunks)) == chunks
    decreases |chunks|
  {
    var line, rest := chunks[0], chunks[1..];
    if rest == [] {
      NoLineEnds(line);
      assert line + "" == line;
    } else {
      LinesSplit(rest);
      LineEnds(line, Join(rest));
      var s := line + Join(rest);
      assert s[..|line|] == line && s[|line|..] == Join(rest) && s[|line| - 1] == '\n';
    }
  }

  /** A text is split in one way: behind every newline and nowhere else. */
  lemma {:induction false} SplitAfterExactly(s: string, chunks: seq<string>)
    ensures chunks == SplitAfter(s) <==> Join(chunks) == s && Lined(chunks)
  {
    SplitLined(s);
    if Join(chunks) == s && Lined(chunks) {
      LinesSplit(chunks);
    }
  }

  ghost function TextOf(stream: Stream): Piece -> string {
    (p: Piece) => if p.stream == stream then p.data else ""
  }

  /** The text sent on one of the three streams. */
  ghost function Sent(stream: Stream, ps: seq<Piece>): string { FlatMap(TextOf(stream), ps) }

  lemma {:induction false} SentSnoc(stream: Stream, ps: seq<Piece>, p: Piece)
    ensures Sent(stream, ps + [p]) == if p.stream == stream then Sent(stream, ps) + p.data else Sent(stream, ps)
  {
    FlatMapSnoc(TextOf(stream), ps, p);
    assert Sent(stream, ps) + "" == Sent(stream, ps);
  }

  /** The non-empty reads of the pipe, up to its end. */
  ghost function Reads(rs: seq<Read>): seq<string> {
    if rs == [] || rs[0].Eof? then []
    else (if rs[0].buf == "" then [] else [rs[0].buf]) + Reads(rs[1..])
  }

  ghost function Stdouts(turns: seq<Turn>): seq<Read> {
    seq(|turns|, i requires 0 <= i < |turns| => turns[i].stdout)
  }

  ghost predicate Closed(rs: seq<Read>) { exists i | 0 <= i < |rs| :: rs[i].Eof? }

  lemma {:induction false} ClosedSnoc(rs: seq<Read>, r: Read)
    ensures Closed(rs + [r]) <==> Closed(rs) || r.Eof?
  {
    if Closed(rs) {
      var i :| 0 <= i < |rs| && rs[i].Eof?;
      assert (rs + [r])[i].Eof?;
    }
    if r.Eof? {
      assert (rs + [r])[|rs|].Eof?;
    }
  }

  lemma {:induction false} ClosedTail(rs: seq<Read>)
    requires rs != []
    ensures Closed(rs) <==> rs[0].Eof? || Closed(rs[1..])
  {
    if i :| 0 <= i < |rs| && rs[i].Eof? && i > 0 {
      assert rs[1..][i - 1].Eof?;
    }
    if i :| 0 <= i < |rs[1..]| && rs[1..][i].Eof? {
      assert rs[i + 1].Eof?;
    }
  }

  lemma {:induction false} ReadsSnoc(rs: seq<Read>, r: Read)
    ensures Closed(rs) ==> Reads(rs + [r]) == Reads(rs) && Closed(rs + [r])
    ensures !Closed(rs) ==> (Closed(rs + [r]) <==> r.Eof?)
    ensures !Closed(rs) ==> Reads(rs + [r]) == if r.Eof? || r.buf == "" then Reads(rs) else Reads(rs) + [r.buf]
  {
    ClosedSnoc(rs, r);
    if rs == [] {
      assert (rs + [r])[1..] == [];
    } else {
      ClosedTail(rs);
      ReadsSnoc(rs[1..], r);
      assert (rs + [r])[1..] == rs[1..] + [r];
    }
  }

  // ---------------------------------------------------------------- which chunks are prompt, echo and failure

  /** The chunks of a list of reads. */
  function Chunks(bufs: seq<string>): seq<string> {
    if bufs == [] then [] else Chunks(bufs[..|bufs| - 1]) + SplitAfter(bufs[|bufs| - 1])
  }

  /** The chunks that are looked at: those of the first four non-empty reads. */
  function Early(bufs: seq<string>): seq<string> { Chunks(if |bufs| <= 4 then bufs else bufs[..4]) }

  /** The first position from `from` on, other than `skip`, with a matching chunk, or the end. */
  function First(f: string -> bool, es: seq<string>, from: nat, skip: nat): (k: nat)
    ensures k <= |es|
    decreases |es| - from
  {
    if from >= |es| then |es|
    else if from != skip && f(es[from]) then from
    else First(f, es, from + 1, skip)
  }

  /** The prompt that is answered: the first matching chunk, when a password is to be sent. */
  function PromptAt(p: Patterns, none: bool, es: seq<string>): (k: nat)
    ensures k <= |es|
  {
    if none then |es| else First(p.prompt, es, 0, |es|)
  }

  /** The echo that is swallowed: the first matching chunk after the prompt. */
  function EchoAt(p: Patterns, none: bool, es: seq<string>): (k: nat)
    ensures k <= |es|
  {
    First(p.echo, es, PromptAt(p, none, es) + 1, |es|)
  }

  /** The failure that ends the command: the first matching chunk after the prompt that is not the echo,
      or the first of all when no password is to be sent. */
  function CutAt(p: Patterns, none: bool, es: seq<string>): (k: nat)
    ensures k <= |es|
  {
    First(p.wrong, es, if none then 0 else PromptAt(p, none, es) + 1, EchoAt(p, none, es))
  }

  lemma {:induction false} FirstMeans(f: string -> bool, es: seq<string>, from: nat, skip: nat)
    ensures var k := First(f, es, from, skip);
            && (k < |es| ==> from <= k && k != skip && f(es[k]))
            && forall i | from <= i < k :: i == skip || !f(es[i])
    decreases |es| - from
  {
    if from < |es| && (from == skip || !f(es[from])) {
      FirstMeans(f, es, from + 1, skip);
    }
  }

  lemma {:induction false} FirstSnoc(f: string -> bool, es: seq<string>, x: string, from: nat, skip: nat)
    ensures First(f, es + [x], from, skip) ==
            if First(f, es, from, skip) < |es| then First(f, es, from, skip)
            else if from <= |es| && |es| != skip && f(x) then |es| else |es| + 1
    decreases |es| - from
  {
    if from < |es| {
      assert (es + [x])[from] == es[from];
      FirstSnoc(f, es, x, from + 1, skip);
    } else if from == |es| {
      assert (es + [x])[from] == x;
    }
  }

  lemma {:induction false} FirstSkip(f: string -> bool, es: seq<string>, from: nat, s: nat, t: nat)
    requires s == t || (s >= |es| && t >= |es|)
    ensures First(f, es, from, s) == First(f, es, from, t)
    decreases |es| - from
  {
    if from < |es| {
      FirstSkip(f, es, from + 1, s, t);
    }
  }

  lemma {:induction false} PromptSnoc(p: Patterns, none: bool, es: seq<string>, x: string)
    ensures PromptAt(p, none, es + [x]) ==
            if PromptAt(p, none, es) < |es| then PromptAt(p, none, es)
            else if !none && p.prompt(x) then |es| else |es| + 1
  {
    if !none {
      FirstSnoc(p.prompt, es, x, 0, |es| + 1);
      FirstSkip(p.prompt, es, 0, |es|, |es| + 1);
    }
  }

  lemma {:induction false} EchoSnoc(p: Patterns, none: bool, es: seq<string>, x: string)
    ensures EchoAt(p, none, es + [x]) ==
            if EchoAt(p, none, es) < |es| then EchoAt(p, none, es)
            else if PromptAt(p, none, es) < |es| && p.echo(x) then |es| else |es| + 1
    ensures EchoAt(p, none, es) < |es| ==> PromptAt(p, none, es) < EchoAt(p, none, es)
  {
    var from := PromptAt(p, none, es) + 1;
    PromptSnoc(p, none, es, x);
    FirstMeans(p.echo, es, from, |es|);
    FirstSnoc(p.echo, es, x, from, |es| + 1);
    FirstSkip(p.echo, es, from, |es|, |es| + 1);
  }

  lemma {:induction false} CutSnoc(p: Patterns, none: bool, es: seq<string>, x: string)
    ensures CutAt(p, none, es + [x]) ==
            if CutAt(p, none, es) < |es| then CutAt(p, none, es)
            else if (none || PromptAt(p, none, es) < |es|) && EchoAt(p, none, es + [x]) != |es| && p.wrong(x) then |es|
            else |es| + 1
    ensures CutAt(p, none, es) < |es| ==> none || PromptAt(p, none, es) < CutAt(p, none, es)
  {
    var from := if none then 0 else PromptAt(p, none, es) + 1;
    var skip := EchoAt(p, none, es + [x]);
    PromptSnoc(p, none, es, x);
    EchoSnoc(p, none, es, x);
    FirstMeans(p.wrong, es, from, EchoAt(p, none, es));
    FirstSkip(p.wrong, es, from, EchoAt(p, none, es), skip);
    FirstSnoc(p.wrong, es, x, from, skip);
  }

  /** More chunks do not move a failure, nor a prompt before it. */
  lemma {:induction false} CutStable(p: Patterns, none: bool, es: seq<string>, more: seq<string>)
    requires CutAt(p, none, es) < |es|
    ensures CutAt(p, none, es + more) == CutAt(p, none, es)
    ensures PromptAt(p, none, es) < |es| ==> PromptAt(p, none, es + more) == PromptAt(p, none, es)
    decreases |more|
  {
    if more == [] {
      assert es + more == es;
    } else {
      var init, x := more[..|more| - 1], more[|more| - 1];
      CutStable(p, none, es, init);
      CutSnoc(p, none, es + init, x);
      PromptSnoc(p, none, es + init, x);
      assert es + more == es + init + [x];
    }
  }

  // ---------------------------------------------------------------- one read of standard output

  /** What the loop remembers between chunks: whether the password has been sent (or none is needed)
      and whether its echo is still expected. */
  datatype Filter = Filter(passwordSent: bool, skipEcho: bool)

  /** The raw standard output consumed so far, in order: forwarded text, a prompt, forwarded text, the
      echo of the answer, forwarded text. */
  datatype Log = Log(a: string, prompt: string, b: string, echo: string, c: string)

  ghost function Raw(log: Log): string { log.a + log.prompt + log.b + log.echo + log.c }

  ghost function Forwarded(log: Log): string { log.a + log.b + log.c }

  /** Nothing is deleted before the password is written, and nothing after its echo. */
  ghost predicate LogOk(log: Log, f: Filter, asked: bool) {
    && (!asked ==> log.prompt == "" && log.b == "" && log.echo == "" && log.c == "" && !f.skipEcho)
    && (f.skipEcho ==> log.echo == "" && log.c == "")
  }

  /** The state of the loop over the chunks looked at so far, none of which is a failure: the password has
      been written exactly when one of them is the prompt, and the deleted chunks are that prompt and the
      echo, between the texts that stand there. */
  ghost predicate Marked(p: Patterns, none: bool, es: seq<string>, f: Filter, asked: bool, log: Log) {
    var i, j := PromptAt(p, none, es), EchoAt(p, none, es);
    && CutAt(p, none, es) == |es|
    && asked == (i < |es|) && f.passwordSent == (none || asked) && f.skipEcho == (asked && j == |es|)
    && (asked ==> log.a == Join(es[..i]) && log.prompt == es[i])
    && (j < |es| ==> i < j && log.b == Join(es[i + 1..j]) && log.echo == es[j])
    && LogOk(log, f, asked)
  }

  ghost function Append(log: Log, f: Filter, asked: bool, chunk: string): Log {
    if !asked then log.(a := log.a + chunk)
    else if f.skipEcho then log.(b := log.b + chunk)
    else log.(c := log.c + chunk)
  }

  lemma {:induction false} AppendText(log: Log, f: Filter, asked: bool, chunk: string)
    requires LogOk(log, f, asked)
    ensures var l := Append(log, f, asked, chunk);
            LogOk(l, f, asked) && Raw(l) == Raw(log) + chunk && Forwarded(l) == Forwarded(log) + chunk
  {
  }

  lemma {:induction false} JoinAround(es: seq<string>, i: nat)
    requires i < |es|
    ensures Join(es) == Join(es[..i]) + es[i] + Join(es[i + 1..])
  {
    var left, x, right := es[..i], es[i], es[i + 1..];
    SplitAt(es, i);
    JoinAppend(left + [x], right);
    JoinSnoc(left, x);
  }

  lemma {:induction false} Slices(es: seq<string>, x: string, i: nat, j: nat)
    requires i <= j <= |es|
    ensures (es + [x])[i..j] == es[i..j] && (es + [x])[..i] == es[..i] && es[..|es|] == es
  {
  }

  /** The password prompt is answered. */
  lemma {:induction false} MarkPrompt(p: Patterns, none: bool, es: seq<string>, f: Filter, asked: bool, log: Log,
                                      x: string)
    requires Marked(p, none, es, f, asked, log) && Raw(log) == Join(es)
    requires !f.passwordSent && p.prompt(x)
    ensures Marked(p, none, es + [x], Filter(true, true), true, log.(prompt := x))
  {
    PromptSnoc(p, none, es, x);
    EchoSnoc(p, none, es, x);
    CutSnoc(p, none, es, x);
    Slices(es, x, |es|, |es|);
    assert Raw(log) == log.a;
  }

  lemma {:induction false} Cancel(a: string, b: string, c: string)
    requires a + b == a + c
    ensures b == c
  {
    assert (a + b)[|a|..] == b && (a + c)[|a|..] == c;
  }

  /** Its echo is swallowed. */
  lemma {:induction false} MarkEcho(p: Patterns, none: bool, es: seq<string>, f: Filter, asked: bool, log: Log,
                                    x: string)
    requires Marked(p, none, es, f, asked, log) && Raw(log) == Join(es)
    requires f.skipEcho && p.echo(x)
    ensures Marked(p, none, es + [x], f.(skipEcho := false), asked, log.(echo := x))
  {
    var i := PromptAt(p, none, es);
    PromptSnoc(p, none, es, x);
    EchoSnoc(p, none, es, x);
    CutSnoc(p, none, es, x);
    JoinAround(es, i);
    assert Raw(log) == log.a + log.prompt + log.b;
    Cancel(log.a + log.prompt, log.b, Join(es[i + 1..]));
    Slices(es, x, i, |es|);
    Slices(es, x, i + 1, |es|);
  }

  /** A failure is noticed. */
  lemma {:induction false} MarkWrong(p: Patterns, none: bool, es: seq<string>, f: Filter, asked: bool, log: Log,
                                     x: string)
    requires Marked(p, none, es, f, asked, log)
    requires f.passwordSent && !(f.skipEcho && p.echo(x)) && p.wrong(x)
    ensures CutAt(p, none, es + [x]) == |es|
  {
    EchoSnoc(p, none, es, x);
    CutSnoc(p, none, es, x);
  }

  /** Any other chunk is forwarded. */
  lemma {:induction false} MarkForward(p: Patterns, none: bool, es: seq<string>, f: Filter, asked: bool, log: Log,
                                       x: string)
    requires Marked(p, none, es, f, asked, log)
    requires !(!f.passwordSent && p.prompt(x)) && !(f.skipEcho && p.echo(x)) && !(f.passwordSent && p.wrong(x))
    ensures Marked(p, none, es + [x], f, asked, Append(log, f, asked, x))
  {
    var i, j := PromptAt(p, none, es), EchoAt(p, none, es);
    PromptSnoc(p, none, es, x);
    EchoSnoc(p, none, es, x);
    CutSnoc(p, none, es, x);
    AppendText(log, f, asked, x);
    Slices(es, x, i, |es|);
    if j < |es| {
      Slices(es, x, i + 1, j);
    }
  }

  /** From the fifth read on everything is forwarded. */
  lemma {:induction false} MarkLate(p: Patterns, none: bool, es: seq<string>, f: Filter, asked: bool, log: Log,
                                    x: string)
    requires Marked(p, none, es, f, asked, log)
    ensures Marked(p, none, es, f, asked, Append(log, f, asked, x))
  {
    AppendText(log, f, asked, x);
  }

  lemma {:induction false} SentStdout(out: seq<Piece>, chunk: string)
    ensures Sent(Stdout, out + [Piece(Stdout, chunk)]) == Sent(Stdout, out) + chunk
    ensures Sent(Stderr, out + [Piece(Stdout, chunk)]) == Sent(Stderr, out)
    ensures Sent(Debug, out + [Piece(Stdout, chunk)]) == Sent(Debug, out)
  {
    SentSnoc(Stdout, out, Piece(Stdout, chunk));
    SentSnoc(Stderr, out, Piece(Stdout, chunk));
    SentSnoc(Debug, out, Piece(Stdout, chunk));
  }

  /** The text consumed and sent by the loop over the chunks, against the log it started from. */
  ghost predicate Progress(log0: Log, raw: string, log: Log, out: seq<Piece>) {
    && Raw(log) == Raw(log0) + raw && Forwarded(log) == Forwarded(log0) + Sent(Stdout, out)
    && Sent(Stderr, out) == "" && Sent(Debug, out) == "" && NoneEmpty(out)
  }

  /** No message is sent for an empty piece of text. */
  predicate NoneEmpty(out: seq<Piece>) { forall i | 0 <= i < |out| :: out[i].data != "" }

  lemma {:induction false} ProgressForward(log0: Log, raw: string, log: Log, out: seq<Piece>, f: Filter, asked: bool,
                                           chunk: string)
    requires Progress(log0, raw, log, out) && LogOk(log, f, asked)
    ensures Progress(log0, raw + chunk, Append(log, f, asked, chunk), if chunk == "" then out else out + [Piece(Stdout, chunk)])
  {
    AppendText(log, f, asked, chunk);
    SentStdout(out, chunk);
    Reassociate(Raw(log0), raw, chunk);
    Reassociate(Forwarded(log0), Sent(Stdout, out), chunk);
    assert Sent(Stdout, out) + "" == Sent(Stdout, out);
  }

  /** A deleted chunk is consumed and not sent. */
  lemma {:induction false} ProgressDelete(log0: Log, raw: string, log: Log, log': Log, out: seq<Piece>, chunk: string)
    requires Progress(log0, raw, log, out) && Raw(log') == Raw(log) + chunk && Forwarded(log') == Forwarded(log)
    ensures Progress(log0, raw + chunk, log', out)
  {
    Reassociate(Raw(log0), raw, chunk);
  }

  lemma {:induction false} DeleteText(log: Log, f: Filter, asked: bool, chunk: string)
    requires LogOk(log, f, asked)
    ensures !asked ==> Raw(log.(prompt := chunk)) == Raw(log) + chunk && Forwarded(log.(prompt := chunk)) == Forwarded(log)
    ensures f.skipEcho ==> Raw(log.(echo := chunk)) == Raw(log) + chunk && Forwarded(log.(echo := chunk)) == Forwarded(log)
  {
  }

  lemma {:induction false} Reassociate(a: string, b: string, c: string)
    ensures a + (b + c) == a + b + c && a + (b + "") == a + b
  {
  }

  /** Everything known between two chunks of a read: `es0` are the chunks looked at before the read. */
  ghost predicate Between(p: Patterns, none: bool, early: bool, es0: seq<string>, log0: Log, done: seq<string>,
                          f: Filter, asked: bool, log: Log, out: seq<Piece>) {
    var es := if early then es0 + done else es0;
    && Marked(p, none, es, f, asked, log) && Progress(log0, Join(done), log, out)
    && (early ==> Raw(log) == Join(es))
  }

  lemma {:induction false} EarlyText(es0: seq<string>, done: seq<string>, log: Log, log': Log, x: string)
    requires Raw(log) == Join(es0 + done) && Raw(log') == Raw(log) + x
    ensures Raw(log') == Join(es0 + (done + [x])) && es0 + (done + [x]) == es0 + done + [x]
  {
    assert es0 + (done + [x]) == es0 + done + [x];
    JoinSnoc(es0 + done, x);
  }

  lemma {:induction false} BetweenPrompt(p: Patterns, none: bool, es0: seq<string>, log0: Log, done: seq<string>,
                                         f: Filter, asked: bool, log: Log, out: seq<Piece>, x: string)
    requires Between(p, none, true, es0, log0, done, f, asked, log, out) && !f.passwordSent && p.prompt(x)
    ensures Between(p, none, true, es0, log0, done + [x], Filter(true, true), true, log.(prompt := x), out)
  {
    MarkPrompt(p, none, es0 + done, f, asked, log, x);
    DeleteText(log, f, asked, x);
    ProgressDelete(log0, Join(done), log, log.(prompt := x), out, x);
    JoinSnoc(done, x);
    EarlyText(es0, done, log, log.(prompt := x), x);
  }

  lemma {:induction false} BetweenEcho(p: Patterns, none: bool, es0: seq<string>, log0: Log, done: seq<string>,
                                       f: Filter, asked: bool, log: Log, out: seq<Piece>, x: string)
    requires Between(p, none, true, es0, log0, done, f, asked, log, out) && f.skipEcho && p.echo(x)
    ensures Between(p, none, true, es0, log0, done + [x], f.(skipEcho := false), asked, log.(echo := x), out)
  {
    MarkEcho(p, none, es0 + done, f, asked, log, x);
    DeleteText(log, f, asked, x);
    ProgressDelete(log0, Join(done), log, log.(echo := x), out, x);
    JoinSnoc(done, x);
    EarlyText(es0, done, log, log.(echo := x), x);
  }

  lemma {:induction false} BetweenForward(p: Patterns, none: bool, early: bool, es0: seq<string>, log0: Log,
                                          done: seq<string>, f: Filter, asked: bool, log: Log, out: seq<Piece>,
                                          x: string)
    requires Between(p, none, early, es0, log0, done, f, asked, log, out)
    requires early ==> !(!f.passwordSent && p.prompt(x)) && !(f.skipEcho && p.echo(x)) && !(f.passwordSent && p.wrong(x))
    ensures Between(p, none, early, es0, log0, done + [x], f, asked, Append(log, f, asked, x),
                    if x == "" then out else out + [Piece(Stdout, x)])
  {
    ProgressForward(log0, Join(done), log, out, f, asked, x);
    JoinSnoc(done, x);
    AppendText(log, f, asked, x);
    if early {
      MarkForward(p, none, es0 + done, f, asked, log, x);
      EarlyText(es0, done, log, Append(log, f, asked, x), x);
    } else {
      MarkLate(p, none, es0, f, asked, log, x);
    }
  }

  /** The first failure is this chunk. */
  ghost predicate Noticed(p: Patterns, none: bool, es0: seq<string>, done: seq<string>, chunk: string) {
    CutAt(p, none, es0 + done + [chunk]) == |es0| + |done|
  }

  /** One chunk: answered, swallowed, a failure, or forwarded. */
  method OneChunk(p: Patterns, ghost none: bool, early: bool, ghost es0: seq<string>, ghost log0: Log, ghost done: seq<string>,
                  f0: Filter, asked0: bool, ghost log1: Log, out0: seq<Piece>, chunk: string)
    returns (f: Filter, asked: bool, wrong: bool, ghost log: Log, out: seq<Piece>)
    requires Between(p, none, early, es0, log0, done, f0, asked0, log1, out0)
    ensures !wrong ==> Between(p, none, early, es0, log0, done + [chunk], f, asked, log, out)
    ensures wrong ==> early && Noticed(p, none, es0, done, chunk)
    ensures wrong ==> f == f0 && asked == asked0 && log == log1 && out == out0
  {
    f, asked, wrong, log, out := f0, asked0, false, log1, out0;
    if early && !f.passwordSent && p.prompt(chunk) {
      BetweenPrompt(p, none, es0, log0, done, f, asked, log, out, chunk);
      f, asked, log := Filter(true, true), true, log.(prompt := chunk);
    } else if early && f.skipEcho && p.echo(chunk) {
      BetweenEcho(p, none, es0, log0, done, f, asked, log, out, chunk);
      f, log := f.(skipEcho := false), log.(echo := chunk);
    } else if early && f.passwordSent && p.wrong(chunk) {
      MarkWrong(p, none, es0 + done, f, asked, log, chunk);
      wrong := true;
    } else {
      BetweenForward(p, none, early, es0, log0, done, f, asked, log, out, chunk);
      log := Append(log, f, asked, chunk);
      if |chunk| > 0 {
        out := out + [Piece(Stdout, chunk)];
      }
    }
  }

  lemma {:induction false} OneMore<T>(s: seq<T>, n: nat)
    requires n < |s|
    ensures s[..n + 1] == s[..n] + [s[n]]
  {
  }

  /** The loop over the chunks of one read. `early` is chunkCount < 5. */
  method ForwardChunks(p: Patterns, ghost none: bool, f0: Filter, asked0: bool, early: bool, chunks: seq<string>,
                       ghost es0: seq<string>, ghost log0: Log)
    returns (f: Filter, asked: bool, wrong: bool, used: nat, out: seq<Piece>, ghost log: Log)
    requires Marked(p, none, es0, f0, asked0, log0) && (early ==> Raw(log0) == Join(es0))
    ensures used <= |chunks| && Between(p, none, early, es0, log0, chunks[..used], f, asked, log, out)
    ensures wrong ==> early && used < |chunks| && Noticed(p, none, es0, chunks[..used], chunks[used])
    ensures !wrong ==> used == |chunks|
  {
    f, asked, wrong, used, out, log := f0, asked0, false, 0, [], log0;
    BetweenStarts(p, none, early, es0, log0, f, asked);
    while used < |chunks|
      invariant used <= |chunks| && !wrong && Between(p, none, early, es0, log0, chunks[..used], f, asked, log, out)
    {
      f, asked, wrong, log, out := OneChunk(p, none, early, es0, log0, chunks[..used], f, asked, log, out, chunks[used]);
      if wrong {
        return;
      }
      OneMore(chunks, used);
      used := used + 1;
    }
  }

  lemma {:induction false} BetweenStarts(p: Patterns, none: bool, early: bool, es0: seq<string>, log0: Log, f: Filter,
                                         asked: bool)
    requires Marked(p, none, es0, f, asked, log0) && (early ==> Raw(log0) == Join(es0))
    ensures forall chunks: seq<string> :: Between(p, none, early, es0, log0, chunks[..0], f, asked, log0, [])
  {
    assert es0 + [] == es0;
    assert Raw(log0) + "" == Raw(log0) && Forwarded(log0) + "" == Forwarded(log0);
    forall chunks: seq<string> ensures Between(p, none, early, es0, log0, chunks[..0], f, asked, log0, []) {
      assert chunks[..0] == [];
    }
  }

  // ---------------------------------------------------------------- standard error

  function Kept(p: Patterns, chunks: seq<string>): seq<string> {
    if chunks == [] then [] else Kept(p, chunks[..|chunks| - 1]) + if p.drop(chunks[|chunks| - 1]) then [] else [chunks[|chunks| - 1]]
  }

  lemma {:induction false} KeptSnoc(p: Patterns, chunks: seq<string>, chunk: string)
    ensures Join(Kept(p, chunks + [chunk])) == if p.drop(chunk) || chunk == "" then Join(Kept(p, chunks)) else Join(Kept(p, chunks)) + chunk
  {
    assert (chunks + [chunk])[..|chunks|] == chunks;
    JoinSnoc(Kept(p, chunks), chunk);
    assert Kept(p, chunks) + [] == Kept(p, chunks);
    assert chunk == "" ==> Join(Kept(p, chunks)) + chunk == Join(Kept(p, chunks));
  }

  /** The standard error a reader should see: every chunk that is not an ssh notice. */
  ghost function Notices(p: Patterns, bufs: seq<string>): string {
    if bufs == [] then "" else Notices(p, bufs[..|bufs| - 1]) + Join(Kept(p, SplitAfter(bufs[|bufs| - 1])))
  }

  lemma {:induction false} NoticesSnoc(p: Patterns, bufs: seq<string>, r: string)
    ensures Notices(p, bufs + [r]) == Notices(p, bufs) + Join(Kept(p, SplitAfter(r)))
  {
    assert (bufs + [r])[..|bufs|] == bufs;
  }

  /** One more chunk of standard error, and what has been sent for it. */
  lemma {:induction false} ErrorsNext(p: Patterns, chunks: seq<string>, n: nat, out: seq<Piece>)
    requires n < |chunks| && Sent(Stderr, out) == Join(Kept(p, chunks[..n])) && Sent(Stdout, out) == ""
    ensures var more := if |chunks[n]| > 0 && !p.drop(chunks[n]) then out + [Piece(Stderr, chunks[n])] else out;
            Sent(Stderr, more) == Join(Kept(p, chunks[..n + 1])) && Sent(Stdout, more) == ""
  {
    var chunk := chunks[n];
    assert chunks[..n + 1] == chunks[..n] + [chunk];
    KeptSnoc(p, chunks[..n], chunk);
    SentSnoc(Stderr, out, Piece(Stderr, chunk));
    SentSnoc(Stdout, out, Piece(Stderr, chunk));
  }

  /** The loop over the chunks of one read of standard error. */
  method ForwardErrors(p: Patterns, chunks: seq<string>) returns (out: seq<Piece>)
    ensures Sent(Stderr, out) == Join(Kept(p, chunks)) && Sent(Stdout, out) == ""
    ensures forall i | 0 <= i < |out| :: out[i].stream == Stderr
    ensures NoneEmpty(out)
  {
    out := [];
    var n := 0;
    while n < |chunks|
      invariant n <= |chunks| && NoneEmpty(out) && forall i | 0 <= i < |out| :: out[i].stream == Stderr
      invariant Sent(Stderr, out) == Join(Kept(p, chunks[..n])) && Sent(Stdout, out) == ""
    {
      ErrorsNext(p, chunks, n, out);
      if |chunks[n]| > 0 && !p.drop(chunks[n]) {
        out := out + [Piece(Stderr, chunks[n])];
      }
      n := n + 1;
    }
    assert chunks[..n] == chunks;
  }

  // ---------------------------------------------------------------- the command

  ghost function Stderrs(turns: seq<Turn>): seq<Read> {
    seq(|turns|, i requires 0 <= i < |turns| => turns[i].stderr)
  }

  function Flat(rounds: seq<seq<Piece>>): seq<Piece> {
    if rounds == [] then [] else Flat(rounds[..|rounds| - 1]) + rounds[|rounds| - 1]
  }

  lemma {:induction false} FlatSnoc(rounds: seq<seq<Piece>>, r: seq<Piece>)
    ensures Flat(rounds + [r]) == Flat(rounds) + r
  {
    assert (rounds + [r])[..|rounds|] == rounds;
  }

  lemma {:induction false} SentAppend(stream: Stream, a: seq<Piece>, b: seq<Piece>)
    ensures Sent(stream, a + b) == Sent(stream, a) + Sent(stream, b)
  {
    FlatMapAppend(TextOf(stream), a, b);
  }

  lemma {:induction false} EarlySnoc(bufs: seq<string>, buf: string)
    ensures Early(bufs + [buf]) == if |bufs| < 4 then Early(bufs) + SplitAfter(buf) else Early(bufs)
  {
    if |bufs| < 4 {
      assert (bufs + [buf])[..|bufs|] == bufs;
    } else {
      assert (bufs + [buf])[..4] == bufs[..4];
      assert |bufs| == 4 ==> bufs[..4] == bufs;
    }
  }

  lemma {:induction false} JoinChunks(bufs: seq<string>)
    ensures Join(Chunks(bufs)) == Join(bufs)
  {
    if bufs != [] {
      var init, last := bufs[..|bufs| - 1], bufs[|bufs| - 1];
      JoinChunks(init);
      JoinAppend(Chunks(init), SplitAfter(last));
      JoinSnoc(init, last);
      assert bufs == init + [last];
    }
  }

  /** What the reads made so far have led to. The command fails exactly when a chunk of the first four
      non-empty reads is a failure, and that chunk and everything after it are replaced by one message.
      Otherwise the text sent is the text read less the prompt and the echo. */
  ghost predicate Stood(p: Patterns, none: bool, bufs: seq<string>, f: Filter, asked: bool, log: Log, wrong: bool, sent: string) {
    var es, k := Early(bufs), CutAt(p, none, Early(bufs));
    && Marked(p, none, es[..k], f, asked, log)
    && (wrong <==> k < |es|) && (wrong ==> |bufs| <= 4)
    && Raw(log) == (if wrong then Join(es[..k]) else Join(bufs))
    && sent == Forwarded(log) + (if wrong then AUTH_FAILURE else "")
  }

  function ReadPieces(buf: string, pieces: seq<Piece>, wrong: bool): seq<Piece> {
    [Piece(Debug, buf)] + pieces + if wrong then [Piece(Stdout, AUTH_FAILURE)] else []
  }

  lemma {:induction false} SentOne(stream: Stream, p: Piece)
    ensures Sent(stream, [p]) == if p.stream == stream then p.data else ""
  {
    SentSnoc(stream, [], p);
    assert [] + [p] == [p] && "" + p.data == p.data;
  }

  lemma {:induction false} ReadPiecesText(buf: string, pieces: seq<Piece>, wrong: bool)
    ensures Sent(Stdout, ReadPieces(buf, pieces, wrong)) == Sent(Stdout, pieces) + if wrong then AUTH_FAILURE else ""
    ensures Sent(Stderr, ReadPieces(buf, pieces, wrong)) == Sent(Stderr, pieces)
    ensures Sent(Debug, ReadPieces(buf, pieces, wrong)) == buf + Sent(Debug, pieces)
    ensures buf != "" && NoneEmpty(pieces) ==> NoneEmpty(ReadPieces(buf, pieces, wrong))
  {
    ReadPiecesIn(Stdout, buf, pieces, wrong);
    ReadPiecesIn(Stderr, buf, pieces, wrong);
    ReadPiecesIn(Debug, buf, pieces, wrong);
    assert Sent(Stderr, pieces) + "" == Sent(Stderr, pieces);
    assert Sent(Debug, pieces) + "" == Sent(Debug, pieces);
  }

  lemma {:induction false} ReadPiecesIn(stream: Stream, buf: string, pieces: seq<Piece>, wrong: bool)
    ensures Sent(stream, ReadPieces(buf, pieces, wrong)) ==
            (if stream.Debug? then buf else "") + Sent(stream, pieces) + if wrong && stream.Stdout? then AUTH_FAILURE else ""
  {
    var d, e := Piece(Debug, buf), Piece(Stdout, AUTH_FAILURE);
    SentOne(stream, d);
    SentAppend(stream, [d], pieces);
    assert "" + Sent(stream, pieces) == Sent(stream, pieces);
    if wrong {
      SentOne(stream, e);
      SentAppend(stream, [d] + pieces, [e]);
    } else {
      assert [d] + pieces + [] == [d] + pieces;
      assert Sent(stream, pieces) + "" == Sent(stream, pieces);
    }
  }

  lemma {:induction false} ReadAll(p: Patterns, none: bool, bufs: seq<string>, buf: string, log0: Log, f: Filter,
                                   asked: bool, log: Log, out: seq<Piece>)
    requires CutAt(p, none, Early(bufs)) == |Early(bufs)| && Raw(log0) == Join(bufs)
    requires Between(p, none, |bufs| < 4, Early(bufs), log0, SplitAfter(buf), f, asked, log, out)
    ensures Stood(p, none, bufs + [buf], f, asked, log, false, Forwarded(log0) + Sent(Stdout, out))
  {
    EarlySnoc(bufs, buf);
    JoinSnoc(bufs, buf);
    StoodRight(p, none, bufs + [buf], Early(bufs + [buf]), f, asked, log);
  }

  lemma {:induction false} StoodRight(p: Patterns, none: bool, bufs: seq<string>, es: seq<string>, f: Filter,
                                      asked: bool, log: Log)
    requires es == Early(bufs) && CutAt(p, none, es) == |es| && Marked(p, none, es, f, asked, log) && Raw(log) == Join(bufs)
    ensures Stood(p, none, bufs, f, asked, log, false, Forwarded(log))
  {
    assert es[..|es|] == es;
    assert Forwarded(log) + "" == Forwarded(log);
  }

  lemma {:induction false} ReadUpTo(p: Patterns, none: bool, bufs: seq<string>, buf: string, used: nat, log0: Log,
                                    f: Filter, asked: bool, log: Log, out: seq<Piece>)
    requires |bufs| < 4 && used < |SplitAfter(buf)|
    requires Between(p, none, true, Early(bufs), log0, SplitAfter(buf)[..used], f, asked, log, out)
    requires Noticed(p, none, Early(bufs), SplitAfter(buf)[..used], SplitAfter(buf)[used])
    ensures Stood(p, none, bufs + [buf], f, asked, log, true, Forwarded(log0) + Sent(Stdout, out) + AUTH_FAILURE)
  {
    var es, x := Early(bufs) + SplitAfter(buf)[..used], SplitAfter(buf)[used];
    EarlySnoc(bufs, buf);
    Resplit(Early(bufs), SplitAfter(buf), used);
    CutThere(p, none, es, x, SplitAfter(buf)[used + 1..]);
    StoodWrong(p, none, bufs + [buf], es, f, asked, log);
  }

  lemma {:induction false} Resplit(a: seq<string>, chunks: seq<string>, used: nat)
    requires used < |chunks|
    ensures a + chunks == a + chunks[..used] + [chunks[used]] + chunks[used + 1..]
  {
  }

  lemma {:induction false} CutThere(p: Patterns, none: bool, es: seq<string>, x: string, more: seq<string>)
    requires CutAt(p, none, es + [x]) == |es|
    ensures var all := es + [x] + more; CutAt(p, none, all) == |es| && all[..|es|] == es
  {
    CutStable(p, none, es + [x], more);
  }

  lemma {:induction false} StoodWrong(p: Patterns, none: bool, bufs: seq<string>, es: seq<string>, f: Filter,
                                      asked: bool, log: Log)
    requires |bufs| <= 4 && CutAt(p, none, Early(bufs)) == |es| < |Early(bufs)| && Early(bufs)[..|es|] == es
    requires Marked(p, none, es, f, asked, log) && Raw(log) == Join(es)
    ensures Stood(p, none, bufs, f, asked, log, true, Forwarded(log) + AUTH_FAILURE)
  {
  }

  /** One non-empty read of standard output: the debug copy, the chunks, and the message that replaces
      the rest of the stream after a wrong password. */
  method ReadStdout(p: Patterns, ghost none: bool, password: string, buf: string, count: nat,
                    f0: Filter, written0: seq<string>, ghost bufs: seq<string>, ghost log0: Log, ghost sent: string)
    returns (f: Filter, written: seq<string>, wrong: bool, out: seq<Piece>, ghost log: Log)
    requires Stood(p, none, bufs, f0, written0 != [], log0, false, sent) && count == |bufs|
    ensures Stood(p, none, bufs + [buf], f, written != [], log, wrong, sent + Sent(Stdout, out))
    ensures written == written0 || (written0 == [] && written == [password + "\n"])
    ensures Sent(Stderr, out) == "" && Sent(Debug, out) == buf && (buf != "" ==> NoneEmpty(out))
  {
    var asked, used, pieces;
    var chunks := SplitAfter(buf);
    ghost var es0 := Early(bufs);
    assert es0[..|es0|] == es0 && Forwarded(log0) + "" == Forwarded(log0);
    JoinChunks(bufs);
    f, asked, wrong, used, pieces, log := ForwardChunks(p, none, f0, written0 != [], count + 1 < 5, chunks, es0, log0);
    AskedStays(p, none, |bufs| < 4, es0, log0, chunks[..used], f0, written0 != [], f, asked, log, pieces);
    written := if asked && written0 == [] then [password + "\n"] else written0;
    out := ReadPieces(buf, pieces, wrong);
    ReadPiecesText(buf, pieces, wrong);
    assert buf + "" == buf;
    Reassociate(sent, Sent(Stdout, pieces), if wrong then AUTH_FAILURE else "");
    if wrong {
      ReadUpTo(p, none, bufs, buf, used, log0, f, asked, log, pieces);
    } else {
      assert chunks[..used] == chunks;
      ReadAll(p, none, bufs, buf, log0, f, asked, log, pieces);
    }
  }

  /** The password is not taken back. */
  lemma {:induction false} AskedStays(p: Patterns, none: bool, early: bool, es0: seq<string>, log0: Log,
                                      done: seq<string>, f0: Filter, asked0: bool, f: Filter, asked: bool, log: Log,
                                      out: seq<Piece>)
    requires Marked(p, none, es0, f0, asked0, log0) && Between(p, none, early, es0, log0, done, f, asked, log, out)
    ensures asked0 ==> asked
  {
    if early {
      PromptStays(p, none, es0, done);
    }
  }

  lemma {:induction false} PromptStays(p: Patterns, none: bool, es: seq<string>, more: seq<string>)
    ensures PromptAt(p, none, es) < |es| ==> PromptAt(p, none, es + more) == PromptAt(p, none, es)
    decreases |more|
  {
    if more == [] {
      assert es + more == es;
    } else {
      var init, x := more[..|more| - 1], more[|more| - 1];
      PromptStays(p, none, es, init);
      PromptSnoc(p, none, es + init, x);
      assert es + more == es + init + [x];
    }
  }

  // ---------------------------------------------------------------- the loop

  /** The variables of the loop. */
  datatype Loop = Loop(filter: Filter, written: seq<string>, chunkCount: nat, stdoutFinished: bool, stderrFinished: bool, wrong: bool)

  /** Standard output, from the reads made of its pipe to the text sent. */
  ghost predicate OutInv(p: Patterns, none: bool, password: string, rs: seq<Read>, st: Loop, log: Log, sent: string) {
    && Stood(p, none, Reads(rs), st.filter, st.written != [], log, st.wrong, sent)
    && (st.written == [] || st.written == [password + "\n"])
    && st.chunkCount == |Reads(rs)| && st.stdoutFinished == Closed(rs)
  }

  ghost predicate ErrInv(p: Patterns, rs: seq<Read>, st: Loop, sent: string) {
    sent == Notices(p, Reads(rs)) && st.stderrFinished == Closed(rs)
  }

  /** What one more read of a pipe adds to the debug stream: everything, notices and prompts included. */
  ghost function Copied(rs: seq<Read>, r: Read): string {
    if Closed(rs) || r.Eof? then "" else r.buf
  }

  lemma {:induction false} NoDebug(pieces: seq<Piece>)
    requires forall i | 0 <= i < |pieces| :: !pieces[i].stream.Debug?
    ensures Sent(Debug, pieces) == ""
  {
    forall i | 0 <= i < |pieces| ensures TextOf(Debug)(pieces[i]) == "" {}
    FlatMapNone(TextOf(Debug), pieces);
  }

  /** The debug stream after n turns; a wrong password ends the last one before its standard error. */
  ghost function DebugText(turns: seq<Turn>, n: nat, wrong: bool): string
    requires n <= |turns|
  {
    if n == 0 then ""
    else
      DebugText(turns, n - 1, false) + Copied(Stdouts(turns[..n - 1]), turns[n - 1].stdout)
      + if wrong then "" else Copied(Stderrs(turns[..n - 1]), turns[n - 1].stderr)
  }

  /** Every read is copied to the debug stream, and nothing empty is sent. */
  ghost predicate DebugInv(turns: seq<Turn>, n: nat, wrong: bool, rounds: seq<seq<Piece>>)
    requires n <= |turns|
  {
    && Sent(Debug, Flat(rounds)) == DebugText(turns, n, wrong)
    && forall k | 0 <= k < |rounds| :: NoneEmpty(rounds[k])
  }

  lemma {:induction false} DebugNext(turns: seq<Turn>, n: nat, wrong: bool, rounds: seq<seq<Piece>>, cur: seq<Piece>,
                                     more: seq<Piece>)
    requires n < |turns| && DebugInv(turns, n, false, rounds) && NoneEmpty(cur) && NoneEmpty(more)
    requires Sent(Debug, cur) == Copied(Stdouts(turns[..n]), turns[n].stdout)
    requires Sent(Debug, more) == if wrong then "" else Copied(Stderrs(turns[..n]), turns[n].stderr)
    ensures DebugInv(turns, n + 1, wrong, rounds + [cur + more])
  {
    hide Sent, Copied, Flat;
    FlatSnoc(rounds, cur + more);
    SentAppend(Debug, Flat(rounds), cur + more);
    SentAppend(Debug, cur, more);
    Reassociate(Sent(Debug, Flat(rounds)), Sent(Debug, cur), Sent(Debug, more));
  }

  method TurnStdout(p: Patterns, ghost none: bool, password: string, r: Read, st: Loop,
                    ghost rs: seq<Read>, ghost log: Log, ghost sent: string)
    returns (st': Loop, cur: seq<Piece>, ghost log': Log)
    requires OutInv(p, none, password, rs, st, log, sent) && !st.wrong
    ensures OutInv(p, none, password, rs + [r], st', log', sent + Sent(Stdout, cur))
    ensures Sent(Stderr, cur) == "" && st'.stderrFinished == st.stderrFinished
    ensures Sent(Debug, cur) == Copied(rs, r) && NoneEmpty(cur)
  {
    ReadsSnoc(rs, r);
    st', cur, log' := st, [], log;
    assert sent + "" == sent;
    if !st.stdoutFinished {
      match r
      case Eof => st' := st.(stdoutFinished := true);
      case Data(buf) =>
        if |buf| > 0 {
          var filter, written, wrong;
          filter, written, wrong, cur, log' :=
            ReadStdout(p, none, password, buf, st.chunkCount, st.filter, st.written, Reads(rs), log, sent);
          st' := st.(filter := filter, written := written, wrong := wrong, chunkCount := st.chunkCount + 1);
        }
    }
  }

  method TurnStderr(p: Patterns, r: Read, st: Loop, ghost rs: seq<Read>, ghost sent: string)
    returns (st': Loop, cur: seq<Piece>)
    requires ErrInv(p, rs, st, sent)
    ensures ErrInv(p, rs + [r], st', sent + Sent(Stderr, cur))
    ensures Sent(Stdout, cur) == "" && st' == st.(stderrFinished := st'.stderrFinished)
    ensures Sent(Debug, cur) == Copied(rs, r) && NoneEmpty(cur)
  {
    ReadsSnoc(rs, r);
    st', cur := st, [];
    assert sent + "" == sent;
    if !st.stderrFinished {
      match r
      case Eof => st' := st.(stderrFinished := true);
      case Data(buf) =>
        if |buf| > 0 {
          var pieces := ForwardErrors(p, SplitAfter(buf));
          cur := [Piece(Debug, buf)] + pieces;
          ReadPiecesText(buf, pieces, false);
          NoDebug(pieces);
          assert buf + "" == buf;
          assert ReadPieces(buf, pieces, false) == cur;
          NoticesSnoc(p, Reads(rs), buf);
        }
    }
  }

  lemma {:induction false} OneMoreTurn(turns: seq<Turn>, k: nat)
    requires k < |turns|
    ensures Stdouts(turns[..k + 1]) == Stdouts(turns[..k]) + [turns[k].stdout]
    ensures Stderrs(turns[..k + 1]) == Stderrs(turns[..k]) + [turns[k].stderr]
  {
  }

  lemma {:induction false} OneMoreRound(rounds: seq<seq<Piece>>, cur: seq<Piece>, more: seq<Piece>)
    requires Sent(Stderr, cur) == "" && Sent(Stdout, more) == ""
    ensures Sent(Stdout, Flat(rounds + [cur + more])) == Sent(Stdout, Flat(rounds)) + Sent(Stdout, cur)
    ensures Sent(Stderr, Flat(rounds + [cur + more])) == Sent(Stderr, Flat(rounds)) + Sent(Stderr, more)
  {
    FlatSnoc(rounds, cur + more);
    SentAppend(Stdout, Flat(rounds), cur + more);
    SentAppend(Stderr, Flat(rounds), cur + more);
    SentAppend(Stdout, cur, more);
    SentAppend(Stderr, cur, more);
    assert Sent(Stdout, cur) + "" == Sent(Stdout, cur) && "" + Sent(Stderr, more) == Sent(Stderr, more);
  }

  /** Both pipes have ended after n turns. */
  ghost predicate BothClosed(turns: seq<Turn>, n: nat)
    requires n <= |turns|
  {
    Closed(Stdouts(turns[..n])) && Closed(Stderrs(turns[..n]))
  }

  /** The turns that the loop takes when no failure cuts it short: up to a stop or the end of both pipes. */
  ghost function Limit(turns: seq<Turn>, n: nat): (k: nat)
    requires n <= |turns|
    ensures n <= k <= |turns|
    decreases |turns| - n
  {
    if n == |turns| || BothClosed(turns, n) || turns[n].stop then n else Limit(turns, n + 1)
  }

  /** What has been established after `turn` turns. After a wrong password the standard error of the same
      turn is not read. */
  ghost predicate LoopInv(p: Patterns, raise: RaiseType, password: string, turns: seq<Turn>,
                          turn: nat, rounds: seq<seq<Piece>>, st: Loop, log: Log) {
    && turn <= |turns| && |rounds| == turn && (st.wrong ==> turn > 0)
    && (forall i | 0 <= i < turn :: !turns[i].stop)
    && OutInv(p, raise.RaiseNone?, password, Stdouts(turns[..turn]), st, log, Sent(Stdout, Flat(rounds)))
    && ErrInv(p, Stderrs(turns[..if st.wrong then turn - 1 else turn]), st, Sent(Stderr, Flat(rounds)))
    && DebugInv(turns, turn, st.wrong, rounds)
  }

  const EMPTY_LOG := Log("", "", "", "", "")

  function FirstLoop(raise: RaiseType): Loop { Loop(Filter(raise.RaiseNone?, false), [], 0, false, false, false) }

  lemma {:induction false} LoopStarts(p: Patterns, raise: RaiseType, password: string, turns: seq<Turn>)
    ensures LoopInv(p, raise, password, turns, 0, [], FirstLoop(raise), EMPTY_LOG)
    ensures !BothClosed(turns, 0)
  {
    StoodStarts(p, raise.RaiseNone?);
    assert Stdouts(turns[..0]) == [] && Stderrs(turns[..0]) == [] && Reads([]) == [];
  }

  lemma {:induction false} StoodStarts(p: Patterns, none: bool)
    ensures Stood(p, none, [], Filter(none, false), false, EMPTY_LOG, false, "")
  {
    assert Early([]) == [];
  }

  method OneTurn(p: Patterns, raise: RaiseType, password: string, turns: seq<Turn>, turn: nat,
                 rounds: seq<seq<Piece>>, st: Loop, ghost log: Log)
    returns (rounds': seq<seq<Piece>>, st': Loop, ghost log': Log)
    requires turn < |turns| && !turns[turn].stop && !st.wrong
    requires LoopInv(p, raise, password, turns, turn, rounds, st, log)
    ensures LoopInv(p, raise, password, turns, turn + 1, rounds', st', log')
  {
    OneMoreTurn(turns, turn);
    var cur, more: seq<Piece> := [], [];
    st', cur, log' := TurnStdout(p, raise.RaiseNone?, password, turns[turn].stdout, st, Stdouts(turns[..turn]), log,
                                 Sent(Stdout, Flat(rounds)));
    if !st'.wrong {
      st', more := TurnStderr(p, turns[turn].stderr, st', Stderrs(turns[..turn]), Sent(Stderr, Flat(rounds)));
    }
    OneMoreRound(rounds, cur, more);
    DebugNext(turns, turn, st'.wrong, rounds, cur, more);
    rounds' := rounds + [cur + more];
  }

  /** How the process ended: with status 0, with another status, or in a way that has no status. */
  datatype Wait = Clean | Exited(status: int) | Lost

  /** The exit code of copy and cmd. */
  function CodeOf(ending: Ending, wait: Wait): (code: int)
    requires !ending.Open?
    ensures ending.Finished? && wait.Clean? ==> code == 0
    ensures ending.Finished? && wait.Exited? ==> code == wait.status
    ensures ending.Finished? && wait.Lost? ==> code == 32500
    ensures !ending.Finished? ==> code == 32501
  {
    if !ending.Finished? then ERR_FORCE_STOP
    else match wait
      case Clean => 0
      case Exited(status) => status
      case Lost => ERR_MAC_OS_EXIT
  }

  /** Why the loop has ended, if it has: a failure, or else the first stop or the end of both pipes. */
  ghost predicate EndInv(turns: seq<Turn>, turn: nat, st: Loop, ending: Ending) {
    && turn <= |turns|
    && (ending.WrongPassword? <==> st.wrong)
    && (if st.wrong then turn <= Limit(turns, 0) else Limit(turns, 0) == Limit(turns, turn))
    && (ending.ForceStopped? ==> turn < |turns| && turns[turn].stop && !BothClosed(turns, turn))
    && (ending.Finished? ==> BothClosed(turns, turn))
    && (ending.Open? ==> !BothClosed(turns, turn))
  }

  function EndingOf(st: Loop): Ending {
    if st.wrong then WrongPassword else if st.stdoutFinished && st.stderrFinished then Finished else Open
  }

  lemma {:induction false} EndNext(p: Patterns, raise: RaiseType, password: string, turns: seq<Turn>, turn: nat,
                                   rounds: seq<seq<Piece>>, st: Loop, log: Log)
    requires turn < |turns| && !turns[turn].stop && !BothClosed(turns, turn) && Limit(turns, 0) == Limit(turns, turn)
    requires LoopInv(p, raise, password, turns, turn + 1, rounds, st, log)
    ensures EndInv(turns, turn + 1, st, EndingOf(st))
  {
  }

  /** What cmd has done when it returns, or when there are no more turns to look at. */
  ghost predicate Outcome(p: Patterns, raise: RaiseType, password: string, turns: seq<Turn>, wait: Wait,
                          rounds: seq<seq<Piece>>, st: Loop, ending: Ending, turn: nat, log: Log, code: int) {
    && LoopInv(p, raise, password, turns, turn, rounds, st, log) && EndInv(turns, turn, st, ending)
    && (ending.Open? ==> turn == |turns|) && (!ending.Open? ==> code == CodeOf(ending, wait))
  }

  /** execLoop: turns until a stop, a failure or the end of both pipes. */
  method ExecLoop(p: Patterns, raise: RaiseType, password: string, turns: seq<Turn>)
    returns (rounds: seq<seq<Piece>>, st: Loop, ending: Ending, turn: nat, ghost log: Log)
    ensures LoopInv(p, raise, password, turns, turn, rounds, st, log) && EndInv(turns, turn, st, ending)
    ensures ending.Open? ==> turn == |turns|
  {
    st := FirstLoop(raise);
    rounds, ending, turn := [], Open, 0;
    log := EMPTY_LOG;
    LoopStarts(p, raise, password, turns);
    while ending.Open? && turn < |turns|
      invariant turn <= |turns| && LoopInv(p, raise, password, turns, turn, rounds, st, log)
      invariant EndInv(turns, turn, st, ending)
      decreases |turns| - turn, if ending.Open? then 1 else 0
    {
      if turns[turn].stop {
        ending := ForceStopped;
      } else {
        rounds, st, log := OneTurn(p, raise, password, turns, turn, rounds, st, log);
        EndNext(p, raise, password, turns, turn, rounds, st, log);
        turn := turn + 1;
        ending := EndingOf(st);
      }
    }
  }

  /** Standard output conservation, exactly. The password is written if and only if a chunk of the first
      four non-empty reads is a prompt; the deleted chunks are the first such prompt and the first echo
      after it; the stream is cut at the first failure after the prompt that is not that echo, and else
      only by a stop; the exit code tells how the command ended. */
  method Cmd(p: Patterns, raise: RaiseType, password: string, turns: seq<Turn>, wait: Wait)
    returns (rounds: seq<seq<Piece>>, st: Loop, ending: Ending, turn: nat, code: int, ghost log: Log)
    ensures Outcome(p, raise, password, turns, wait, rounds, st, ending, turn, log, code)
    ensures ending.Finished? && wait.Clean? ==> code == 0
    ensures ending.Finished? && wait.Exited? ==> code == wait.status
    ensures ending.Finished? && wait.Lost? ==> code == 32500
    ensures ending.ForceStopped? || ending.WrongPassword? ==> code == 32501
  {
    rounds, st, ending, turn, log := ExecLoop(p, raise, password, turns);
    code := 0;
    if !ending.Open? {
      code := CodeOf(ending, wait);
    }
  }
}
