/** The read loop of a copy (src/remote/copy.go): standard output is dropped, standard error is forwarded
    without ssh notices, and both are copied to the debug stream. */
module CopyStream {
  import opened Basics
  import opened Remote
  import opened CmdStream

  /** The two flags of the loop. */
  datatype Pipes = Pipes(stdoutFinished: bool, stderrFinished: bool)

  predicate Quiet(out: seq<Piece>) { forall i | 0 <= i < |out| :: !out[i].stream.Stdout? }

  predicate AllQuiet(rounds: seq<seq<Piece>>) { forall k | 0 <= k < |rounds| :: Quiet(rounds[k]) }

  predicate AllDebug(out: seq<Piece>) { forall i | 0 <= i < |out| :: out[i].stream == Debug }

  lemma {:induction false} DebugOnly(before: seq<Piece>)
    requires AllDebug(before)
    ensures Sent(Stderr, before) == "" && Quiet(before)
  {
    forall i | 0 <= i < |before| ensures TextOf(Stderr)(before[i]) == "" {}
    FlatMapNone(TextOf(Stderr), before);
  }

  /** The debug copies of a read are no standard error. */
  lemma {:induction false} DebugAround(before: seq<Piece>, pieces: seq<Piece>, last: Piece)
    requires AllDebug(before) && Quiet(pieces) && last.stream == Debug
    ensures Sent(Stderr, before + pieces + [last]) == Sent(Stderr, pieces) && Quiet(before + pieces + [last])
    ensures Sent(Debug, before + pieces + [last]) == Sent(Debug, before) + Sent(Debug, pieces) + last.data
  {
    DebugOnly(before);
    SentAppend(Debug, before, pieces);
    SentSnoc(Debug, before + pieces, last);
    QuietAround(before, pieces, last);
    SentAppend(Stderr, before, pieces);
    SentSnoc(Stderr, before + pieces, last);
    NothingBefore(Sent(Stderr, pieces));
  }

  lemma {:induction false} QuietAround(before: seq<Piece>, pieces: seq<Piece>, last: Piece)
    requires Quiet(before) && Quiet(pieces) && last.stream == Debug
    ensures Quiet(before + pieces + [last])
  {
  }

  lemma {:induction false} NothingBefore(s: string)
    ensures "" + s == s
  {
  }

  /** After some reads of both pipes: nothing is standard output, standard error is what was read less
      the notices, and the flags say which pipes have ended. */
  ghost predicate CopyInv(p: Patterns, outs: seq<Read>, errs: seq<Read>, st: Pipes, out: seq<Piece>) {
    && Sent(Stderr, out) == Notices(p, Reads(errs))
    && st.stdoutFinished == Closed(outs) && st.stderrFinished == Closed(errs)
  }

  method CopyStdout(r: Read, st: Pipes, ghost outs: seq<Read>) returns (st': Pipes, cur: seq<Piece>)
    requires st.stdoutFinished == Closed(outs)
    ensures st' == st.(stdoutFinished := Closed(outs + [r]))
    ensures AllDebug(cur) && NoneEmpty(cur) && Sent(Debug, cur) == Copied(outs, r)
  {
    ReadsSnoc(outs, r);
    st', cur := st, [];
    if !st.stdoutFinished {
      match r
      case Eof => st' := st.(stdoutFinished := true);
      case Data(buf) =>
        if |buf| > 0 {
          cur := [Piece(Debug, buf)];
          SentOne(Debug, cur[0]);
        }
    }
  }

  /** What one more read of standard error adds to what a reader should see. */
  ghost function Seen(p: Patterns, errs: seq<Read>, r: Read): string {
    if Closed(errs) || r.Eof? || r.buf == "" then "" else Join(Kept(p, SplitAfter(r.buf)))
  }

  lemma {:induction false} SeenNext(p: Patterns, errs: seq<Read>, r: Read)
    ensures Notices(p, Reads(errs + [r])) == Notices(p, Reads(errs)) + Seen(p, errs, r)
    ensures Closed(errs + [r]) == (Closed(errs) || r.Eof?)
  {
    ReadsSnoc(errs, r);
    if Seen(p, errs, r) == "" {
      assert Notices(p, Reads(errs)) + "" == Notices(p, Reads(errs));
    }
    if !Closed(errs) && r.Data? && r.buf != "" {
      NoticesSnoc(p, Reads(errs), r.buf);
    }
  }

  method CopyStderr(p: Patterns, r: Read, st: Pipes, before: seq<Piece>, ghost errs: seq<Read>)
    returns (st': Pipes, cur: seq<Piece>)
    requires st.stderrFinished == Closed(errs)
    requires AllDebug(before) && NoneEmpty(before)
    ensures st' == st.(stderrFinished := Closed(errs) || r.Eof?)
    ensures Quiet(cur) && Sent(Stderr, cur) == Seen(p, errs, r)
    ensures NoneEmpty(cur) && Sent(Debug, cur) == Sent(Debug, before) + Copied(errs, r)
  {
    DebugOnly(before);
    assert Sent(Debug, before) + "" == Sent(Debug, before);
    st', cur := st, before;
    if !st.stderrFinished {
      match r
      case Eof => st' := st.(stderrFinished := true);
      case Data(buf) =>
        if |buf| > 0 {
          var pieces := ForwardErrors(p, SplitAfter(buf));
          NoDebug(pieces);
          DebugAround(before, pieces, Piece(Debug, buf));
          cur := before + pieces + [Piece(Debug, buf)];
        }
    }
  }

  /** The loop after some turns, none of which was stopped. */
  ghost predicate CopyLoop(p: Patterns, turns: seq<Turn>, turn: nat, rounds: seq<seq<Piece>>, st: Pipes) {
    && turn <= |turns| && |rounds| == turn && AllQuiet(rounds) && (forall i | 0 <= i < turn :: !turns[i].stop)
    && CopyInv(p, Stdouts(turns[..turn]), Stderrs(turns[..turn]), st, Flat(rounds))
    && DebugInv(turns, turn, false, rounds)
  }

  lemma {:induction false} CopyNext(p: Patterns, turns: seq<Turn>, turn: nat, rounds: seq<seq<Piece>>, st: Pipes,
                                    st': Pipes, cur: seq<Piece>)
    requires turn < |turns| && !turns[turn].stop && CopyLoop(p, turns, turn, rounds, st) && Quiet(cur)
    requires Sent(Stderr, cur) == Seen(p, Stderrs(turns[..turn]), turns[turn].stderr)
    requires st'.stdoutFinished == Closed(Stdouts(turns[..turn]) + [turns[turn].stdout])
    requires st'.stderrFinished == (Closed(Stderrs(turns[..turn])) || turns[turn].stderr.Eof?)
    requires NoneEmpty(cur)
    requires Sent(Debug, cur) == Copied(Stdouts(turns[..turn]), turns[turn].stdout) + Copied(Stderrs(turns[..turn]), turns[turn].stderr)
    ensures CopyLoop(p, turns, turn + 1, rounds + [cur], st')
  {
    OneMoreTurn(turns, turn);
    SeenNext(p, Stderrs(turns[..turn]), turns[turn].stderr);
    FlatSnoc(rounds, cur);
    SentAppend(Stderr, Flat(rounds), cur);
    SentAppend(Debug, Flat(rounds), cur);
    Reassociate(Sent(Debug, Flat(rounds)), Copied(Stdouts(turns[..turn]), turns[turn].stdout),
                Copied(Stderrs(turns[..turn]), turns[turn].stderr));
  }

  /** One turn of the loop after checkStop. */
  method CopyTurn(p: Patterns, turns: seq<Turn>, turn: nat, rounds: seq<seq<Piece>>, st: Pipes)
    returns (rounds': seq<seq<Piece>>, st': Pipes)
    requires turn < |turns| && !turns[turn].stop && CopyLoop(p, turns, turn, rounds, st)
    ensures CopyLoop(p, turns, turn + 1, rounds', st')
  {
    var cur: seq<Piece>;
    st', cur := CopyStdout(turns[turn].stdout, st, Stdouts(turns[..turn]));
    st', cur := CopyStderr(p, turns[turn].stderr, st', cur, Stderrs(turns[..turn]));
    CopyNext(p, turns, turn, rounds, st, st', cur);
    rounds' := rounds + [cur];
  }

  /** The loop goes on exactly until the first stop or the end of both pipes. */
  ghost predicate CopyEnded(turns: seq<Turn>, turn: nat, ending: Ending) {
    && turn <= |turns| && Limit(turns, 0) == Limit(turns, turn)
    && match ending
       case Open => !BothClosed(turns, turn)
       case ForceStopped => turn < |turns| && turns[turn].stop && !BothClosed(turns, turn)
       case Finished => BothClosed(turns, turn)
       case WrongPassword => false
  }

  lemma {:induction false} CopyStarts(p: Patterns, turns: seq<Turn>)
    ensures CopyLoop(p, turns, 0, [], Pipes(false, false)) && CopyEnded(turns, 0, Open)
  {
  }

  lemma {:induction false} CopyGoesOn(p: Patterns, turns: seq<Turn>, turn: nat, rounds: seq<seq<Piece>>, st: Pipes)
    requires turn < |turns| && !turns[turn].stop && CopyEnded(turns, turn, Open)
    requires CopyLoop(p, turns, turn + 1, rounds, st)
    ensures CopyEnded(turns, turn + 1, if st.stdoutFinished && st.stderrFinished then Finished else Open)
  {
  }

  /** A copy forwards no standard output whatever scp prints, forwards its standard error in order less
      the ssh notices, and ends with the end of both pipes or with a stop token. */
  method Copy(p: Patterns, turns: seq<Turn>, wait: Wait)
    returns (rounds: seq<seq<Piece>>, st: Pipes, ending: Ending, turn: nat, code: int)
    ensures CopyLoop(p, turns, turn, rounds, st) && CopyEnded(turns, turn, ending)
    ensures ending.Open? ==> turn == |turns|
    ensures !ending.Open? ==> code == CodeOf(ending, wait)
    ensures ending.Finished? && wait.Clean? ==> code == 0
    ensures ending.Finished? && wait.Exited? ==> code == wait.status
    ensures ending.Finished? && wait.Lost? ==> code == 32500
    ensures ending.ForceStopped? ==> code == 32501
  {
    rounds, st, ending, turn, code := [], Pipes(false, false), Open, 0, 0;
    CopyStarts(p, turns);
    while ending.Open? && turn < |turns|
      invariant turn <= |turns| && CopyLoop(p, turns, turn, rounds, st) && CopyEnded(turns, turn, ending)
      decreases |turns| - turn, if ending.Open? then 1 else 0
    {
      if turns[turn].stop {
        ending := ForceStopped;
      } else {
        rounds, st := CopyTurn(p, turns, turn, rounds, st);
        CopyGoesOn(p, turns, turn, rounds, st);
        turn := turn + 1;
        if st.stdoutFinished && st.stderrFinished {
          ending := Finished;
        }
      }
    }
    if !ending.Open? {
      code := CodeOf(ending, wait);
    }
  }
}
