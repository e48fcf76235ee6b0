/** Compositionality of the parser: a comma that ends an accepted expression cuts the input in two
    expressions that do not see each other, whatever the lookahead, the index skips and the tests for
    the last symbol do inside (src/parser/parser.go:71-85, 180-206, 219-227). */
module ParserCompose {
  import opened Basics
  import opened Parser

  function ShiftError(e: ParseError, k: nat): ParseError {
    match e
    case InvalidSymbol(sym, at) => InvalidSymbol(sym, at + k)
    case EmptyGroupName(at) => EmptyGroupName(at + k)
    case NestedPattern(at) => NestedPattern(at + k)
    case EmptyTag(at) => EmptyTag(at + k)
    case BadRegexp(at) => BadRegexp(at + k)
    case UnexpectedEnd => UnexpectedEnd
  }

  /** The result of reading `k` symbols for `ts` and then whatever `r` is the result of. */
  function After(ts: seq<Token>, k: nat, r: Result<seq<Token>>): Result<seq<Token>> {
    match r
    case Ok(us) => Ok(ts + us)
    case Err(e) => Err(ShiftError(e, k))
  }

  /** Two configurations that continue alike, the first with `ts` already produced. The variables tag
      and re only matter in their own states: both are reset on entry. */
  predicate Like(a: Config, b: Config, ts: seq<Token>) {
    && a.state == b.state && a.ct == b.ct && a.res == ts + b.res
    && (a.state.ReadTag? ==> a.tag == b.tag)
    && (a.state.ReadRegexp? ==> a.re == b.re)
  }

  predicate SameOutcome(x: Outcome, y: Outcome, ts: seq<Token>, k: nat) {
    match (x, y)
    case (Fail(e), Fail(e')) => e == ShiftError(e', k)
    case (Next(a', n), Next(b', n')) => n == n' && Like(a', b', ts)
    case _ => false
  }

  lemma {:induction false} StepLike(valid: string -> bool, a: Config, b: Config, ts: seq<Token>, sym: char,
                                    ahead: Option<char>, i: nat, k: nat)
    requires Like(a, b, ts)
    ensures SameOutcome(Step(valid, a, sym, ahead, i + k), Step(valid, b, sym, ahead, i), ts, k)
  {
    match b.state
    case Wait =>
    case ReadHostBracePattern =>
    case ReadTag => TagLike(a, b, ts, sym, ahead.None?, i, k);
    case ReadRegexp => RegexpLike(valid, a, b, ts, sym, ahead, i, k);
    case ReadDatacenter => DatacenterLike(a, b, ts, sym, ahead.None?, k);
    case ReadHost => HostLike(a, b, ts, sym, ahead.None?, k);
    case _ => GroupLike(a, b, ts, sym, ahead.None?, i, k);
  }

  lemma {:induction false} TagLike(a: Config, b: Config, ts: seq<Token>, sym: char, last: bool, i: nat, k: nat)
    requires Like(a, b, ts) && b.state.ReadTag?
    ensures SameOutcome(StepTag(a, sym, last, i + k), StepTag(b, sym, last, i), ts, k)
  {
    PushLike(ts, b.res, AddTag(b, b.tag + [sym]).ct);
    PushLike(ts, b.res, AddTag(b, b.tag).ct);
  }

  lemma {:induction false} RegexpLike(valid: string -> bool, a: Config, b: Config, ts: seq<Token>, sym: char,
                                      ahead: Option<char>, i: nat, k: nat)
    requires Like(a, b, ts) && b.state.ReadRegexp?
    ensures SameOutcome(StepRegexp(valid, a, sym, ahead, i + k), StepRegexp(valid, b, sym, ahead, i), ts, k)
  {
    PushLike(ts, b.res, b.ct.(regexp := Some(b.re)));
  }

  lemma {:induction false} DatacenterLike(a: Config, b: Config, ts: seq<Token>, sym: char, last: bool, k: nat)
    requires Like(a, b, ts) && b.state.ReadDatacenter?
    ensures SameOutcome(StepDatacenter(a, sym, last), StepDatacenter(b, sym, last), ts, k)
  {
    PushLike(ts, b.res, b.ct);
    PushLike(ts, b.res, b.ct.(datacenter := b.ct.datacenter + [sym]));
  }

  lemma {:induction false} HostLike(a: Config, b: Config, ts: seq<Token>, sym: char, last: bool, k: nat)
    requires Like(a, b, ts) && b.state.ReadHost?
    ensures SameOutcome(StepHost(a, sym, last), StepHost(b, sym, last), ts, k)
  {
    PushLike(ts, b.res, b.ct);
    PushLike(ts, b.res, b.ct.(value := b.ct.value + [sym]));
  }

  lemma {:induction false} GroupLike(a: Config, b: Config, ts: seq<Token>, sym: char, last: bool, i: nat, k: nat)
    requires Like(a, b, ts) && (b.state.ReadGroup? || b.state.ReadWorkGroup?)
    ensures SameOutcome(StepGroup(a, sym, last, i + k), StepGroup(b, sym, last, i), ts, k)
  {
    PushLike(ts, b.res, b.ct);
    PushLike(ts, b.res, b.ct.(value := b.ct.value + [sym]));
  }

  lemma {:induction false} PushLike(ts: seq<Token>, res: seq<Token>, t: Token)
    ensures ts + res + [t] == ts + (res + [t])
  {
  }

  /** Reading a suffix of a longer input is reading that suffix on its own. */
  lemma {:induction false} ScanLike(valid: string -> bool, p: string, b: string, j: nat, x: Config, y: Config,
                                    ts: seq<Token>)
    requires Like(x, y, ts) && j <= |b|
    ensures FinishScan(Scan(valid, p + b, |p| + j, x)) == After(ts, |p|, FinishScan(Scan(valid, b, j, y)))
    decreases |b| - j
  {
    if j < |b| {
      assert (p + b)[|p| + j] == b[j] && Ahead(p + b, |p| + j) == Ahead(b, j);
      StepLike(valid, x, y, ts, b[j], Ahead(b, j), j, |p|);
      var o := Step(valid, y, b[j], Ahead(b, j), j);
      var o' := Step(valid, x, b[j], Ahead(b, j), |p| + j);
      if o.Next? {
        ScanLike(valid, p, b, j + o.used, o'.c, o.c, ts);
      }
    } else {
      assert ts + y.res + [y.ct] == ts + (y.res + [y.ct]);
    }
  }

  /** The comma that ends an accepted expression is read the same way when more follows, and leaves the
      parser waiting for a new token. */
  lemma {:induction false} CommaStep(valid: string -> bool, c: Config, ahead: Option<char>, i: nat)
    requires var o := Step(valid, c, ',', None, i);
             o.Next? && Finish(o.c).Ok?
    ensures var o := Step(valid, c, ',', None, i);
            Step(valid, c, ',', ahead, i) == o && o.c.state.Wait? && o.c.ct == NEW_TOKEN
  {
  }

  lemma {:induction false} ScanPrefix(valid: string -> bool, p: string, b: string, i: nat, c: Config)
    requires i < |p| && p[|p| - 1] == ','
    requires Scan(valid, p, i, c).Ok? && Finish(Scan(valid, p, i, c).value).Ok?
    ensures var end := Scan(valid, p, i, c).value;
            && Scan(valid, p + b, i, c) == Scan(valid, p + b, |p|, end)
            && end.state.Wait? && end.ct == NEW_TOKEN
    decreases |p| - i
  {
    var o := Step(valid, c, p[i], Ahead(p, i), i);
    assert (p + b)[i] == p[i];
    if i == |p| - 1 {
      CommaStep(valid, c, Ahead(p + b, i), i);
    } else {
      assert Ahead(p + b, i) == Ahead(p, i);
      if i + o.used < |p| {
        ScanPrefix(valid, p, b, i + o.used, o.c);
      } else {
        assert o.c == Push(c.(ct := c.ct.(regexp := Some(c.re))));
      }
    }
  }

  /** If p is empty or ends in a comma and parses to ts, then p followed by b parses exactly as b does,
      with ts in front of its tokens or with the position of its error moved by the length of p. */
  lemma {:induction false} ParseConcat(valid: string -> bool, p: string, b: string)
    requires p == "" || p[|p| - 1] == ','
    requires Parse(valid, p).Ok?
    ensures Parse(valid, p + b) == After(Parse(valid, p).value, |p|, Parse(valid, b))
  {
    var end := Scan(valid, p, 0, INITIAL).value;
    if p != "" {
      ScanPrefix(valid, p, b, 0, INITIAL);
    }
    ScanLike(valid, p, b, 0, end, INITIAL, end.res);
  }

  /** In particular p followed by b is accepted exactly when b is. */
  lemma {:induction false} ConcatAccepted(valid: string -> bool, p: string, b: string)
    requires p == "" || p[|p| - 1] == ','
    requires Parse(valid, p).Ok?
    ensures Parse(valid, p + b).Ok? <==> Parse(valid, b).Ok?
    ensures Parse(valid, b).Ok? ==> Parse(valid, p + b).value == Parse(valid, p).value + Parse(valid, b).value
  {
    ParseConcat(valid, p, b);
  }
}
