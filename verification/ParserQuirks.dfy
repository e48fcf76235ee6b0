/** Expressions whose reading depends on the last symbol or on the first position, and the exact set of
    regexp texts that an expression can carry. */
module ParserQuirks {
  import opened Basics
  import opened Parser
  import opened ParserCompose
  import opened ParserRoundTrip

  // ---------------------------------------------------------------- which regexps can be written

  predicate Backslashed(re: string) { re != "" && re[|re| - 1] == '\\' }

  /** A regexp under construction ends in a backslash only when no slash comes next, so that the token
      cannot end there. */
  predicate Inv(valid: string -> bool, expr: string, i: nat, c: Config) {
    && (c.state.ReadRegexp? && Backslashed(c.re) && i < |expr| ==> expr[i] != '/')
    && c.ct.regexp.None?
    && forall k | 0 <= k < |c.res| :: c.res[k].regexp.Some? ==> RegexpText(valid, c.res[k].regexp.value)
  }

  lemma {:induction false} RegexpKeeps(valid: string -> bool, expr: string, i: nat, c: Config)
    requires i < |expr| && Inv(valid, expr, i, c) && c.state.ReadRegexp?
    ensures var o := StepRegexp(valid, c, expr[i], Ahead(expr, i), i);
            o.Next? ==> Inv(valid, expr, i + o.used, o.c)
  {
  }

  /** In the other states no token gets a regexp. */
  lemma {:induction false} OthersKeep(valid: string -> bool, expr: string, i: nat, c: Config)
    requires i < |expr| && Inv(valid, expr, i, c) && !c.state.ReadRegexp?
    ensures var o := Step(valid, c, expr[i], Ahead(expr, i), i);
            o.Next? ==> Inv(valid, expr, i + o.used, o.c)
  {
    var o := Step(valid, c, expr[i], Ahead(expr, i), i);
    if o.Next? {
      assert o.c.ct.regexp.None? && (o.c.state.ReadRegexp? ==> o.c.re == "");
      assert o.c.res == c.res || (|o.c.res| == |c.res| + 1 && o.c.res[..|c.res|] == c.res && o.c.res[|c.res|].regexp.None?);
      forall k | 0 <= k < |o.c.res| ensures o.c.res[k].regexp.Some? ==> RegexpText(valid, o.c.res[k].regexp.value) {
        if k < |c.res| {
          assert o.c.res[k] == c.res[k];
        }
      }
    }
  }

  lemma {:induction false} StepKeeps(valid: string -> bool, expr: string, i: nat, c: Config)
    requires i < |expr| && Inv(valid, expr, i, c)
    ensures var o := Step(valid, c, expr[i], Ahead(expr, i), i);
            o.Next? ==> Inv(valid, expr, i + o.used, o.c)
  {
    if c.state.ReadRegexp? {
      RegexpKeeps(valid, expr, i, c);
    } else {
      OthersKeep(valid, expr, i, c);
    }
  }

  predicate AllWritable(valid: string -> bool, r: Result<seq<Token>>) {
    r.Ok? ==> forall k | 0 <= k < |r.value| :: r.value[k].regexp.Some? ==> RegexpText(valid, r.value[k].regexp.value)
  }

  lemma {:induction false} ScanKeeps(valid: string -> bool, expr: string, i: nat, c: Config)
    requires Inv(valid, expr, i, c)
    ensures AllWritable(valid, FinishScan(Scan(valid, expr, i, c)))
    decreases |expr| - i
  {
    if i < |expr| {
      StepKeeps(valid, expr, i, c);
      var o := Step(valid, c, expr[i], Ahead(expr, i), i);
      if o.Next? {
        ScanKeeps(valid, expr, i + o.used, o.c);
        ScanStep(valid, expr, i, c, o.c, o.used);
      } else {
        assert Scan(valid, expr, i, c) == Err(o.error);
      }
    } else {
      assert Scan(valid, expr, i, c) == Ok(c);
      assert AllWritable(valid, Finish(c));
    }
  }

  /** Some accepted expression carries the regexp. */
  ghost predicate Writable(valid: string -> bool, re: string) {
    exists expr :: Carries(valid, expr, re)
  }

  ghost predicate Carries(valid: string -> bool, expr: string, re: string) {
    Parse(valid, expr).Ok? && exists k | 0 <= k < |Parse(valid, expr).value| :: Parse(valid, expr).value[k].regexp == Some(re)
  }

  /** A regexp can be written in an expression if and only if it compiles and does not end in a
      backslash. */
  lemma {:induction false} WritableExactly(valid: string -> bool, re: string)
    ensures Writable(valid, re) <==> RegexpText(valid, re)
  {
    if RegexpText(valid, re) {
      var t := Token(TypeWorkGroup, "", "", [], Some(re), false);
      RoundTrip(valid, [t]);
      var expr := PrintAll([t]);
      assert Parse(valid, expr).value[0].regexp == Some(re);
      assert Carries(valid, expr, re);
    }
    if Writable(valid, re) {
      var expr :| Carries(valid, expr, re);
      ScanKeeps(valid, expr, 0, INITIAL);
    }
  }

  // ---------------------------------------------------------------- single expressions

  /** A host regexp without slashes is accepted and has no filter. */
  lemma {:induction false} TildeWithoutSlashes(valid: string -> bool)
    ensures Parse(valid, "~abc") == Ok([Token(TypeHostRegexp, "abc", "", [], None, false)])
  {
    var t := Token(TypeHostRegexp, "abc", "", [], None, false);
    assert HostText("abc", false) by {
      assert HostText("c", false) && "bc"[1..] == "c" && "abc"[1..] == "bc";
    }
    TokenRoundTrip(valid, t, "");
    assert Print(t) + "" == "~abc";
  }

  // ---------------------------------------------------------------- groups without a name

  predicate OpensFilter(sym: char) { sym in {'@', '#', '/'} }

  predicate Nameless(t: Token) { t.kind.TypeGroup? && t.value == "" }

  /** Token `n` is a group that is finished or that only gets filters from now on, and it is known
      whether it has a name. */
  predicate Settled(c: Config, n: nat, named: bool) {
    if n < |c.res| then c.res[n].kind.TypeGroup? && (c.res[n].value != "" <==> named)
    else
      && n == |c.res| && c.ct.kind.TypeGroup? && (c.ct.value != "" <==> named)
      && (c.state.ReadDatacenter? || c.state.ReadTag? || c.state.ReadRegexp? || (c.state.ReadGroup? && named))
  }

  lemma {:induction false} StepSettled(valid: string -> bool, c: Config, sym: char, ahead: Option<char>, i: nat,
                                       n: nat, named: bool)
    requires Settled(c, n, named)
    ensures var o := Step(valid, c, sym, ahead, i);
            o.Next? ==> Settled(o.c, n, named)
  {
  }

  lemma {:induction false} ScanSettled(valid: string -> bool, expr: string, i: nat, c: Config, n: nat, named: bool)
    requires Settled(c, n, named)
    ensures var r := FinishScan(Scan(valid, expr, i, c));
            r.Ok? ==> n < |r.value| && r.value[n].kind.TypeGroup? && (r.value[n].value != "" <==> named)
    decreases |expr| - i
  {
    if i < |expr| {
      StepSettled(valid, c, expr[i], Ahead(expr, i), i, n, named);
      var o := Step(valid, c, expr[i], Ahead(expr, i), i);
      if o.Next? {
        ScanSettled(valid, expr, i + o.used, o.c, n, named);
      }
    }
  }

  /** The parser waits for a token, perhaps after the dash of an exclusion. */
  predicate AtToken(c: Config) { c.state.Wait? && c.ct == NEW_TOKEN.(exclude := c.ct.exclude) }

  /** A percent sign where a token starts: in an accepted expression it gives a group, which has no name
      if and only if the next symbol opens a filter. A comma next, or nothing, is refused. */
  lemma {:induction false} NamelessGroup(valid: string -> bool, expr: string, i: nat, c: Config)
    requires AtToken(c) && i < |expr| && expr[i] == '%'
    ensures var r := FinishScan(Scan(valid, expr, i, c));
            && (r.Ok? ==> |c.res| < |r.value| && i + 1 < |expr| && r.value[|c.res|].kind.TypeGroup?
                          && (Nameless(r.value[|c.res|]) <==> OpensFilter(expr[i + 1])))
            && (i + 1 == |expr| ==> r == Err(UnexpectedEnd))
            && (i + 1 < |expr| && expr[i + 1] == ',' ==> r == Err(EmptyGroupName(i + 1)))
  {
    var g := c.(state := ReadGroup, ct := c.ct.(kind := TypeGroup));
    ScanStep(valid, expr, i, c, g, 1);
    if i + 1 < |expr| {
      var o := Step(valid, g, expr[i + 1], Ahead(expr, i + 1), i + 1);
      if o.Next? {
        ScanStep(valid, expr, i + 1, g, o.c, 1);
        ScanSettled(valid, expr, i + 2, o.c, |c.res|, !OpensFilter(expr[i + 1]));
      }
    }
  }

  /** From symbol `i` and variables `c` the loop comes to `at`, waiting for a token. */
  ghost predicate StartsToken(valid: string -> bool, expr: string, i: nat, c: Config, at: nat)
    ensures StartsToken(valid, expr, i, c, at) ==> i <= at < |expr|
    decreases |expr| - i
  {
    i < |expr| &&
    if i == at then c.state.Wait?
    else
      var o := Step(valid, c, expr[i], Ahead(expr, i), i);
      o.Next? && StartsToken(valid, expr, i + o.used, o.c, at)
  }

  predicate GroupThenFilter(expr: string, at: nat) {
    at + 1 < |expr| && expr[at] == '%' && OpensFilter(expr[at + 1])
  }

  predicate AnyNameless(ts: seq<Token>) { exists k | 0 <= k < |ts| :: Nameless(ts[k]) }

  /** While waiting nothing of the next token is known, and a dash is all that can come before it. */
  predicate Fresh(c: Config) { c.state.Wait? ==> AtToken(c) }

  lemma {:induction false} StartGives(valid: string -> bool, expr: string, i: nat, c: Config, at: nat)
    requires Fresh(c) && StartsToken(valid, expr, i, c, at) && GroupThenFilter(expr, at)
    ensures var r := FinishScan(Scan(valid, expr, i, c));
            r.Ok? ==> AnyNameless(r.value)
    decreases |expr| - i
  {
    if i == at {
      NamelessGroup(valid, expr, i, c);
    } else {
      var o := Step(valid, c, expr[i], Ahead(expr, i), i);
      assert Fresh(o.c);
      StartGives(valid, expr, i + o.used, o.c, at);
      ScanStep(valid, expr, i, c, o.c, o.used);
    }
  }

  /** No group without a name so far, and the one under construction is about to get its name. */
  predicate AllNamed(expr: string, i: nat, c: Config) {
    && Fresh(c) && !AnyNameless(c.res)
    && (Nameless(c.ct) ==> c.state.ReadGroup? && (i < |expr| ==> !OpensFilter(expr[i])))
  }

  lemma {:induction false} StepPushes(valid: string -> bool, c: Config, sym: char, ahead: Option<char>, i: nat)
    ensures var o := Step(valid, c, sym, ahead, i);
            o.Next? && o.c.res != c.res ==> |o.c.res| == |c.res| + 1 && o.c.res == c.res + [o.c.res[|c.res|]]
  {
  }

  lemma {:induction false} OneMore(ts: seq<Token>, t: Token)
    ensures AnyNameless(ts + [t]) <==> AnyNameless(ts) || Nameless(t)
  {
    if k :| 0 <= k < |ts| && Nameless(ts[k]) {
      assert (ts + [t])[k] == ts[k];
    }
    assert (ts + [t])[|ts|] == t;
  }

  /** A step does not lose the chance of a name, and pushes no group without one. */
  predicate KeepsName(expr: string, i: nat, c: Config, o: Outcome) {
    o.Next? ==>
      && Fresh(o.c) && (|o.c.res| > |c.res| ==> !Nameless(o.c.res[|c.res|]))
      && (Nameless(o.c.ct) ==> o.c.state.ReadGroup? && (i + o.used < |expr| ==> !OpensFilter(expr[i + o.used])))
  }

  lemma {:induction false} WaitKeepsName(expr: string, i: nat, c: Config)
    requires i < |expr| && AllNamed(expr, i, c) && c.state.Wait? && !GroupThenFilter(expr, i)
    ensures KeepsName(expr, i, c, StepWait(c, expr[i], i))
  {
  }

  lemma {:induction false} GroupKeepsName(expr: string, i: nat, c: Config)
    requires i < |expr| && AllNamed(expr, i, c) && (c.state.ReadGroup? || c.state.ReadWorkGroup?)
    ensures KeepsName(expr, i, c, StepGroup(c, expr[i], Ahead(expr, i).None?, i))
  {
  }

  lemma {:induction false} OthersKeepName(valid: string -> bool, expr: string, i: nat, c: Config)
    requires i < |expr| && AllNamed(expr, i, c) && !c.state.Wait? && !c.state.ReadGroup? && !c.state.ReadWorkGroup?
    ensures KeepsName(expr, i, c, Step(valid, c, expr[i], Ahead(expr, i), i))
  {
  }

  lemma {:induction false} StepNamed(valid: string -> bool, expr: string, i: nat, c: Config)
    requires i < |expr| && AllNamed(expr, i, c) && (c.state.Wait? ==> !GroupThenFilter(expr, i))
    ensures var o := Step(valid, c, expr[i], Ahead(expr, i), i);
            o.Next? ==> AllNamed(expr, i + o.used, o.c)
  {
    var o := Step(valid, c, expr[i], Ahead(expr, i), i);
    match c.state {
      case Wait => WaitKeepsName(expr, i, c);
      case ReadGroup => GroupKeepsName(expr, i, c);
      case ReadWorkGroup => GroupKeepsName(expr, i, c);
      case _ => OthersKeepName(valid, expr, i, c);
    }
    if o.Next? && o.c.res != c.res {
      StepPushes(valid, c, expr[i], Ahead(expr, i), i);
      OneMore(c.res, o.c.res[|c.res|]);
    }
  }

  lemma {:induction false} NoStartGivesNone(valid: string -> bool, expr: string, i: nat, c: Config)
    requires AllNamed(expr, i, c)
    requires forall at | StartsToken(valid, expr, i, c, at) :: !GroupThenFilter(expr, at)
    ensures var r := FinishScan(Scan(valid, expr, i, c));
            r.Ok? ==> !AnyNameless(r.value)
    decreases |expr| - i
  {
    if i < |expr| {
      assert c.state.Wait? ==> StartsToken(valid, expr, i, c, i);
      StepNamed(valid, expr, i, c);
      var o := Step(valid, c, expr[i], Ahead(expr, i), i);
      if o.Next? {
        forall at | StartsToken(valid, expr, i + o.used, o.c, at) ensures !GroupThenFilter(expr, at) {
          assert StartsToken(valid, expr, i, c, at);
        }
        NoStartGivesNone(valid, expr, i + o.used, o.c);
        ScanStep(valid, expr, i, c, o.c, o.used);
      }
    }
  }

  /** An accepted expression has a group without a name if and only if somewhere a token starts with a
      percent sign followed by the mark of a datacenter, a tag or a regexp. */
  lemma {:induction false} NamelessExactly(valid: string -> bool, expr: string)
    requires Parse(valid, expr).Ok?
    ensures AnyNameless(Parse(valid, expr).value) <==>
            exists at :: StartsToken(valid, expr, 0, INITIAL, at) && GroupThenFilter(expr, at)
  {
    if at :| StartsToken(valid, expr, 0, INITIAL, at) && GroupThenFilter(expr, at) {
      StartGives(valid, expr, 0, INITIAL, at);
    } else {
      NoStartGivesNone(valid, expr, 0, INITIAL);
    }
  }

  /** A datacenter... */
  lemma {:induction false} NamelessDatacenter(valid: string -> bool)
    ensures Parse(valid, "%@dc") == Ok([Token(TypeGroup, "", "dc", [], None, false)])
  {
    var t := Token(TypeGroup, "", "dc", [], None, false);
    TokenRoundTrip(valid, t, "");
    assert Print(t) + "" == "%@dc";
  }

  /** ... a tag... */
  lemma {:induction false} NamelessTag(valid: string -> bool)
    ensures Parse(valid, "%#t") == Ok([Token(TypeGroup, "", "", ["t"], None, false)])
  {
    var t := Token(TypeGroup, "", "", ["t"], None, false);
    TokenRoundTrip(valid, t, "");
    assert Print(t) + "" == "%#t";
  }

  /** ... or an empty datacenter, which filters nothing. */
  lemma {:induction false} NamelessUnfiltered(valid: string -> bool)
    ensures Parse(valid, "%@,") == Ok([Token(TypeGroup, "", "", [], None, false)])
  {
    var e, d := "%@,", Located(TypeGroup, "", "");
    assert e == PrintKind(TypeGroup) + ("" + "@,") && "@" + ("" + ",") == "@,";
    ReadToMark(valid, e, TypeGroup, "", "@,");
    ReadFromMark(valid, e, 1, TypeGroup, "", "", ",");
    LastStep(valid, e, 2, d, d);
    assert [] + [d.ct] == [Token(TypeGroup, "", "", [], None, false)];
  }

  // ---------------------------------------------------------------- the first and the last symbol

  lemma {:induction false} BraceHost(valid: string -> bool, v: string)
    requires HostText(v, false)
    ensures Parse(valid, "{" + v + ",") == Ok([Token(TypeHost, "{" + v, "", [], None, false)])
  {
    var t := Token(TypeHost, "{" + v, "", [], None, false);
    assert ("{" + v)[1..] == v;
    TokenRoundTrip(valid, t, ",");
    NoFilters(t);
    assert Print(t) + "," == "{" + v + ",";
  }

  /** A brace in the first position opens no pattern: the next comma ends the host, whatever host text
      stands between and whatever follows. */
  lemma {:induction false} BraceFirst(valid: string -> bool, v: string, w: string)
    requires HostText(v, false)
    ensures Parse(valid, "{" + v + "," + w) ==
            After([Token(TypeHost, "{" + v, "", [], None, false)], |v| + 2, Parse(valid, w))
  {
    BraceHost(valid, v);
    ParseConcat(valid, "{" + v + ",", w);
  }

  /** The variables inside the datacenter of a group or workgroup. */
  function Located(k: TokenType, g: string, d: string): Config {
    INITIAL.(state := ReadDatacenter, ct := NEW_TOKEN.(kind := k, value := g, datacenter := d))
  }

  /** The variables inside the name of a group or workgroup, once it is read. */
  function InName(k: TokenType, g: string): Config {
    var c := Started(false, k);
    c.(ct := c.ct.(value := g))
  }

  /** The loop comes to symbol `i` of the expression with the given variables, and this is what follows. */
  ghost predicate Reached(valid: string -> bool, e: string, i: nat, c: Config, rest: string) {
    i <= |e| && e[i..] == rest && Scan(valid, e, 0, INITIAL) == Scan(valid, e, i, c)
  }

  lemma {:induction false} ReadToMark(valid: string -> bool, e: string, k: TokenType, g: string, rest: string)
    requires k.TypeGroup? || k.TypeWorkGroup?
    requires AllPlain(ReadGroup, g) && rest != "" && e == PrintKind(k) + (g + rest)
    ensures Reached(valid, e, |g| + 1, InName(k, g), rest)
  {
    assert Dashed(false) == INITIAL && e[0..] == e;
    ReadMark(valid, e, 0, false, k, g + rest);
    ReadNameText(valid, e, 1, Started(false, k), g, rest);
  }

  lemma {:induction false} ReadFromMark(valid: string -> bool, e: string, i: nat, k: TokenType, g: string, d: string,
                                        rest: string)
    requires k.TypeGroup? || k.TypeWorkGroup?
    requires AllPlain(ReadDatacenter, d) && rest != "" && Reached(valid, e, i, InName(k, g), "@" + (d + rest))
    ensures Reached(valid, e, i + 1 + |d|, Located(k, g, d), rest)
  {
    var c := InName(k, g);
    OpenDatacenter(valid, e, i, c, d + rest);
    ReadDatacenterName(valid, e, i + 1, c.(state := ReadDatacenter), d, rest);
  }

  lemma {:induction false} MarkLast(valid: string -> bool, e: string, n: nat, k: TokenType, g: string, d: string,
                                    mark: char)
    requires mark in {'#', '/'} && Reached(valid, e, n, Located(k, g, d), [mark])
    ensures Parse(valid, e) == Ok([Token(k, g, d + [mark], [], None, false)])
  {
    assert e[n] == e[n..][0] == mark && n + 1 == |e|;
    LastStep(valid, e, n, Located(k, g, d), Located(k, g, d + [mark]));
    assert [] + [Located(k, g, d + [mark]).ct] == [Token(k, g, d + [mark], [], None, false)];
  }

  lemma {:induction false} MarkThenComma(valid: string -> bool, e: string, n: nat, k: TokenType, g: string, d: string,
                                         mark: char)
    requires mark in {'#', '/'} && Reached(valid, e, n, Located(k, g, d), [mark, ','])
    ensures Parse(valid, e) == Err(if mark == '#' then EmptyTag(n + 1) else UnexpectedEnd)
  {
    assert e[n] == e[n..][0] == mark && e[n + 1] == e[n..][1] == ',' && n + 2 == |e|;
    var c := Located(k, g, d);
    if mark == '#' {
      ScanStep(valid, e, n, c, EnterTag(c), 1);
      assert Step(valid, EnterTag(c), e[n + 1], Ahead(e, n + 1), n + 1) == Fail(EmptyTag(n + 1));
    } else {
      var re := EnterRegexp(c);
      ScanStep(valid, e, n, c, re, 1);
      ScanStep(valid, e, n + 1, re, re.(re := re.re + [',']), 1);
    }
  }

  /** The mark of a tag or a regexp that is the last symbol belongs to the datacenter... */
  lemma {:induction false} MarkAtTheEnd(valid: string -> bool, k: TokenType, g: string, d: string, mark: char)
    requires k.TypeGroup? || k.TypeWorkGroup?
    requires AllPlain(ReadGroup, g) && AllPlain(ReadDatacenter, d) && mark in {'#', '/'}
    ensures Parse(valid, PrintKind(k) + (g + ("@" + (d + [mark])))) == Ok([Token(k, g, d + [mark], [], None, false)])
  {
    var e := PrintKind(k) + (g + ("@" + (d + [mark])));
    ReadToMark(valid, e, k, g, "@" + (d + [mark]));
    ReadFromMark(valid, e, |g| + 1, k, g, d, [mark]);
    MarkLast(valid, e, |g| + 1 + 1 + |d|, k, g, d, mark);
  }

  /** ... and before a comma it opens a tag, which is empty, or a regexp, which never ends. */
  lemma {:induction false} MarkBeforeComma(valid: string -> bool, k: TokenType, g: string, d: string, mark: char)
    requires k.TypeGroup? || k.TypeWorkGroup?
    requires AllPlain(ReadGroup, g) && AllPlain(ReadDatacenter, d) && mark in {'#', '/'}
    ensures Parse(valid, PrintKind(k) + (g + ("@" + (d + [mark, ','])))) ==
            Err(if mark == '#' then EmptyTag(|g| + |d| + 3) else UnexpectedEnd)
  {
    var e := PrintKind(k) + (g + ("@" + (d + [mark, ','])));
    ReadToMark(valid, e, k, g, "@" + (d + [mark, ',']));
    ReadFromMark(valid, e, |g| + 1, k, g, d, [mark, ',']);
    MarkThenComma(valid, e, |g| + 1 + 1 + |d|, k, g, d, mark);
  }
}
