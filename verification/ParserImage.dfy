/** What an accepted expression can give: every token is one that can be printed and read again, but for two
    kinds of empty tokens and for a last token that swallowed a mark or a brace (src/parser/parser.go:64-309). */
module ParserImage {
  import opened Basics
  import opened Parser
  import opened ParserCompose
  import opened ParserRoundTrip
  import PS = ParserShape
  import PQ = ParserQuirks

  // ---------------------------------------------------------------- the texts of a token

  /** Host text from one position to another, inside braces or not at either of them. */
  predicate HostRun(v: string, inside: bool, after: bool) {
    if v == "" then inside == after
    else if inside then v[0] != '{' && HostRun(v[1..], v[0] != '}', after)
    else v[0] != ',' && v[0] != '/' && HostRun(v[1..], v[0] == '{', after)
  }

  lemma {:induction false} HostRunEnds(v: string, inside: bool)
    ensures HostRun(v, inside, false) <==> HostText(v, inside)
    decreases |v|
  {
    if v != "" {
      HostRunEnds(v[1..], if inside then v[0] != '}' else v[0] == '{');
    }
  }

  lemma {:induction false} HostRunSnoc(v: string, inside: bool, mid: bool, sym: char)
    requires HostRun(v, inside, mid) && (if mid then sym != '{' else sym != ',' && sym != '/')
    ensures HostRun(v + [sym], inside, if mid then sym != '}' else sym == '{')
    decreases |v|
  {
    if v == "" {
      assert v + [sym] == [sym];
    } else {
      assert (v + [sym])[1..] == v[1..] + [sym];
      HostRunSnoc(v[1..], if inside then v[0] != '}' else v[0] == '{', mid, sym);
    }
  }

  /** A host or host regexp as far as its name has been read. */
  predicate HostSoFar(t: Token, inside: bool) {
    && t.datacenter == "" && t.tags == []
    && match t.kind
       case TypeHost => t.value != "" && t.value[0] != '-' && HostSymbol(t.value[0]) && HostRun(t.value[1..], false, inside)
       case TypeHostRegexp => HostRun(t.value, false, inside)
       case _ => false
  }

  /** A group or workgroup as far as it has been read. */
  predicate GroupSoFar(t: Token) {
    && PS.Filtered(t.kind) && AllPlain(ReadGroup, t.value) && AllPlain(ReadDatacenter, t.datacenter)
    && forall i | 0 <= i < |t.tags| :: AllPlain(ReadTag, t.tags[i])
  }

  predicate Spelled(t: Token) { HostSoFar(t, false) || GroupSoFar(t) }

  predicate AllSpelled(ts: seq<Token>) { forall k | 0 <= k < |ts| :: Spelled(ts[k]) }

  /** The texts of the token under construction. */
  predicate Building(c: Config) {
    match c.state
    case Wait => c.ct == NEW_TOKEN.(exclude := c.ct.exclude)
    case ReadHost => HostSoFar(c.ct, false)
    case ReadHostBracePattern => HostSoFar(c.ct, true)
    case ReadRegexp => Spelled(c.ct)
    case ReadTag => GroupSoFar(c.ct) && AllPlain(ReadTag, c.tag)
    case _ => GroupSoFar(c.ct)
  }

  predicate Inv(c: Config) { Building(c) && c.ct.regexp.None? && AllSpelled(c.res) }

  // ---------------------------------------------------------------- one iteration

  /** The symbols that a last position turns into text. */
  predicate Swallowed(sym: char) { sym in {'#', '/', '{'} }

  lemma {:induction false} PushSpelled(c: Config)
    requires AllSpelled(c.res) && Spelled(c.ct)
    ensures Inv(Push(c))
  {
  }

  lemma {:induction false} WaitKeeps(c: Config, sym: char, i: nat)
    requires Inv(c) && c.state.Wait?
    ensures var o := StepWait(c, sym, i); o.Next? ==> Inv(o.c)
  {
    assert c.ct.value + [sym] == [sym] && [sym][1..] == "";
  }

  lemma {:induction false} GroupKeeps(c: Config, sym: char, last: bool, i: nat)
    requires Inv(c) && (c.state.ReadGroup? || c.state.ReadWorkGroup?)
    ensures var o := StepGroup(c, sym, last, i); o.Next? ==> Inv(o.c)
  {
    var more := c.(ct := c.ct.(value := c.ct.value + [sym]));
    PushSpelled(c);
    if sym !in {'@', '#', '/', ','} {
      assert GroupSoFar(more.ct);
      PushSpelled(more);
    }
  }

  /** A host text with one more symbol. */
  lemma {:induction false} HostGrows(t: Token, inside: bool, sym: char)
    requires HostSoFar(t, inside) && (if inside then sym != '{' else sym != ',' && sym != '/')
    ensures HostSoFar(t.(value := t.value + [sym]), if inside then sym != '}' else sym == '{')
  {
    if t.kind.TypeHost? {
      HostRunSnoc(t.value[1..], false, inside, sym);
      assert (t.value + [sym])[1..] == t.value[1..] + [sym];
    } else {
      HostRunSnoc(t.value, false, inside, sym);
    }
  }

  lemma {:induction false} HostKeeps(c: Config, sym: char, last: bool)
    requires Inv(c) && c.state.ReadHost? && (last ==> !Swallowed(sym))
    ensures var o := StepHost(c, sym, last); o.Next? ==> Inv(o.c)
  {
    var more := c.ct.(value := c.ct.value + [sym]);
    PushSpelled(c);
    if sym != ',' && sym != '/' {
      HostGrows(c.ct, false, sym);
      if last {
        PushSpelled(c.(ct := more));
      }
    }
  }

  lemma {:induction false} BraceKeeps(c: Config, sym: char, i: nat)
    requires Inv(c) && c.state.ReadHostBracePattern?
    ensures var o := StepBrace(c, sym, i); o.Next? ==> Inv(o.c)
  {
    if sym != '{' {
      HostGrows(c.ct, true, sym);
    }
  }

  lemma {:induction false} DatacenterKeeps(c: Config, sym: char, last: bool)
    requires Inv(c) && c.state.ReadDatacenter? && (last ==> !Swallowed(sym))
    ensures var o := StepDatacenter(c, sym, last); o.Next? ==> Inv(o.c)
  {
    var more := c.(ct := c.ct.(datacenter := c.ct.datacenter + [sym]));
    PushSpelled(c);
    if sym !in {',', '#', '/'} {
      assert GroupSoFar(more.ct);
      PushSpelled(more);
    }
  }

  lemma {:induction false} TagAdded(c: Config, tag: string)
    requires GroupSoFar(c.ct) && AllPlain(ReadTag, tag)
    ensures GroupSoFar(AddTag(c, tag).ct)
  {
  }

  lemma {:induction false} TagKeeps(c: Config, sym: char, last: bool, i: nat)
    requires Inv(c) && c.state.ReadTag? && (last ==> !Swallowed(sym))
    ensures var o := StepTag(c, sym, last, i); o.Next? ==> Inv(o.c)
  {
    TagAdded(c, c.tag);
    PushSpelled(AddTag(c, c.tag));
    if sym !in {',', '#'} {
      assert AllPlain(ReadTag, c.tag + [sym]);
      TagAdded(c, c.tag + [sym]);
      PushSpelled(AddTag(c, c.tag + [sym]));
    }
  }

  lemma {:induction false} RegexpKeeps(valid: string -> bool, c: Config, sym: char, ahead: Option<char>, i: nat)
    requires Inv(c) && c.state.ReadRegexp?
    ensures var o := StepRegexp(valid, c, sym, ahead, i); o.Next? ==> Inv(o.c)
  {
    PushSpelled(c.(ct := c.ct.(regexp := Some(c.re))));
  }

  lemma {:induction false} StepKeeps(valid: string -> bool, c: Config, sym: char, ahead: Option<char>, i: nat)
    requires Inv(c) && (ahead.None? ==> c.state.ReadRegexp? || !Swallowed(sym))
    ensures var o := Step(valid, c, sym, ahead, i); o.Next? ==> Inv(o.c)
  {
    match c.state
    case Wait => WaitKeeps(c, sym, i);
    case ReadHost => HostKeeps(c, sym, ahead.None?);
    case ReadHostBracePattern => BraceKeeps(c, sym, i);
    case ReadRegexp => RegexpKeeps(valid, c, sym, ahead, i);
    case ReadDatacenter => DatacenterKeeps(c, sym, ahead.None?);
    case ReadTag => TagKeeps(c, sym, ahead.None?, i);
    case _ => GroupKeeps(c, sym, ahead.None?, i);
  }

  /** A last mark or brace that is swallowed ends a token; anywhere else it does no harm. */
  lemma {:induction false} LastKeeps(valid: string -> bool, c: Config, sym: char, i: nat)
    requires Inv(c)
    ensures var o := Step(valid, c, sym, None, i);
            o.Next? ==> Inv(o.c) || (o.c.state.Wait? && o.c.ct == NEW_TOKEN && |o.c.res| == |c.res| + 1
                                     && o.c.res[..|c.res|] == c.res && o.c.res[|c.res|].regexp.None?)
  {
    match c.state
    case Wait => WaitKeeps(c, sym, i);
    case ReadHostBracePattern => BraceKeeps(c, sym, i);
    case ReadRegexp => RegexpKeeps(valid, c, sym, None, i);
    case ReadHost => if !Swallowed(sym) { HostKeeps(c, sym, true); }
    case ReadDatacenter => if !Swallowed(sym) { DatacenterKeeps(c, sym, true); }
    case ReadTag => if !Swallowed(sym) { TagKeeps(c, sym, true, i); }
    case _ => GroupKeeps(c, sym, true, i);
  }

  // ---------------------------------------------------------------- the whole expression

  /** The last token, when it has no regexp and the last symbol is one that it swallowed. */
  predicate Loose(expr: string, ts: seq<Token>, k: nat) {
    k < |ts| && k == |ts| - 1 && ts[k].regexp.None? && expr != "" && Swallowed(expr[|expr| - 1])
  }

  predicate Spells(expr: string, r: Result<seq<Token>>) {
    r.Ok? ==> forall k | 0 <= k < |r.value| :: Spelled(r.value[k]) || Loose(expr, r.value, k)
  }

  lemma {:induction false} FinishSpells(expr: string, c: Config)
    requires Inv(c)
    ensures Spells(expr, Finish(c))
  {
  }

  lemma {:induction false} SwallowedSpells(expr: string, c: Config)
    requires expr != "" && Swallowed(expr[|expr| - 1]) && c.state.Wait? && c.ct == NEW_TOKEN && c.res != []
    requires AllSpelled(c.res[..|c.res| - 1]) && c.res[|c.res| - 1].regexp.None?
    ensures Spells(expr, Finish(c))
  {
    forall k | 0 <= k < |c.res| ensures Spelled(c.res[k]) || Loose(expr, c.res, k) {
      if k < |c.res| - 1 {
        assert c.res[..|c.res| - 1][k] == c.res[k];
      }
    }
  }

  lemma {:induction false} ScanSpells(valid: string -> bool, expr: string, i: nat, c: Config)
    requires i <= |expr| && Inv(c)
    ensures Spells(expr, FinishScan(Scan(valid, expr, i, c)))
    decreases |expr| - i
  {
    if i == |expr| {
      FinishSpells(expr, c);
    } else {
      var o := Step(valid, c, expr[i], Ahead(expr, i), i);
      if o.Next? {
        ScanStep(valid, expr, i, c, o.c, o.used);
        if i + 1 == |expr| {
          LastSpells(valid, expr, i, c);
        } else {
          StepKeeps(valid, c, expr[i], Ahead(expr, i), i);
          ScanSpells(valid, expr, i + o.used, o.c);
        }
      }
    }
  }

  lemma {:induction false} LastSpells(valid: string -> bool, expr: string, i: nat, c: Config)
    requires i + 1 == |expr| && Inv(c) && Step(valid, c, expr[i], None, i).Next?
    ensures Spells(expr, Finish(Step(valid, c, expr[i], None, i).c))
  {
    var o := Step(valid, c, expr[i], None, i);
    LastKeeps(valid, c, expr[i], i);
    if Inv(o.c) {
      FinishSpells(expr, o.c);
    } else {
      if c.state.ReadRegexp? || !Swallowed(expr[i]) {
        StepKeeps(valid, c, expr[i], None, i);
      }
      SwallowedSpells(expr, o.c);
    }
  }

  // ---------------------------------------------------------------- well-formed tokens

  /** A group or host regexp with nothing in it. */
  predicate Bare(t: Token) {
    (t.kind.TypeGroup? || t.kind.TypeHostRegexp?) && t.value == "" && PrintFilters(t) == ""
  }

  lemma {:induction false} SpelledOut(valid: string -> bool, t: Token)
    requires Spelled(t) && PS.ShapeOk(valid, t) && (t.regexp.Some? ==> RegexpText(valid, t.regexp.value))
    ensures WellFormed(valid, t) || Bare(t)
  {
    if t.kind.TypeHost? {
      HostRunEnds(t.value[1..], false);
    } else {
      HostRunEnds(t.value, false);
    }
  }

  /** Every token of an accepted expression is well-formed, but for groups and host regexps with nothing in
      them, and for a last token that ends in a swallowed mark or brace. */
  lemma {:induction false} TokensWellFormed(valid: string -> bool, expr: string, k: nat)
    requires Parse(valid, expr).Ok? && k < |Parse(valid, expr).value|
    ensures var ts := Parse(valid, expr).value; WellFormed(valid, ts[k]) || Bare(ts[k]) || Loose(expr, ts, k)
  {
    ScanSpells(valid, expr, 0, INITIAL);
    PS.TokenShape(valid, expr);
    PQ.ScanKeeps(valid, expr, 0, INITIAL);
    var ts := Parse(valid, expr).value;
    if !Loose(expr, ts, k) {
      SpelledOut(valid, ts[k]);
    }
  }

  /** What an accepted expression gives can be printed and read again. */
  lemma {:induction false} PrintedAgain(valid: string -> bool, expr: string)
    requires Parse(valid, expr).Ok?
    requires var ts := Parse(valid, expr).value; forall k | 0 <= k < |ts| :: !Bare(ts[k]) && !Loose(expr, ts, k)
    ensures Parse(valid, PrintAll(Parse(valid, expr).value)) == Parse(valid, expr)
  {
    var ts := Parse(valid, expr).value;
    forall k | 0 <= k < |ts| ensures WellFormed(valid, ts[k]) {
      TokensWellFormed(valid, expr, k);
    }
    RoundTrip(valid, ts);
  }

  lemma {:induction false} BareFails(valid: string -> bool, t: Token)
    requires Bare(t)
    ensures Parse(valid, Print(t)) == Err(UnexpectedEnd)
  {
    var e, d := Print(t), if t.exclude then 1 else 0;
    var c := INITIAL.(ct := NEW_TOKEN.(exclude := t.exclude));
    var next := c.(state := if t.kind.TypeGroup? then ReadGroup else ReadHost, ct := c.ct.(kind := t.kind));
    if t.exclude {
      ScanStep(valid, e, 0, INITIAL, c, 1);
    }
    ScanStep(valid, e, d, c, next, 1);
    assert Scan(valid, e, d + 1, next) == Ok(next);
  }

  /** The well-formed tokens are exactly those that come back from their print, with and without a comma. */
  lemma {:induction false} WellFormedExactly(valid: string -> bool, t: Token)
    ensures WellFormed(valid, t) <==> Parse(valid, Print(t)) == Ok([t]) && Parse(valid, Print(t) + ",") == Ok([t])
  {
    if WellFormed(valid, t) {
      TokenRoundTrip(valid, t, "");
      TokenRoundTrip(valid, t, ",");
      assert Print(t) + "" == Print(t);
    } else if Parse(valid, Print(t) + ",") == Ok([t]) {
      TokensWellFormed(valid, Print(t) + ",", 0);
      BareFails(valid, t);
    }
  }

  /** Empty tokens do come out of expressions. */
  lemma {:induction false} BareTilde(valid: string -> bool)
    ensures Parse(valid, "~,") == Ok([Token(TypeHostRegexp, "", "", [], None, false)])
  {
    var e := "~,";
    var c := INITIAL.(state := ReadHost, ct := NEW_TOKEN.(kind := TypeHostRegexp));
    ScanStep(valid, e, 0, INITIAL, c, 1);
    ScanStep(valid, e, 1, c, Push(c), 1);
    assert Scan(valid, e, 2, Push(c)) == Ok(Push(c));
    assert [] + [c.ct] == [c.ct];
  }
}
