/** Expressions that are refused, with the error and its position, and the two ways in which a token can end
    without a comma (src/parser/parser.go:114-309). */
module ParserErrors {
  import opened Basics
  import opened Parser
  import opened ParserCompose
  import opened ParserRoundTrip
  import opened ParserQuirks

  // ---------------------------------------------------------------- patterns in braces

  lemma {:induction false} OpenSymbol(valid: string -> bool, e: string, i: nat, c: Config, u: string, rest: string)
    requires c.state.ReadHostBracePattern? && u != "" && u[0] != '{' && u[0] != '}'
    requires i <= |e| && e[i..] == u + rest
    ensures i + 1 <= |e| && e[i + 1..] == u[1..] + rest
    ensures Scan(valid, e, i, c) == Scan(valid, e, i + 1, c.(ct := c.ct.(value := c.ct.value + [u[0]])))
  {
    assert u + rest == [u[0]] + (u[1..] + rest);
    At(e, i, [u[0]], u[1..] + rest);
    ScanStep(valid, e, i, c, c.(ct := c.ct.(value := c.ct.value + [u[0]])), 1);
  }

  /** A pattern that stays open. */
  lemma {:induction false} ReadOpen(valid: string -> bool, e: string, i: nat, c: Config, u: string, rest: string)
    requires c.state.ReadHostBracePattern? && '{' !in u && '}' !in u
    requires i <= |e| && e[i..] == u + rest
    ensures i + |u| <= |e| && e[i + |u|..] == rest
    ensures Scan(valid, e, i, c) == Scan(valid, e, i + |u|, c.(ct := c.ct.(value := c.ct.value + u)))
    decreases |u|
  {
    hide Scan;
    if u == "" {
      assert c.ct.value + u == c.ct.value;
    } else {
      var next := c.(ct := c.ct.(value := c.ct.value + [u[0]]));
      OpenSymbol(valid, e, i, c, u, rest);
      ReadOpen(valid, e, i + 1, next, u[1..], rest);
      assert c.ct.value + [u[0]] + u[1..] == c.ct.value + u;
    }
  }

  /** A host up to a brace and what follows it inside. */
  function OpenHost(s: char, v: string, u: string): Config {
    INITIAL.(state := ReadHostBracePattern, ct := NEW_TOKEN.(value := [s] + v + "{" + u))
  }

  function InHostText(s: char, v: string): Config { INITIAL.(state := ReadHost, ct := NEW_TOKEN.(value := [s] + v)) }

  lemma {:induction false} ReadToBrace(valid: string -> bool, e: string, s: char, v: string, rest: string)
    requires HostSymbol(s) && s != '-' && HostText(v, false) && rest != "" && e == [s] + (v + rest)
    ensures Reached(valid, e, 1 + |v|, InHostText(s, v), rest)
  {
    assert Dashed(false) == INITIAL && e[0..] == e;
    BeginHost(valid, e, 0, false, s, v + rest);
    ReadHostText(valid, e, 1, HostBegun(false, s), v, false, rest);
  }

  lemma {:induction false} ReadBrace(valid: string -> bool, e: string, n: nat, s: char, v: string, u: string,
                                     rest: string)
    requires '{' !in u && '}' !in u && u + rest != "" && Reached(valid, e, n, InHostText(s, v), "{" + (u + rest))
    ensures Reached(valid, e, n + 1 + |u|, OpenHost(s, v, u), rest)
  {
    hide Scan;
    var c, o := InHostText(s, v), OpenHost(s, v, "");
    At(e, n, "{", u + rest);
    assert [s] + v + "{" + "" == [s] + v + "{" && [s] + v + "{" + u == [s] + v + "{" + "" + u;
    ScanStep(valid, e, n, c, o, 1);
    ReadOpen(valid, e, n + 1, o, u, rest);
  }

  /** Patterns do not nest. */
  lemma {:induction false} NestedBrace(valid: string -> bool, s: char, v: string, u: string, w: string)
    requires HostSymbol(s) && s != '-' && HostText(v, false) && '{' !in u && '}' !in u
    ensures Parse(valid, [s] + (v + ("{" + (u + ("{" + w))))) == Err(NestedPattern(2 + |v| + |u|))
  {
    NestedAt(valid, [s] + (v + ("{" + (u + ("{" + w)))), s, v, u, w, "{" + w, "{" + (u + ("{" + w)));
  }

  lemma {:induction false} NestedAt(valid: string -> bool, e: string, s: char, v: string, u: string, w: string,
                                    rest: string, tail: string)
    requires HostSymbol(s) && s != '-' && HostText(v, false) && '{' !in u && '}' !in u
    requires e == [s] + (v + tail) && tail == "{" + (u + rest) && rest == "{" + w
    ensures Parse(valid, e) == Err(NestedPattern(2 + |v| + |u|))
  {
    assert Reached(valid, e, 1 + |v|, InHostText(s, v), tail) by {
      ReadToBrace(valid, e, s, v, tail);
    }
    NestedFrom(valid, e, 1 + |v|, s, v, u, w, rest);
  }

  lemma {:induction false} NestedFrom(valid: string -> bool, e: string, n: nat, s: char, v: string, u: string,
                                      w: string, rest: string)
    requires '{' !in u && '}' !in u && rest == "{" + w && Reached(valid, e, n, InHostText(s, v), "{" + (u + rest))
    ensures Parse(valid, e) == Err(NestedPattern(n + 1 + |u|))
  {
    ReadBrace(valid, e, n, s, v, u, rest);
    SecondBrace(valid, e, n + 1 + |u|, s, v, u, w);
  }

  lemma {:induction false} SecondBrace(valid: string -> bool, e: string, n: nat, s: char, v: string, u: string,
                                       w: string)
    requires Reached(valid, e, n, OpenHost(s, v, u), "{" + w)
    ensures Parse(valid, e) == Err(NestedPattern(n))
  {
    assert e[n] == e[n..][0] == '{';
    assert Step(valid, OpenHost(s, v, u), e[n], Ahead(e, n), n) == Fail(NestedPattern(n));
  }

  /** A pattern must be closed, unless its brace is the last symbol. */
  lemma {:induction false} OpenBrace(valid: string -> bool, s: char, v: string, u: string)
    requires HostSymbol(s) && s != '-' && HostText(v, false) && '{' !in u && '}' !in u
    ensures Parse(valid, [s] + (v + ("{" + u))) ==
            if u == "" then Ok([Token(TypeHost, [s] + v + "{", "", [], None, false)]) else Err(UnexpectedEnd)
  {
    hide Scan;
    var e := [s] + (v + ("{" + u));
    assert u + "" == u && "{" + u == "{" + (u + "");
    ReadToBrace(valid, e, s, v, "{" + u);
    if u == "" {
      var c, n := InHostText(s, v), 1 + |v|;
      assert e[n] == e[n..][0] == '{' && n + 1 == |e|;
      LastStep(valid, e, n, c, c.(ct := c.ct.(value := c.ct.value + "{")));
      assert [] + [c.ct.(value := c.ct.value + "{")] == [Token(TypeHost, [s] + v + "{", "", [], None, false)];
    } else {
      ReadBrace(valid, e, 1 + |v|, s, v, u, "");
      StaysOpen(valid, e, s, v, u);
    }
  }

  lemma {:induction false} StaysOpen(valid: string -> bool, e: string, s: char, v: string, u: string)
    requires Reached(valid, e, |e|, OpenHost(s, v, u), "")
    ensures Parse(valid, e) == Err(UnexpectedEnd)
  {
  }

  // ---------------------------------------------------------------- datacenters and tags

  /** A datacenter mark or a tag mark at the end, with nothing behind it. */
  lemma {:induction false} MarkWithoutText(valid: string -> bool, k: TokenType, g: string, mark: char)
    requires k.TypeGroup? || k.TypeWorkGroup?
    requires AllPlain(ReadGroup, g) && mark in {'@', '#', '/'}
    ensures Parse(valid, PrintKind(k) + (g + [mark])) == Err(UnexpectedEnd)
  {
    var e, n := PrintKind(k) + (g + [mark]), |g| + 1;
    ReadToMark(valid, e, k, g, [mark]);
    assert e[n] == e[n..][0] == mark && n + 1 == |e|;
    var c := InName(k, g);
    var next := if mark == '@' then c.(state := ReadDatacenter) else if mark == '#' then EnterTag(c) else EnterRegexp(c);
    ScanStep(valid, e, n, c, next, 1);
  }

  /** Inside the tags of a group or workgroup, when `t` has been read of the first. */
  function InTag(k: TokenType, g: string, t: string): Config {
    EnterTag(InName(k, g)).(tag := t)
  }

  lemma {:induction false} ReadIntoTag(valid: string -> bool, e: string, k: TokenType, g: string, t: string,
                                       rest: string)
    requires k.TypeGroup? || k.TypeWorkGroup?
    requires AllPlain(ReadGroup, g) && AllPlain(ReadTag, t) && rest != "" && e == PrintKind(k) + (g + ("#" + (t + rest)))
    ensures Reached(valid, e, |g| + 2 + |t|, InTag(k, g, t), rest)
  {
    hide Scan;
    assert Reached(valid, e, |g| + 1, InName(k, g), "#" + (t + rest)) by {
      ReadToMark(valid, e, k, g, "#" + (t + rest));
    }
    ReadFromTagMark(valid, e, |g| + 1, k, g, t, rest);
  }

  lemma {:induction false} ReadFromTagMark(valid: string -> bool, e: string, i: nat, k: TokenType, g: string,
                                           t: string, rest: string)
    requires k.TypeGroup? || k.TypeWorkGroup?
    requires AllPlain(ReadTag, t) && rest != "" && Reached(valid, e, i, InName(k, g), "#" + (t + rest))
    ensures Reached(valid, e, i + 1 + |t|, InTag(k, g, t), rest)
  {
    hide Scan;
    ReadOneMark(valid, e, i, k, g, t + rest);
    ReadTagText(valid, e, i + 1, InTag(k, g, ""), t, rest);
  }

  lemma {:induction false} ReadOneMark(valid: string -> bool, e: string, i: nat, k: TokenType, g: string, rest: string)
    requires (k.TypeGroup? || k.TypeWorkGroup?) && rest != "" && Reached(valid, e, i, InName(k, g), "#" + rest)
    ensures Reached(valid, e, i + 1, InTag(k, g, ""), rest)
  {
    hide Scan;
    At(e, i, "#", rest);
    ScanStep(valid, e, i, InName(k, g), InTag(k, g, ""), 1);
  }

  /** A tag may not be empty: before a comma, and before another mark that something follows. */
  lemma {:induction false} TagWithoutText(valid: string -> bool, k: TokenType, g: string, rest: string)
    requires k.TypeGroup? || k.TypeWorkGroup?
    requires AllPlain(ReadGroup, g) && rest != "" && (rest[0] == ',' || (rest[0] == '#' && |rest| > 1))
    ensures Parse(valid, PrintKind(k) + (g + ("#" + rest))) == Err(EmptyTag(|g| + 2))
  {
    var e, n := PrintKind(k) + (g + ("#" + rest)), |g| + 2;
    assert "" + rest == rest;
    ReadIntoTag(valid, e, k, g, "", rest);
    TagFails(valid, e, n, k, g, rest);
  }

  lemma {:induction false} TagFails(valid: string -> bool, e: string, n: nat, k: TokenType, g: string, rest: string)
    requires rest != "" && (rest[0] == ',' || (rest[0] == '#' && |rest| > 1)) && Reached(valid, e, n, InTag(k, g, ""), rest)
    ensures Parse(valid, e) == Err(EmptyTag(n))
  {
    assert e[n] == e[n..][0] == rest[0];
    assert Step(valid, InTag(k, g, ""), e[n], Ahead(e, n), n) == Fail(EmptyTag(n));
  }

  /** A mark that is the last symbol belongs to the tag, as it does to a datacenter. */
  lemma {:induction false} TagMarkLast(valid: string -> bool, k: TokenType, g: string, t: string)
    requires k.TypeGroup? || k.TypeWorkGroup?
    requires AllPlain(ReadGroup, g) && AllPlain(ReadTag, t)
    ensures Parse(valid, PrintKind(k) + (g + ("#" + (t + "#")))) == Ok([Token(k, g, "", [t + "#"], None, false)])
  {
    var e, n := PrintKind(k) + (g + ("#" + (t + "#"))), |g| + 2 + |t|;
    ReadIntoTag(valid, e, k, g, t, "#");
    assert e[n] == e[n..][0] == '#' && n + 1 == |e|;
    var c := InTag(k, g, t);
    LastStep(valid, e, n, c, AddTag(c, t + "#"));
    assert [] + [t + "#"] == [t + "#"];
    assert [] + [AddTag(c, t + "#").ct] == [Token(k, g, "", [t + "#"], None, false)];
  }

  // ---------------------------------------------------------------- regexps

  lemma {:induction false} EscapeCons(re: string, rest: string)
    requires re != ""
    ensures Escape(re) + rest == Screened(re[0]) + (Escape(re[1..]) + rest)
    ensures |Escape(re)| == |Screened(re[0])| + |Escape(re[1..])|
  {
    assert Escape(re) == Screened(re[0]) + Escape(re[1..]);
    Assoc(Screened(re[0]), Escape(re[1..]), rest);
  }

  lemma {:induction false} Assoc<T>(a: seq<T>, b: seq<T>, c: seq<T>)
    ensures a + b + c == a + (b + c)
  {
  }

  /** One symbol of a regexp. A backslash stands for itself unless a slash comes next. */
  lemma {:induction false} RegexpSymbol(valid: string -> bool, e: string, i: nat, c: Config, sym: char, tail: string)
    requires c.state.ReadRegexp? && sym != '/' && i <= |e| && e[i..] == [sym] + tail
    requires sym == '\\' ==> tail == "" || tail[0] != '/'
    ensures i + 1 <= |e| && e[i + 1..] == tail
    ensures Scan(valid, e, i, c) == Scan(valid, e, i + 1, c.(re := c.re + [sym]))
  {
    At(e, i, [sym], tail);
    ScanStep(valid, e, i, c, c.(re := c.re + [sym]), 1);
  }

  lemma {:induction false} RegexpSlash(valid: string -> bool, e: string, i: nat, c: Config, tail: string)
    requires c.state.ReadRegexp? && i <= |e| && e[i..] == "\\/" + tail
    ensures i + 2 <= |e| && e[i + 2..] == tail
    ensures Scan(valid, e, i, c) == Scan(valid, e, i + 2, c.(re := c.re + ['/']))
  {
    At(e, i, "\\/", tail);
    assert "/" == ['/'];
    ScanStep(valid, e, i, c, c.(re := c.re + ['/']), 2);
  }

  lemma {:induction false} NoSlashNext(re: string, rest: string)
    requires re != "" && re[0] == '\\' && (rest == "" || (rest[0] == '/' && re[|re| - 1] != '\\'))
    ensures var tail := Escape(re[1..]) + rest; tail == "" || tail[0] != '/'
  {
    if re[1..] != "" {
      EscapeStart(re[1..]);
    }
  }

  lemma {:induction false} EscapeStart(re: string)
    requires re != ""
    ensures Escape(re) != "" && Escape(re)[0] != '/'
  {
  }

  lemma {:induction false} RegexpHead(valid: string -> bool, e: string, i: nat, c: Config, re: string, rest: string)
    requires c.state.ReadRegexp? && re != "" && i <= |e| && e[i..] == Escape(re) + rest
    requires rest == "" || (rest[0] == '/' && re[|re| - 1] != '\\')
    ensures var n := |Screened(re[0])|;
            && |Escape(re)| == n + |Escape(re[1..])| && i + n <= |e| && e[i + n..] == Escape(re[1..]) + rest
            && Scan(valid, e, i, c) == Scan(valid, e, i + n, c.(re := c.re + [re[0]]))
  {
    var tail := Escape(re[1..]) + rest;
    EscapeCons(re, rest);
    if re[0] == '/' {
      RegexpSlash(valid, e, i, c, tail);
    } else {
      if re[0] == '\\' {
        NoSlashNext(re, rest);
      }
      RegexpSymbol(valid, e, i, c, re[0], tail);
    }
  }

  /** The text of a regexp, up to its closing slash or to the end. */
  lemma {:induction false} ReadRegexpText(valid: string -> bool, e: string, i: nat, c: Config, re: string, rest: string)
    requires c.state.ReadRegexp? && i <= |e| && e[i..] == Escape(re) + rest
    requires rest == "" || (rest[0] == '/' && (re == "" || re[|re| - 1] != '\\'))
    ensures i + |Escape(re)| <= |e| && e[i + |Escape(re)|..] == rest
    ensures Scan(valid, e, i, c) == Scan(valid, e, i + |Escape(re)|, c.(re := c.re + re))
    decreases |re|
  {
    hide Scan;
    if re == "" {
      assert c.re + re == c.re;
    } else {
      var n, d := |Screened(re[0])|, c.(re := c.re + [re[0]]);
      RegexpHead(valid, e, i, c, re, rest);
      LastOfMore(re);
      ReadRegexpText(valid, e, i + n, d, re[1..], rest);
      Grown(c, d, re);
    }
  }

  lemma {:induction false} LastOfMore(re: string)
    requires re != ""
    ensures re[1..] == "" || re[1..][|re[1..]| - 1] == re[|re| - 1]
  {
  }

  lemma {:induction false} Grown(c: Config, d: Config, re: string)
    requires re != "" && d == c.(re := c.re + [re[0]])
    ensures d.(re := d.re + re[1..]) == c.(re := c.re + re)
  {
    Assoc(c.re, [re[0]], re[1..]);
    assert [re[0]] + re[1..] == re;
  }

  function InRegexp(k: TokenType, g: string, re: string): Config { EnterRegexp(InName(k, g)).(re := re) }

  lemma {:induction false} ReadIntoRegexp(valid: string -> bool, e: string, k: TokenType, g: string, re: string,
                                          rest: string)
    requires k.TypeGroup? || k.TypeWorkGroup?
    requires rest == "" || (rest[0] == '/' && (re == "" || re[|re| - 1] != '\\'))
    requires AllPlain(ReadGroup, g) && e == PrintKind(k) + (g + ("/" + (Escape(re) + rest)))
    ensures Reached(valid, e, |g| + 2 + |Escape(re)|, InRegexp(k, g, re), rest)
  {
    hide Scan;
    assert Reached(valid, e, |g| + 2, InRegexp(k, g, ""), Escape(re) + rest) by {
      ReadToSlash(valid, e, k, g, Escape(re) + rest);
    }
    ReadFromSlash(valid, e, |g| + 2, k, g, re, rest);
  }

  lemma {:induction false} ReadToSlash(valid: string -> bool, e: string, k: TokenType, g: string, text: string)
    requires (k.TypeGroup? || k.TypeWorkGroup?) && AllPlain(ReadGroup, g) && e == PrintKind(k) + (g + ("/" + text))
    ensures Reached(valid, e, |g| + 2, InRegexp(k, g, ""), text)
  {
    ReadToMark(valid, e, k, g, "/" + text);
    ReadSlash(valid, e, |g| + 1, k, g, text);
  }

  lemma {:induction false} ReadSlash(valid: string -> bool, e: string, i: nat, k: TokenType, g: string, text: string)
    requires (k.TypeGroup? || k.TypeWorkGroup?) && Reached(valid, e, i, InName(k, g), "/" + text)
    ensures Reached(valid, e, i + 1, InRegexp(k, g, ""), text)
  {
    At(e, i, "/", text);
    ScanStep(valid, e, i, InName(k, g), InRegexp(k, g, ""), 1);
  }

  lemma {:induction false} ReadFromSlash(valid: string -> bool, e: string, i: nat, k: TokenType, g: string,
                                         re: string, rest: string)
    requires rest == "" || (rest[0] == '/' && (re == "" || re[|re| - 1] != '\\'))
    requires Reached(valid, e, i, InRegexp(k, g, ""), Escape(re) + rest)
    ensures Reached(valid, e, i + |Escape(re)|, InRegexp(k, g, re), rest)
  {
    ReadRegexpText(valid, e, i, InRegexp(k, g, ""), re, rest);
    assert "" + re == re;
  }

  /** A regexp must be closed... */
  lemma {:induction false} OpenRegexp(valid: string -> bool, k: TokenType, g: string, re: string)
    requires (k.TypeGroup? || k.TypeWorkGroup?) && AllPlain(ReadGroup, g)
    ensures Parse(valid, PrintKind(k) + (g + ("/" + Escape(re)))) == Err(UnexpectedEnd)
  {
    var e := PrintKind(k) + (g + ("/" + Escape(re)));
    assert Escape(re) + "" == Escape(re);
    ReadIntoRegexp(valid, e, k, g, re, "");
  }

  /** ... and must compile. */
  lemma {:induction false} InvalidRegexp(valid: string -> bool, k: TokenType, g: string, re: string, w: string)
    requires (k.TypeGroup? || k.TypeWorkGroup?) && AllPlain(ReadGroup, g)
    requires !valid(re) && (re == "" || re[|re| - 1] != '\\')
    ensures Parse(valid, PrintKind(k) + (g + ("/" + (Escape(re) + ("/" + w))))) == Err(BadRegexp(|g| + 2 + |Escape(re)|))
  {
    var e, n := PrintKind(k) + (g + ("/" + (Escape(re) + ("/" + w)))), |g| + 2 + |Escape(re)|;
    ReadIntoRegexp(valid, e, k, g, re, "/" + w);
    assert e[n] == e[n..][0] == '/';
    assert Step(valid, InRegexp(k, g, re), e[n], Ahead(e, n), n) == Fail(BadRegexp(n));
  }

  // ---------------------------------------------------------------- no comma needed

  /** The last token of what the loop gives has a regexp and was not there before. */
  predicate NewRegexp(end: Config, n: nat) {
    var r := Finish(end);
    r.Ok? && |r.value| > n && r.value[|r.value| - 1].regexp.Some?
  }

  /** The slash that closes the regexp of the last token is read the same way when anything but a comma
      follows. */
  lemma {:induction false} ScanToSlash(valid: string -> bool, p: string, b: string, i: nat, c: Config, end: Config)
    requires i < |p| && p[|p| - 1] == '/' && (b == "" || b[0] != ',') && c.ct.regexp.None?
    requires Scan(valid, p, i, c) == Ok(end) && NewRegexp(end, |c.res|)
    ensures Scan(valid, p + b, i, c) == Scan(valid, p + b, |p|, end) && end.state.Wait? && end.ct == NEW_TOKEN
    decreases |p| - i
  {
    hide Scan;
    if i == |p| - 1 {
      LastSlash(valid, p, b, c, end);
    } else {
      var o := Step(valid, c, p[i], Ahead(p, i), i);
      NotSkipped(valid, p, i, c, end);
      StepGrows(valid, c, p[i], Ahead(p, i), i);
      GoesOn(valid, p, i + o.used, o.c, |c.res|, end);
      ScanToSlash(valid, p, b, i + o.used, o.c, end);
      assert (p + b)[i] == p[i] && Ahead(p + b, i) == Ahead(p, i);
      ScanStep(valid, p + b, i, c, o.c, o.used);
    }
  }

  /** The last slash is not read together with the symbol before it. */
  lemma {:induction false} NotSkipped(valid: string -> bool, p: string, i: nat, c: Config, end: Config)
    requires i < |p| - 1 && p[|p| - 1] == '/' && Scan(valid, p, i, c) == Ok(end) && Finish(end).Ok?
    ensures var o := Step(valid, c, p[i], Ahead(p, i), i);
            o.Next? && i + o.used < |p| && Scan(valid, p, i + o.used, o.c) == Ok(end)
  {
  }

  lemma {:induction false} LastSlash(valid: string -> bool, p: string, b: string, c: Config, end: Config)
    requires p != "" && p[|p| - 1] == '/' && (b == "" || b[0] != ',') && c.ct.regexp.None?
    requires Scan(valid, p, |p| - 1, c) == Ok(end) && NewRegexp(end, |c.res|)
    ensures Scan(valid, p + b, |p| - 1, c) == Scan(valid, p + b, |p|, end) && end.state.Wait? && end.ct == NEW_TOKEN
  {
    var i := |p| - 1;
    var o := Step(valid, c, '/', None, i);
    assert (p + b)[i] == p[i] && Ahead(p, i) == None;
    LastIs(valid, p, c, end);
    SlashCloses(valid, c, i);
    ScanStep(valid, p + b, i, c, o.c, 1);
  }

  lemma {:induction false} LastIs(valid: string -> bool, p: string, c: Config, end: Config)
    requires p != "" && Scan(valid, p, |p| - 1, c) == Ok(end)
    ensures Step(valid, c, p[|p| - 1], None, |p| - 1) == Next(end, 1)
  {
    var o := Step(valid, c, p[|p| - 1], None, |p| - 1);
    assert Ahead(p, |p| - 1) == None;
    if o.Next? {
      assert Scan(valid, p, |p|, o.c) == Ok(o.c);
    }
  }

  lemma {:induction false} SlashCloses(valid: string -> bool, c: Config, i: nat)
    requires c.ct.regexp.None?
    requires var o := Step(valid, c, '/', None, i);
             o.Next? && NewRegexp(o.c, |c.res|)
    ensures c.state.ReadRegexp?
  {
  }

  lemma {:induction false} StepGrows(valid: string -> bool, c: Config, sym: char, ahead: Option<char>, i: nat)
    requires c.ct.regexp.None?
    ensures var o := Step(valid, c, sym, ahead, i);
            o.Next? ==> o.c.ct.regexp.None? && |c.res| <= |o.c.res|
  {
  }

  /** A token with a regexp is never the one still under construction. */
  lemma {:induction false} GoesOn(valid: string -> bool, p: string, i: nat, c: Config, n: nat, end: Config)
    requires i < |p| && p[|p| - 1] == '/' && c.ct.regexp.None? && n <= |c.res|
    requires Scan(valid, p, i, c) == Ok(end) && NewRegexp(end, n)
    ensures NewRegexp(end, |c.res|)
    decreases |p| - i
  {
    var o := Step(valid, c, p[i], Ahead(p, i), i);
    StepGrows(valid, c, p[i], Ahead(p, i), i);
    if i < |p| - 1 {
      NotSkipped(valid, p, i, c, end);
      GoesOn(valid, p, i + o.used, o.c, n, end);
    } else {
      assert end == o.c;
      SlashCloses2(valid, c, i, n);
    }
  }

  lemma {:induction false} SlashCloses2(valid: string -> bool, c: Config, i: nat, n: nat)
    requires c.ct.regexp.None? && n <= |c.res|
    requires var o := Step(valid, c, '/', None, i);
             o.Next? && NewRegexp(o.c, n)
    ensures NewRegexp(Step(valid, c, '/', None, i).c, |c.res|)
  {
  }

  /** After a regexp no comma is needed: the next symbol starts a new token. */
  lemma {:induction false} NoCommaNeeded(valid: string -> bool, t: Token, w: string)
    requires WellFormed(valid, t) && t.regexp.Some? && (w == "" || w[0] != ',')
    ensures Parse(valid, Print(t) + w) == After([t], |Print(t)|, Parse(valid, w))
  {
    var p := Print(t);
    TokenRoundTrip(valid, t, "");
    assert p + "" == p;
    EndsInSlash(t);
    var end := Scan(valid, p, 0, INITIAL).value;
    ScanToSlash(valid, p, w, 0, INITIAL, end);
    ScanLike(valid, p, w, 0, end, INITIAL, end.res);
  }

  lemma {:induction false} EndsInSlash(t: Token)
    requires t.regexp.Some?
    ensures Print(t) != "" && Print(t)[|Print(t)| - 1] == '/'
  {
    var re := PrintRegexp(t.regexp);
    assert re[|re| - 1] == '/';
    assert PrintFilters(t)[|PrintFilters(t)| - 1] == '/';
  }
}
