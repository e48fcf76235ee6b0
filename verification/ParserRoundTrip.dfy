/** Round trip: parsing the comma-joined print of a list of well-formed tokens gives the list back. */
module ParserRoundTrip {
  import opened Basics
  import opened Parser
  import opened ParserCompose

  // ---------------------------------------------------------------- printing

  /** A slash inside a regexp is screened by a backslash. */
  function Escape(re: string): string {
    if re == "" then "" else (if re[0] == '/' then "\\/" else [re[0]]) + Escape(re[1..])
  }

  function PrintRegexp(re: Option<string>): string {
    if re.Some? then "/" + Escape(re.value) + "/" else ""
  }

  function PrintTags(tags: seq<string>): string {
    if tags == [] then "" else "#" + tags[0] + PrintTags(tags[1..])
  }

  function PrintDatacenter(dc: string): string { if dc == "" then "" else "@" + dc }

  /** What follows the name. */
  function PrintFilters(t: Token): string {
    PrintDatacenter(t.datacenter) + PrintTags(t.tags) + PrintRegexp(t.regexp)
  }

  function PrintKind(k: TokenType): string {
    match k
    case TypeHost => ""
    case TypeGroup => "%"
    case TypeWorkGroup => "*"
    case TypeHostRegexp => "~"
  }

  function Print(t: Token): string {
    (if t.exclude then "-" else "") + PrintKind(t.kind) + t.value + PrintFilters(t)
  }

  function PrintAll(ts: seq<Token>): string {
    if ts == [] then "" else if |ts| == 1 then Print(ts[0]) else Print(ts[0]) + "," + PrintAll(ts[1..])
  }

  // ---------------------------------------------------------------- well-formed tokens

  /** The symbols a name, datacenter or tag may consist of. */
  predicate Plain(s: State, sym: char) {
    match s
    case ReadGroup => sym !in {'@', '#', '/', ','}
    case ReadWorkGroup => sym !in {'@', '#', '/', ','}
    case ReadDatacenter => sym !in {',', '#', '/'}
    case ReadTag => sym !in {',', '#'}
    case _ => false
  }

  predicate AllPlain(s: State, text: string) { forall i | 0 <= i < |text| :: Plain(s, text[i]) }

  /** Host text: no comma or slash outside braces, braces closed and not nested. */
  predicate HostText(v: string, inside: bool) {
    if v == "" then !inside
    else if inside then v[0] != '{' && HostText(v[1..], v[0] != '}')
    else v[0] != ',' && v[0] != '/' && HostText(v[1..], v[0] == '{')
  }

  predicate RegexpText(valid: string -> bool, re: string) {
    valid(re) && (re == "" || re[|re| - 1] != '\\')
  }

  predicate WellFormed(valid: string -> bool, t: Token) {
    && (t.regexp.Some? ==> RegexpText(valid, t.regexp.value))
    && match t.kind
       case TypeHost =>
         t.datacenter == "" && t.tags == [] && t.value != "" && t.value[0] != '-' && HostSymbol(t.value[0])
         && HostText(t.value[1..], false)
       case TypeHostRegexp =>
         t.datacenter == "" && t.tags == [] && HostText(t.value, false) && (t.value != "" || t.regexp.Some?)
       case _ =>
         && AllPlain(ReadGroup, t.value) && AllPlain(ReadDatacenter, t.datacenter)
         && (forall i | 0 <= i < |t.tags| :: t.tags[i] != "" && AllPlain(ReadTag, t.tags[i]))
         && (t.tags == [] || t.regexp.None?)
         && (t.kind.TypeGroup? ==> t.value != "" || PrintFilters(t) != "")
  }

  // ---------------------------------------------------------------- reading runs of symbols

  /** What a run of plain symbols does to the variables. */
  function Grow(c: Config, text: string): Config {
    match c.state
    case ReadDatacenter => c.(ct := c.ct.(datacenter := c.ct.datacenter + text))
    case ReadTag => c.(tag := c.tag + text)
    case _ => c.(ct := c.ct.(value := c.ct.value + text))
  }

  lemma {:induction false} GrowStep(valid: string -> bool, c: Config, sym: char, ahead: Option<char>, i: nat)
    requires Plain(c.state, sym) && ahead.Some?
    ensures Step(valid, c, sym, ahead, i) == Next(Grow(c, [sym]), 1)
  {
  }

  lemma {:induction false} GrowGrow(c: Config, a: string, b: string)
    ensures Grow(Grow(c, a), b) == Grow(c, a + b)
    ensures Grow(c, "") == c
  {
    assert c.ct.datacenter + a + b == c.ct.datacenter + (a + b) && c.ct.datacenter + "" == c.ct.datacenter;
    assert c.tag + a + b == c.tag + (a + b) && c.tag + "" == c.tag;
    assert c.ct.value + a + b == c.ct.value + (a + b) && c.ct.value + "" == c.ct.value;
  }

  lemma {:induction false} ScanStep(valid: string -> bool, expr: string, i: nat, c: Config, next: Config, used: nat)
    requires i < |expr| && Step(valid, c, expr[i], Ahead(expr, i), i) == Next(next, used)
    ensures Scan(valid, expr, i, c) == Scan(valid, expr, i + used, next)
  {
  }

  lemma {:induction false} ScanPlain(valid: string -> bool, expr: string, i: nat, c: Config, sym: char)
    requires i + 1 < |expr| && expr[i] == sym && Plain(c.state, sym)
    ensures Scan(valid, expr, i, c) == Scan(valid, expr, i + 1, Grow(c, [sym]))
  {
    GrowStep(valid, c, sym, Ahead(expr, i), i);
    ScanStep(valid, expr, i, c, Grow(c, [sym]), 1);
  }

  lemma {:induction false} SliceHead(expr: string, i: nat, text: string)
    requires text != "" && i + |text| <= |expr| && expr[i..i + |text|] == text
    ensures expr[i] == text[0] && expr[i + 1..i + |text|] == text[1..] && [text[0]] + text[1..] == text
  {
    assert expr[i] == expr[i..i + |text|][0];
    assert expr[i + 1..i + |text|] == expr[i..i + |text|][1..];
  }

  /** A run of plain symbols that is not at the end of the input. */
  lemma {:induction false} ScanRun(valid: string -> bool, expr: string, i: nat, c: Config, text: string)
    requires i + |text| < |expr| && expr[i..i + |text|] == text && AllPlain(c.state, text)
    ensures Scan(valid, expr, i, c) == Scan(valid, expr, i + |text|, Grow(c, text))
    decreases |text|
  {
    if text == "" {
      GrowGrow(c, "", "");
    } else {
      SliceHead(expr, i, text);
      ScanPlain(valid, expr, i, c, text[0]);
      GrowGrow(c, [text[0]], text[1..]);
      var next := Grow(c, [text[0]]);
      assert next.state == c.state && i + 1 + |text[1..]| == i + |text|;
      ScanRun(valid, expr, i + 1, next, text[1..]);
    }
  }

  predicate Ends(tail: string) { tail == "" || tail == "," }

  /** The token once its last run has been read. */
  function Closed(c: Config): Token {
    if c.state.ReadTag? then AddTag(c, c.tag).ct else c.ct
  }

  /** Reading the rest of the input ends in success with one more token. */
  ghost predicate Yields(valid: string -> bool, expr: string, i: nat, c: Config, t: Token) {
    FinishScan(Scan(valid, expr, i, c)) == Ok(c.res + [t])
  }

  /** The last symbol of a token pushes it. */
  lemma {:induction false} LastStep(valid: string -> bool, expr: string, i: nat, c: Config, t: Config)
    requires i + 1 == |expr|
    requires Step(valid, c, expr[i], None, i) == Next(Push(t), 1) && t.res == c.res
    ensures Yields(valid, expr, i, c, t.ct)
  {
    ScanStep(valid, expr, i, c, Push(t), 1);
    assert Scan(valid, expr, i + 1, Push(t)) == Ok(Push(t));
  }

  lemma {:induction false} YieldsAfter(valid: string -> bool, expr: string, i: nat, c: Config, j: nat, c': Config,
                                       t: Token)
    requires Scan(valid, expr, i, c) == Scan(valid, expr, j, c') && c'.res == c.res && Yields(valid, expr, j, c', t)
    ensures Yields(valid, expr, i, c, t)
  {
  }

  /** The last run of a token, followed by nothing or by a comma. */
  lemma {:induction false} EndRun(valid: string -> bool, expr: string, i: nat, c: Config, text: string, tail: string)
    requires Ends(tail) && i <= |expr| && expr[i..] == text + tail && AllPlain(c.state, text)
    requires c.state.ReadGroup? || c.state.ReadWorkGroup? || c.state.ReadDatacenter? || c.state.ReadTag?
    requires text != "" || c.state.ReadWorkGroup?
    requires Grow(c, text).ct.value != "" || !c.state.ReadGroup?
    requires Grow(c, text).tag != "" || !c.state.ReadTag?
    ensures Yields(valid, expr, i, c, Closed(Grow(c, text)))
  {
    var end := Grow(c, text);
    if tail == "," {
      EndRunComma(valid, expr, i, c, text);
    } else if text == "" {
      GrowGrow(c, "", "");
      assert i == |expr| && Scan(valid, expr, i, c) == Ok(c);
    } else {
      EndRunLast(valid, expr, i, c, text);
    }
  }

  lemma {:induction false} EndRunComma(valid: string -> bool, expr: string, i: nat, c: Config, text: string)
    requires i <= |expr| && expr[i..] == text + "," && AllPlain(c.state, text)
    requires c.state.ReadGroup? || c.state.ReadWorkGroup? || c.state.ReadDatacenter? || c.state.ReadTag?
    requires Grow(c, text).ct.value != "" || !c.state.ReadGroup?
    requires Grow(c, text).tag != "" || !c.state.ReadTag?
    ensures Yields(valid, expr, i, c, Closed(Grow(c, text)))
  {
    var end, j := Grow(c, text), i + |text|;
    assert expr[i..j] == expr[i..][..|text|] == text;
    ScanRun(valid, expr, i, c, text);
    assert expr[j] == expr[i..][|text|] == ',' && |expr| == j + 1;
    LastStep(valid, expr, j, end, if c.state.ReadTag? then AddTag(end, end.tag) else end);
    YieldsAfter(valid, expr, i, c, j, end, Closed(end));
  }

  lemma {:induction false} EndRunLast(valid: string -> bool, expr: string, i: nat, c: Config, text: string)
    requires i <= |expr| && text != "" && expr[i..] == text && AllPlain(c.state, text)
    requires c.state.ReadGroup? || c.state.ReadWorkGroup? || c.state.ReadDatacenter? || c.state.ReadTag?
    ensures Yields(valid, expr, i, c, Closed(Grow(c, text)))
  {
    var end, j := Grow(c, text), |expr| - 1;
    var init, sym := text[..|text| - 1], text[|text| - 1];
    assert expr[i..j] == expr[i..][..|init|] == init;
    ScanRun(valid, expr, i, c, init);
    assert expr[j] == expr[i..][|text| - 1] == sym;
    assert init + [sym] == text;
    GrowGrow(c, init, [sym]);
    var mid := Grow(c, init);
    assert Plain(c.state, sym);
    LastStep(valid, expr, j, mid, if c.state.ReadTag? then AddTag(mid, mid.tag + [sym]) else Grow(mid, [sym]));
    YieldsAfter(valid, expr, i, c, j, mid, Closed(end));
  }

  // ---------------------------------------------------------------- filters

  /** An escaped regexp up to and including its closing slash. */
  lemma {:induction false} ReadEscaped(valid: string -> bool, expr: string, i: nat, c: Config, re: string, tail: string)
    requires c.state.ReadRegexp? && Ends(tail) && i <= |expr| && expr[i..] == Escape(re) + "/" + tail
    requires re == "" || re[|re| - 1] != '\\'
    requires valid(c.re + re)
    ensures Yields(valid, expr, i, c, c.ct.(regexp := Some(c.re + re)))
    decreases |re|
  {
    if re == "" {
      assert c.re + re == c.re;
      assert expr[i] == expr[i..][0] == '/' && expr[i + 1..] == expr[i..][1..] == tail;
      assert tail == "," ==> expr[i + 1] == expr[i..][1] == ',';
      var done := Push(c.(ct := c.ct.(regexp := Some(c.re))));
      ScanStep(valid, expr, i, c, done, 1 + |tail|);
      assert Scan(valid, expr, i + 1 + |tail|, done) == Ok(done);
    } else {
      var head, rest := [re[0]], re[1..];
      var n := if re[0] == '/' then 2 else 1;
      EscapedSymbol(expr, i, re, tail);
      assert rest != "" ==> rest[|rest| - 1] == re[|re| - 1];
      assert c.re + re == (c.re + head) + rest;
      var next := c.(re := c.re + head);
      assert re[0] == '/' ==> "/" == head;
      ScanStep(valid, expr, i, c, next, n);
      ReadEscaped(valid, expr, i + n, next, rest, tail);
      YieldsAfter(valid, expr, i, c, i + n, next, c.ct.(regexp := Some(c.re + re)));
    }
  }

  /** Where the parts of a suffix of the input stand. */
  lemma {:induction false} At(expr: string, i: nat, head: string, rest: string)
    requires i <= |expr| && expr[i..] == head + rest
    ensures i + |head| <= |expr| && expr[i + |head|..] == rest && expr[i..i + |head|] == head
    ensures head != "" ==> expr[i] == head[0]
    ensures |head| == 1 ==> Ahead(expr, i) == if rest == "" then None else Some(rest[0])
    ensures |head| == 2 ==> Ahead(expr, i) == Some(head[1])
    ensures rest != "" ==> i + |head| < |expr| && expr[i + |head|] == rest[0]
  {
    assert expr[i + |head|..] == expr[i..][|head|..];
    assert expr[i..i + |head|] == expr[i..][..|head|];
    assert head != "" ==> expr[i] == expr[i..][0];
    assert i + 1 < |expr| ==> expr[i + 1] == expr[i..][1];
    assert rest != "" ==> expr[i + |head|] == expr[i..][|head|];
  }

  function Screened(sym: char): string { if sym == '/' then "\\/" else [sym] }

  lemma {:induction false} EscapeHead(re: string, tail: string)
    requires re != ""
    ensures Escape(re) + "/" + tail == Screened(re[0]) + (Escape(re[1..]) + "/" + tail)
    ensures Escape(re) != "" && Escape(re)[0] != '/'
  {
  }

  /** How the first symbol of a non-empty regexp stands in its escaped text. */
  lemma {:induction false} EscapedSymbol(expr: string, i: nat, re: string, tail: string)
    requires i <= |expr| && re != "" && expr[i..] == Escape(re) + "/" + tail
    requires re[|re| - 1] != '\\'
    ensures i < |expr|
    ensures re[0] == '/' ==> expr[i] == '\\' && Ahead(expr, i) == Some('/')
    ensures re[0] != '/' ==> expr[i] == re[0]
    ensures re[0] == '\\' ==> Ahead(expr, i) != Some('/')
    ensures var n := if re[0] == '/' then 2 else 1;
            i + n <= |expr| && expr[i + n..] == Escape(re[1..]) + "/" + tail
  {
    var rest := Escape(re[1..]) + "/" + tail;
    EscapeHead(re, tail);
    At(expr, i, Screened(re[0]), rest);
    if re[0] == '\\' {
      assert re[1..] != "";
      EscapeHead(re[1..], tail);
      assert rest[0] == Escape(re[1..])[0];
    }
  }

  /** The regexp of a token: the slash that opens it and the text up to the slash that closes it. */
  lemma {:induction false} ReadRegexpFilter(valid: string -> bool, expr: string, i: nat, c: Config, re: string,
                                            tail: string)
    requires c.state.ReadGroup? || c.state.ReadWorkGroup? || c.state.ReadHost? || c.state.ReadDatacenter?
    requires Ends(tail) && i <= |expr| && expr[i..] == "/" + (Escape(re) + "/" + tail) && RegexpText(valid, re)
    ensures Yields(valid, expr, i, c, c.ct.(regexp := Some(re)))
  {
    At(expr, i, "/", Escape(re) + "/" + tail);
    assert "" + re == re;
    ScanStep(valid, expr, i, c, EnterRegexp(c), 1);
    ReadEscaped(valid, expr, i + 1, EnterRegexp(c), re, tail);
    YieldsAfter(valid, expr, i, c, i + 1, EnterRegexp(c), c.ct.(regexp := Some(re)));
  }

  predicate TagTexts(tags: seq<string>) {
    forall i | 0 <= i < |tags| :: tags[i] != "" && AllPlain(ReadTag, tags[i])
  }

  lemma {:induction false} TagsText(tags: seq<string>, tail: string)
    requires |tags| > 1
    ensures tags[0] + PrintTags(tags[1..]) + tail == tags[0] + ("#" + (tags[1] + PrintTags(tags[2..]) + tail))
  {
    assert tags[1..][1..] == tags[2..];
  }

  /** One tag of several, up to the mark that introduces the next. */
  lemma {:induction false} ReadTagText(valid: string -> bool, expr: string, i: nat, c: Config, tag: string,
                                       rest: string)
    requires c.state.ReadTag? && c.tag == "" && AllPlain(ReadTag, tag)
    requires i <= |expr| && expr[i..] == tag + rest && rest != ""
    ensures i + |tag| < |expr| && expr[i + |tag|..] == rest
    ensures Scan(valid, expr, i, c) == Scan(valid, expr, i + |tag|, c.(tag := tag))
  {
    At(expr, i, tag, rest);
    ScanRun(valid, expr, i, c, tag);
    assert "" + tag == tag;
    assert Grow(c, tag) == c.(tag := tag);
  }

  lemma {:induction false} ReadTagMark(valid: string -> bool, expr: string, j: nat, c: Config, rest: string)
    requires c.state.ReadTag? && c.tag != "" && rest != ""
    requires j < |expr| && expr[j..] == "#" + rest
    ensures j + 1 <= |expr| && expr[j + 1..] == rest
    ensures Scan(valid, expr, j, c) == Scan(valid, expr, j + 1, AddTag(c, c.tag).(tag := ""))
  {
    At(expr, j, "#", rest);
    ScanStep(valid, expr, j, c, AddTag(c, c.tag).(tag := ""), 1);
  }

  lemma {:induction false} ReadOneTag(valid: string -> bool, expr: string, i: nat, c: Config, tag: string, rest: string)
    requires c.state.ReadTag? && c.tag == "" && tag != "" && AllPlain(ReadTag, tag)
    requires i <= |expr| && expr[i..] == tag + ("#" + rest) && rest != ""
    ensures i + |tag| + 1 <= |expr| && expr[i + |tag| + 1..] == rest
    ensures Scan(valid, expr, i, c) == Scan(valid, expr, i + |tag| + 1, AddTag(c, tag).(tag := ""))
  {
    ReadTagText(valid, expr, i, c, tag, "#" + rest);
    ReadTagMark(valid, expr, i + |tag|, c.(tag := tag), rest);
  }

  /** The tags of a token, from inside the first of them. */
  lemma {:induction false} ReadTags(valid: string -> bool, expr: string, i: nat, c: Config, tags: seq<string>,
                                    tail: string)
    requires c.state.ReadTag? && c.tag == "" && tags != [] && TagTexts(tags)
    requires Ends(tail) && i <= |expr| && expr[i..] == tags[0] + PrintTags(tags[1..]) + tail
    ensures Yields(valid, expr, i, c, c.ct.(tags := c.ct.tags + tags))
    decreases |tags|
  {
    var tag, rest := tags[0], tags[1..];
    if rest == [] {
      assert tags == [tag] && expr[i..] == tag + tail && "" + tag == tag;
      EndRun(valid, expr, i, c, tag, tail);
    } else {
      TagsText(tags, tail);
      assert tags[2..] == rest[1..];
      var next := AddTag(c, tag).(tag := "");
      var more := rest[0] + PrintTags(rest[1..]) + tail;
      ReadOneTag(valid, expr, i, c, tag, more);
      ReadTags(valid, expr, i + |tag| + 1, next, rest, tail);
      assert c.ct.tags + [tag] + rest == c.ct.tags + tags;
      YieldsAfter(valid, expr, i, c, i + |tag| + 1, next, c.ct.(tags := c.ct.tags + tags));
    }
  }

  predicate Suffixed(t: Token) { t.tags != [] || t.regexp.Some? }

  lemma {:induction false} Rejoin(mark: string, tag: string, more: string, tail: string)
    ensures mark + tag + more + "" + tail == mark + (tag + more + tail)
  {
  }

  lemma {:induction false} TagsFirst(tags: seq<string>, tail: string)
    requires tags != []
    ensures PrintTags(tags) + "" + tail == "#" + (tags[0] + PrintTags(tags[1..]) + tail)
  {
    Rejoin("#", tags[0], PrintTags(tags[1..]), tail);
  }

  lemma {:induction false} RegexpFirst(re: string, tail: string)
    ensures "" + PrintRegexp(Some(re)) + tail == "/" + (Escape(re) + "/" + tail)
  {
  }

  /** Tags, from the mark of the first. */
  lemma {:induction false} ReadMarkedTags(valid: string -> bool, expr: string, i: nat, c: Config, tags: seq<string>,
                                          tail: string)
    requires c.state.ReadGroup? || c.state.ReadWorkGroup? || c.state.ReadDatacenter?
    requires tags != [] && TagTexts(tags) && c.ct.tags == []
    requires Ends(tail) && i <= |expr| && expr[i..] == "#" + (tags[0] + PrintTags(tags[1..]) + tail)
    ensures Yields(valid, expr, i, c, c.ct.(tags := tags))
  {
    At(expr, i, "#", tags[0] + PrintTags(tags[1..]) + tail);
    ScanStep(valid, expr, i, c, EnterTag(c), 1);
    ReadTags(valid, expr, i + 1, EnterTag(c), tags, tail);
    assert [] + tags == tags;
    YieldsAfter(valid, expr, i, c, i + 1, EnterTag(c), c.ct.(tags := tags));
  }

  /** Tags or a regexp, from the symbol that introduces them. */
  lemma {:induction false} ReadSuffix(valid: string -> bool, expr: string, i: nat, c: Config, t: Token, tail: string)
    requires c.state.ReadGroup? || c.state.ReadWorkGroup? || c.state.ReadDatacenter?
    requires Suffixed(t) && (t.tags == [] || t.regexp.None?) && TagTexts(t.tags)
    requires t.regexp.Some? ==> RegexpText(valid, t.regexp.value)
    requires c.ct.tags == [] && c.ct.regexp.None?
    requires Ends(tail) && i <= |expr| && expr[i..] == PrintTags(t.tags) + PrintRegexp(t.regexp) + tail
    ensures Yields(valid, expr, i, c, c.ct.(tags := t.tags, regexp := t.regexp))
  {
    if t.tags == [] {
      RegexpFirst(t.regexp.value, tail);
      ReadRegexpFilter(valid, expr, i, c, t.regexp.value, tail);
    } else {
      TagsFirst(t.tags, tail);
      ReadMarkedTags(valid, expr, i, c, t.tags, tail);
    }
  }

  // ---------------------------------------------------------------- groups and workgroups

  predicate Named(c: Config) {
    (c.state.ReadGroup? || c.state.ReadWorkGroup?) && c.ct.datacenter == "" && c.ct.tags == [] && c.ct.regexp.None?
  }

  predicate FiltersOk(valid: string -> bool, t: Token) {
    && AllPlain(ReadDatacenter, t.datacenter) && TagTexts(t.tags) && (t.tags == [] || t.regexp.None?)
    && (t.regexp.Some? ==> RegexpText(valid, t.regexp.value))
  }

  function WithFilters(c: Config, t: Token): Token {
    c.ct.(datacenter := t.datacenter, tags := t.tags, regexp := t.regexp)
  }

  lemma {:induction false} SuffixText(t: Token)
    ensures PrintTags(t.tags) + PrintRegexp(t.regexp) == "" <==> !Suffixed(t)
    ensures t.datacenter != "" ==> PrintFilters(t) == "@" + (t.datacenter + (PrintTags(t.tags) + PrintRegexp(t.regexp)))
    ensures t.datacenter == "" ==> PrintFilters(t) == PrintTags(t.tags) + PrintRegexp(t.regexp)
  {
  }

  /** A datacenter name that something follows. */
  lemma {:induction false} ReadDatacenterName(valid: string -> bool, expr: string, i: nat, c: Config, dc: string,
                                              rest: string)
    requires c.state.ReadDatacenter? && c.ct.datacenter == "" && AllPlain(ReadDatacenter, dc) && rest != ""
    requires i <= |expr| && expr[i..] == dc + rest
    ensures i + |dc| <= |expr| && expr[i + |dc|..] == rest
    ensures Scan(valid, expr, i, c) == Scan(valid, expr, i + |dc|, c.(ct := c.ct.(datacenter := dc)))
  {
    At(expr, i, dc, rest);
    ScanRun(valid, expr, i, c, dc);
    assert "" + dc == dc;
    assert Grow(c, dc) == c.(ct := c.ct.(datacenter := dc));
  }

  /** The text of a datacenter that tags or a regexp follow. */
  lemma {:induction false} ReadDatacenterThen(valid: string -> bool, expr: string, i: nat, c: Config, t: Token,
                                              suffix: string, tail: string)
    requires c.state.ReadDatacenter? && c.ct.datacenter == "" && c.ct.tags == [] && c.ct.regexp.None?
    requires FiltersOk(valid, t) && Suffixed(t) && Ends(tail) && i <= |expr| && suffix != ""
    requires suffix == PrintTags(t.tags) + PrintRegexp(t.regexp) && expr[i..] == t.datacenter + (suffix + tail)
    ensures Yields(valid, expr, i, c, WithFilters(c, t))
  {
    var j, next := i + |t.datacenter|, c.(ct := c.ct.(datacenter := t.datacenter));
    ReadDatacenterName(valid, expr, i, c, t.datacenter, suffix + tail);
    ReadSuffix(valid, expr, j, next, t, tail);
    YieldsAfter(valid, expr, i, c, j, next, WithFilters(c, t));
  }

  /** The text of a datacenter that nothing follows. */
  lemma {:induction false} ReadBareDatacenter(valid: string -> bool, expr: string, i: nat, c: Config, t: Token,
                                              tail: string)
    requires c.state.ReadDatacenter? && c.ct.datacenter == "" && c.ct.tags == [] && c.ct.regexp.None?
    requires FiltersOk(valid, t) && t.datacenter != "" && !Suffixed(t) && Ends(tail) && i <= |expr|
    requires expr[i..] == t.datacenter + tail
    ensures Yields(valid, expr, i, c, WithFilters(c, t))
  {
    assert "" + t.datacenter == t.datacenter;
    EndRun(valid, expr, i, c, t.datacenter, tail);
  }

  lemma {:induction false} ReadDatacenterText(valid: string -> bool, expr: string, i: nat, c: Config, t: Token,
                                              tail: string)
    requires c.state.ReadDatacenter? && c.ct.datacenter == "" && c.ct.tags == [] && c.ct.regexp.None?
    requires FiltersOk(valid, t) && t.datacenter != "" && Ends(tail) && i <= |expr|
    requires expr[i..] == t.datacenter + (PrintTags(t.tags) + PrintRegexp(t.regexp) + tail)
    ensures Yields(valid, expr, i, c, WithFilters(c, t))
  {
    var suffix := PrintTags(t.tags) + PrintRegexp(t.regexp);
    SuffixText(t);
    if suffix == "" {
      assert "" + tail == tail;
      ReadBareDatacenter(valid, expr, i, c, t, tail);
    } else {
      ReadDatacenterThen(valid, expr, i, c, t, suffix, tail);
    }
  }

  lemma {:induction false} OpenDatacenter(valid: string -> bool, expr: string, i: nat, c: Config, rest: string)
    requires Named(c) && i <= |expr| && expr[i..] == "@" + rest
    ensures i + 1 <= |expr| && expr[i + 1..] == rest
    ensures Scan(valid, expr, i, c) == Scan(valid, expr, i + 1, c.(state := ReadDatacenter))
  {
    At(expr, i, "@", rest);
    ScanStep(valid, expr, i, c, c.(state := ReadDatacenter), 1);
  }

  /** Everything that follows a name. */
  lemma {:induction false} ReadFilters(valid: string -> bool, expr: string, i: nat, c: Config, t: Token, tail: string)
    requires Named(c) && FiltersOk(valid, t) && PrintFilters(t) != ""
    requires Ends(tail) && i <= |expr| && expr[i..] == PrintFilters(t) + tail
    ensures Yields(valid, expr, i, c, WithFilters(c, t))
  {
    SuffixText(t);
    if t.datacenter == "" {
      ReadSuffix(valid, expr, i, c, t, tail);
    } else {
      var rest := t.datacenter + (PrintTags(t.tags) + PrintRegexp(t.regexp) + tail);
      var next := c.(state := ReadDatacenter);
      assert expr[i..] == "@" + rest;
      OpenDatacenter(valid, expr, i, c, rest);
      ReadDatacenterText(valid, expr, i + 1, next, t, tail);
      YieldsAfter(valid, expr, i, c, i + 1, next, WithFilters(c, t));
    }
  }

  predicate NameOk(c: Config, t: Token) {
    Named(c) && c.ct.value == "" && AllPlain(c.state, t.value) && (c.state.ReadGroup? ==> t.value != "" || PrintFilters(t) != "")
  }

  lemma {:induction false} ReadBareName(valid: string -> bool, expr: string, i: nat, c: Config, t: Token, tail: string)
    requires NameOk(c, t) && PrintFilters(t) == ""
    requires Ends(tail) && i <= |expr| && expr[i..] == t.value + tail
    ensures Yields(valid, expr, i, c, WithFilters(c, t).(value := t.value))
  {
    assert "" + t.value == t.value;
    SuffixText(t);
    EndRun(valid, expr, i, c, t.value, tail);
  }

  /** A name that something follows. */
  lemma {:induction false} ReadNameText(valid: string -> bool, expr: string, i: nat, c: Config, v: string, rest: string)
    requires Named(c) && c.ct.value == "" && AllPlain(c.state, v) && rest != ""
    requires i <= |expr| && expr[i..] == v + rest
    ensures i + |v| <= |expr| && expr[i + |v|..] == rest
    ensures Scan(valid, expr, i, c) == Scan(valid, expr, i + |v|, c.(ct := c.ct.(value := v)))
  {
    At(expr, i, v, rest);
    ScanRun(valid, expr, i, c, v);
    assert "" + v == v;
    assert Grow(c, v) == c.(ct := c.ct.(value := v));
  }

  lemma {:induction false} ReadFilteredName(valid: string -> bool, expr: string, i: nat, c: Config, t: Token,
                                            tail: string)
    requires NameOk(c, t) && FiltersOk(valid, t) && PrintFilters(t) != ""
    requires Ends(tail) && i <= |expr| && expr[i..] == t.value + (PrintFilters(t) + tail)
    ensures Yields(valid, expr, i, c, WithFilters(c, t).(value := t.value))
  {
    var next, j := c.(ct := c.ct.(value := t.value)), i + |t.value|;
    ReadNameText(valid, expr, i, c, t.value, PrintFilters(t) + tail);
    assert Named(next) && WithFilters(c, t).(value := t.value) == WithFilters(next, t);
    ReadFilters(valid, expr, j, next, t, tail);
    YieldsAfter(valid, expr, i, c, j, next, WithFilters(next, t));
  }

  /** A group or workgroup from its name on. */
  lemma {:induction false} ReadName(valid: string -> bool, expr: string, i: nat, c: Config, t: Token, tail: string)
    requires NameOk(c, t) && FiltersOk(valid, t)
    requires Ends(tail) && i <= |expr| && expr[i..] == t.value + (PrintFilters(t) + tail)
    ensures Yields(valid, expr, i, c, WithFilters(c, t).(value := t.value))
  {
    if PrintFilters(t) == "" {
      assert PrintFilters(t) + tail == tail;
      ReadBareName(valid, expr, i, c, t, tail);
    } else {
      ReadFilteredName(valid, expr, i, c, t, tail);
    }
  }

  // ---------------------------------------------------------------- hosts

  predicate InHost(c: Config, inside: bool) {
    c.state == if inside then ReadHostBracePattern else ReadHost
  }

  function GrowHost(c: Config, v: string): Config {
    c.(state := ReadHost, ct := c.ct.(value := c.ct.value + v))
  }

  /** One symbol of a host name that is not the last of the input. */
  lemma {:induction false} HostSymbolStep(valid: string -> bool, c: Config, v: string, inside: bool,
                                          ahead: Option<char>, i: nat)
    requires InHost(c, inside) && v != "" && HostText(v, inside) && ahead.Some?
    ensures var after := if inside then v[0] != '}' else v[0] == '{';
            var next := c.(state := if after then ReadHostBracePattern else ReadHost, ct := c.ct.(value := c.ct.value + [v[0]]));
            Step(valid, c, v[0], ahead, i) == Next(next, 1) && HostText(v[1..], after)
  {
  }

  /** The variables after one symbol of a host name. */
  function AfterHostSymbol(c: Config, sym: char, inside: bool): Config {
    c.(state := if (if inside then sym != '}' else sym == '{') then ReadHostBracePattern else ReadHost,
       ct := c.ct.(value := c.ct.value + [sym]))
  }

  lemma {:induction false} ReadHostSymbol(valid: string -> bool, expr: string, i: nat, c: Config, v: string,
                                          inside: bool, rest: string)
    requires InHost(c, inside) && HostText(v, inside) && v != "" && i <= |expr| && expr[i..] == v + rest && rest != ""
    ensures i + 1 <= |expr| && expr[i + 1..] == v[1..] + rest
    ensures Scan(valid, expr, i, c) == Scan(valid, expr, i + 1, AfterHostSymbol(c, v[0], inside))
  {
    assert v + rest == [v[0]] + (v[1..] + rest);
    At(expr, i, [v[0]], v[1..] + rest);
    assert i < |expr| && expr[i] == v[0] && Ahead(expr, i).Some?;
    HostSymbolStep(valid, c, v, inside, Ahead(expr, i), i);
    ScanStep(valid, expr, i, c, AfterHostSymbol(c, v[0], inside), 1);
  }

  lemma {:induction false} GrowHostNext(c: Config, v: string, inside: bool)
    requires InHost(c, inside) && HostText(v, inside) && v != ""
    ensures GrowHost(AfterHostSymbol(c, v[0], inside), v[1..]) == GrowHost(c, v)
    ensures var after := if inside then v[0] != '}' else v[0] == '{';
            InHost(AfterHostSymbol(c, v[0], inside), after) && HostText(v[1..], after)
  {
    assert c.ct.value + [v[0]] + v[1..] == c.ct.value + v;
  }

  /** Host text that something follows. */
  lemma {:induction false} ReadHostText(valid: string -> bool, expr: string, i: nat, c: Config, v: string,
                                        inside: bool, rest: string)
    requires InHost(c, inside) && HostText(v, inside) && i <= |expr| && expr[i..] == v + rest && rest != ""
    ensures i + |v| <= |expr| && expr[i + |v|..] == rest
    ensures Scan(valid, expr, i, c) == Scan(valid, expr, i + |v|, GrowHost(c, v))
    decreases |v|
  {
    if v == "" {
      assert c.ct.value + v == c.ct.value;
      assert GrowHost(c, v) == c;
    } else {
      var next := AfterHostSymbol(c, v[0], inside);
      ReadHostSymbol(valid, expr, i, c, v, inside, rest);
      GrowHostNext(c, v, inside);
      ReadHostText(valid, expr, i + 1, next, v[1..], if inside then v[0] != '}' else v[0] == '{', rest);
      assert i + 1 + |v[1..]| == i + |v|;
    }
  }

  /** Host text at the end of the input. */
  lemma {:induction false} EndHostText(valid: string -> bool, expr: string, i: nat, c: Config, v: string, inside: bool)
    requires InHost(c, inside) && HostText(v, inside) && i <= |expr| && expr[i..] == v && c.ct.value + v != ""
    ensures Yields(valid, expr, i, c, GrowHost(c, v).ct)
    decreases |v|
  {
    if v == "" {
      assert c.ct.value + v == c.ct.value;
      assert i == |expr| && Scan(valid, expr, i, c) == Ok(c);
    } else {
      assert expr[i] == expr[i..][0] == v[0] && expr[i + 1..] == expr[i..][1..] == v[1..];
      if |v| == 1 && !inside {
        assert v == [v[0]] && Push(GrowHost(c, v)) == Push(c.(ct := c.ct.(value := c.ct.value + [v[0]])));
        LastStep(valid, expr, i, c, GrowHost(c, v));
      } else {
        var after := if inside then v[0] != '}' else v[0] == '{';
        var next := c.(state := if after then ReadHostBracePattern else ReadHost, ct := c.ct.(value := c.ct.value + [v[0]]));
        assert Step(valid, c, v[0], Ahead(expr, i), i) == Next(next, 1);
        ScanStep(valid, expr, i, c, next, 1);
        assert c.ct.value + [v[0]] + v[1..] == c.ct.value + v;
        EndHostText(valid, expr, i + 1, next, v[1..], after);
        YieldsAfter(valid, expr, i, c, i + 1, next, GrowHost(c, v).ct);
      }
    }
  }

  lemma {:induction false} ReadHostRegexp(valid: string -> bool, expr: string, i: nat, c: Config, v: string,
                                          re: string, tail: string)
    requires c.state.ReadHost? && HostText(v, false) && Ends(tail) && RegexpText(valid, re)
    requires i <= |expr| && expr[i..] == v + ("/" + (Escape(re) + "/" + tail))
    ensures Yields(valid, expr, i, c, GrowHost(c, v).ct.(regexp := Some(re)))
  {
    var end, j := GrowHost(c, v), i + |v|;
    ReadHostText(valid, expr, i, c, v, false, "/" + (Escape(re) + "/" + tail));
    ReadRegexpFilter(valid, expr, j, end, re, tail);
    YieldsAfter(valid, expr, i, c, j, end, end.ct.(regexp := Some(re)));
  }

  lemma {:induction false} ReadHostComma(valid: string -> bool, expr: string, i: nat, c: Config, v: string)
    requires c.state.ReadHost? && HostText(v, false)
    requires i <= |expr| && expr[i..] == v + ","
    ensures Yields(valid, expr, i, c, GrowHost(c, v).ct)
  {
    var end, j := GrowHost(c, v), i + |v|;
    ReadHostText(valid, expr, i, c, v, false, ",");
    assert expr[j] == expr[j..][0] == ',' && j + 1 == |expr|;
    LastStep(valid, expr, j, end, end);
    YieldsAfter(valid, expr, i, c, j, end, end.ct);
  }

  /** A host or a host regexp from inside its text on. */
  lemma {:induction false} ReadHostToken(valid: string -> bool, expr: string, i: nat, c: Config, v: string,
                                         re: Option<string>, tail: string)
    requires c.state.ReadHost? && HostText(v, false) && c.ct.regexp.None? && Ends(tail)
    requires re.Some? ==> RegexpText(valid, re.value)
    requires re.None? ==> c.ct.value + v != ""
    requires i <= |expr| && expr[i..] == v + (PrintRegexp(re) + tail)
    ensures Yields(valid, expr, i, c, GrowHost(c, v).ct.(regexp := re))
  {
    if re.Some? {
      assert PrintRegexp(re) + tail == "/" + (Escape(re.value) + "/" + tail);
      ReadHostRegexp(valid, expr, i, c, v, re.value, tail);
    } else if tail == "" {
      assert expr[i..] == v;
      EndHostText(valid, expr, i, c, v, false);
    } else {
      assert PrintRegexp(re) + tail == ",";
      ReadHostComma(valid, expr, i, c, v);
    }
  }

  // ---------------------------------------------------------------- tokens and lists

  /** The variables after the dash of an exclusion. */
  function Dashed(exclude: bool): Config { INITIAL.(ct := NEW_TOKEN.(exclude := exclude)) }

  lemma {:induction false} ReadDash(valid: string -> bool, expr: string, exclude: bool, rest: string)
    requires expr == (if exclude then "-" else "") + rest && rest != ""
    ensures var i := if exclude then 1 else 0;
            expr[i..] == rest && Scan(valid, expr, 0, INITIAL) == Scan(valid, expr, i, Dashed(exclude))
  {
    if exclude {
      assert expr[0] == '-' && expr[1..] == rest;
      ScanStep(valid, expr, 0, INITIAL, Dashed(true), 1);
    } else {
      assert Dashed(false) == INITIAL && expr == rest;
    }
  }

  lemma {:induction false} TokenText(t: Token, tail: string)
    ensures Print(t) + tail == (if t.exclude then "-" else "") + (PrintKind(t.kind) + t.value + (PrintFilters(t) + tail))
  {
  }

  /** The variables after the symbol that tells the kind of a token. */
  function Started(exclude: bool, k: TokenType): Config {
    var c := Dashed(exclude);
    c.(ct := c.ct.(kind := k),
       state := match k case TypeGroup => ReadGroup case TypeWorkGroup => ReadWorkGroup case _ => ReadHost)
  }

  lemma {:induction false} ReadMark(valid: string -> bool, expr: string, i: nat, exclude: bool, k: TokenType,
                                    rest: string)
    requires !k.TypeHost? && i <= |expr| && expr[i..] == PrintKind(k) + rest
    ensures i + 1 <= |expr| && expr[i + 1..] == rest
    ensures Scan(valid, expr, i, Dashed(exclude)) == Scan(valid, expr, i + 1, Started(exclude, k))
  {
    At(expr, i, PrintKind(k), rest);
    ScanStep(valid, expr, i, Dashed(exclude), Started(exclude, k), 1);
  }

  lemma {:induction false} ReadGroupToken(valid: string -> bool, expr: string, i: nat, t: Token, tail: string)
    requires WellFormed(valid, t) && (t.kind.TypeGroup? || t.kind.TypeWorkGroup?) && Ends(tail)
    requires i <= |expr| && expr[i..] == t.value + (PrintFilters(t) + tail)
    ensures Yields(valid, expr, i, Started(t.exclude, t.kind), t)
  {
    ReadName(valid, expr, i, Started(t.exclude, t.kind), t, tail);
  }

  lemma {:induction false} ReadTildeToken(valid: string -> bool, expr: string, i: nat, t: Token, tail: string)
    requires WellFormed(valid, t) && t.kind.TypeHostRegexp? && Ends(tail)
    requires i <= |expr| && expr[i..] == t.value + (PrintFilters(t) + tail)
    ensures Yields(valid, expr, i, Started(t.exclude, t.kind), t)
  {
    SuffixText(t);
    assert PrintFilters(t) == PrintRegexp(t.regexp) && "" + t.value == t.value;
    ReadHostToken(valid, expr, i, Started(t.exclude, t.kind), t.value, t.regexp, tail);
  }

  /** A token from its kind on. */
  lemma {:induction false} ReadKind(valid: string -> bool, expr: string, i: nat, t: Token, tail: string)
    requires WellFormed(valid, t) && Ends(tail) && i <= |expr|
    requires expr[i..] == PrintKind(t.kind) + t.value + (PrintFilters(t) + tail)
    ensures Yields(valid, expr, i, Dashed(t.exclude), t)
  {
    if t.kind.TypeHost? {
      ReadPlainHost(valid, expr, i, t, tail);
    } else {
      var rest := t.value + (PrintFilters(t) + tail);
      assert expr[i..] == PrintKind(t.kind) + rest;
      ReadMark(valid, expr, i, t.exclude, t.kind, rest);
      if t.kind.TypeHostRegexp? {
        ReadTildeToken(valid, expr, i + 1, t, tail);
      } else {
        ReadGroupToken(valid, expr, i + 1, t, tail);
      }
      YieldsAfter(valid, expr, i, Dashed(t.exclude), i + 1, Started(t.exclude, t.kind), t);
    }
  }

  /** The variables after the first symbol of a host. */
  function HostBegun(exclude: bool, sym: char): Config {
    var c := Dashed(exclude);
    c.(state := ReadHost, ct := c.ct.(value := [sym]))
  }

  lemma {:induction false} BeginStep(valid: string -> bool, exclude: bool, sym: char, ahead: Option<char>, i: nat)
    requires HostSymbol(sym) && sym != '-'
    ensures Step(valid, Dashed(exclude), sym, ahead, i) == Next(HostBegun(exclude, sym), 1)
  {
    assert Dashed(exclude).ct.value + [sym] == [sym];
  }

  lemma {:induction false} BeginHost(valid: string -> bool, expr: string, i: nat, exclude: bool, sym: char,
                                     rest: string)
    requires HostSymbol(sym) && sym != '-' && i <= |expr| && expr[i..] == [sym] + rest
    ensures i + 1 <= |expr| && expr[i + 1..] == rest
    ensures Scan(valid, expr, i, Dashed(exclude)) == Scan(valid, expr, i + 1, HostBegun(exclude, sym))
  {
    At(expr, i, [sym], rest);
    assert i < |expr| && expr[i] == sym;
    BeginStep(valid, exclude, sym, Ahead(expr, i), i);
    ScanStep(valid, expr, i, Dashed(exclude), HostBegun(exclude, sym), 1);
  }

  lemma {:induction false} ReadHostWord(valid: string -> bool, expr: string, i: nat, exclude: bool, sym: char,
                                        v: string, re: Option<string>, tail: string)
    requires HostSymbol(sym) && sym != '-' && HostText(v, false) && Ends(tail) && (re.Some? ==> RegexpText(valid, re.value))
    requires i <= |expr| && expr[i..] == [sym] + (v + (PrintRegexp(re) + tail))
    ensures Yields(valid, expr, i, Dashed(exclude), Token(TypeHost, [sym] + v, "", [], re, exclude))
  {
    BeginHost(valid, expr, i, exclude, sym, v + (PrintRegexp(re) + tail));
    var c := HostBegun(exclude, sym);
    ReadHostToken(valid, expr, i + 1, c, v, re, tail);
    YieldsAfter(valid, expr, i, Dashed(exclude), i + 1, c, GrowHost(c, v).ct.(regexp := re));
  }

  lemma {:induction false} HeadFirst(v: string, rest: string)
    requires v != ""
    ensures "" + v + rest == [v[0]] + (v[1..] + rest) && [v[0]] + v[1..] == v
  {
  }

  lemma {:induction false} NoFilters(t: Token)
    requires t.datacenter == "" && t.tags == []
    ensures PrintFilters(t) == PrintRegexp(t.regexp)
  {
  }

  /** The first symbol of a host is read while waiting for a token. */
  lemma {:induction false} ReadPlainHost(valid: string -> bool, expr: string, i: nat, t: Token, tail: string)
    requires WellFormed(valid, t) && t.kind.TypeHost? && Ends(tail) && i <= |expr|
    requires expr[i..] == PrintKind(t.kind) + t.value + (PrintFilters(t) + tail)
    ensures Yields(valid, expr, i, Dashed(t.exclude), t)
  {
    var sym, v := t.value[0], t.value[1..];
    NoFilters(t);
    HeadFirst(t.value, PrintRegexp(t.regexp) + tail);
    ReadHostWord(valid, expr, i, t.exclude, sym, v, t.regexp, tail);
  }

  /** A well-formed token prints to an expression that parses to that token alone, with or without a
      comma after it. */
  lemma {:induction false} TokenRoundTrip(valid: string -> bool, t: Token, tail: string)
    requires WellFormed(valid, t) && Ends(tail)
    ensures Parse(valid, Print(t) + tail) == Ok([t])
  {
    var expr := Print(t) + tail;
    var rest := PrintKind(t.kind) + t.value + (PrintFilters(t) + tail);
    TokenText(t, tail);
    assert rest != "";
    ReadDash(valid, expr, t.exclude, rest);
    ReadKind(valid, expr, if t.exclude then 1 else 0, t, tail);
    assert [] + [t] == [t];
  }

  /** Round trip: the print of any list of well-formed tokens parses back to the list. */
  lemma {:induction false} RoundTrip(valid: string -> bool, ts: seq<Token>)
    requires forall i | 0 <= i < |ts| :: WellFormed(valid, ts[i])
    ensures Parse(valid, PrintAll(ts)) == Ok(ts)
    decreases |ts|
  {
    if ts == [] {
    } else if |ts| == 1 {
      TokenRoundTrip(valid, ts[0], "");
      assert Print(ts[0]) + "" == Print(ts[0]) && ts == [ts[0]];
    } else {
      var p := Print(ts[0]) + ",";
      TokenRoundTrip(valid, ts[0], ",");
      RoundTrip(valid, ts[1..]);
      ParseConcat(valid, p, PrintAll(ts[1..]));
      assert [ts[0]] + ts[1..] == ts;
    }
  }
}
