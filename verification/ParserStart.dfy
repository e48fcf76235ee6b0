/** How a token may start (src/parser/parser.go:40 and 77-113), and the expressions that are refused. */
module ParserStart {
  import opened Basics
  import opened Parser
  import opened ParserCompose
  import opened ParserRoundTrip

  // ---------------------------------------------------------------- the first symbol

  /** Letters of both cases, digits, the dot, the dash and the braces may start a host. */
  lemma {:induction false} HostSymbols(sym: char)
    ensures HostSymbol(sym) <==> sym in {
              'a', 'b', 'c', 'd', 'e', 'f', 'g', 'h', 'i', 'j', 'k', 'l', 'm', 'n', 'o', 'p', 'q', 'r', 's', 't', 'u', 'v', 'w',
              'x', 'y', 'z', 'A', 'B', 'C', 'D', 'E', 'F', 'G', 'H', 'I', 'J', 'K', 'L', 'M', 'N', 'O', 'P', 'Q', 'R', 'S', 'T',
              'U', 'V', 'W', 'X', 'Y', 'Z', '0', '1', '2', '3', '4', '5', '6', '7', '8', '9', '.', '-', '{', '}'}
  {
  }

  predicate Special(sym: char) { sym in {'-', '*', '%', '#', '/', '~'} }

  /** What an expression of one symbol gives. */
  lemma {:induction false} OneSymbol(valid: string -> bool, sym: char)
    ensures Parse(valid, [sym]) ==
            if sym == '-' then Ok([])
            else if sym == '*' then Ok([Token(TypeWorkGroup, "", "", [], None, false)])
            else if Special(sym) then Err(UnexpectedEnd)
            else if HostSymbol(sym) then Ok([Token(TypeHost, [sym], "", [], None, false)])
            else Err(InvalidSymbol(sym, 0))
  {
    var o := StepWait(INITIAL, sym, 0);
    assert Ahead([sym], 0) == None;
    if o.Next? {
      ScanStep(valid, [sym], 0, INITIAL, o.c, 1);
      assert Scan(valid, [sym], 1, o.c) == Ok(o.c);
      assert "" + [sym] == [sym] && [] + [o.c.ct] == [o.c.ct];
    }
  }

  /** Any other symbol is refused where a token starts, at its position, whatever follows. */
  lemma {:induction false} BadStart(valid: string -> bool, sym: char, x: string)
    requires !Special(sym) && !HostSymbol(sym)
    ensures Parse(valid, [sym] + x) == Err(InvalidSymbol(sym, 0))
  {
    assert ([sym] + x)[0] == sym;
  }

  /** The symbols read so far have led to these variables. */
  ghost predicate Leads(valid: string -> bool, p: string, x: string, c: Config) {
    Scan(valid, p + x, 0, INITIAL) == Scan(valid, p + x, |p|, c)
  }

  /** Then the rest of the expression is read from there, wherever it stands. */
  lemma {:induction false} LeadsTo(valid: string -> bool, p: string, x: string, c: Config)
    requires Leads(valid, p, x, c) && c.res == []
    ensures Parse(valid, p + x) == After([], |p|, FinishScan(Scan(valid, x, 0, c)))
  {
    assert [] + c.res == c.res;
    ScanLike(valid, p, x, 0, c, c, []);
  }

  function Dash(exclude: bool): string { if exclude then "-" else "" }

  lemma {:induction false} LeadsDash(valid: string -> bool, exclude: bool, x: string)
    ensures Leads(valid, Dash(exclude), x, Dashed(exclude))
  {
    if exclude {
      assert ("-" + x)[0] == '-';
      ScanStep(valid, "-" + x, 0, INITIAL, Dashed(true), 1);
    } else {
      assert Dashed(false) == INITIAL;
    }
  }

  lemma {:induction false} LeadsOne(valid: string -> bool, p: string, sym: char, x: string, c: Config, next: Config)
    requires Leads(valid, p, [sym] + x, c)
    requires Step(valid, c, sym, if x == "" then None else Some(x[0]), |p|) == Next(next, 1)
    ensures Leads(valid, p + [sym], x, next)
  {
    var e := p + ([sym] + x);
    assert p + [sym] + x == e && e[|p|] == sym;
    assert x != "" ==> e[|p| + 1] == x[0];
    ScanStep(valid, e, |p|, c, next, 1);
  }

  lemma {:induction false} AfterAfter(k: nat, n: nat, r: Result<seq<Token>>)
    ensures After([], k, After([], n, r)) == After([], k + n, r)
  {
    if r.Ok? {
      assert [] + ([] + r.value) == [] + r.value;
    }
  }

  /** A leading mark stands for the workgroup without a name: `#x` reads like `*#x`, errors one position
      earlier, also after a dash. */
  lemma {:induction false} HashStart(valid: string -> bool, exclude: bool, x: string)
    ensures Parse(valid, Dash(exclude) + "*" + "#" + x) == After([], 1, Parse(valid, Dash(exclude) + "#" + x))
  {
    var d, w := Dash(exclude), Dashed(exclude).(state := ReadWorkGroup, ct := Dashed(exclude).ct.(kind := TypeWorkGroup));
    var c := EnterTag(w);
    LeadsDash(valid, exclude, "*" + ("#" + x));
    LeadsOne(valid, d, '*', "#" + x, Dashed(exclude), w);
    LeadsOne(valid, d + "*", '#', x, w, c);
    LeadsTo(valid, d + "*" + "#", x, c);
    LeadsDash(valid, exclude, "#" + x);
    LeadsOne(valid, d, '#', x, Dashed(exclude), c);
    LeadsTo(valid, d + "#", x, c);
    AfterAfter(1, |d| + 1, FinishScan(Scan(valid, x, 0, c)));
  }

  /** So `#t1#t2` is the workgroup token with these tags. */
  lemma {:induction false} HashTags(valid: string -> bool, tags: seq<string>, exclude: bool)
    requires tags != [] && TagTexts(tags)
    ensures Parse(valid, Dash(exclude) + "#" + (tags[0] + PrintTags(tags[1..]))) ==
            Ok([Token(TypeWorkGroup, "", "", tags, None, exclude)])
  {
    var t, x := Token(TypeWorkGroup, "", "", tags, None, exclude), tags[0] + PrintTags(tags[1..]);
    TokenRoundTrip(valid, t, "");
    PrintHash(tags, exclude, x);
    assert Print(t) + "" == Print(t);
    HashStart(valid, exclude, x);
    var r := Parse(valid, Dash(exclude) + "#" + x);
    assert r.Ok? ==> [] + r.value == r.value;
  }

  lemma {:induction false} PrintHash(tags: seq<string>, exclude: bool, x: string)
    requires tags != [] && x == tags[0] + PrintTags(tags[1..])
    ensures Print(Token(TypeWorkGroup, "", "", tags, None, exclude)) == Dash(exclude) + "*" + "#" + x
  {
    assert PrintTags(tags) == "#" + x;
    assert PrintFilters(Token(TypeWorkGroup, "", "", tags, None, exclude)) == "" + ("#" + x) + "" == "#" + x;
  }

  /** A slash starts a host regexp just as a tilde does. */
  lemma {:induction false} SlashStart(valid: string -> bool, exclude: bool, x: string)
    ensures Parse(valid, Dash(exclude) + "/" + x) == Parse(valid, Dash(exclude) + "~" + x)
  {
    var d, c := Dash(exclude), Started(exclude, TypeHostRegexp);
    LeadsDash(valid, exclude, "/" + x);
    LeadsOne(valid, d, '/', x, Dashed(exclude), c);
    LeadsTo(valid, d + "/", x, c);
    LeadsDash(valid, exclude, "~" + x);
    LeadsOne(valid, d, '~', x, Dashed(exclude), c);
    LeadsTo(valid, d + "~", x, c);
  }

  /** A second dash changes nothing. */
  lemma {:induction false} DashDash(valid: string -> bool, x: string)
    ensures Parse(valid, "-" + "-" + x) == After([], 1, Parse(valid, "-" + x))
  {
    LeadsDash(valid, true, "-" + x);
    LeadsOne(valid, "-", '-', x, Dashed(true), Dashed(true));
    LeadsTo(valid, "-" + "-", x, Dashed(true));
    LeadsDash(valid, true, x);
    LeadsTo(valid, "-", x, Dashed(true));
    AfterAfter(1, 1, FinishScan(Scan(valid, x, 0, Dashed(true))));
  }
}
