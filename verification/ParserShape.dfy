/** What every accepted expression gives, whatever its symbols: the shape of its tokens and a bound on
    their number. */
module ParserShape {
  import opened Basics
  import opened Parser

  predicate Filtered(k: TokenType) { k.TypeGroup? || k.TypeWorkGroup? }

  /** Only groups and workgroups have datacenter and tag filters, a plain host has a name, no token has
      both tags and a regexp, no tag is empty, and every regexp compiles. */
  predicate ShapeOk(valid: string -> bool, t: Token) {
    && (!Filtered(t.kind) ==> t.datacenter == "" && t.tags == [])
    && (t.kind.TypeHost? ==> t.value != "")
    && (t.tags == [] || t.regexp.None?)
    && (forall i | 0 <= i < |t.tags| :: t.tags[i] != "")
    && (t.regexp.Some? ==> valid(t.regexp.value))
  }

  /** What the token under construction looks like in each state. */
  predicate Building(c: Config) {
    && c.ct.regexp.None?
    && (forall i | 0 <= i < |c.ct.tags| :: c.ct.tags[i] != "")
    && (!c.state.ReadTag? ==> c.ct.tags == [])
    && match c.state
       case Wait => c.ct == NEW_TOKEN.(exclude := c.ct.exclude)
       case ReadHost => !Filtered(c.ct.kind) && c.ct.datacenter == "" && (c.ct.kind.TypeHost? ==> c.ct.value != "")
       case ReadHostBracePattern => !Filtered(c.ct.kind) && c.ct.datacenter == "" && c.ct.value != ""
       case ReadRegexp => Filtered(c.ct.kind) || (c.ct.datacenter == "" && (c.ct.kind.TypeHost? ==> c.ct.value != ""))
       case _ => Filtered(c.ct.kind)
  }

  predicate Inv(valid: string -> bool, c: Config, i: nat) {
    Building(c) && Produced(valid, c.res) && 2 * |c.res| + (if c.state.Wait? then 0 else 1) <= i
  }

  predicate Produced(valid: string -> bool, ts: seq<Token>) {
    forall k | 0 <= k < |ts| :: ShapeOk(valid, ts[k])
  }

  lemma {:induction false} PushInv(valid: string -> bool, c: Config, i: nat)
    requires Produced(valid, c.res) && ShapeOk(valid, c.ct) && 2 * |c.res| + 1 <= i
    ensures Inv(valid, Push(c), i + 1)
  {
  }

  lemma {:induction false} AddTagShape(valid: string -> bool, c: Config, tag: string, i: nat)
    requires Inv(valid, c, i) && c.state.ReadTag? && tag != ""
    ensures Building(AddTag(c, tag)) && ShapeOk(valid, AddTag(c, tag).ct)
  {
  }

  lemma {:induction false} TagInv(valid: string -> bool, c: Config, sym: char, last: bool, i: nat)
    requires Inv(valid, c, i) && c.state.ReadTag?
    ensures var o := StepTag(c, sym, last, i);
            o.Next? ==> Inv(valid, o.c, i + o.used)
  {
    var tag := if sym == ',' || sym == '#' then c.tag else c.tag + [sym];
    if tag != "" {
      AddTagShape(valid, c, tag, i);
      PushInv(valid, AddTag(c, tag), i);
    }
    if c.tag + [sym] != "" {
      AddTagShape(valid, c, c.tag + [sym], i);
      PushInv(valid, AddTag(c, c.tag + [sym]), i);
    }
  }

  lemma {:induction false} WaitInv(valid: string -> bool, c: Config, sym: char, i: nat)
    requires Inv(valid, c, i) && c.state.Wait?
    ensures var o := StepWait(c, sym, i);
            o.Next? ==> Inv(valid, o.c, i + o.used)
  {
  }

  lemma {:induction false} GroupInv(valid: string -> bool, c: Config, sym: char, last: bool, i: nat)
    requires Inv(valid, c, i) && (c.state.ReadGroup? || c.state.ReadWorkGroup?)
    ensures var o := StepGroup(c, sym, last, i);
            o.Next? ==> Inv(valid, o.c, i + o.used)
  {
    PushInv(valid, c, i);
    PushInv(valid, c.(ct := c.ct.(value := c.ct.value + [sym])), i);
  }

  lemma {:induction false} HostInv(valid: string -> bool, c: Config, sym: char, last: bool, i: nat)
    requires Inv(valid, c, i) && c.state.ReadHost?
    ensures var o := StepHost(c, sym, last);
            o.Next? ==> Inv(valid, o.c, i + o.used)
  {
    PushInv(valid, c, i);
    PushInv(valid, c.(ct := c.ct.(value := c.ct.value + [sym])), i);
  }

  lemma {:induction false} BraceInv(valid: string -> bool, c: Config, sym: char, i: nat)
    requires Inv(valid, c, i) && c.state.ReadHostBracePattern?
    ensures var o := StepBrace(c, sym, i);
            o.Next? ==> Inv(valid, o.c, i + o.used)
  {
  }

  lemma {:induction false} DatacenterInv(valid: string -> bool, c: Config, sym: char, last: bool, i: nat)
    requires Inv(valid, c, i) && c.state.ReadDatacenter?
    ensures var o := StepDatacenter(c, sym, last);
            o.Next? ==> Inv(valid, o.c, i + o.used)
  {
    PushInv(valid, c, i);
    PushInv(valid, c.(ct := c.ct.(datacenter := c.ct.datacenter + [sym])), i);
  }

  lemma {:induction false} RegexpInv(valid: string -> bool, c: Config, sym: char, ahead: Option<char>, i: nat)
    requires Inv(valid, c, i) && c.state.ReadRegexp?
    ensures var o := StepRegexp(valid, c, sym, ahead, i);
            o.Next? ==> Inv(valid, o.c, i + o.used)
  {
    if valid(c.re) {
      PushInv(valid, c.(ct := c.ct.(regexp := Some(c.re))), i);
    }
  }

  lemma {:induction false} StepInv(valid: string -> bool, c: Config, sym: char, ahead: Option<char>, i: nat)
    requires Inv(valid, c, i)
    ensures var o := Step(valid, c, sym, ahead, i);
            o.Next? ==> Inv(valid, o.c, i + o.used)
  {
    match c.state
    case Wait => WaitInv(valid, c, sym, i);
    case ReadHost => HostInv(valid, c, sym, ahead.None?, i);
    case ReadHostBracePattern => BraceInv(valid, c, sym, i);
    case ReadRegexp => RegexpInv(valid, c, sym, ahead, i);
    case ReadDatacenter => DatacenterInv(valid, c, sym, ahead.None?, i);
    case ReadTag => TagInv(valid, c, sym, ahead.None?, i);
    case _ => GroupInv(valid, c, sym, ahead.None?, i);
  }

  lemma {:induction false} ScanInv(valid: string -> bool, expr: string, i: nat, c: Config)
    requires Inv(valid, c, i) && i <= |expr|
    ensures var r := Scan(valid, expr, i, c);
            r.Ok? ==> Inv(valid, r.value, |expr|)
    decreases |expr| - i
  {
    if i < |expr| {
      StepInv(valid, c, expr[i], Ahead(expr, i), i);
      var o := Step(valid, c, expr[i], Ahead(expr, i), i);
      if o.Next? {
        ScanInv(valid, expr, i + o.used, o.c);
      }
    }
  }

  /** Token shape over all inputs, and at most one token for every two symbols. So no plain host ever
      carries a tag filter: that branch of the conductor is never taken for a parsed expression. */
  lemma {:induction false} TokenShape(valid: string -> bool, expr: string)
    ensures var r := Parse(valid, expr);
            r.Ok? ==> Produced(valid, r.value) && 2 * |r.value| <= |expr| + 1
  {
    ScanInv(valid, expr, 0, INITIAL);
  }
}
