/** The host-expression parser (src/parser/parser.go): one pass over the symbols with a state, a token
    under construction, one symbol of lookahead and a different way to end in every state. */
module Parser {
  import opened Basics

  datatype TokenType = TypeHost | TypeGroup | TypeWorkGroup | TypeHostRegexp

  datatype State =
    | Wait | ReadHost | ReadGroup | ReadWorkGroup | ReadDatacenter | ReadTag | ReadHostBracePattern | ReadRegexp

  /** `regexp` is the text of the compiled filter. */
  datatype Token = Token(
    kind: TokenType, value: string, datacenter: string, tags: seq<string>, regexp: Option<string>, exclude: bool)

  const NEW_TOKEN := Token(TypeHost, "", "", [], None, false)

  /** A letter, a digit, a dot, a dash or a brace. */
  predicate HostSymbol(sym: char) {
    'a' <= sym <= 'z' || 'A' <= sym <= 'Z' || '0' <= sym <= '9' || sym in {'.', '-', '{', '}'}
  }

  datatype ParseError =
    | InvalidSymbol(sym: char, at: nat)
    | EmptyGroupName(at: nat)
    | NestedPattern(at: nat)
    | EmptyTag(at: nat)
    | BadRegexp(at: nat)
    | UnexpectedEnd

  datatype Result<+T> = Ok(value: T) | Err(error: ParseError)

  /** The variables of the loop. */
  datatype Config = Config(state: State, ct: Token, tag: string, re: string, res: seq<Token>)

  const INITIAL := Config(Wait, NEW_TOKEN, "", "", [])

  /** One iteration: an error return, or the new variables and how many symbols were used. */
  datatype Outcome = Fail(error: ParseError) | Next(c: Config, used: nat)

  /** The token is complete. */
  function Push(c: Config): Config {
    c.(state := Wait, ct := NEW_TOKEN, res := c.res + [c.ct])
  }

  function EnterTag(c: Config): Config { c.(state := ReadTag, tag := "") }

  function EnterRegexp(c: Config): Config { c.(state := ReadRegexp, re := "") }

  function StepWait(c: Config, sym: char, i: nat): Outcome {
    if sym == '-' then Next(c.(ct := c.ct.(exclude := true)), 1)
    else if sym == '*' then Next(c.(state := ReadWorkGroup, ct := c.ct.(kind := TypeWorkGroup)), 1)
    else if sym == '%' then Next(c.(state := ReadGroup, ct := c.ct.(kind := TypeGroup)), 1)
    else if sym == '#' then Next(EnterTag(c.(ct := c.ct.(kind := TypeWorkGroup))), 1)
    else if sym == '/' || sym == '~' then Next(c.(state := ReadHost, ct := c.ct.(kind := TypeHostRegexp)), 1)
    else if HostSymbol(sym) then
      Next(c.(state := ReadHost, ct := c.ct.(kind := TypeHost, value := c.ct.value + [sym])), 1)
    else Fail(InvalidSymbol(sym, i))
  }

  /** Groups and workgroups read the same way, but only a group needs a name. */
  function StepGroup(c: Config, sym: char, last: bool, i: nat): Outcome {
    if sym == '@' then Next(c.(state := ReadDatacenter), 1)
    else if sym == '#' then Next(EnterTag(c), 1)
    else if sym == '/' then Next(EnterRegexp(c), 1)
    else if sym == ',' || last then
      var ct := if sym != ',' then c.ct.(value := c.ct.value + [sym]) else c.ct;
      if c.state.ReadGroup? && ct.value == "" then Fail(EmptyGroupName(i)) else Next(Push(c.(ct := ct)), 1)
    else Next(c.(ct := c.ct.(value := c.ct.value + [sym])), 1)
  }

  function StepRegexp(valid: string -> bool, c: Config, sym: char, ahead: Option<char>, i: nat): Outcome {
    if sym == '\\' && ahead == Some('/') then Next(c.(re := c.re + "/"), 2)
    else if sym == '/' then
      if !valid(c.re) then Fail(BadRegexp(i))
      else Next(Push(c.(ct := c.ct.(regexp := Some(c.re)))), if ahead == Some(',') then 2 else 1)
    else Next(c.(re := c.re + [sym]), 1)
  }

  function StepHost(c: Config, sym: char, last: bool): Outcome {
    if sym == '/' then Next(EnterRegexp(c), 1)
    else if sym == ',' then Next(Push(c), 1)
    else
      var ct := c.ct.(value := c.ct.value + [sym]);
      if last then Next(Push(c.(ct := ct)), 1)
      else Next(c.(ct := ct, state := if sym == '{' then ReadHostBracePattern else ReadHost), 1)
  }

  function StepBrace(c: Config, sym: char, i: nat): Outcome {
    if sym == '{' then Fail(NestedPattern(i))
    else Next(c.(ct := c.ct.(value := c.ct.value + [sym]), state := if sym == '}' then ReadHost else c.state), 1)
  }

  function StepDatacenter(c: Config, sym: char, last: bool): Outcome {
    var more := c.ct.(datacenter := c.ct.datacenter + [sym]);
    if sym == ',' || last then Next(Push(if sym != ',' then c.(ct := more) else c), 1)
    else if sym == '#' then Next(EnterTag(c), 1)
    else if sym == '/' then Next(EnterRegexp(c), 1)
    else Next(c.(ct := more), 1)
  }

  function AddTag(c: Config, tag: string): Config {
    c.(ct := c.ct.(tags := c.ct.tags + [tag]), tag := tag)
  }

  function StepTag(c: Config, sym: char, last: bool, i: nat): Outcome {
    if sym == ',' || last then
      var tag := if sym != ',' then c.tag + [sym] else c.tag;
      if tag == "" then Fail(EmptyTag(i)) else Next(Push(AddTag(c, tag)), 1)
    else if sym == '#' then
      if c.tag == "" then Fail(EmptyTag(i)) else Next(AddTag(c, c.tag).(tag := ""), 1)
    else Next(c.(tag := c.tag + [sym]), 1)
  }

  /** `ahead` is the symbol after `sym`; the symbol is the last one when there is none. */
  function Step(valid: string -> bool, c: Config, sym: char, ahead: Option<char>, i: nat): (o: Outcome)
    ensures o.Next? ==> 1 <= o.used <= 2 && (ahead.None? ==> o.used == 1)
  {
    match c.state
    case Wait => StepWait(c, sym, i)
    case ReadGroup => StepGroup(c, sym, ahead.None?, i)
    case ReadWorkGroup => StepGroup(c, sym, ahead.None?, i)
    case ReadRegexp => StepRegexp(valid, c, sym, ahead, i)
    case ReadHost => StepHost(c, sym, ahead.None?)
    case ReadHostBracePattern => StepBrace(c, sym, i)
    case ReadDatacenter => StepDatacenter(c, sym, ahead.None?)
    case ReadTag => StepTag(c, sym, ahead.None?, i)
  }

  function Ahead(expr: string, i: nat): Option<char> {
    if i + 1 < |expr| then Some(expr[i + 1]) else None
  }

  /** The loop from symbol `i` on. */
  function Scan(valid: string -> bool, expr: string, i: nat, c: Config): Result<Config>
    decreases |expr| - i
  {
    if i >= |expr| then Ok(c)
    else
      match Step(valid, c, expr[i], Ahead(expr, i), i)
      case Fail(e) => Err(e)
      case Next(c', used) => Scan(valid, expr, i + used, c')
  }

  /** What happens after the last symbol. */
  function Finish(c: Config): Result<seq<Token>> {
    var push := c.ct.value != "" || c.state.ReadWorkGroup?;
    if !push && !c.state.Wait? then Err(UnexpectedEnd)
    else if c.state.ReadDatacenter? || c.state.ReadTag? || c.state.ReadHostBracePattern? || c.state.ReadRegexp? then
      Err(UnexpectedEnd)
    else Ok(if push then c.res + [c.ct] else c.res)
  }

  function FinishScan(r: Result<Config>): Result<seq<Token>> {
    match r
    case Ok(c) => Finish(c)
    case Err(e) => Err(e)
  }

  function Parse(valid: string -> bool, expr: string): Result<seq<Token>> {
    FinishScan(Scan(valid, expr, 0, INITIAL))
  }

  /** The parser in the form the program has it. */
  method ParseExpression(valid: string -> bool, expr: string) returns (r: Result<seq<Token>>)
    ensures r == Parse(valid, expr)
  {
    var ct, res: seq<Token>, state, tag, re, last := NEW_TOKEN, [], Wait, "", "", false;
    var i := 0;
    while i < |expr|
      invariant Scan(valid, expr, 0, INITIAL) == Scan(valid, expr, i, Config(state, ct, tag, re, res))
    {
      var sym := expr[i];
      last := i == |expr| - 1;
      ghost var c := Config(state, ct, tag, re, res);
      ghost var at := i;
      assert Ahead(expr, i).None? <==> last;
      match state {
        case Wait =>
          if sym == '-' {
            ct := ct.(exclude := true);
          } else if sym == '*' {
            state, ct := ReadWorkGroup, ct.(kind := TypeWorkGroup);
          } else if sym == '%' {
            state, ct := ReadGroup, ct.(kind := TypeGroup);
          } else if sym == '#' {
            state, ct, tag := ReadTag, ct.(kind := TypeWorkGroup), "";
          } else if sym == '/' || sym == '~' {
            state, ct := ReadHost, ct.(kind := TypeHostRegexp);
          } else if HostSymbol(sym) {
            state, ct := ReadHost, ct.(kind := TypeHost, value := ct.value + [sym]);
          } else {
            return Err(InvalidSymbol(sym, i));
          }
        case ReadGroup =>
          if sym == '@' {
            state := ReadDatacenter;
          } else if sym == '#' {
            state, tag := ReadTag, "";
          } else if sym == '/' {
            state, re := ReadRegexp, "";
          } else if sym == ',' || last {
            if last && sym != ',' {
              ct := ct.(value := ct.value + [sym]);
            }
            if ct.value == "" {
              return Err(EmptyGroupName(i));
            }
            res, ct, state := res + [ct], NEW_TOKEN, Wait;
          } else {
            ct := ct.(value := ct.value + [sym]);
          }
        case ReadWorkGroup =>
          if sym == '@' {
            state := ReadDatacenter;
          } else if sym == '#' {
            tag, state := "", ReadTag;
          } else if sym == '/' {
            state, re := ReadRegexp, "";
          } else if sym == ',' || last {
            if last && sym != ',' {
              ct := ct.(value := ct.value + [sym]);
            }
            res, ct, state := res + [ct], NEW_TOKEN, Wait;
          } else {
            ct := ct.(value := ct.value + [sym]);
          }
        case ReadRegexp =>
          if sym == '\\' && !last && expr[i + 1] == '/' {
            re, i := re + "/", i + 1;
          } else if sym == '/' {
            if !valid(re) {
              return Err(BadRegexp(i));
            }
            ct := ct.(regexp := Some(re));
            res, ct, state := res + [ct], NEW_TOKEN, Wait;
            if !last && expr[i + 1] == ',' {
              i := i + 1;
            }
          } else {
            re := re + [sym];
          }
        case ReadHost =>
          if sym == '/' {
            state, re := ReadRegexp, "";
          } else {
            if sym == '{' {
              state := ReadHostBracePattern;
            }
            if sym == ',' || last {
              if last && sym != ',' {
                ct := ct.(value := ct.value + [sym]);
              }
              res, ct, state := res + [ct], NEW_TOKEN, Wait;
            } else {
              ct := ct.(value := ct.value + [sym]);
            }
          }
        case ReadHostBracePattern =>
          if sym == '{' {
            return Err(NestedPattern(i));
          }
          if sym == '}' {
            state := ReadHost;
          }
          ct := ct.(value := ct.value + [sym]);
        case ReadDatacenter =>
          if sym == ',' || last {
            if last && sym != ',' {
              ct := ct.(datacenter := ct.datacenter + [sym]);
            }
            res, ct, state := res + [ct], NEW_TOKEN, Wait;
          } else if sym == '#' {
            tag, state := "", ReadTag;
          } else if sym == '/' {
            re, state := "", ReadRegexp;
          } else {
            ct := ct.(datacenter := ct.datacenter + [sym]);
          }
        case ReadTag =>
          if sym == ',' || last {
            if last && sym != ',' {
              tag := tag + [sym];
            }
            if tag == "" {
              return Err(EmptyTag(i));
            }
            ct := ct.(tags := ct.tags + [tag]);
            res, ct, state := res + [ct], NEW_TOKEN, Wait;
          } else if sym == '#' {
            if tag == "" {
              return Err(EmptyTag(i));
            }
            ct, tag := ct.(tags := ct.tags + [tag]), "";
          } else {
            tag := tag + [sym];
          }
      }
      i := i + 1;
      assert Step(valid, c, expr[at], Ahead(expr, at), at) == Next(Config(state, ct, tag, re, res), i - at);
    }
    if ct.value != "" || state == ReadWorkGroup {
      res := res + [ct];
    } else if state != Wait {
      return Err(UnexpectedEnd);
    }
    if state == ReadDatacenter || state == ReadTag || state == ReadHostBracePattern || state == ReadRegexp {
      return Err(UnexpectedEnd);
    }
    return Ok(res);
  }
}
