/** Aliases: the registry kept in three structures, text substitution, and the mutual recursion of OneCmd
    and runAlias under a budget (src/cli/alias.go, src/cli/cli.go:157-208 and 255-303,
    src/cli/completer.go:86-98). */
module Alias {
  import opened Basics
  import opened HostSet

  // ---------------------------------------------------------------- the registry

  datatype Handler = Builtin(name: string) | RunAlias

  /** What the command line knows: handlers by name, the text behind every alias, and the completer's
      list of commands. */
  datatype Registry = Registry(handlers: map<string, Handler>, aliases: map<string, string>, commands: seq<string>)

  /** A name that is no alias yet must not stand in the list of commands. */
  predicate CanCreate(r: Registry, name: string) { name in r.aliases || name !in r.commands }

  function CreateAlias(r: Registry, name: string, proxy: string): Registry {
    if CanCreate(r, name)
    then Registry(r.handlers[name := RunAlias], r.aliases[name := proxy], r.commands + [name])
    else r
  }

  function RemoveAlias(r: Registry, name: string): Registry {
    if name in r.aliases
    then Registry(r.handlers - {name}, r.aliases - {name}, RemoveFirst(r.commands, name))
    else r
  }

  /** Handlers are the built-ins, untouched, and the aliases; every built-in is listed once. */
  ghost predicate Inv(builtins: set<string>, r: Registry) {
    && r.handlers.Keys == builtins + r.aliases.Keys && builtins !! r.aliases.Keys
    && (forall b | b in builtins :: r.handlers[b] == Builtin(b) && Count(r.commands, b) == 1)
    && (forall a | a in r.aliases :: r.handlers[a] == RunAlias && Count(r.commands, a) >= 1)
  }

  /** Creating an alias never takes the place of a built-in. */
  lemma {:induction false} CreateKeeps(builtins: set<string>, r: Registry, name: string, proxy: string)
    requires Inv(builtins, r)
    ensures Inv(builtins, CreateAlias(r, name, proxy))
  {
    CountPositive(r.commands, name);
    forall x ensures Count(r.commands + [name], x) == Count(r.commands, x) + if x == name then 1 else 0 {
      CountSnoc(r.commands, name, x);
    }
  }

  lemma {:induction false} RemoveKeeps(builtins: set<string>, r: Registry, name: string)
    requires Inv(builtins, r)
    ensures Inv(builtins, RemoveAlias(r, name))
  {
    if name in r.aliases {
      var after := RemoveAlias(r, name);
      assert name !in builtins;
      assert after.handlers.Keys == builtins + after.aliases.Keys;
      forall x | x in builtins || x in after.aliases
        ensures Count(after.commands, x) == Count(r.commands, x)
      {
        RemoveCount(r.commands, name, x);
      }
    }
  }

  // ---------------------------------------------------------------- runs of creations and removals

  datatype Op = Create(name: string, proxy: string) | Remove(name: string)

  function Do(r: Registry, op: Op): Registry {
    match op
    case Create(name, proxy) => CreateAlias(r, name, proxy)
    case Remove(name) => RemoveAlias(r, name)
  }

  function Run(r: Registry, ops: seq<Op>): Registry {
    if ops == [] then r else Do(Run(r, ops[..|ops| - 1]), ops[|ops| - 1])
  }

  /** What setupCmdHandlers leaves: the built-ins, listed in the order of a map. */
  ghost predicate Fresh(builtins: set<string>, r: Registry) {
    && r.handlers.Keys == builtins && (forall b | b in builtins :: r.handlers[b] == Builtin(b))
    && r.aliases == map[] && (forall x :: Count(r.commands, x) == if x in builtins then 1 else 0)
  }

  lemma {:induction false} RunKeeps(builtins: set<string>, r: Registry, ops: seq<Op>)
    requires Inv(builtins, r)
    ensures Inv(builtins, Run(r, ops))
  {
    if ops != [] {
      var before, op := Run(r, ops[..|ops| - 1]), ops[|ops| - 1];
      RunKeeps(builtins, r, ops[..|ops| - 1]);
      match op {
        case Create(name, proxy) => CreateKeeps(builtins, before, name, proxy);
        case Remove(name) => RemoveKeeps(builtins, before, name);
      }
    }
  }

  lemma {:induction false} FreshInv(builtins: set<string>, r: Registry)
    requires Fresh(builtins, r)
    ensures Inv(builtins, r)
  {
    forall c | c in r.commands ensures c in builtins {
      CountPositive(r.commands, c);
    }
  }

  /** How often an alias was defined again while it was already defined. */
  function Redefined(r: Registry, ops: seq<Op>, n: string): nat {
    if ops == [] then 0
    else
      var init, op := ops[..|ops| - 1], ops[|ops| - 1];
      Redefined(r, init, n) + if op == Create(n, if op.Create? then op.proxy else "") && n in Run(r, init).aliases then 1 else 0
  }

  /** Every redefinition leaves one entry in the list of commands that no removal takes out. */
  lemma {:induction false} Leftovers(builtins: set<string>, r: Registry, ops: seq<Op>, n: string)
    requires Fresh(builtins, r) && n !in builtins
    ensures Count(Run(r, ops).commands, n) == Redefined(r, ops, n) + if n in Run(r, ops).aliases then 1 else 0
  {
    if ops != [] {
      var init, op := ops[..|ops| - 1], ops[|ops| - 1];
      var before := Run(r, init);
      Leftovers(builtins, r, init, n);
      CountPositive(before.commands, n);
      match op {
        case Create(name, proxy) =>
          CountPositive(before.commands, name);
          CountSnoc(before.commands, name, n);
        case Remove(name) =>
          RemoveCount(before.commands, name, n);
      }
    }
  }

  /** After any run of creations and removals, a name that is not an alias can be made one if and only
      if it is no built-in and was never defined twice in a row: one redefinition blocks a removed name
      for good. */
  lemma {:induction false} CreatableExactly(builtins: set<string>, r: Registry, ops: seq<Op>, n: string)
    requires Fresh(builtins, r) && n !in Run(r, ops).aliases
    ensures CanCreate(Run(r, ops), n) <==> n !in builtins && Redefined(r, ops, n) == 0
  {
    CountPositive(Run(r, ops).commands, n);
    FreshInv(builtins, r);
    RunKeeps(builtins, r, ops);
    if n !in builtins {
      Leftovers(builtins, r, ops, n);
    }
  }

  lemma {:induction false} Untouched(r: Registry, ops: seq<Op>, i: nat, n: string)
    requires i <= |ops| && forall j | i <= j < |ops| :: ops[j].name != n
    ensures var before, after := Run(r, ops[..i]), Run(r, ops);
            (n in after.aliases <==> n in before.aliases) && (n in before.aliases ==> after.aliases[n] == before.aliases[n])
    decreases |ops|
  {
    if i == |ops| {
      assert ops[..i] == ops;
    } else {
      var init := ops[..|ops| - 1];
      assert init[..i] == ops[..i];
      Untouched(r, init, i, n);
    }
  }

  /** The text behind an alias is that of the last creation of the name that was not refused; a removal
      takes it away. */
  lemma {:induction false} StoredText(r: Registry, ops: seq<Op>, i: nat, n: string)
    requires i < |ops| && ops[i].name == n && forall j | i < j < |ops| :: ops[j].name != n
    ensures var after := Run(r, ops).aliases;
            match ops[i]
            case Create(_, proxy) => (n in after <==> CanCreate(Run(r, ops[..i]), n)) && (n in after ==> after[n] == proxy)
            case Remove(_) => n !in after
  {
    Untouched(r, ops, i + 1, n);
    assert ops[..i + 1][..i] == ops[..i];
  }

  // ---------------------------------------------------------------- substitution

  /** A character, an argument by number, or all arguments. */
  datatype Piece = Literal(sym: char) | Argument(number: nat) | Whole

  predicate Digit(c: char) { '0' <= c <= '9' }

  function Value(c: char): nat
    requires Digit(c)
  {
    c as int - '0' as int
  }

  /** The piece that starts at a position, and its length. */
  function PieceAt(proxy: string, i: nat): (Piece, nat)
    requires i < |proxy|
  {
    if i + 1 < |proxy| && proxy[i] == '#' && Digit(proxy[i + 1]) then (Argument(Value(proxy[i + 1])), 2)
    else if i + 1 < |proxy| && proxy[i] == '#' && proxy[i + 1] == '*' then (Whole, 2)
    else (Literal(proxy[i]), 1)
  }

  function Pieces(proxy: string, i: nat): seq<Piece>
    requires i <= |proxy|
    decreases |proxy| - i
  {
    if i == |proxy| then [] else [PieceAt(proxy, i).0] + Pieces(proxy, i + PieceAt(proxy, i).1)
  }

  datatype Expansion = Expanded(line: string) | NeedsArgument(number: nat) | Panicked

  /** The text of a piece for which there is one. */
  function Text(p: Piece, argsLine: string, args: seq<string>): string {
    match p
    case Literal(sym) => [sym]
    case Whole => argsLine
    case Argument(n) => if 1 <= n <= |args| then args[n - 1] else ""
  }

  predicate Known(p: Piece, args: seq<string>) { p.Argument? ==> 1 <= p.number <= |args| }

  ghost function TextOf(argsLine: string, args: seq<string>): Piece -> string { p => Text(p, argsLine, args) }

  /** The outcome for the pieces: the first one without a text ends it, and `#0` indexes before the
      arguments. */
  ghost function Substitute(ps: seq<Piece>, argsLine: string, args: seq<string>, done: string): Expansion {
    if ps == [] then Expanded(done)
    else if Known(ps[0], args) then Substitute(ps[1..], argsLine, args, done + Text(ps[0], argsLine, args))
    else if ps[0].number == 0 then Panicked
    else NeedsArgument(ps[0].number)
  }

  /** exterpolate, in one pass over the text. */
  method Exterpolate(proxy: string, argsLine: string, args: seq<string>) returns (r: Expansion)
    ensures r == Substitute(Pieces(proxy, 0), argsLine, args, "")
  {
    var res := "";
    var i := 0;
    while i < |proxy|
      invariant i <= |proxy|
      invariant Substitute(Pieces(proxy, 0), argsLine, args, "") == Substitute(Pieces(proxy, i), argsLine, args, res)
    {
      if i < |proxy| - 1 && proxy[i] == '#' {
        if Digit(proxy[i + 1]) {
          var argNum := Value(proxy[i + 1]) - 1;
          if argNum >= |args| {
            return NeedsArgument(argNum + 1);
          }
          if argNum < 0 {
            return Panicked;
          }
          res := res + args[argNum];
          i := i + 2;
          continue;
        } else if proxy[i + 1] == '*' {
          res := res + argsLine;
          i := i + 2;
          continue;
        }
      }
      res := res + [proxy[i]];
      i := i + 1;
    }
    r := Expanded(res);
  }

  /** Substitution succeeds exactly when every argument that the text names is given, and then replaces
      every piece by its text, in order. */
  lemma {:induction false} SubstituteExactly(ps: seq<Piece>, argsLine: string, args: seq<string>, done: string)
    ensures Substitute(ps, argsLine, args, done).Expanded? <==> forall i | 0 <= i < |ps| :: Known(ps[i], args)
    ensures Substitute(ps, argsLine, args, done).Expanded? ==>
              Substitute(ps, argsLine, args, done).line == done + FlatMap(TextOf(argsLine, args), ps)
  {
    if ps == [] {
      assert done + "" == done;
    } else if Known(ps[0], args) {
      var more := done + Text(ps[0], argsLine, args);
      SubstituteExactly(ps[1..], argsLine, args, more);
      assert more + FlatMap(TextOf(argsLine, args), ps[1..]) == done + FlatMap(TextOf(argsLine, args), ps);
    }
  }

  /** A text without `#` is its own expansion. */
  lemma {:induction false} PlainPieces(proxy: string, i: nat, argsLine: string, args: seq<string>)
    requires i <= |proxy| && '#' !in proxy
    ensures forall k | 0 <= k < |Pieces(proxy, i)| :: Known(Pieces(proxy, i)[k], args)
    ensures FlatMap(TextOf(argsLine, args), Pieces(proxy, i)) == proxy[i..]
    decreases |proxy| - i
  {
    if i < |proxy| {
      PlainPieces(proxy, i + 1, argsLine, args);
      assert Pieces(proxy, i)[1..] == Pieces(proxy, i + 1);
      assert proxy[i..] == [proxy[i]] + proxy[i + 1..];
    }
  }

  lemma {:induction false} PlainText(proxy: string, argsLine: string, args: seq<string>)
    requires '#' !in proxy
    ensures Substitute(Pieces(proxy, 0), argsLine, args, "") == Expanded(proxy)
  {
    PlainPieces(proxy, 0, argsLine, args);
    SubstituteExactly(Pieces(proxy, 0), argsLine, args, "");
    assert "" + proxy[0..] == proxy;
  }

  // ---------------------------------------------------------------- what an alias text turns into

  /** exterpolate on the text of an alias. */
  ghost function Expand(proxy: string, argsLine: string, args: seq<string>, done: string): Expansion {
    Substitute(Pieces(proxy, 0), argsLine, args, done)
  }

  lemma {:induction false} PiecesShift(p: string, s: string, j: nat)
    requires j <= |s|
    ensures Pieces(p + s, |p| + j) == Pieces(s, j)
    decreases |s| - j
  {
    if j < |s| {
      assert (p + s)[|p| + j] == s[j];
      assert j + 1 < |s| ==> (p + s)[|p| + j + 1] == s[j + 1];
      assert PieceAt(p + s, |p| + j) == PieceAt(s, j);
      PiecesShift(p, s, j + PieceAt(s, j).1);
    }
  }

  /** The first piece of a text, and the rest on its own. */
  lemma {:induction false} HeadPiece(p: string, s: string, argsLine: string, args: seq<string>, done: string)
    requires p != "" && PieceAt(p + s, 0).1 == |p|
    ensures Expand(p + s, argsLine, args, done) ==
            var piece := PieceAt(p + s, 0).0;
            if Known(piece, args) then Expand(s, argsLine, args, done + Text(piece, argsLine, args))
            else if piece.number == 0 then Panicked else NeedsArgument(piece.number)
  {
    PiecesShift(p, s, 0);
    var ps := Pieces(p + s, 0);
    assert ps[1..] == Pieces(s, 0);
  }

  /** Text without a mark is copied... */
  lemma {:induction false} ExpandPlain(a: string, s: string, argsLine: string, args: seq<string>, done: string)
    requires '#' !in a
    ensures Expand(a + s, argsLine, args, done) == Expand(s, argsLine, args, done + a)
    decreases |a|
  {
    if a == "" {
      assert a + s == s && done + a == done;
    } else {
      assert [a[0]] + (a[1..] + s) == a + s;
      HeadPiece([a[0]], a[1..] + s, argsLine, args, done);
      ExpandPlain(a[1..], s, argsLine, args, done + [a[0]]);
      assert done + [a[0]] + a[1..] == done + a;
    }
  }

  /** ... `#*` is replaced by the whole line of arguments... */
  lemma {:induction false} ExpandWhole(s: string, argsLine: string, args: seq<string>, done: string)
    ensures Expand("#*" + s, argsLine, args, done) == Expand(s, argsLine, args, done + argsLine)
  {
    assert ("#*" + s)[0] == '#' && ("#*" + s)[1] == '*';
    HeadPiece("#*", s, argsLine, args, done);
  }

  /** ... `#1` to `#9` by one argument, if it is given... */
  lemma {:induction false} ExpandArgument(d: char, s: string, argsLine: string, args: seq<string>, done: string)
    requires '1' <= d <= '9'
    ensures var n := d as int - '0' as int;
            Expand("#" + [d] + s, argsLine, args, done) ==
            if n <= |args| then Expand(s, argsLine, args, done + args[n - 1]) else NeedsArgument(n)
  {
    assert ("#" + [d] + s)[0] == '#' && ("#" + [d] + s)[1] == d;
    HeadPiece("#" + [d], s, argsLine, args, done);
  }

  /** ... `#0` asks for the argument before the first... */
  lemma {:induction false} ExpandZero(s: string, argsLine: string, args: seq<string>, done: string)
    ensures Expand("#0" + s, argsLine, args, done) == Panicked
  {
    assert ("#0" + s)[0] == '#' && ("#0" + s)[1] == '0';
    HeadPiece("#0", s, argsLine, args, done);
  }

  /** ... and any other mark, or one at the end, stands for itself. */
  lemma {:induction false} ExpandMark(s: string, argsLine: string, args: seq<string>, done: string)
    requires s == "" || (!Digit(s[0]) && s[0] != '*')
    ensures Expand("#" + s, argsLine, args, done) == Expand(s, argsLine, args, done + "#")
  {
    assert ("#" + s)[0] == '#' && (s != "" ==> ("#" + s)[1] == s[0]);
    assert ['#'] == "#";
    HeadPiece("#", s, argsLine, args, done);
  }

  lemma {:induction false} ExpandEnd(b: string, argsLine: string, args: seq<string>, done: string)
    requires '#' !in b
    ensures Expand(b, argsLine, args, done) == Expanded(done + b)
  {
    assert b + "" == b;
    ExpandPlain(b, "", argsLine, args, done);
  }

  /** An alias text with one `#*` in it. */
  lemma {:induction false} WholeLine(a: string, b: string, argsLine: string, args: seq<string>)
    requires '#' !in a && '#' !in b
    ensures Expand(a + ("#*" + b), argsLine, args, "") == Expanded(a + argsLine + b)
  {
    ExpandPlain(a, "#*" + b, argsLine, args, "");
    assert "" + a == a;
    ExpandWhole(b, argsLine, args, a);
    ExpandEnd(b, argsLine, args, a + argsLine);
  }

  /** An alias text with one numbered argument in it. */
  lemma {:induction false} OneArgument(a: string, d: char, b: string, argsLine: string, args: seq<string>)
    requires '#' !in a && '#' !in b && '1' <= d <= '9'
    ensures var n := d as int - '0' as int;
            Expand(a + ("#" + [d] + b), argsLine, args, "") ==
            if n <= |args| then Expanded(a + args[n - 1] + b) else NeedsArgument(n)
  {
    var n := d as int - '0' as int;
    ExpandPlain(a, "#" + [d] + b, argsLine, args, "");
    assert "" + a == a;
    ExpandArgument(d, b, argsLine, args, a);
    if n <= |args| {
      ExpandEnd(b, argsLine, args, a + args[n - 1]);
    }
  }

  // ---------------------------------------------------------------- one line

  /** A way of trimming lines and of cutting them at white space. */
  datatype Splitter = Splitter(
    trim: string -> string,
    wsSplit: string -> (string, Option<string>),
    fields: string -> seq<string>)

  const MAX_ALIAS_RECURSION := 10

  /** A line as OneCmd takes it apart. */
  datatype Call = Call(cmd: string, argsLine: string, args: seq<string>)

  function Split(sp: Splitter, line: string): Call {
    var (cmd, rest) := sp.wsSplit(sp.trim(line));
    if rest.None? then Call(cmd, "", []) else Call(cmd, rest.value, sp.fields(rest.value))
  }

  /** The parts of the Cli that a line can change: `panicked` when a line indexed before its arguments. */
  datatype Session = Session(reg: Registry, budget: int, stopped: bool, panicked: bool, expansions: nat)

  function DoAlias(sp: Splitter, r: Registry, argsLine: string): Registry {
    var (name, rest) := sp.wsSplit(argsLine);
    if name == "" then r
    else if rest.None? || rest.value == "" then RemoveAlias(r, name)
    else CreateAlias(r, name, rest.value)
  }

  ghost function DoBuiltin(sp: Splitter, s: Session, name: string, argsLine: string): Session {
    if name == "exit" then s.(stopped := true)
    else if name == "alias" then s.(reg := DoAlias(sp, s.reg, argsLine))
    else s
  }

  function Fuel(budget: int): nat { if budget < 0 then 0 else budget }

  /** What a line does, and how many aliases it expands. */
  ghost function Line(sp: Splitter, s: Session, line: string): Session
    decreases Fuel(s.budget), 1
  {
    var c := Split(sp, line);
    if c.cmd == "" || c.cmd !in s.reg.handlers then s
    else match s.reg.handlers[c.cmd]
      case Builtin(name) => DoBuiltin(sp, s, name, c.argsLine)
      case RunAlias => AliasLine(sp, s, c)
  }

  ghost function AliasLine(sp: Splitter, s: Session, c: Call): Session
    decreases Fuel(s.budget), 0
  {
    var less := s.(budget := s.budget - 1);
    if less.budget < 0 || c.cmd !in s.reg.aliases then less
    else match Substitute(Pieces(s.reg.aliases[c.cmd], 0), c.argsLine, c.args, "")
      case Expanded(next) => Line(sp, less.(expansions := s.expansions + 1), next)
      case NeedsArgument(_) => less
      case Panicked => less.(panicked := true)
  }

  lemma {:induction false} AliasKeeps(builtins: set<string>, sp: Splitter, r: Registry, argsLine: string)
    requires Inv(builtins, r)
    ensures Inv(builtins, DoAlias(sp, r, argsLine))
  {
    var (name, rest) := sp.wsSplit(argsLine);
    if name != "" {
      if rest.None? || rest.value == "" {
        RemoveKeeps(builtins, r, name);
      } else {
        CreateKeeps(builtins, r, name, rest.value);
      }
    }
  }

  /** The registry, the expansions and the budget after a line, against those before. */
  ghost predicate Kept(builtins: set<string>, s: Session, after: Session) {
    && Inv(builtins, after.reg) && after.budget <= s.budget
    && s.expansions <= after.expansions <= s.expansions + Fuel(s.budget)
  }

  lemma {:induction false} BuiltinKeeps(builtins: set<string>, sp: Splitter, s: Session, name: string, argsLine: string)
    requires Inv(builtins, s.reg)
    ensures Kept(builtins, s, DoBuiltin(sp, s, name, argsLine))
  {
    AliasKeeps(builtins, sp, s.reg, argsLine);
  }

  /** The line that an alias call runs next, when it gets that far. */
  ghost function NextLine(sp: Splitter, s: Session, line: string): Option<string> {
    var c := Split(sp, line);
    if c.cmd == "" || c.cmd !in s.reg.handlers || !s.reg.handlers[c.cmd].RunAlias? then None
    else if s.budget <= 0 || c.cmd !in s.reg.aliases then None
    else
      var e := Substitute(Pieces(s.reg.aliases[c.cmd], 0), c.argsLine, c.args, "");
      if e.Expanded? then Some(e.line) else None
  }

  lemma {:induction false} LineEnds(builtins: set<string>, sp: Splitter, s: Session, line: string)
    requires Inv(builtins, s.reg) && NextLine(sp, s, line).None?
    ensures Kept(builtins, s, Line(sp, s, line))
  {
    var c := Split(sp, line);
    if c.cmd != "" && c.cmd in s.reg.handlers && s.reg.handlers[c.cmd].Builtin? {
      BuiltinKeeps(builtins, sp, s, s.reg.handlers[c.cmd].name, c.argsLine);
    }
  }

  lemma {:induction false} LineGoesOn(sp: Splitter, s: Session, line: string)
    requires NextLine(sp, s, line).Some?
    ensures s.budget > 0
    ensures Line(sp, s, line) == Line(sp, s.(budget := s.budget - 1, expansions := s.expansions + 1), NextLine(sp, s, line).value)
  {
  }

  /** A line keeps the registry in order and expands at most as many aliases as its budget allows. */
  lemma {:induction false} LineKeeps(builtins: set<string>, sp: Splitter, s: Session, line: string)
    requires Inv(builtins, s.reg)
    ensures Kept(builtins, s, Line(sp, s, line))
    decreases Fuel(s.budget)
  {
    var next := NextLine(sp, s, line);
    if next.Some? {
      LineGoesOn(sp, s, line);
      LineKeeps(builtins, sp, s.(budget := s.budget - 1, expansions := s.expansions + 1), next.value);
    } else {
      LineEnds(builtins, sp, s, line);
    }
  }

  /** An alias that calls itself uses up the whole budget and changes nothing else. */
  lemma {:induction false} SelfAlias(sp: Splitter, s: Session, line: string, a: string)
    requires a != "" && a in s.reg.handlers && s.reg.handlers[a] == RunAlias && a in s.reg.aliases
    requires Split(sp, line).cmd == a
    requires '#' !in s.reg.aliases[a] && Split(sp, s.reg.aliases[a]).cmd == a
    ensures Line(sp, s, line) == s.(budget := if s.budget < 0 then s.budget - 1 else -1, expansions := s.expansions + Fuel(s.budget))
    decreases Fuel(s.budget)
  {
    var c := Split(sp, line);
    if s.budget > 0 {
      PlainText(s.reg.aliases[a], c.argsLine, c.args);
      SelfAlias(sp, s.(budget := s.budget - 1, expansions := s.expansions + 1), s.reg.aliases[a], a);
    }
  }

  /** A call that does not give the argument its alias asks for runs nothing and costs one expansion of the
      budget; `#0` ends the program. */
  lemma {:induction false} FailedCall(sp: Splitter, s: Session, line: string, a: string, d: char, b: string)
    requires var c := Split(sp, line);
             && c.cmd != "" && c.cmd in s.reg.handlers && s.reg.handlers[c.cmd].RunAlias? && c.cmd in s.reg.aliases
             && s.reg.aliases[c.cmd] == a + ("#" + [d] + b)
             && Digit(d) && (d != '0' ==> |c.args| < d as int - '0' as int)
    requires s.budget >= 1 && '#' !in a && '#' !in b
    ensures Line(sp, s, line) == if d == '0' then s.(budget := s.budget - 1, panicked := true) else s.(budget := s.budget - 1)
  {
    var c := Split(sp, line);
    if d == '0' {
      ExpandPlain(a, "#" + [d] + b, c.argsLine, c.args, "");
      assert "#" + [d] == "#0";
      ExpandZero(b, c.argsLine, c.args, "" + a);
    } else {
      OneArgument(a, d, b, c.argsLine, c.args);
    }
  }

  // ---------------------------------------------------------------- the command line

  /** What Readline returns: a line, an interrupt, or the end of input and whether exiting is meant. */
  datatype Input = Typed(line: string) | Interrupted | EndOfInput(sure: bool)

  ghost function Lines(sp: Splitter, s: Session, lines: seq<string>): Session
    decreases |lines|
  {
    if lines == [] || s.panicked then s else Lines(sp, Line(sp, s, lines[0]), lines[1..])
  }

  /** Without a budget no line of an rc file expands an alias, whatever the earlier lines defined. */
  lemma {:induction false} NoBudgetNoExpansion(builtins: set<string>, sp: Splitter, s: Session, lines: seq<string>)
    requires Inv(builtins, s.reg) && s.budget <= 0
    ensures Lines(sp, s, lines).expansions == s.expansions && Inv(builtins, Lines(sp, s, lines).reg)
    ensures Lines(sp, s, lines).budget <= 0
    decreases |lines|
  {
    if lines != [] && !s.panicked {
      LineKeeps(builtins, sp, s, lines[0]);
      NoBudgetNoExpansion(builtins, sp, Line(sp, s, lines[0]), lines[1..]);
    }
  }

  ghost function OneInput(sp: Splitter, s: Session, input: Input): Session {
    match input
    case Interrupted => s
    case EndOfInput(sure) => if sure then s.(stopped := true) else s
    case Typed(line) => Line(sp, s.(budget := MAX_ALIAS_RECURSION), line)
  }

  ghost function Inputs(sp: Splitter, s: Session, inputs: seq<Input>): Session
    decreases |inputs|
  {
    if inputs == [] || s.stopped || s.panicked then s else Inputs(sp, OneInput(sp, s, inputs[0]), inputs[1..])
  }

  lemma {:induction false} InputKeeps(builtins: set<string>, sp: Splitter, s: Session, input: Input)
    requires Inv(builtins, s.reg)
    ensures Inv(builtins, OneInput(sp, s, input).reg)
    ensures s.expansions <= OneInput(sp, s, input).expansions <= s.expansions + if input.Typed? then MAX_ALIAS_RECURSION else 0
  {
    if input.Typed? {
      LineKeeps(builtins, sp, s.(budget := MAX_ALIAS_RECURSION), input.line);
    }
  }

  lemma {:induction false} SplitInputs(sp: Splitter, s: Session, inputs: seq<Input>, k: nat)
    requires k < |inputs|
    ensures var before, after := Inputs(sp, s, inputs[..k]), Inputs(sp, s, inputs[..k + 1]);
            after == if before.stopped || before.panicked then before else OneInput(sp, before, inputs[k])
    decreases k
  {
    if k > 0 && !s.stopped && !s.panicked {
      SplitInputs(sp, OneInput(sp, s, inputs[0]), inputs[1..], k - 1);
      assert inputs[..k][1..] == inputs[1..][..k - 1] && inputs[..k + 1][1..] == inputs[1..][..k];
    } else if k == 0 {
      assert inputs[..1][1..] == [] && inputs[..0] == [];
    }
  }

  lemma {:induction false} SessionKeeps(builtins: set<string>, sp: Splitter, s: Session, inputs: seq<Input>)
    requires Inv(builtins, s.reg)
    ensures Inv(builtins, Inputs(sp, s, inputs).reg)
    decreases |inputs|
  {
    if inputs != [] && !s.stopped && !s.panicked {
      InputKeeps(builtins, sp, s, inputs[0]);
      SessionKeeps(builtins, sp, OneInput(sp, s, inputs[0]), inputs[1..]);
    }
  }

  /** Every typed line of a session has its own budget of ten expansions, whatever the lines before it
      did, and nothing else expands an alias; the registry stays in order throughout. */
  lemma {:induction false} TenPerLine(builtins: set<string>, sp: Splitter, s: Session, inputs: seq<Input>, k: nat)
    requires Inv(builtins, s.reg) && k < |inputs|
    ensures var before, after := Inputs(sp, s, inputs[..k]), Inputs(sp, s, inputs[..k + 1]);
            && Inv(builtins, before.reg) && Inv(builtins, after.reg)
            && before.expansions <= after.expansions <= before.expansions + if inputs[k].Typed? then 10 else 0
  {
    SplitInputs(sp, s, inputs, k);
    SessionKeeps(builtins, sp, s, inputs[..k]);
    InputKeeps(builtins, sp, Inputs(sp, s, inputs[..k]), inputs[k]);
  }

  // ---------------------------------------------------------------- definitions and calls

  /** A line that defines an alias: the built-in command, a name, and a text. */
  ghost predicate Defines(sp: Splitter, r: Registry, line: string, name: string, proxy: string) {
    var c := Split(sp, line);
    && c.cmd == "alias" && "alias" in r.handlers && r.handlers["alias"] == Builtin("alias")
    && sp.wsSplit(c.argsLine) == (name, Some(proxy)) && name != "" && proxy != ""
  }

  /** A defining line stores exactly the given text under the name, if the name is free, and changes
      nothing else. */
  lemma {:induction false} DefinitionStores(sp: Splitter, s: Session, line: string, name: string, proxy: string)
    requires Defines(sp, s.reg, line, name, proxy)
    ensures var r := Line(sp, s, line).reg;
            && Line(sp, s, line) == s.(reg := r)
            && (CanCreate(s.reg, name) ==>
                r.aliases == s.reg.aliases[name := proxy] && r.handlers == s.reg.handlers[name := RunAlias]
                && r.commands == s.reg.commands + [name])
            && (!CanCreate(s.reg, name) ==> r == s.reg)
  {
  }

  /** A line that names an alias and gives no text takes it away; a name that is no alias changes nothing. */
  lemma {:induction false} RemovalForgets(sp: Splitter, s: Session, line: string, name: string)
    requires var c := Split(sp, line);
             && c.cmd == "alias" && "alias" in s.reg.handlers && s.reg.handlers["alias"] == Builtin("alias")
             && name != "" && (sp.wsSplit(c.argsLine) == (name, None) || sp.wsSplit(c.argsLine) == (name, Some("")))
    ensures var r := Line(sp, s, line).reg;
            && Line(sp, s, line) == s.(reg := r)
            && r.aliases == s.reg.aliases - {name}
            && r.handlers == (if name in s.reg.aliases then s.reg.handlers - {name} else s.reg.handlers)
            && (name !in s.reg.aliases ==> r.commands == s.reg.commands)
  {
    if name !in s.reg.aliases {
      assert s.reg.aliases - {name} == s.reg.aliases;
    }
  }

  /** The other lines: `exit` stops the loop, and nothing happens for an empty line, an unknown command, or
      a built-in that the registry does not hear of. */
  lemma {:induction false} OtherLines(sp: Splitter, s: Session, line: string)
    requires var c := Split(sp, line);
             c.cmd == "" || c.cmd !in s.reg.handlers || (s.reg.handlers[c.cmd].Builtin? && s.reg.handlers[c.cmd].name != "alias")
    ensures var c := Split(sp, line);
            Line(sp, s, line) ==
            if c.cmd != "" && c.cmd in s.reg.handlers && s.reg.handlers[c.cmd].name == "exit" then s.(stopped := true) else s
  {
  }

  /** An alias that the user has typed, and then a call of it: OneCmd gets the text with the arguments of the
      call in it, and nine expansions are left. */
  lemma {:induction false} DefineThenCall(sp: Splitter, s: Session, define: string, call: string, name: string,
                                          proxy: string, next: string)
    requires !s.stopped && !s.panicked && Defines(sp, s.reg, define, name, proxy) && CanCreate(s.reg, name)
    requires var c := Split(sp, call);
             c.cmd == name && Expand(proxy, c.argsLine, c.args, "") == Expanded(next)
    ensures var r := CreateAlias(s.reg, name, proxy);
            Inputs(sp, s, [Typed(define), Typed(call)]) ==
            Line(sp, s.(reg := r, budget := 9, expansions := s.expansions + 1), next)
  {
    var s1 := Line(sp, s.(budget := MAX_ALIAS_RECURSION), define);
    DefinitionStores(sp, s.(budget := MAX_ALIAS_RECURSION), define, name, proxy);
    assert s1 == s.(reg := CreateAlias(s.reg, name, proxy), budget := MAX_ALIAS_RECURSION);
    var s2 := s1.(budget := MAX_ALIAS_RECURSION);
    assert NextLine(sp, s2, call) == Some(next);
    LineGoesOn(sp, s2, call);
    InputsTwo(sp, s, Typed(define), Typed(call));
  }

  lemma {:induction false} InputsTwo(sp: Splitter, s: Session, a: Input, b: Input)
    requires !s.stopped && !s.panicked
    ensures var s1 := OneInput(sp, s, a);
            Inputs(sp, s, [a, b]) == if s1.stopped || s1.panicked then s1 else OneInput(sp, s1, b)
  {
    assert [a, b][1..] == [b] && [b][1..] == [];
    var s1 := OneInput(sp, s, a);
    assert Inputs(sp, s, [a, b]) == Inputs(sp, s1, [b]);
    if !s1.stopped && !s1.panicked {
      assert Inputs(sp, s1, [b]) == Inputs(sp, OneInput(sp, s1, b), []);
    }
  }

  /** The example of the help text: everything behind the call stands where `#*` stood. */
  lemma {:induction false} WholeLineCalled(sp: Splitter, s: Session, define: string, call: string, name: string,
                                           a: string, b: string)
    requires !s.stopped && !s.panicked && CanCreate(s.reg, name) && '#' !in a && '#' !in b
    requires Defines(sp, s.reg, define, name, a + ("#*" + b)) && Split(sp, call).cmd == name
    ensures var c := Split(sp, call);
            Inputs(sp, s, [Typed(define), Typed(call)]) ==
            Line(sp, s.(reg := CreateAlias(s.reg, name, a + ("#*" + b)), budget := 9, expansions := s.expansions + 1),
                 a + c.argsLine + b)
  {
    var c := Split(sp, call);
    WholeLine(a, b, c.argsLine, c.args);
    DefineThenCall(sp, s, define, call, name, a + ("#*" + b), a + c.argsLine + b);
  }

  /** The line that an alias call stands for, whatever the budget. */
  ghost function Stands(sp: Splitter, r: Registry, line: string): Option<string> {
    var c := Split(sp, line);
    if c.cmd == "" || c.cmd !in r.handlers || !r.handlers[c.cmd].RunAlias? || c.cmd !in r.aliases then None
    else
      var e := Expand(r.aliases[c.cmd], c.argsLine, c.args, "");
      if e.Expanded? then Some(e.line) else None
  }

  /** Each line is a call that stands for the next. */
  ghost predicate Chain(sp: Splitter, r: Registry, lines: seq<string>) {
    lines != [] && forall i | 0 <= i < |lines| - 1 :: Stands(sp, r, lines[i]) == Some(lines[i + 1])
  }

  lemma {:induction false} ChainTail(sp: Splitter, r: Registry, lines: seq<string>)
    requires Chain(sp, r, lines) && |lines| > 1
    ensures Chain(sp, r, lines[1..])
  {
    var rest := lines[1..];
    forall i | 0 <= i < |rest| - 1 ensures Stands(sp, r, rest[i]) == Some(rest[i + 1]) {
      assert rest[i] == lines[i + 1] && rest[i + 1] == lines[i + 2];
    }
  }

  /** A chain of calls within the budget runs its last line; a longer one uses up the budget and stops. */
  lemma {:induction false} ChainRuns(sp: Splitter, s: Session, lines: seq<string>)
    requires Chain(sp, s.reg, lines) && s.budget >= 0
    ensures var n := |lines| - 1;
            Line(sp, s, lines[0]) ==
            if n <= s.budget then Line(sp, s.(budget := s.budget - n, expansions := s.expansions + n), lines[n])
            else s.(budget := -1, expansions := s.expansions + s.budget)
    decreases |lines|
  {
    if |lines| > 1 {
      assert Stands(sp, s.reg, lines[0]) == Some(lines[1]);
      if s.budget > 0 {
        assert NextLine(sp, s, lines[0]) == Some(lines[1]);
        LineGoesOn(sp, s, lines[0]);
        ChainTail(sp, s.reg, lines);
        ChainRuns(sp, s.(budget := s.budget - 1, expansions := s.expansions + 1), lines[1..]);
        assert lines[1..][|lines| - 2] == lines[|lines| - 1] && lines[1..][0] == lines[1];
      }
    }
  }

  /** A typed line may go through ten aliases and no more. */
  lemma {:induction false} TenAliases(sp: Splitter, s: Session, lines: seq<string>)
    requires Chain(sp, s.reg, lines)
    ensures var n := |lines| - 1;
            OneInput(sp, s, Typed(lines[0])) ==
            if n <= 10 then Line(sp, s.(budget := 10 - n, expansions := s.expansions + n), lines[n])
            else s.(budget := -1, expansions := s.expansions + 10)
  {
    ChainRuns(sp, s.(budget := MAX_ALIAS_RECURSION), lines);
  }

  // ---------------------------------------------------------------- the loops around the lines

  lemma {:induction false} LineKeepsFlag(sp: Splitter, s: Session, line: string)
    ensures Line(sp, s.(stopped := true), line) == Line(sp, s, line).(stopped := true)
    decreases Fuel(s.budget)
  {
    var c := Split(sp, line);
    if c.cmd != "" && c.cmd in s.reg.handlers && s.reg.handlers[c.cmd].RunAlias? && s.budget > 0 && c.cmd in s.reg.aliases {
      var e := Expand(s.reg.aliases[c.cmd], c.argsLine, c.args, "");
      if e.Expanded? {
        LineKeepsFlag(sp, s.(budget := s.budget - 1, expansions := s.expansions + 1), e.line);
      }
    }
  }

  /** An `exit` in the rc file does not end the reading of the file: its other lines run as they would
      without it. */
  lemma {:induction false} RcGoesOn(sp: Splitter, s: Session, lines: seq<string>)
    ensures Lines(sp, s.(stopped := true), lines) == Lines(sp, s, lines).(stopped := true)
    decreases |lines|
  {
    if lines != [] && !s.panicked {
      LineKeepsFlag(sp, s, lines[0]);
      RcGoesOn(sp, Line(sp, s, lines[0]), lines[1..]);
    }
  }

  /** An interrupt at the prompt does nothing, the end of the input stops the loop only when it is confirmed,
      and nothing is read after the loop has stopped. */
  lemma {:induction false} InputsMean(sp: Splitter, s: Session, inputs: seq<Input>)
    requires !s.stopped && !s.panicked
    ensures Inputs(sp, s, [Interrupted] + inputs) == Inputs(sp, s, inputs)
    ensures Inputs(sp, s, [EndOfInput(false)] + inputs) == Inputs(sp, s, inputs)
    ensures Inputs(sp, s, [EndOfInput(true)] + inputs) == s.(stopped := true)
    ensures Inputs(sp, s.(stopped := true), inputs) == s.(stopped := true)
  {
    assert ([Interrupted] + inputs)[1..] == inputs;
    assert ([EndOfInput(false)] + inputs)[1..] == inputs;
  }

  /** The loop over the handlers, in any order. */
  method ListNames(names: set<string>) returns (commands: seq<string>)
    ensures forall x :: Count(commands, x) == if x in names then 1 else 0
  {
    commands := [];
    var todo := names;
    while todo != {}
      invariant todo <= names
      invariant forall x :: Count(commands, x) == if x in names - todo then 1 else 0
    {
      var cmd :| cmd in todo;
      forall x ensures Count(commands + [cmd], x) == Count(commands, x) + if x == cmd then 1 else 0 {
        CountSnoc(commands, cmd, x);
      }
      commands := commands + [cmd];
      todo := todo - {cmd};
    }
  }

  class Cli {
    const sp: Splitter
    var handlers: map<string, Handler>
    var aliases: map<string, string>
    var commands: seq<string>
    var aliasRecursionCount: int
    var stopped: bool
    var panicked: bool
    ghost var expansions: nat

    ghost function Reg(): Registry
      reads this
    {
      Registry(handlers, aliases, commands)
    }

    ghost function View(): Session
      reads this
    {
      Session(Reg(), aliasRecursionCount, stopped, panicked, expansions)
    }

    /** setupCmdHandlers; the recursion count starts at zero. */
    constructor (sp: Splitter, builtins: set<string>)
      ensures this.sp == sp && Fresh(builtins, Reg())
      ensures aliasRecursionCount == 0 && !stopped && !panicked && expansions == 0
    {
      var names := ListNames(builtins);
      this.sp := sp;
      handlers := map b | b in builtins :: Builtin(b);
      aliases, commands, aliasRecursionCount, stopped, panicked, expansions := map[], names, 0, false, false, 0;
    }

    /** The completer forgets one occurrence of a name. */
    method RemoveCommand(name: string)
      modifies this`commands
      ensures commands == RemoveFirst(old(commands), name)
    {
      var idx := SliceIndex(commands, name);
      if idx < 0 {
        RemoveAbsent(commands, name);
        return;
      }
      RemoveAt(commands, name, idx);
      commands := commands[..idx] + commands[idx + 1..];
    }

    method RemoveAliasCmd(name: string) returns (found: bool)
      modifies this`handlers, this`aliases, this`commands
      ensures Reg() == RemoveAlias(old(Reg()), name) && found == (name in old(aliases))
    {
      found := name in aliases;
      if !found {
        return;
      }
      aliases := aliases - {name};
      handlers := handlers - {name};
      RemoveCommand(name);
    }

    method CreateAliasCmd(name: string, proxy: string) returns (ok: bool)
      modifies this`handlers, this`aliases, this`commands
      ensures Reg() == CreateAlias(old(Reg()), name, proxy) && ok == CanCreate(old(Reg()), name)
    {
      if name !in aliases {
        var i := 0;
        while i < |commands|
          invariant i <= |commands| && name !in commands[..i]
        {
          if commands[i] == name {
            return false;
          }
          i := i + 1;
        }
        assert commands[..i] == commands;
      }
      aliases := aliases[name := proxy];
      handlers := handlers[name := RunAlias];
      commands := commands + [name];
      ok := true;
    }

    method DoAliasCmd(argsLine: string)
      modifies this`handlers, this`aliases, this`commands
      ensures Reg() == DoAlias(sp, old(Reg()), argsLine)
    {
      var (name, rest) := sp.wsSplit(argsLine);
      if |name| == 0 {
        return;
      }
      if rest.None? || |rest.value| == 0 {
        var found := RemoveAliasCmd(name);
      } else {
        var ok := CreateAliasCmd(name, rest.value);
      }
    }

    /** OneCmd: the handler of the first word of the line, if there is one. */
    method OneCmd(line: string)
      modifies this
      ensures View() == Line(sp, old(View()), line)
      decreases Fuel(aliasRecursionCount), 1
    {
      var c := Split(sp, line);
      if c.cmd == "" {
        return;
      }
      if c.cmd in handlers {
        match handlers[c.cmd] {
          case RunAlias =>
            RunAliasCmd(c.cmd, c.argsLine, c.args);
          case Builtin(name) =>
            if name == "exit" {
              stopped := true;
            } else if name == "alias" {
              DoAliasCmd(c.argsLine);
            }
        }
      }
    }

    /** runAlias: one unit of the budget, the substituted text, and back to OneCmd. */
    method RunAliasCmd(name: string, argsLine: string, args: seq<string>)
      modifies this
      ensures View() == AliasLine(sp, old(View()), Call(name, argsLine, args))
      decreases Fuel(aliasRecursionCount), 0
    {
      aliasRecursionCount := aliasRecursionCount - 1;
      if aliasRecursionCount < 0 {
        return;
      }
      if name !in aliases {
        return;
      }
      var e := Exterpolate(aliases[name], argsLine, args);
      match e {
        case NeedsArgument(_) =>
        case Panicked =>
          panicked := true;
        case Expanded(cmdLine) =>
          expansions := expansions + 1;
          OneCmd(cmdLine);
      }
    }

    /** runRC: the lines of the file, under whatever budget there is. */
    method RunRC(lines: seq<string>)
      modifies this
      ensures View() == Lines(sp, old(View()), lines)
    {
      var i := 0;
      while i < |lines| && !panicked
        invariant i <= |lines|
        invariant Lines(sp, old(View()), lines) == Lines(sp, View(), lines[i..])
      {
        OneCmd(lines[i]);
        assert lines[i..][1..] == lines[i + 1..];
        i := i + 1;
      }
    }

    /** CmdLoop over what Readline returns. */
    method CmdLoop(inputs: seq<Input>)
      modifies this
      ensures View() == Inputs(sp, old(View()), inputs)
    {
      var i := 0;
      while i < |inputs| && !stopped && !panicked
        invariant i <= |inputs|
        invariant Inputs(sp, old(View()), inputs) == Inputs(sp, View(), inputs[i..])
      {
        assert inputs[i..][1..] == inputs[i + 1..];
        match inputs[i] {
          case Interrupted =>
          case EndOfInput(sure) =>
            if sure {
              stopped := true;
            }
          case Typed(line) =>
            aliasRecursionCount := MAX_ALIAS_RECURSION;
            OneCmd(line);
        }
        i := i + 1;
      }
    }
  }

  /** A new command line that first reads its rc file: the aliases are defined but not one is expanded. */
  method StartUp(sp: Splitter, builtins: set<string>, rc: seq<string>) returns (c: Cli)
    ensures fresh(c) && Inv(builtins, c.Reg()) && c.expansions == 0
  {
    c := new Cli(sp, builtins);
    FreshInv(builtins, c.Reg());
    NoBudgetNoExpansion(builtins, sp, c.View(), rc);
    c.RunRC(rc);
  }
}
