/** Whole lines of the command line, with the splitting that the program does (src/cli/cli.go:277-303,
    src/cli/alias.go:61-79, src/cli/help.go). */
module CommandLines {
  import opened Basics
  import opened WhiteSpace
  import opened Alias

  /** The functions of the program. */
  const GO := Splitter(Trim, WsSplit, Fields)

  /** A command, a gap and its arguments, with or without padding around them. */
  lemma {:induction false} SplitLine(a: string, cmd: string, gap: string, args: string, b: string)
    requires AllPadding(a) && AllPadding(b) && NoSpace(cmd) && cmd != "" && AllSpace(gap) && gap != ""
    requires args != "" && !Space(args[0]) && !Padding(args[|args| - 1])
    ensures Split(GO, a + (cmd + (gap + args) + b)) == Call(cmd, args, Fields(args))
  {
    var s := cmd + (gap + args);
    assert s[0] == cmd[0] && s[|s| - 1] == args[|args| - 1];
    TrimExactly(a, s, b);
    WsSplitExactly(cmd, gap, args);
  }

  /** A command alone. */
  lemma {:induction false} SplitWord(a: string, cmd: string, b: string)
    requires AllPadding(a) && AllPadding(b) && NoSpace(cmd) && cmd != ""
    ensures Split(GO, a + (cmd + b)) == Call(cmd, "", [])
  {
    TrimExactly(a, cmd, b);
    WsSplitExactly(cmd, "", "");
  }

  /** Nothing but padding. */
  lemma {:induction false} SplitNothing(a: string)
    requires AllPadding(a)
    ensures Split(GO, a).cmd == ""
  {
    TrimExactly(a, "x", "");
    WsSplitExactly("", "", "");
  }

  lemma {:induction false} TrimNothing(s: string)
    requires s != "" && !Padding(s[0]) && !Padding(s[|s| - 1])
    ensures Trim(s) == s
  {
    TrimExactly("", s, "");
    assert "" + (s + "") == s;
  }

  lemma {:induction false} Assoc(a: string, b: string, c: string)
    ensures a + b + c == a + (b + c)
  {
  }

  /** A command, one blank and its arguments. */
  lemma {:induction false} SplitPlain(cmd: string, args: string)
    requires NoSpace(cmd) && cmd != "" && args != "" && !Space(args[0]) && !Padding(args[|args| - 1])
    ensures Split(GO, cmd + " " + args) == Call(cmd, args, Fields(args))
  {
    var s := cmd + " " + args;
    assert s[0] == cmd[0] && s[|s| - 1] == args[|args| - 1];
    TrimNothing(s);
    Assoc(cmd, " ", args);
    WsSplitExactly(cmd, " ", args);
  }

  lemma {:induction false} TwoWords(name: string, proxy: string)
    requires NoSpace(name) && name != "" && proxy != "" && !Space(proxy[0]) && !Padding(proxy[|proxy| - 1])
    ensures var args := name + " " + proxy;
            args != "" && !Space(args[0]) && !Padding(args[|args| - 1]) && WsSplit(args) == (name, Some(proxy))
  {
    var args := name + " " + proxy;
    assert args[0] == name[0] && args[|args| - 1] == proxy[|proxy| - 1];
    Assoc(name, " ", proxy);
    WsSplitExactly(name, " ", proxy);
  }

  /** `alias name text` defines the name as the text, white space inside the text included. */
  lemma {:induction false} AliasLine(r: Registry, name: string, proxy: string)
    requires "alias" in r.handlers && r.handlers["alias"] == Builtin("alias")
    requires NoSpace(name) && name != "" && proxy != "" && !Space(proxy[0]) && !Padding(proxy[|proxy| - 1])
    ensures Defines(GO, r, "alias" + " " + (name + " " + proxy), name, proxy)
  {
    TwoWords(name, proxy);
    SplitPlain("alias", name + " " + proxy);
  }

  /** After `alias name text#*more` the call `name arguments` runs the text with the arguments in it. */
  lemma {:induction false} TypedAlias(s: Session, name: string, a: string, b: string, args: string)
    requires !s.stopped && !s.panicked && CanCreate(s.reg, name)
    requires "alias" in s.reg.handlers && s.reg.handlers["alias"] == Builtin("alias")
    requires NoSpace(name) && name != "" && '#' !in a && '#' !in b
    requires (a == "" || !Space(a[0])) && (b == "" || !Padding(b[|b| - 1]))
    requires args != "" && !Space(args[0]) && !Padding(args[|args| - 1])
    ensures var proxy := a + ("#*" + b);
            Inputs(GO, s, [Typed("alias" + " " + (name + " " + proxy)), Typed(name + " " + args)]) ==
            Line(GO, s.(reg := CreateAlias(s.reg, name, proxy), budget := 9, expansions := s.expansions + 1), a + args + b)
  {
    var proxy := a + ("#*" + b);
    assert !Space(proxy[0]) && !Padding(proxy[|proxy| - 1]);
    AliasLine(s.reg, name, proxy);
    SplitPlain(name, args);
    WholeLineCalled(GO, s, "alias" + " " + (name + " " + proxy), name + " " + args, name, a, b);
  }

  lemma {:induction false} DefinitionText()
    ensures "alias" + " " + ("ping" + " " + "local ping #*") == "alias ping local ping #*"
  {
  }

  lemma {:induction false} CallText()
    ensures "ping" + " " + "1.1.1.1" == "ping 1.1.1.1" && "local ping " + "1.1.1.1" + "" == "local ping 1.1.1.1"
    ensures "local ping " + ("#*" + "") == "local ping #*"
  {
  }

  /** The example of the help text. */
  lemma {:induction false} PingExample(s: Session)
    requires !s.stopped && !s.panicked && CanCreate(s.reg, "ping")
    requires "alias" in s.reg.handlers && s.reg.handlers["alias"] == Builtin("alias")
    ensures Inputs(GO, s, [Typed("alias ping local ping #*"), Typed("ping 1.1.1.1")]) ==
            Line(GO, s.(reg := CreateAlias(s.reg, "ping", "local ping #*"), budget := 9, expansions := s.expansions + 1),
                 "local ping 1.1.1.1")
  {
    DefinitionText();
    CallText();
    TypedAlias(s, "ping", "local ping ", "", "1.1.1.1");
  }
}
