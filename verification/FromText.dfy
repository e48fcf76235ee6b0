/** From the text of one token to the list that a backend returns for it (src/localfile/localfile.go:63-97,
    src/conductor/conductor.go:286-405). */
module FromText {
  import opened Basics
  import P = Parser
  import PR = ParserRoundTrip
  import PS = ParserStart
  import opened HostSet
  import opened Backend
  import opened Inventory
  import opened ConductorHosts
  import HO = HostOrder
  import LF = LocalFile

  /** A token alone lists its hosts in their order, and an exclusion alone lists nothing. */
  lemma {:induction false} ListOfOne(t: P.Token, hs: seq<string>)
    ensures ListOf([t], [hs]) == if t.exclude then [] else hs
  {
    var b := Block(hs, t.exclude);
    assert Blocks([t], [hs]) == [b] && [b][..0] == [] && [] + [b] == [b];
    BlocksSnoc([], b);
    assert BlockEvents([b]) == [] + Events(hs, t.exclude);
    if t.exclude {
      HO.EvalRemoves([], hs);
      NothingLeft(hs);
    } else {
      HO.EvalAdds([], hs);
      assert [] + hs == hs;
    }
  }

  lemma {:induction false} NothingLeft(hs: seq<string>)
    ensures HO.RemoveAll([], hs) == []
  {
    if hs != [] {
      NothingLeft(hs[1..]);
    }
  }

  lemma {:induction false} ParseOne(valid: string -> bool, t: P.Token)
    requires PR.WellFormed(valid, t)
    ensures P.Parse(valid, PR.Print(t)) == P.Ok([t])
  {
    PR.TokenRoundTrip(valid, t, "");
    assert PR.Print(t) + "" == PR.Print(t);
  }

  // ---------------------------------------------------------------- the local file

  /** The print of a token is answered with what the token stands for. */
  lemma {:induction false} FileToken(data: map<string, seq<string>>, lib: Library, t: P.Token, r: Outcome)
    requires PR.WellFormed(lib.valid, t) && !t.exclude && !(NilPattern(t) && LF.HasHosts(data))
    requires LF.Answers(data, lib, PR.Print(t), r)
    ensures r.Listed? && LF.Stands(data, lib, t, r.hosts)
  {
    ParseOne(lib.valid, t);
    assert !(AnyNilPattern([t]) && LF.HasHosts(data));
    var hosts :| |hosts| == |[t]| && LF.AllStand(data, lib, [t], hosts) && r == Listed(ListOf([t], hosts));
    OneStands(data, lib, t, hosts);
  }

  lemma {:induction false} OneStands(data: map<string, seq<string>>, lib: Library, t: P.Token, hosts: seq<seq<string>>)
    requires |hosts| == |[t]| && LF.AllStand(data, lib, [t], hosts) && !t.exclude
    ensures LF.Stands(data, lib, t, ListOf([t], hosts))
  {
    assert LF.Stands(data, lib, [t][0], hosts[0]) && hosts == [hosts[0]];
    ListOfOne(t, hosts[0]);
  }

  function Group(g: string): P.Token { P.Token(P.TypeGroup, g, "", [], None, false) }

  function Named(v: string): P.Token { P.Token(P.TypeHost, v, "", [], None, false) }

  function WorkGroupOf(w: string): P.Token { P.Token(P.TypeWorkGroup, w, "", [], None, false) }

  lemma {:induction false} PrintBare(k: P.TokenType, v: string)
    ensures PR.Print(P.Token(k, v, "", [], None, false)) == PR.PrintKind(k) + v
  {
    assert PR.PrintKind(k) + v + "" == PR.PrintKind(k) + v && "" + PR.PrintKind(k) == PR.PrintKind(k);
  }

  predicate GroupName(g: string) { g != "" && PR.AllPlain(P.ReadGroup, g) }

  predicate HostName(v: string) { v != "" && v[0] != '-' && P.HostSymbol(v[0]) && PR.HostText(v[1..], false) }

  /** `%g` lists the hosts of the group in the order of the file, and nothing for a name that is no group. */
  lemma {:induction false} FileGroup(data: map<string, seq<string>>, lib: Library, g: string, r: Outcome)
    requires GroupName(g) && LF.Answers(data, lib, "%" + g, r)
    ensures r == Listed(if g in data then data[g] else [])
  {
    PrintBare(P.TypeGroup, g);
    FileToken(data, lib, Group(g), r);
  }

  /** A plain name lists the hosts of the group with that name, or itself when there is none or it is empty. */
  lemma {:induction false} FileName(data: map<string, seq<string>>, lib: Library, v: string, r: Outcome)
    requires HostName(v) && LF.Answers(data, lib, v, r)
    ensures r == Listed(if v in data && data[v] != [] then data[v] else [v])
  {
    PrintBare(P.TypeHost, v);
    assert "" + v == v;
    FileToken(data, lib, Named(v), r);
  }

  /** The filters of a group have no meaning for the file. */
  lemma {:induction false} FileFiltersIgnored(data: map<string, seq<string>>, lib: Library, t: P.Token, r: Outcome)
    requires PR.WellFormed(lib.valid, t) && !t.exclude && t.kind.TypeGroup?
    requires LF.Answers(data, lib, PR.Print(t), r)
    ensures r == Listed(if t.value in data then data[t.value] else [])
  {
    FileToken(data, lib, t, r);
  }

  /** A host regexp without slashes has no pattern: it is a nil reference exactly when some group of the file
      has a host. */
  lemma {:induction false} FileNoPattern(data: map<string, seq<string>>, lib: Library, v: string, r: Outcome)
    requires v != "" && PR.HostText(v, false) && LF.Answers(data, lib, "~" + v, r)
    ensures r == Panicked <==> exists g :: g in data && data[g] != []
    ensures !r.Panicked? ==> r == Listed(lib.sort(multiset{}))
  {
    var t := P.Token(P.TypeHostRegexp, v, "", [], None, false);
    PrintBare(P.TypeHostRegexp, v);
    ParseOne(lib.valid, t);
    assert NilPattern([t][0]) && AnyNilPattern([t]);
    if !LF.HasHosts(data) {
      FileToken(data, lib, t, r);
      var none: seq<string> := [];
      assert multiset(none) == multiset{};
    }
  }

  /** An expression that starts with a foreign symbol is answered with the error of the parser. */
  lemma {:induction false} FileRefuses(data: map<string, seq<string>>, lib: Library, sym: char, x: string, r: Outcome)
    requires !PS.Special(sym) && !P.HostSymbol(sym) && LF.Answers(data, lib, [sym] + x, r)
    ensures r == Failed(P.InvalidSymbol(sym, 0))
  {
    PS.BadStart(lib.valid, sym, x);
  }

  /** The file has no workgroups. */
  lemma {:induction false} FileWorkGroup(data: map<string, seq<string>>, lib: Library, w: string, r: Outcome)
    requires PR.AllPlain(P.ReadGroup, w) && LF.Answers(data, lib, "*" + w, r)
    ensures r == Listed([])
  {
    PrintBare(P.TypeWorkGroup, w);
    FileToken(data, lib, WorkGroupOf(w), r);
  }

  // ---------------------------------------------------------------- the conductor

  lemma {:induction false} ConductorToken(c: Conductor, lib: Library, rank: string -> nat, t: P.Token, r: Outcome)
    requires PR.WellFormed(lib.valid, t) && !t.exclude && !(NilPattern(t) && c.hostsByFqdn != map[])
    requires P.Parse(lib.valid, PR.Print(t)).Ok? ==> AllDescend(c, rank, P.Parse(lib.valid, PR.Print(t)).value)
    requires Answers(c, lib, rank, PR.Print(t), r)
    ensures Descends(c, rank, t) && r.Listed? && Stands(c, lib, rank, t, r.hosts)
  {
    ParseOne(lib.valid, t);
    assert Descends(c, rank, [t][0]);
    assert !(AnyNilPattern([t]) && c.hostsByFqdn != map[]);
    var hosts :| |hosts| == |[t]| && AllStand(c, lib, rank, [t], hosts) && r == Listed(ListOf([t], hosts));
    assert Stands(c, lib, rank, [t][0], hosts[0]) && hosts == [hosts[0]];
    ListOfOne(t, hosts[0]);
  }

  /** A plain name or a pattern lists what the pattern expands to, in its order, or itself when it does not
      expand; the inventory is not asked. */
  lemma {:induction false} ConductorName(c: Conductor, lib: Library, rank: string -> nat, v: string, r: Outcome)
    requires HostName(v)
    requires P.Parse(lib.valid, v).Ok? ==> AllDescend(c, rank, P.Parse(lib.valid, v).value)
    requires Answers(c, lib, rank, v, r)
    ensures r == Listed(match lib.expand(v) case Some(hosts) => hosts case None => [v])
  {
    PrintBare(P.TypeHost, v);
    assert "" + v == v;
    ConductorToken(c, lib, rank, Named(v), r);
    Unfiltered(c.hostsByFqdn.Keys, Named(v), Expansion(lib, v));
  }

  /** A host regexp without slashes has no pattern: over any inventory with hosts it is a nil reference. */
  lemma {:induction false} ConductorNoPattern(c: Conductor, lib: Library, rank: string -> nat, v: string, r: Outcome)
    requires v != "" && PR.HostText(v, false)
    requires P.Parse(lib.valid, "~" + v).Ok? ==> AllDescend(c, rank, P.Parse(lib.valid, "~" + v).value)
    requires Answers(c, lib, rank, "~" + v, r)
    ensures c.hostsByFqdn != map[] ==> r == Panicked
    ensures c.hostsByFqdn == map[] ==> r == Listed(lib.sort(multiset{}))
  {
    var t := P.Token(P.TypeHostRegexp, v, "", [], None, false);
    PrintBare(P.TypeHostRegexp, v);
    ParseOne(lib.valid, t);
    assert NilPattern([t][0]) && AnyNilPattern([t]);
    if c.hostsByFqdn == map[] {
      ConductorToken(c, lib, rank, t, r);
      var none: seq<string> := [];
      assert multiset(none) == multiset{};
    }
  }

  /** A foreign symbol at the start is an error here as well. */
  lemma {:induction false} ConductorRefuses(c: Conductor, lib: Library, rank: string -> nat, sym: char, x: string,
                                            r: Outcome)
    requires !PS.Special(sym) && !P.HostSymbol(sym)
    requires P.Parse(lib.valid, [sym] + x).Ok? ==> AllDescend(c, rank, P.Parse(lib.valid, [sym] + x).value)
    requires Answers(c, lib, rank, [sym] + x, r)
    ensures r == Failed(P.InvalidSymbol(sym, 0))
  {
    PS.BadStart(lib.valid, sym, x);
  }

  /** `%g` lists nothing for a name that is no group. */
  lemma {:induction false} ConductorUnknownGroup(c: Conductor, lib: Library, rank: string -> nat, g: string, r: Outcome)
    requires GroupName(g) && g !in c.groupsByName
    requires P.Parse(lib.valid, "%" + g).Ok? ==> AllDescend(c, rank, P.Parse(lib.valid, "%" + g).value)
    requires Answers(c, lib, rank, "%" + g, r)
    ensures r == Listed([])
  {
    PrintBare(P.TypeGroup, g);
    ConductorToken(c, lib, rank, Group(g), r);
  }
}
