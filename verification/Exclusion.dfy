/** A token followed by its exclusion, from the text of an expression to the list that a backend returns:
    every host is listed as often as before, although a map may be visited in another order each time. */
module Exclusion {
  import opened Basics
  import P = Parser
  import PC = ParserCompose
  import PR = ParserRoundTrip
  import opened HostSet
  import opened HostOrder
  import opened Backend
  import opened Inventory
  import opened Groups
  import opened ConductorHosts
  import LF = LocalFile

  // ---------------------------------------------------------------- the expression

  /** An expression, a token, and the token again with a dash. */
  function Then(p: string, t: P.Token): string { p + (PR.Print(t) + "," + ("-" + PR.Print(t))) }

  lemma {:induction false} PrintExcluding(t: P.Token)
    requires !t.exclude
    ensures PR.Print(Excluding(t)) == "-" + PR.Print(t)
  {
    Dash(PR.PrintKind(t.kind), t.value, PR.PrintFilters(t));
  }

  lemma {:induction false} Dash(kind: string, value: string, filters: string)
    ensures "-" + kind + value + filters == "-" + ("" + kind + value + filters)
  {
  }

  lemma {:induction false} ParseParts(valid: string -> bool, p: string, x: string, y: string, t: P.Token, u: P.Token)
    requires (p == "" || p[|p| - 1] == ',') && P.Parse(valid, p).Ok?
    requires P.Parse(valid, x + ",") == P.Ok([t]) && P.Parse(valid, y) == P.Ok([u])
    ensures P.Parse(valid, p + (x + "," + y)) == P.Ok(P.Parse(valid, p).value + [t, u])
  {
    PC.ConcatAccepted(valid, x + ",", y);
    PC.ConcatAccepted(valid, p, x + "," + y);
    assert [t] + [u] == [t, u];
  }

  /** It parses to the tokens of the expression, the token and its exclusion. */
  lemma {:induction false} ParseThen(valid: string -> bool, p: string, t: P.Token)
    requires (p == "" || p[|p| - 1] == ',') && P.Parse(valid, p).Ok?
    requires PR.WellFormed(valid, t) && !t.exclude
    ensures P.Parse(valid, Then(p, t)) == P.Ok(P.Parse(valid, p).value + [t, Excluding(t)])
  {
    var x, y := PR.Print(t), PR.Print(Excluding(t));
    PrintExcluding(t);
    assert P.Parse(valid, x + ",") == P.Ok([t]) by {
      PR.TokenRoundTrip(valid, t, ",");
    }
    assert P.Parse(valid, y) == P.Ok([Excluding(t)]) by {
      PR.TokenRoundTrip(valid, Excluding(t), "");
      assert y + "" == y;
    }
    ParseParts(valid, p, x, y, t, Excluding(t));
  }

  /** The order of the list that the tokens make: it is kept when no host of the token is listed yet, and,
      when no host is listed twice, if and only if those that are listed stand together at the end of the
      list, in the order of the token. */
  lemma {:induction false} ListKept(ts: seq<P.Token>, t: P.Token, hosts: seq<seq<string>>)
    requires |hosts| == |ts| + 2 && !t.exclude && multiset(hosts[|ts|]) == multiset(hosts[|ts| + 1])
    ensures var n := |ts|;
            var s, r := ListOf(ts, hosts[..n]), ListOf(ts + [t, Excluding(t)], hosts);
            && ((forall h | h in hosts[n] :: h !in s) ==> r == s)
            && (AllDifferent(s) ==>
                (r == s <==> var v := HostOrder.Listed(s, hosts[n], hosts[n + 1]); |v| <= |s| && s[|s| - |v|..] == v))
  {
    var n := |ts|;
    ListTwoMore(ts, t, hosts);
    TwiceKept(BlockEvents(Blocks(ts, hosts[..n])), hosts[n], hosts[n + 1]);
  }

  lemma {:induction false} TwiceKept(es: seq<Event>, hs: seq<string>, again: seq<string>)
    requires multiset(hs) == multiset(again)
    ensures (forall h | h in hs :: h !in Eval(es)) ==> Twice(es, hs, again) == Eval(es)
    ensures AllDifferent(Eval(es)) ==>
            (Twice(es, hs, again) == Eval(es) <==>
             var s, v := Eval(es), HostOrder.Listed(Eval(es), hs, again); |v| <= |s| && s[|s| - |v|..] == v)
  {
    if forall h | h in hs :: h !in Eval(es) {
      NoneListed(es, hs, again);
    }
    if AllDifferent(Eval(es)) {
      KeptWhenLast(es, hs, again);
    }
  }

  // ---------------------------------------------------------------- the conductor

  lemma {:induction false} NamesAppend(lib: Library, t: P.Token, a: seq<Host>, b: seq<Host>)
    ensures Names(lib, t, a + b) == Names(lib, t, a) + Names(lib, t, b)
    decreases |b|
  {
    if b == [] {
      assert a + b == a;
    } else {
      NamesAppend(lib, t, a, b[..|b| - 1]);
      assert (a + b)[..|a + b| - 1] == a + b[..|b| - 1];
    }
  }

  lemma {:induction false} NamesExcluding(lib: Library, t: P.Token, hs: seq<Host>)
    ensures Names(lib, Excluding(t), hs) == Names(lib, t, hs)
  {
    if hs != [] {
      NamesExcluding(lib, t, hs[..|hs| - 1]);
    }
  }

  /** How often each workgroup of the map names a host. */
  ghost function PerWorkGroup(lib: Library, t: P.Token, m: map<string, WorkGroup>, x: string): map<string, nat>
    reads *
  {
    map k | k in m :: Count(Names(lib, t, HostsAt(m[k].groups)), x)
  }

  ghost function Weigh(counts: map<string, nat>): string -> nat { k => if k in counts then counts[k] else 0 }

  lemma {:induction false} WorkGroupNames(lib: Library, t: P.Token, m: map<string, WorkGroup>, order: seq<string>,
                                          x: string)
    requires forall k | k in order :: k in m
    ensures Count(Names(lib, t, HostsAt(GroupsAt(m, order))), x) == Sum(Weigh(PerWorkGroup(lib, t, m, x)), order)
  {
    if order != [] {
      var n := |order| - 1;
      var f := Weigh(PerWorkGroup(lib, t, m, x));
      assert order == order[..n] + [order[n]];
      WorkGroupNames(lib, t, m, order[..n], x);
      SumSnoc(f, order[..n], order[n]);
      GroupsAtSnoc(m, order, n);
      var a, b := HostsAt(GroupsAt(m, order[..n])), HostsAt(m[order[n]].groups);
      NamesAppend(lib, t, a, b);
      CountAppend(Names(lib, t, a), Names(lib, t, b), x);
    }
  }

  lemma {:induction false} HostsAtAppend(a: seq<Group>, b: seq<Group>)
    ensures HostsAt(a + b) == HostsAt(a) + HostsAt(b)
    decreases |b|
  {
    if b == [] {
      assert a + b == a;
    } else {
      HostsAtAppend(a, b[..|b| - 1]);
      assert (a + b)[..|a + b| - 1] == a + b[..|b| - 1];
    }
  }

  lemma {:induction false} GroupsAtSnoc(m: map<string, WorkGroup>, order: seq<string>, n: nat)
    requires n == |order| - 1 && forall k | k in order :: k in m
    ensures HostsAt(GroupsAt(m, order)) == HostsAt(GroupsAt(m, order[..n])) + HostsAt(m[order[n]].groups)
  {
    HostsAtAppend(GroupsAt(m, order[..n]), m[order[n]].groups);
  }

  /** The order in which the map of the workgroups is visited does not change how often a host is named. */
  lemma {:induction false} WorkGroupOrder(c: Conductor, lib: Library, t: P.Token, a: seq<string>, b: seq<string>,
                                          p: seq<string>, q: seq<string>)
    requires WorkGroupStands(c, lib, t, a, p) && WorkGroupStands(c, lib, t, b, q)
    ensures multiset(a) == multiset(b)
  {
    var m := c.workgroupsByName;
    if t.value == "" {
      OrdersPermute(p, q, m.Keys);
    }
    forall x ensures Count(a, x) == Count(b, x) {
      WorkGroupNames(lib, t, m, p, x);
      WorkGroupNames(lib, t, m, q, x);
      SumPermuted(Weigh(PerWorkGroup(lib, t, m, x)), p, q);
    }
    SameMultiset(a, b);
  }

  lemma {:induction false} RegexpOrder(lib: Library, pattern: Option<string>, p: seq<string>, q: seq<string>,
                                       keys: set<string>)
    requires Enumerates(p, keys) && Enumerates(q, keys)
    ensures MatchedNames(lib, pattern, p) == MatchedNames(lib, pattern, q)
  {
    if pattern.Some? {
      var a, b := Matching(lib, pattern.value, p), Matching(lib, pattern.value, q);
      OrdersPermute(p, q, keys);
      forall x ensures Count(a, x) == Count(b, x) {
        MatchingCount(lib, pattern.value, p, x);
        MatchingCount(lib, pattern.value, q, x);
        SameCount(p, q, x);
      }
      SameMultiset(a, b);
    }
  }

  /** A token stands for one multiset of hosts. */
  lemma {:induction false} StandsOnce(c: Conductor, lib: Library, rank: string -> nat, t: P.Token, a: seq<string>,
                                      b: seq<string>)
    requires Descends(c, rank, t) && Stands(c, lib, rank, t, a) && Stands(c, lib, rank, t, b)
    ensures multiset(a) == multiset(b)
  {
    match t.kind
    case TypeHostRegexp =>
      var p :| Enumerates(p, c.hostsByFqdn.Keys) && a == MatchedNames(lib, t.regexp, p);
      var q :| Enumerates(q, c.hostsByFqdn.Keys) && b == MatchedNames(lib, t.regexp, q);
      RegexpOrder(lib, t.regexp, p, q, c.hostsByFqdn.Keys);
    case TypeWorkGroup =>
      var p :| WorkGroupStands(c, lib, t, a, p);
      var q :| WorkGroupStands(c, lib, t, b, q);
      WorkGroupOrder(c, lib, t, a, b, p, q);
    case _ =>
  }

  lemma {:induction false} KnownExcluding(fqdns: set<string>, t: P.Token, hs: seq<string>)
    ensures KnownHosts(fqdns, Excluding(t), hs) == KnownHosts(fqdns, t, hs)
  {
    if hs != [] {
      KnownExcluding(fqdns, t, hs[..|hs| - 1]);
    }
  }

  /** An excluding token stands for the same hosts. */
  lemma {:induction false} StandsExcluding(c: Conductor, lib: Library, rank: string -> nat, t: P.Token, hs: seq<string>)
    requires Descends(c, rank, t) && Descends(c, rank, Excluding(t)) && Stands(c, lib, rank, Excluding(t), hs)
    ensures Stands(c, lib, rank, t, hs)
  {
    match t.kind
    case TypeHostRegexp =>
      var p :| Enumerates(p, c.hostsByFqdn.Keys) && hs == MatchedNames(lib, t.regexp, p);
    case TypeHost => KnownExcluding(c.hostsByFqdn.Keys, t, Expansion(lib, t.value));
    case TypeGroup =>
      if t.value in c.groupsByName {
        NamesExcluding(lib, t, HostsAt(BelowGroup(c, rank, t.value)));
      }
    case TypeWorkGroup =>
      var p :| WorkGroupStands(c, lib, Excluding(t), hs, p);
      NamesExcluding(lib, t, HostsAt(GroupsAt(c.workgroupsByName, p)));
      assert WorkGroupStands(c, lib, t, hs, p);
  }

  /** Two readings of an expression over the same inventory list every host equally often, in whatever
      orders the maps were visited. */
  lemma {:induction false} SameList(c: Conductor, lib: Library, rank: string -> nat, ts: seq<P.Token>,
                                    a: seq<seq<string>>, b: seq<seq<string>>)
    requires AllDescend(c, rank, ts) && |a| == |b| == |ts|
    requires AllStand(c, lib, rank, ts, a) && AllStand(c, lib, rank, ts, b)
    ensures multiset(ListOf(ts, a)) == multiset(ListOf(ts, b))
  {
    forall i | 0 <= i < |ts| ensures multiset(a[i]) == multiset(b[i]) {
      StandsOnce(c, lib, rank, ts[i], a[i], b[i]);
    }
    ListShuffled(ts, a, b);
  }

  lemma {:induction false} TokensThenExclusion(c: Conductor, lib: Library, rank: string -> nat, ts: seq<P.Token>,
                                               t: P.Token, before: seq<seq<string>>, after: seq<seq<string>>)
    requires !t.exclude && AllDescend(c, rank, ts + [t, Excluding(t)]) && AllDescend(c, rank, ts)
    requires |before| == |ts| && AllStand(c, lib, rank, ts, before)
    requires |after| == |ts| + 2 && AllStand(c, lib, rank, ts + [t, Excluding(t)], after)
    ensures multiset(ListOf(ts + [t, Excluding(t)], after)) == multiset(ListOf(ts, before))
  {
    var n, all := |ts|, ts + [t, Excluding(t)];
    assert all[n] == t && all[n + 1] == Excluding(t);
    assert Stands(c, lib, rank, all[n], after[n]) && Stands(c, lib, rank, all[n + 1], after[n + 1]);
    StandsExcluding(c, lib, rank, t, after[n + 1]);
    StandsOnce(c, lib, rank, t, after[n], after[n + 1]);
    forall i | 0 <= i < n ensures multiset(after[i]) == multiset(before[i]) {
      assert all[i] == ts[i] && Stands(c, lib, rank, all[i], after[i]);
      StandsOnce(c, lib, rank, ts[i], after[i], before[i]);
    }
    ListThenExclusion(ts, t, before, after);
  }

  lemma {:induction false} AnswersThenExclusion(c: Conductor, lib: Library, rank: string -> nat, ts: seq<P.Token>,
                                                t: P.Token, r0: Outcome, r1: Outcome)
    requires !t.exclude && AllDescend(c, rank, ts) && AllDescend(c, rank, ts + [t, Excluding(t)])
    requires AnswersTokens(c, lib, rank, ts, r0) && AnswersTokens(c, lib, rank, ts + [t, Excluding(t)], r1)
    ensures r0.Listed? && !(NilPattern(t) && c.hostsByFqdn != map[]) ==> r1.Listed? && multiset(r1.hosts) == multiset(r0.hosts)
  {
    var all := ts + [t, Excluding(t)];
    if r0.Listed? && !(NilPattern(t) && c.hostsByFqdn != map[]) {
      var before :| |before| == |ts| && AllStand(c, lib, rank, ts, before) && r0 == Listed(ListOf(ts, before));
      var after :| |after| == |all| && AllStand(c, lib, rank, all, after) && r1 == Listed(ListOf(all, after));
      TokensThenExclusion(c, lib, rank, ts, t, before, after);
    }
  }

  /** HostList(e) and HostList(e X,-X) of the conductor list every host equally often. */
  lemma {:induction false} ConductorThenExclusion(c: Conductor, lib: Library, rank: string -> nat, p: string,
                                                  t: P.Token, r0: Outcome, r1: Outcome)
    requires (p == "" || p[|p| - 1] == ',') && P.Parse(lib.valid, p).Ok? && PR.WellFormed(lib.valid, t) && !t.exclude
    requires AllDescend(c, rank, P.Parse(lib.valid, p).value) && Answers(c, lib, rank, p, r0)
    requires P.Parse(lib.valid, Then(p, t)).Ok? ==> AllDescend(c, rank, P.Parse(lib.valid, Then(p, t)).value)
    requires Answers(c, lib, rank, Then(p, t), r1)
    ensures r0.Listed? && !(NilPattern(t) && c.hostsByFqdn != map[]) ==> r1.Listed? && multiset(r1.hosts) == multiset(r0.hosts)
  {
    ParseThen(lib.valid, p, t);
    AnswersThenExclusion(c, lib, rank, P.Parse(lib.valid, p).value, t, r0, r1);
  }

  // ---------------------------------------------------------------- the local file

  lemma {:induction false} FileExcluding(data: map<string, seq<string>>, lib: Library, t: P.Token, a: seq<string>,
                                         b: seq<string>)
    requires LF.Stands(data, lib, t, a) && LF.Stands(data, lib, Excluding(t), b)
    ensures multiset(a) == multiset(b)
  {
    assert LF.Stands(data, lib, t, b);
    LF.Deterministic(data, lib, t, a, b);
  }

  lemma {:induction false} FileBefore(data: map<string, seq<string>>, lib: Library, ts: seq<P.Token>,
                                      more: seq<P.Token>, before: seq<seq<string>>, after: seq<seq<string>>)
    requires |before| == |ts| <= |after| && LF.AllStand(data, lib, ts, before) && LF.AllStand(data, lib, ts + more, after)
    ensures forall i | 0 <= i < |ts| :: multiset(after[i]) == multiset(before[i])
  {
    forall i | 0 <= i < |ts| ensures multiset(after[i]) == multiset(before[i]) {
      assert (ts + more)[i] == ts[i] && LF.Stands(data, lib, (ts + more)[i], after[i]);
      LF.Deterministic(data, lib, ts[i], after[i], before[i]);
    }
  }

  lemma {:induction false} FileLast(data: map<string, seq<string>>, lib: Library, ts: seq<P.Token>, t: P.Token,
                                    after: seq<seq<string>>)
    requires |after| == |ts| + 2 && LF.AllStand(data, lib, ts + [t, Excluding(t)], after)
    ensures multiset(after[|ts|]) == multiset(after[|ts| + 1])
  {
    hide LF.Stands;
    var n, all := |ts|, ts + [t, Excluding(t)];
    assert all[n] == t && all[n + 1] == Excluding(t);
    assert LF.Stands(data, lib, all[n], after[n]) && LF.Stands(data, lib, all[n + 1], after[n + 1]);
    FileExcluding(data, lib, t, after[n], after[n + 1]);
  }

  lemma {:induction false} FileTokensThenExclusion(data: map<string, seq<string>>, lib: Library, ts: seq<P.Token>,
                                                   t: P.Token, before: seq<seq<string>>, after: seq<seq<string>>)
    requires !t.exclude && |before| == |ts| && LF.AllStand(data, lib, ts, before)
    requires |after| == |ts| + 2 && LF.AllStand(data, lib, ts + [t, Excluding(t)], after)
    ensures multiset(ListOf(ts + [t, Excluding(t)], after)) == multiset(ListOf(ts, before))
  {
    FileLast(data, lib, ts, t, after);
    FileBefore(data, lib, ts, [t, Excluding(t)], before, after);
    ListThenExclusion(ts, t, before, after);
  }

  lemma {:induction false} FileAnswersThenExclusion(data: map<string, seq<string>>, lib: Library, ts: seq<P.Token>,
                                                    t: P.Token, r0: Outcome, r1: Outcome)
    requires !t.exclude
    requires LF.AnswersTokens(data, lib, ts, r0) && LF.AnswersTokens(data, lib, ts + [t, Excluding(t)], r1)
    ensures r0.Listed? && !(NilPattern(t) && LF.HasHosts(data)) ==> r1.Listed? && multiset(r1.hosts) == multiset(r0.hosts)
  {
    var all := ts + [t, Excluding(t)];
    if r0.Listed? && !(NilPattern(t) && LF.HasHosts(data)) {
      var before :| |before| == |ts| && LF.AllStand(data, lib, ts, before) && r0 == Listed(ListOf(ts, before));
      var after :| |after| == |all| && LF.AllStand(data, lib, all, after) && r1 == Listed(ListOf(all, after));
      FileTokensThenExclusion(data, lib, ts, t, before, after);
    }
  }

  /** The same for the local file. */
  lemma {:induction false} LocalFileThenExclusion(data: map<string, seq<string>>, lib: Library, p: string, t: P.Token,
                                                  r0: Outcome, r1: Outcome)
    requires (p == "" || p[|p| - 1] == ',') && P.Parse(lib.valid, p).Ok? && PR.WellFormed(lib.valid, t) && !t.exclude
    requires LF.Answers(data, lib, p, r0) && LF.Answers(data, lib, Then(p, t), r1)
    ensures r0.Listed? && !(NilPattern(t) && LF.HasHosts(data)) ==> r1.Listed? && multiset(r1.hosts) == multiset(r0.hosts)
  {
    ParseThen(lib.valid, p, t);
    FileAnswersThenExclusion(data, lib, P.Parse(lib.valid, p).value, t, r0, r1);
  }
}
