/** The host lists of the conductor backend (src/conductor/conductor.go:286-417): what every token of an
    expression stands for, and what that means over the raw inventory. */
module ConductorHosts {
  import opened Basics
  import P = Parser
  import opened HostSet
  import opened Backend
  import opened Inventory
  import opened Groups

  // ---------------------------------------------------------------- filters

  method Contains(items: seq<string>, elem: string) returns (found: bool)
    ensures found <==> elem in items
  {
    for i := 0 to |items|
      invariant elem !in items[..i]
    {
      if elem == items[i] {
        return true;
      }
    }
    return false;
  }

  /** The datacenter by name, every tag, and the regexp. */
  predicate Passes(lib: Library, t: P.Token, h: Host)
    reads h
  {
    && (t.datacenter != "" ==> h.datacenter != null && h.datacenter.name == t.datacenter)
    && (forall tag | tag in t.tags :: tag in h.allTags)
    && (t.regexp.Some? ==> lib.matches(t.regexp.value, h.fqdn))
  }

  /** The tests of hostLoop1 and hostLoop2. */
  method Accepts(lib: Library, t: P.Token, h: Host) returns (ok: bool)
    ensures ok == Passes(lib, t, h)
  {
    if t.datacenter != "" {
      if h.datacenter == null {
        return false;
      }
      if h.datacenter.name != t.datacenter {
        return false;
      }
    }
    for i := 0 to |t.tags|
      invariant forall tag | tag in t.tags[..i] :: tag in h.allTags
    {
      var found := Contains(h.allTags, t.tags[i]);
      if !found {
        return false;
      }
    }
    if t.regexp.Some? {
      if !lib.matches(t.regexp.value, h.fqdn) {
        return false;
      }
    }
    return true;
  }

  /** The names of the hosts that pass. */
  ghost function Names(lib: Library, t: P.Token, hs: seq<Host>): seq<string>
    reads hs
  {
    if hs == [] then []
    else
      var last := hs[|hs| - 1];
      Names(lib, t, hs[..|hs| - 1]) + if Passes(lib, t, last) then [last.fqdn] else []
  }

  method FilterHosts(lib: Library, t: P.Token, hs: seq<Host>) returns (names: seq<string>)
    ensures names == Names(lib, t, hs)
  {
    names := [];
    var i := 0;
    while i < |hs|
      invariant i <= |hs| && names == Names(lib, t, hs[..i])
    {
      assert hs[..i + 1][..i] == hs[..i];
      var ok := Accepts(lib, t, hs[i]);
      if ok {
        names := names + [hs[i].fqdn];
      }
      i := i + 1;
    }
    assert hs[..i] == hs;
  }

  // ---------------------------------------------------------------- plain hosts

  /** The expansion of a pattern, or the text itself when it is none. */
  function Expansion(lib: Library, value: string): seq<string> {
    var hosts := lib.expand(value);
    if hosts.Some? then hosts.value else [value]
  }

  /** With a tag filter, hosts that the inventory does not know are skipped. */
  function KnownHosts(fqdns: set<string>, t: P.Token, hs: seq<string>): seq<string> {
    if hs == [] then []
    else
      var last := hs[|hs| - 1];
      KnownHosts(fqdns, t, hs[..|hs| - 1]) + if t.tags == [] || last in fqdns then [last] else []
  }

  lemma {:induction false} Unfiltered(fqdns: set<string>, t: P.Token, hs: seq<string>)
    requires t.tags == []
    ensures KnownHosts(fqdns, t, hs) == hs
  {
    if hs != [] {
      Unfiltered(fqdns, t, hs[..|hs| - 1]);
    }
  }

  /** With a tag filter exactly the known hosts are left. */
  lemma {:induction false} KnownOnly(fqdns: set<string>, t: P.Token, hs: seq<string>, x: string)
    requires t.tags != []
    ensures Count(KnownHosts(fqdns, t, hs), x) == if x in fqdns then Count(hs, x) else 0
  {
    if hs != [] {
      var init, last := hs[..|hs| - 1], hs[|hs| - 1];
      KnownOnly(fqdns, t, init, x);
      assert hs == init + [last];
      CountSnoc(init, last, x);
      if last in fqdns {
        CountSnoc(KnownHosts(fqdns, t, init), last, x);
      } else {
        assert KnownHosts(fqdns, t, hs) == KnownHosts(fqdns, t, init);
      }
    }
  }

  /** The loop over the tags inside this one continues itself, so it never skips a host. */
  method HostTokenHosts(c: Conductor, lib: Library, t: P.Token) returns (hs: seq<string>)
    ensures hs == KnownHosts(c.hostsByFqdn.Keys, t, Expansion(lib, t.value))
  {
    var hosts := Expansion(lib, t.value);
    hs := [];
    var i := 0;
    while i < |hosts|
      invariant i <= |hosts| && hs == KnownHosts(c.hostsByFqdn.Keys, t, hosts[..i])
    {
      assert hosts[..i + 1][..i] == hosts[..i];
      if |t.tags| > 0 && hosts[i] !in c.hostsByFqdn {
        i := i + 1;
        continue;
      }
      hs := hs + [hosts[i]];
      i := i + 1;
    }
    assert hosts[..i] == hosts;
  }

  // ---------------------------------------------------------------- host regexps

  /** What MatchHost returns for a map visited in the given order. */
  ghost function MatchedNames(lib: Library, pattern: Option<string>, order: seq<string>): seq<string> {
    lib.sort(multiset(if pattern.Some? then Matching(lib, pattern.value, order) else []))
  }

  method MatchHost(c: Conductor, lib: Library, pattern: Option<string>)
    returns (panicked: bool, res: seq<string>, ghost order: seq<string>)
    ensures panicked <==> pattern.None? && c.hostsByFqdn != map[]
    ensures !panicked ==> Enumerates(order, c.hostsByFqdn.Keys) && res == MatchedNames(lib, pattern, order)
  {
    res, panicked, order := [], false, [];
    var todo := c.hostsByFqdn.Keys;
    while todo != {}
      invariant todo <= c.hostsByFqdn.Keys && Enumerates(order, c.hostsByFqdn.Keys - todo)
      invariant order != [] ==> pattern.Some?
      invariant res == if pattern.Some? then Matching(lib, pattern.value, order) else []
    {
      var hostname :| hostname in todo;
      if pattern.None? {
        panicked := true;
        return;
      }
      assert (order + [hostname])[..|order|] == order;
      if lib.matches(pattern.value, hostname) {
        res := res + [hostname];
      }
      order := order + [hostname];
      todo := todo - {hostname};
    }
    assert c.hostsByFqdn.Keys - todo == c.hostsByFqdn.Keys;
    if c.hostsByFqdn != map[] {
      var k :| k in c.hostsByFqdn;
      assert k in order;
    }
    res := lib.sort(multiset(res));
  }

  // ---------------------------------------------------------------- groups and workgroups

  /** Ranks for the child ids make the descent of a token end. Groups that it does not reach need none. */
  ghost predicate Descends(c: Conductor, rank: string -> nat, t: P.Token)
    reads c
  {
    && Ranked(c.groupsById, rank)
    && (t.kind.TypeGroup? && t.value in c.groupsByName ==> Fits(c.groupsById, rank, c.groupsByName[t.value]))
  }

  ghost predicate AllDescend(c: Conductor, rank: string -> nat, ts: seq<P.Token>)
    reads c
  {
    forall i | 0 <= i < |ts| :: Descends(c, rank, ts[i])
  }

  ghost function BelowGroup(c: Conductor, rank: string -> nat, name: string): seq<Group>
    requires Ranked(c.groupsById, rank) && name in c.groupsByName && Fits(c.groupsById, rank, c.groupsByName[name])
    reads c
  {
    ChildrenOf(c.groupsById, rank, c.groupsByName[name]) + [c.groupsByName[name]]
  }

  method GroupTokenHosts(c: Conductor, lib: Library, ghost rank: string -> nat, t: P.Token) returns (hs: seq<string>)
    requires Descends(c, rank, t) && t.kind.TypeGroup?
    ensures hs == if t.value in c.groupsByName then Names(lib, t, HostsAt(BelowGroup(c, rank, t.value))) else []
  {
    hs := [];
    if t.value in c.groupsByName {
      var hosts := AllHosts(c.groupsById, rank, c.groupsByName[t.value]);
      assert hosts == HostsAt(BelowGroup(c, rank, t.value));
      hs := FilterHosts(lib, t, hosts);
    }
  }

  /** The group lists of the workgroups with the given names. */
  ghost function GroupsAt(m: map<string, WorkGroup>, order: seq<string>): seq<Group>
    requires forall k | k in order :: k in m
    reads m.Values
  {
    if order == [] then []
    else
      var last := order[|order| - 1];
      GroupsAt(m, order[..|order| - 1]) + m[last].groups
  }

  /** The workgroups of a token: all of them in the order of the map, or the named one. */
  ghost predicate Selects(m: map<string, WorkGroup>, value: string, order: seq<string>) {
    if value == "" then Enumerates(order, m.Keys) else order == if value in m then [value] else []
  }

  method ListWorkGroups(m: map<string, WorkGroup>, value: string) returns (order: seq<string>)
    ensures Selects(m, value, order)
  {
    order := [];
    if value == "" {
      var todo := m.Keys;
      while todo != {}
        invariant todo <= m.Keys && Enumerates(order, m.Keys - todo)
      {
        var k :| k in todo;
        order := order + [k];
        todo := todo - {k};
      }
      assert m.Keys - todo == m.Keys;
    } else if value in m {
      order := [value];
    }
  }

  /** The nested loops over workgroups and their groups. */
  method WorkGroupHosts(m: map<string, WorkGroup>, names: seq<string>) returns (hosts: seq<Host>, ghost gs: seq<Group>)
    requires forall k | k in names :: k in m
    ensures hosts == HostsAt(GroupsAt(m, names)) && gs == GroupsAt(m, names)
  {
    hosts, gs := [], [];
    var i := 0;
    while i < |names|
      invariant i <= |names| && gs == GroupsAt(m, names[..i]) && hosts == HostsAt(gs)
    {
      assert names[..i + 1][..i] == names[..i];
      var groups := m[names[i]].groups;
      var j := 0;
      assert gs + groups[..0] == gs;
      while j < |groups|
        invariant j <= |groups| && hosts == HostsAt(gs + groups[..j])
      {
        assert (gs + groups[..j + 1])[..|gs| + j] == gs + groups[..j];
        hosts := hosts + groups[j].hosts;
        j := j + 1;
      }
      assert groups[..j] == groups;
      gs := gs + groups;
      i := i + 1;
    }
    assert names[..i] == names;
  }

  method WorkGroupTokenHosts(c: Conductor, lib: Library, t: P.Token) returns (hs: seq<string>, ghost order: seq<string>)
    ensures Selects(c.workgroupsByName, t.value, order)
    ensures hs == Names(lib, t, HostsAt(GroupsAt(c.workgroupsByName, order)))
  {
    var names := ListWorkGroups(c.workgroupsByName, t.value);
    order := names;
    var hosts;
    ghost var groups;
    hosts, groups := WorkGroupHosts(c.workgroupsByName, names);
    hs := FilterHosts(lib, t, hosts);
    assert HostsAt(groups) == hosts;
    assert GroupsAt(c.workgroupsByName, order) == groups;
  }

  // ---------------------------------------------------------------- the objects that HostList looks at

  ghost function AllGroups(c: Conductor): set<Group>
    reads c, c.workgroupsByName.Values
  {
    c.groupsById.Values + c.groupsByName.Values + set w, g | w in c.workgroupsByName.Values && g in w.groups :: g
  }

  ghost function AllHostsOf(c: Conductor): set<Host>
    reads c, c.workgroupsByName.Values, AllGroups(c)
  {
    set g, h | g in AllGroups(c) && h in g.hosts :: h
  }

  lemma {:induction false} DirectInside(m: map<string, Group>, ids: seq<string>)
    ensures forall g | g in Direct(m, ids) :: g in m.Values
  {
    if ids != [] {
      DirectInside(m, ids[..|ids| - 1]);
    }
  }

  /** Children lists groups of the index. */
  lemma {:induction false} ChildrenInside(m: map<string, Group>, rank: string -> nat, g: Group)
    requires Ranked(m, rank) && Fits(m, rank, g)
    ensures forall x | x in ChildrenOf(m, rank, g) :: x in m.Values
    decreases rank(g.id) + 1, 0
  {
    DirectInside(m, g.childIds);
    LowerInside(m, rank, Kids(m, rank, g), rank(g.id));
  }

  lemma {:induction false} LowerInside(m: map<string, Group>, rank: string -> nat, cs: seq<Group>, r: nat)
    requires Ranked(m, rank) && Below(m, rank, cs, r)
    ensures forall x | x in LowerOf(m, rank, cs, r) :: x in m.Values
    decreases r, |cs|
  {
    if cs != [] {
      LowerInside(m, rank, cs[..|cs| - 1], r);
      ChildrenInside(m, rank, cs[|cs| - 1]);
    }
  }

  lemma {:induction false} HostsAtInside(c: Conductor, gs: seq<Group>)
    requires forall g | g in gs :: g in AllGroups(c)
    ensures forall h | h in HostsAt(gs) :: h in AllHostsOf(c)
  {
    if gs != [] {
      HostsAtInside(c, gs[..|gs| - 1]);
      assert gs[|gs| - 1] in gs;
    }
  }

  lemma {:induction false} GroupsAtInside(c: Conductor, order: seq<string>)
    requires forall k | k in order :: k in c.workgroupsByName
    ensures forall g | g in GroupsAt(c.workgroupsByName, order) :: g in AllGroups(c)
  {
    if order != [] {
      GroupsAtInside(c, order[..|order| - 1]);
      assert order[|order| - 1] in order;
    }
  }

  // ---------------------------------------------------------------- HostList

  ghost predicate GroupStands(c: Conductor, lib: Library, rank: string -> nat, t: P.Token, hs: seq<string>)
    requires Descends(c, rank, t) && t.kind.TypeGroup?
    reads c, c.workgroupsByName.Values, AllGroups(c), AllHostsOf(c)
  {
    if t.value in c.groupsByName then
      ChildrenInside(c.groupsById, rank, c.groupsByName[t.value]);
      HostsAtInside(c, BelowGroup(c, rank, t.value));
      hs == Names(lib, t, HostsAt(BelowGroup(c, rank, t.value)))
    else hs == []
  }

  ghost predicate WorkGroupStands(c: Conductor, lib: Library, t: P.Token, hs: seq<string>, order: seq<string>)
    reads c, c.workgroupsByName.Values, AllGroups(c), AllHostsOf(c)
  {
    && Selects(c.workgroupsByName, t.value, order)
    && (GroupsAtInside(c, order);
        HostsAtInside(c, GroupsAt(c.workgroupsByName, order));
        hs == Names(lib, t, HostsAt(GroupsAt(c.workgroupsByName, order))))
  }

  /** The hosts that a token stands for. */
  ghost predicate Stands(c: Conductor, lib: Library, rank: string -> nat, t: P.Token, hs: seq<string>)
    requires Descends(c, rank, t)
    reads c, c.workgroupsByName.Values, AllGroups(c), AllHostsOf(c)
  {
    match t.kind
    case TypeHostRegexp => exists order :: Enumerates(order, c.hostsByFqdn.Keys) && hs == MatchedNames(lib, t.regexp, order)
    case TypeHost => hs == KnownHosts(c.hostsByFqdn.Keys, t, Expansion(lib, t.value))
    case TypeGroup => GroupStands(c, lib, rank, t, hs)
    case TypeWorkGroup => exists order :: WorkGroupStands(c, lib, t, hs, order)
  }

  ghost predicate AllStand(c: Conductor, lib: Library, rank: string -> nat, ts: seq<P.Token>, hosts: seq<seq<string>>)
    requires AllDescend(c, rank, ts)
    reads c, c.workgroupsByName.Values, AllGroups(c), AllHostsOf(c)
  {
    |hosts| <= |ts| && forall i | 0 <= i < |hosts| :: Stands(c, lib, rank, ts[i], hosts[i])
  }

  /** The switch over the token types: the hosts handed to MaybeAddHost. */
  method TokenHosts(c: Conductor, lib: Library, ghost rank: string -> nat, t: P.Token) returns (panicked: bool, hs: seq<string>)
    requires Descends(c, rank, t)
    ensures panicked <==> NilPattern(t) && c.hostsByFqdn != map[]
    ensures !panicked ==> Stands(c, lib, rank, t, hs)
  {
    panicked := false;
    ghost var order;
    match t.kind {
      case TypeHostRegexp =>
        panicked, hs, order := MatchHost(c, lib, t.regexp);
      case TypeHost =>
        hs := HostTokenHosts(c, lib, t);
      case TypeGroup =>
        hs := GroupTokenHosts(c, lib, rank, t);
      case TypeWorkGroup =>
        hs, order := WorkGroupTokenHosts(c, lib, t);
        assert WorkGroupStands(c, lib, t, hs, order);
    }
  }

  /** Nothing that a later call allocates can be among these objects. */
  lemma {:induction false} AlreadyThere(c: Conductor)
    ensures forall g | g in AllGroups(c) :: allocated(g)
    ensures forall h | h in AllHostsOf(c) :: allocated(h)
  {
  }

  /** The loop over the tokens after n rounds. */
  ghost predicate Progress(c: Conductor, lib: Library, rank: string -> nat, ts: seq<P.Token>, n: nat, hostlist: seq<string>,
                           hosts: seq<seq<string>>)
    requires AllDescend(c, rank, ts)
    reads c, c.workgroupsByName.Values, AllGroups(c), AllHostsOf(c)
  {
    && |hosts| == n <= |ts| && AllStand(c, lib, rank, ts, hosts) && hostlist == ListOf(ts[..n], hosts)
    && (c.hostsByFqdn != map[] ==> NilFree(ts, n))
  }

  lemma {:induction false} ProgressEnds(c: Conductor, lib: Library, rank: string -> nat, ts: seq<P.Token>,
                                        hostlist: seq<string>, hosts: seq<seq<string>>)
    requires AllDescend(c, rank, ts)
    ensures Progress(c, lib, rank, ts, 0, [], [])
    ensures Progress(c, lib, rank, ts, |ts|, hostlist, hosts) ==>
              && |hosts| == |ts| && AllStand(c, lib, rank, ts, hosts) && hostlist == ListOf(ts, hosts)
              && !(AnyNilPattern(ts) && c.hostsByFqdn != map[])
  {
    ListOfNone(ts);
    NilFreeAll(ts);
    assert ts[..|ts|] == ts;
  }

  /** The hosts of the next token: what the earlier tokens stand for does not change. */
  method NextHosts(c: Conductor, lib: Library, ghost rank: string -> nat, ts: seq<P.Token>, n: nat, ghost hosts: seq<seq<string>>)
    returns (panicked: bool, hs: seq<string>)
    requires |hosts| == n < |ts| && AllDescend(c, rank, ts) && AllStand(c, lib, rank, ts, hosts)
    ensures panicked <==> NilPattern(ts[n]) && c.hostsByFqdn != map[]
    ensures !panicked ==> AllDescend(c, rank, ts) && AllStand(c, lib, rank, ts, hosts + [hs])
  {
    AlreadyThere(c);
    panicked, hs := TokenHosts(c, lib, rank, ts[n]);
  }

  method AddNext(c: Conductor, lib: Library, ghost rank: string -> nat, ts: seq<P.Token>, n: nat, hostlist: seq<string>,
                 ghost hosts: seq<seq<string>>, hs: seq<string>)
    returns (newHl: seq<string>)
    requires |hosts| == n < |ts| && hostlist == ListOf(ts[..n], hosts)
    requires AllDescend(c, rank, ts) && AllStand(c, lib, rank, ts, hosts + [hs])
    ensures newHl == ListOf(ts[..n + 1], hosts + [hs])
    ensures AllDescend(c, rank, ts) && AllStand(c, lib, rank, ts, hosts + [hs])
  {
    AlreadyThere(c);
    newHl := AddToken(hostlist, hs, ts, ts[n].exclude, hosts);
  }

  /** One round of the loop. */
  method TokenRound(c: Conductor, lib: Library, ghost rank: string -> nat, ts: seq<P.Token>, n: nat, hostlist: seq<string>,
                    ghost hosts: seq<seq<string>>)
    returns (panicked: bool, newHl: seq<string>, ghost newHosts: seq<seq<string>>)
    requires n < |ts| && AllDescend(c, rank, ts) && Progress(c, lib, rank, ts, n, hostlist, hosts)
    ensures panicked ==> AnyNilPattern(ts) && c.hostsByFqdn != map[]
    ensures !panicked ==> AllDescend(c, rank, ts) && Progress(c, lib, rank, ts, n + 1, newHl, newHosts)
  {
    newHl, newHosts := hostlist, hosts;
    var hs: seq<string>;
    panicked, hs := NextHosts(c, lib, rank, ts, n, hosts);
    if !panicked {
      newHl := AddNext(c, lib, rank, ts, n, hostlist, hosts, hs);
      newHosts := hosts + [hs];
    }
  }

  /** The loop over the tokens. */
  method TokenLoop(c: Conductor, lib: Library, ghost rank: string -> nat, ts: seq<P.Token>)
    returns (panicked: bool, hostlist: seq<string>, ghost hosts: seq<seq<string>>)
    requires AllDescend(c, rank, ts)
    ensures panicked <==> AnyNilPattern(ts) && c.hostsByFqdn != map[]
    ensures !panicked ==> |hosts| == |ts| && AllStand(c, lib, rank, ts, hosts) && hostlist == ListOf(ts, hosts)
  {
    hosts, hostlist, panicked := [], [], false;
    var n := 0;
    ProgressEnds(c, lib, rank, ts, hostlist, hosts);
    while n < |ts|
      invariant n <= |ts| && AllDescend(c, rank, ts) && Progress(c, lib, rank, ts, n, hostlist, hosts)
    {
      panicked, hostlist, hosts := TokenRound(c, lib, rank, ts, n, hostlist, hosts);
      if panicked {
        return;
      }
      n := n + 1;
    }
    ProgressEnds(c, lib, rank, ts, hostlist, hosts);
  }

  ghost predicate AnswersTokens(c: Conductor, lib: Library, rank: string -> nat, ts: seq<P.Token>, r: Outcome)
    requires AllDescend(c, rank, ts)
    reads c, c.workgroupsByName.Values, AllGroups(c), AllHostsOf(c)
  {
    if AnyNilPattern(ts) && c.hostsByFqdn != map[] then r == Panicked
    else exists hosts :: |hosts| == |ts| && AllStand(c, lib, rank, ts, hosts) && r == Listed(ListOf(ts, hosts))
  }

  /** What HostList returns: the parse error, a nil pattern followed, or the closed form of the hosts that
      the tokens stand for. */
  ghost predicate Answers(c: Conductor, lib: Library, rank: string -> nat, expr: string, r: Outcome)
    requires P.Parse(lib.valid, expr).Ok? ==> AllDescend(c, rank, P.Parse(lib.valid, expr).value)
    reads c, c.workgroupsByName.Values, AllGroups(c), AllHostsOf(c)
  {
    match P.Parse(lib.valid, expr)
    case Err(e) => r == Failed(e)
    case Ok(ts) => AnswersTokens(c, lib, rank, ts, r)
  }

  method HostList(c: Conductor, lib: Library, ghost rank: string -> nat, expr: string) returns (r: Outcome)
    requires P.Parse(lib.valid, expr).Ok? ==> AllDescend(c, rank, P.Parse(lib.valid, expr).value)
    ensures Answers(c, lib, rank, expr, r)
  {
    var tokens := P.ParseExpression(lib.valid, expr);
    if tokens.Err? {
      return Failed(tokens.error);
    }
    var panicked, hostlist;
    ghost var hosts;
    panicked, hostlist, hosts := TokenLoop(c, lib, rank, tokens.value);
    r := if panicked then Panicked else Listed(hostlist);
  }
}
