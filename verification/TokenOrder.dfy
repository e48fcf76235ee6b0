/** In which order a token of the conductor lists its hosts (src/conductor/conductor.go:322-401,
    src/conductor/schema.go:57-82), over the raw inventory. */
module TokenOrder {
  import opened Basics
  import P = Parser
  import opened HostSet
  import opened Backend
  import opened Inventory
  import opened Groups
  import opened ConductorHosts
  import opened Exactness
  import EX = Exclusion

  /** The hosts of the data that name the group and pass the filters, in the order of the data. */
  ghost function Members(lib: Library, t: P.Token, id: string, hs: seq<Host>): seq<string>
    reads hs
  {
    if hs == [] then []
    else (if hs[0].groupId != "" && hs[0].groupId == id && Passes(lib, t, hs[0]) then [hs[0].fqdn] else [])
         + Members(lib, t, id, hs[1..])
  }

  /** The members of one group after the other. */
  ghost function OfGroups(lib: Library, t: P.Token, gs: seq<Group>, hs: seq<Host>): seq<string>
    reads gs, hs
  {
    if gs == [] then [] else Members(lib, t, gs[0].id, hs) + OfGroups(lib, t, gs[1..], hs)
  }

  lemma {:induction false} HostsInAppend(m: map<string, Group>, g: Group, a: seq<Host>, b: seq<Host>)
    ensures HostsIn(m, g, a + b) == HostsIn(m, g, a) + HostsIn(m, g, b)
    decreases |b|
  {
    if b == [] {
      assert a + b == a;
    } else {
      HostsInAppend(m, g, a, b[..|b| - 1]);
      assert (a + b)[..|a + b| - 1] == a + b[..|b| - 1];
    }
  }

  /** The index leads to a group from its own id and from no other. */
  ghost predicate OwnIds(m: map<string, Group>) { forall k | k in m :: m[k].id == k }

  lemma {:induction false} OneHostIn(m: map<string, Group>, g: Group, h: Host)
    requires Known(m, g) && OwnIds(m)
    ensures HostsIn(m, g, [h]) == if h.groupId != "" && h.groupId == g.id then [h] else []
  {
    assert [h][..0] == [] && HostsIn(m, g, [h]) == HostsIn(m, g, [h][..0]) + OfGroup(m, g, h);
  }

  lemma {:induction false} OneName(lib: Library, t: P.Token, h: Host)
    ensures Names(lib, t, [h]) == if Passes(lib, t, h) then [h.fqdn] else []
  {
    assert [h][..0] == [] && Names(lib, t, [h]) == Names(lib, t, [h][..0]) + if Passes(lib, t, h) then [h.fqdn] else [];
  }

  lemma {:induction false} FirstMember(lib: Library, t: P.Token, m: map<string, Group>, g: Group, h: Host)
    requires Known(m, g) && OwnIds(m)
    ensures Names(lib, t, HostsIn(m, g, [h])) ==
            if h.groupId != "" && h.groupId == g.id && Passes(lib, t, h) then [h.fqdn] else []
  {
    OneHostIn(m, g, h);
    OneName(lib, t, h);
  }

  lemma {:induction false} MembersAre(lib: Library, t: P.Token, m: map<string, Group>, g: Group, hs: seq<Host>)
    requires Known(m, g) && OwnIds(m)
    ensures Names(lib, t, HostsIn(m, g, hs)) == Members(lib, t, g.id, hs)
  {
    if hs != [] {
      var first, rest := [hs[0]], hs[1..];
      var a, b := HostsIn(m, g, first), HostsIn(m, g, rest);
      assert HostsIn(m, g, hs) == a + b by {
        assert hs == first + rest;
        HostsInAppend(m, g, first, rest);
      }
      EX.NamesAppend(lib, t, a, b);
      FirstMember(lib, t, m, g, hs[0]);
      MembersAre(lib, t, m, g, rest);
    }
  }

  lemma {:induction false} GroupsList(lib: Library, t: P.Token, m: map<string, Group>, gs: seq<Group>, hs: seq<Host>)
    requires OwnIds(m) && forall g | g in gs :: Known(m, g) && g.hosts == HostsIn(m, g, hs)
    ensures Names(lib, t, HostsAt(gs)) == OfGroups(lib, t, gs, hs)
  {
    if gs != [] {
      var first, rest := [gs[0]], gs[1..];
      assert gs == first + rest;
      EX.HostsAtAppend(first, rest);
      assert first[..0] == [] && HostsAt(first) == gs[0].hosts;
      EX.NamesAppend(lib, t, gs[0].hosts, HostsAt(rest));
      MembersAre(lib, t, m, gs[0], hs);
      GroupsList(lib, t, m, rest, hs);
    }
  }

  lemma {:induction false} OfGroupsAppend(lib: Library, t: P.Token, a: seq<Group>, b: seq<Group>, hs: seq<Host>)
    ensures OfGroups(lib, t, a + b, hs) == OfGroups(lib, t, a, hs) + OfGroups(lib, t, b, hs)
  {
    if a == [] {
      assert a + b == b;
    } else {
      assert (a + b)[1..] == a[1..] + b;
      OfGroupsAppend(lib, t, a[1..], b, hs);
    }
  }

  /** `%g` lists the members of the groups below g, in the order of the descent, and then those of g. */
  lemma {:induction false} GroupTokenList(c: Conductor, lib: Library, rank: string -> nat, t: P.Token, hs: seq<string>)
    requires c.Exact() && UniqueKeys(GroupId(), c.data.groups)
    requires t.kind.TypeGroup? && Descends(c, rank, t) && Stands(c, lib, rank, t, hs) && t.value in c.groupsByName
    ensures var g := c.groupsByName[t.value];
            hs == OfGroups(lib, t, ChildrenOf(c.groupsById, rank, g), c.data.hosts) + Members(lib, t, g.id, c.data.hosts)
  {
    var m, g := c.groupsById, c.groupsByName[t.value];
    var below := ChildrenOf(m, rank, g);
    SameGroup(c, t.value);
    GroupOnce(c);
    ChildrenInside(m, rank, g);
    forall x | x in below + [g] ensures Known(m, x) && x.hosts == HostsIn(m, x, c.data.hosts) {
      assert x in m.Values;
    }
    GroupsList(lib, t, m, below + [g], c.data.hosts);
    OfGroupsAppend(lib, t, below, [g], c.data.hosts);
    assert [g][1..] == [] && Members(lib, t, g.id, c.data.hosts) + [] == Members(lib, t, g.id, c.data.hosts);
  }

  /** The groups of the data that name the workgroup, in the order of the data. */
  ghost function Belonging(id: string, gs: seq<Group>): seq<Group> {
    if gs == [] then [] else (if gs[0].workGroupId == id then [gs[0]] else []) + Belonging(id, gs[1..])
  }

  lemma {:induction false} GroupsInAppend(m: map<string, WorkGroup>, w: WorkGroup, a: seq<Group>, b: seq<Group>)
    ensures GroupsIn(m, w, a + b) == GroupsIn(m, w, a) + GroupsIn(m, w, b)
    decreases |b|
  {
    if b == [] {
      assert a + b == a;
    } else {
      GroupsInAppend(m, w, a, b[..|b| - 1]);
      assert (a + b)[..|a + b| - 1] == a + b[..|b| - 1];
    }
  }

  lemma {:induction false} BelongingAre(m: map<string, WorkGroup>, w: WorkGroup, gs: seq<Group>)
    requires w.id in m && m[w.id] == w && forall k | k in m :: m[k].id == k
    ensures GroupsIn(m, w, gs) == Belonging(w.id, gs)
  {
    if gs != [] {
      var first, rest := [gs[0]], gs[1..];
      assert gs == first + rest;
      GroupsInAppend(m, w, first, rest);
      assert first[..0] == [] && GroupsIn(m, w, first) == OfWorkGroup(m, w, gs[0]);
      BelongingAre(m, w, rest);
    }
  }

  /** `*name` lists the members of the groups of that workgroup, group by group in the order of the data. */
  lemma {:induction false} NamedWorkGroupList(c: Conductor, lib: Library, rank: string -> nat, t: P.Token,
                                              hs: seq<string>, w: WorkGroup)
    requires c.Exact() && UniqueKeys(GroupId(), c.data.groups) && UniqueWorkGroups(c)
    requires t.kind.TypeWorkGroup? && t.value != "" && Descends(c, rank, t) && Stands(c, lib, rank, t, hs)
    requires w in c.data.workgroups && w.name == t.value
    ensures hs == OfGroups(lib, t, Belonging(w.id, c.data.groups), c.data.hosts)
  {
    var order :| WorkGroupStands(c, lib, t, hs, order);
    var gs := Belonging(w.id, c.data.groups);
    NamedWorkGroup(c, w);
    GroupOnce(c);
    assert order == [t.value] && order[..0] == [] && GroupsAt(c.workgroupsByName, order) == [] + w.groups == w.groups;
    BelongingAre(c.workgroupsById, w, c.data.groups);
    forall x | x in gs ensures Known(c.groupsById, x) && x.hosts == HostsIn(c.groupsById, x, c.data.hosts) {
      BelongingInside(w.id, c.data.groups, x);
      assert x in c.groupsById.Values;
    }
    GroupsList(lib, t, c.groupsById, gs, c.data.hosts);
  }

  lemma {:induction false} BelongingInside(id: string, gs: seq<Group>, x: Group)
    requires x in Belonging(id, gs)
    ensures x in gs
  {
    if x in Belonging(id, gs[1..]) {
      BelongingInside(id, gs[1..], x);
    }
  }

  lemma {:induction false} NamedWorkGroup(c: Conductor, w: WorkGroup)
    requires c.Exact() && UniqueWorkGroups(c) && w in c.data.workgroups
    ensures w.name in c.workgroupsByName && c.workgroupsByName[w.name] == w
    ensures w.id in c.workgroupsById && c.workgroupsById[w.id] == w && w.groups == GroupsIn(c.workgroupsById, w, c.data.groups)
    ensures forall k | k in c.workgroupsById :: c.workgroupsById[k].id == k
  {
    var ws := c.data.workgroups;
    var id: WorkGroup -> string := WgId();
    var name: WorkGroup -> string := WgName();
    IndexExact(id, ws);
    IndexExact(name, ws);
    var i :| 0 <= i < |ws| && ws[i] == w;
    assert c.workgroupsById[id(ws[i])] == ws[i] && c.workgroupsByName[name(ws[i])] == ws[i];
    forall k | k in c.workgroupsById ensures c.workgroupsById[k].id == k {
      assert id(c.workgroupsById[k]) == k;
    }
  }
}
