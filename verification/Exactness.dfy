/** What the tokens mean over the raw inventory once `build` has run over a fresh store: how often a host
    is listed does not depend on indexes, on the order of a map or on the shape of the descent. */
module Exactness {
  import opened Basics
  import P = Parser
  import PS = ParserShape
  import opened HostSet
  import opened Backend
  import opened Inventory
  import opened Groups
  import opened ConductorHosts

  // ---------------------------------------------------------------- from objects to names

  ghost predicate NamesTell(hs: seq<Host>, h: Host) {
    forall x | x in hs :: x.fqdn == h.fqdn ==> x == h
  }

  lemma {:induction false} NamesCount(lib: Library, t: P.Token, hs: seq<Host>, h: Host)
    requires NamesTell(hs, h)
    ensures Count(Names(lib, t, hs), h.fqdn) == if Passes(lib, t, h) then Count(hs, h) else 0
  {
    if hs != [] {
      var init, last := hs[..|hs| - 1], hs[|hs| - 1];
      NamesCount(lib, t, init, h);
      CountLast(hs, h);
      assert last in hs;
      if Passes(lib, t, last) {
        CountSnoc(Names(lib, t, init), last.fqdn, h.fqdn);
      } else {
        assert Names(lib, t, hs) == Names(lib, t, init);
      }
    }
  }

  lemma {:induction false} HostsInInside(m: map<string, Group>, g: Group, hs: seq<Host>)
    ensures forall x | x in HostsIn(m, g, hs) :: x in hs
  {
    if hs != [] {
      HostsInInside(m, g, hs[..|hs| - 1]);
      assert hs[|hs| - 1] in hs;
    }
  }

  lemma {:induction false} HostsAtFrom(m: map<string, Group>, gs: seq<Group>, hs: seq<Host>)
    requires forall g | g in gs :: g.hosts == HostsIn(m, g, hs)
    ensures forall x | x in HostsAt(gs) :: x in hs
  {
    if gs != [] {
      HostsAtFrom(m, gs[..|gs| - 1], hs);
      assert gs[|gs| - 1] in gs;
      HostsInInside(m, gs[|gs| - 1], hs);
    }
  }

  /** Names of hosts are unique, so a host of the data is told by its name and stands there once. */
  lemma {:induction false} HostOnce(hs: seq<Host>, h: Host)
    requires UniqueKeys(HostFqdn(), hs) && h in hs
    ensures NamesTell(hs, h) && Count(hs, h) == 1
  {
    var f := HostFqdn();
    forall i, j | 0 <= i < j < |hs| ensures hs[i] != hs[j] && hs[i].fqdn != hs[j].fqdn {
      assert f(hs[i]) != f(hs[j]);
    }
    CountOnce(hs, h);
  }

  /** How often a list of groups names a host: as often as its group stands there. */
  lemma {:induction false} GroupListCount(c: Conductor, lib: Library, t: P.Token, gs: seq<Group>, h: Host)
    requires UniqueKeys(HostFqdn(), c.data.hosts) && h in c.data.hosts
    requires forall g | g in gs :: g.hosts == HostsIn(c.groupsById, g, c.data.hosts)
    ensures Count(Names(lib, t, HostsAt(gs)), h.fqdn) ==
            if Passes(lib, t, h) && h.groupId != "" && h.groupId in c.groupsById
            then Count(gs, c.groupsById[h.groupId]) else 0
  {
    HostOnce(c.data.hosts, h);
    HostsAtFrom(c.groupsById, gs, c.data.hosts);
    NamesCount(lib, t, HostsAt(gs), h);
    if h.groupId != "" && h.groupId in c.groupsById {
      HostsAtCount(c.groupsById, gs, c.data.hosts, h, c.groupsById[h.groupId]);
    } else {
      HostsAtNone(c.groupsById, gs, c.data.hosts, h);
    }
  }

  // ---------------------------------------------------------------- groups

  /** The group stands in the index under its own id. */
  ghost predicate Known(m: map<string, Group>, g: Group) { g.id in m && m[g.id] == g }

  /** With unique ids a group found by name is the one found by its id. */
  lemma {:induction false} SameGroup(c: Conductor, name: string)
    requires c.Exact() && UniqueKeys(GroupId(), c.data.groups) && name in c.groupsByName
    ensures Known(c.groupsById, c.groupsByName[name]) && c.groupsByName[name] in c.groupsById.Values
    ensures c.groupsByName[name].name == name
  {
    var g := c.groupsByName[name];
    IndexExact(GroupName(), c.data.groups);
    IndexExact(GroupId(), c.data.groups);
    var i :| 0 <= i < |c.data.groups| && c.data.groups[i] == g;
    var f := GroupId();
    assert f(c.data.groups[i]) == g.id;
  }

  /** The groups that the tokens name. */
  ghost function Named(c: Conductor, ts: seq<P.Token>): seq<Group>
    reads c
  {
    if ts == [] then []
    else
      var t := ts[|ts| - 1];
      Named(c, ts[..|ts| - 1]) + if t.kind.TypeGroup? && t.value in c.groupsByName then [c.groupsByName[t.value]] else []
  }

  lemma {:induction false} NamedAre(c: Conductor, ts: seq<P.Token>)
    ensures forall t | t in ts && t.kind.TypeGroup? && t.value in c.groupsByName :: c.groupsByName[t.value] in Named(c, ts)
    ensures forall g | g in Named(c, ts) :: exists t | t in ts :: TokenNames(c, t, g)
  {
    if ts != [] {
      var init, last := ts[..|ts| - 1], ts[|ts| - 1];
      NamedAre(c, init);
      assert ts == init + [last];
      forall g | g in Named(c, ts) ensures exists t | t in ts :: TokenNames(c, t, g) {
        if g in Named(c, init) {
          var t :| t in init && TokenNames(c, t, g);
          assert t in ts;
        } else {
          assert last in ts && TokenNames(c, last, g);
        }
      }
    }
  }

  ghost predicate TokenNames(c: Conductor, t: P.Token, g: Group)
    reads c
  {
    t.kind.TypeGroup? && t.value in c.groupsByName && c.groupsByName[t.value] == g
  }

  /** HostList is defined for an expression, because its descents end, if and only if no group that it
      names leads to a cycle of child ids. Cycles elsewhere do not matter. */
  lemma {:induction false} RanksExactly(c: Conductor, ts: seq<P.Token>)
    requires c.Exact() && UniqueKeys(GroupId(), c.data.groups)
    ensures (exists rank :: AllDescend(c, rank, ts)) <==>
            forall t, g | t in ts && TokenNames(c, t, g) :: AcyclicBelow(c.groupsById, g)
  {
    var m, gs := c.groupsById, Named(c, ts);
    NamedAre(c, ts);
    IndexExact(GroupId(), c.data.groups);
    forall g | g in gs ensures g.id in m && m[g.id] == g {
      var t :| t in ts && TokenNames(c, t, g);
      SameGroup(c, t.value);
    }
    RankedExactly(m, gs);
    if forall t, g | t in ts && TokenNames(c, t, g) :: AcyclicBelow(m, g) {
      forall g | g in gs ensures AcyclicBelow(m, g) {
        var t :| t in ts && TokenNames(c, t, g);
      }
      var rank :| Ranked(m, rank) && forall g | g in gs :: Fits(m, rank, g);
      assert AllDescend(c, rank, ts);
    }
    if rank :| AllDescend(c, rank, ts) {
      forall t, g | t in ts && TokenNames(c, t, g) ensures AcyclicBelow(m, g) {
        var i :| 0 <= i < |ts| && ts[i] == t;
        assert Descends(c, rank, ts[i]);
        NoCycleBelow(m, rank, g);
      }
    }
  }

  /** A group token lists every host that passes its filters once for every path of child ids from the
      named group to the host's group, the empty path included, and no host that has no group. */
  lemma {:induction false} GroupTokenCount(c: Conductor, lib: Library, rank: string -> nat, t: P.Token,
                                           hs: seq<string>, h: Host)
    returns (paths: set<seq<nat>>)
    requires c.Exact() && UniqueKeys(GroupId(), c.data.groups) && UniqueKeys(HostFqdn(), c.data.hosts)
    requires t.kind.TypeGroup? && Descends(c, rank, t) && Stands(c, lib, rank, t, hs)
    requires h in c.data.hosts && !Dangling(c.groupsById, h) && t.value in c.groupsByName
    ensures forall p :: p in paths <==>
              h.groupId != "" && Walk(c.groupsById, c.groupsByName[t.value], p) == Some(c.groupsById[h.groupId])
    ensures Count(hs, h.fqdn) == if Passes(lib, t, h) then |paths| else 0
  {
    var g := c.groupsByName[t.value];
    var gs := BelowGroup(c, rank, t.value);
    SameGroup(c, t.value);
    ChildrenInside(c.groupsById, rank, g);
    assert forall x | x in gs :: x in c.groupsById.Values;
    GroupListCount(c, lib, t, gs, h);
    if h.groupId != "" {
      paths := PathSet(c.groupsById, rank, g, c.groupsById[h.groupId]);
    } else {
      paths := {};
    }
  }

  // ---------------------------------------------------------------- workgroups

  lemma {:induction false} GroupsInCount(m: map<string, WorkGroup>, w: WorkGroup, gs: seq<Group>, t: Group)
    ensures Count(GroupsIn(m, w, gs), t) == if t.workGroupId in m && m[t.workGroupId] == w then Count(gs, t) else 0
  {
    if gs != [] {
      var init, last := gs[..|gs| - 1], gs[|gs| - 1];
      GroupsInCount(m, w, init, t);
      CountLast(gs, t);
      if last.workGroupId in m && m[last.workGroupId] == w {
        CountSnoc(GroupsIn(m, w, init), last, t);
      } else {
        assert GroupsIn(m, w, gs) == GroupsIn(m, w, init);
      }
    }
  }

  lemma {:induction false} GroupsInInside(m: map<string, WorkGroup>, w: WorkGroup, gs: seq<Group>)
    ensures forall x | x in GroupsIn(m, w, gs) :: x in gs
  {
    if gs != [] {
      GroupsInInside(m, w, gs[..|gs| - 1]);
      assert gs[|gs| - 1] in gs;
    }
  }

  ghost predicate UniqueWorkGroups(c: Conductor)
    reads c
  {
    UniqueKeys(WgId(), c.data.workgroups) && UniqueKeys(WgName(), c.data.workgroups)
  }

  /** With unique ids and names the two indexes hold the same workgroups. */
  lemma {:induction false} SameWorkGroup(c: Conductor)
    requires c.Exact() && UniqueWorkGroups(c)
    ensures forall k | k in c.workgroupsByName ::
              c.workgroupsByName[k].name == k && c.workgroupsByName[k] in c.workgroupsById.Values
    ensures forall k | k in c.workgroupsById ::
              c.workgroupsById[k].name in c.workgroupsByName && c.workgroupsByName[c.workgroupsById[k].name] == c.workgroupsById[k]
  {
    var ws := c.data.workgroups;
    var id, name := WgId(), WgName();
    IndexExact(id, ws);
    IndexExact(name, ws);
    forall k | k in c.workgroupsByName ensures c.workgroupsByName[k].name == k && c.workgroupsByName[k] in c.workgroupsById.Values {
      var i :| 0 <= i < |ws| && ws[i] == c.workgroupsByName[k];
      assert c.workgroupsById[id(ws[i])] == ws[i] && name(ws[i]) == k;
    }
    forall k | k in c.workgroupsById
      ensures c.workgroupsById[k].name in c.workgroupsByName && c.workgroupsByName[c.workgroupsById[k].name] == c.workgroupsById[k]
    {
      var i :| 0 <= i < |ws| && ws[i] == c.workgroupsById[k];
      assert name(ws[i]) in c.workgroupsByName && c.workgroupsByName[name(ws[i])] == ws[i];
    }
  }

  /** In any order without repetitions, the workgroups list a group once if its own is among them. */
  lemma {:induction false} GroupsAtCount(c: Conductor, order: seq<string>, t: Group)
    requires c.Exact() && UniqueWorkGroups(c) && Count(c.data.groups, t) == 1
    requires AllDifferent(order) && forall k | k in order :: k in c.workgroupsByName
    ensures Count(GroupsAt(c.workgroupsByName, order), t) ==
            if t.workGroupId in c.workgroupsById && c.workgroupsById[t.workGroupId].name in order then 1 else 0
  {
    if order != [] {
      var init, last := order[..|order| - 1], order[|order| - 1];
      GroupsAtCount(c, init, t);
      assert last in order && order == init + [last];
      SameWorkGroup(c);
      var w := c.workgroupsByName[last];
      assert w.groups == GroupsIn(c.workgroupsById, w, c.data.groups);
      GroupsInCount(c.workgroupsById, w, c.data.groups, t);
      CountAppend(GroupsAt(c.workgroupsByName, init), w.groups, t);
    }
  }

  lemma {:induction false} GroupsAtFrom(c: Conductor, order: seq<string>)
    requires c.Exact() && UniqueWorkGroups(c) && forall k | k in order :: k in c.workgroupsByName
    ensures forall x | x in GroupsAt(c.workgroupsByName, order) :: x in c.data.groups
  {
    if order != [] {
      var last := order[|order| - 1];
      GroupsAtFrom(c, order[..|order| - 1]);
      assert last in order;
      SameWorkGroup(c);
      GroupsInInside(c.workgroupsById, c.workgroupsByName[last], c.data.groups);
    }
  }

  /** The raw data put the host into a known workgroup. */
  ghost predicate InWorkGroup(data: Data, h: Host) {
    && h.groupId != ""
    && exists g | g in data.groups :: g.id == h.groupId && exists w | w in data.workgroups :: w.id == g.workGroupId
  }

  /** Unique ids: the groups of the data are the values of the index, each standing once. */
  lemma {:induction false} GroupOnce(c: Conductor)
    requires c.Exact() && UniqueKeys(GroupId(), c.data.groups)
    ensures forall g | g in c.data.groups :: Known(c.groupsById, g) && Count(c.data.groups, g) == 1
    ensures forall k | k in c.groupsById :: c.groupsById[k].id == k && c.groupsById[k] in c.data.groups
  {
    var gs := c.data.groups;
    var id: Group -> string := GroupId();
    IndexExact(id, gs);
    forall i, j | 0 <= i < j < |gs| ensures gs[i] != gs[j] {
      assert id(gs[i]) != id(gs[j]);
    }
    forall g | g in gs ensures Known(c.groupsById, g) && Count(gs, g) == 1 {
      var i :| 0 <= i < |gs| && gs[i] == g;
      assert c.groupsById[id(gs[i])] == gs[i];
      CountOnce(gs, g);
    }
  }

  lemma {:induction false} InWorkGroupByIndex(c: Conductor, h: Host)
    requires c.Exact() && UniqueKeys(GroupId(), c.data.groups) && UniqueWorkGroups(c)
    ensures InWorkGroup(c.data, h) <==>
            && h.groupId != "" && h.groupId in c.groupsById
            && c.groupsById[h.groupId].workGroupId in c.workgroupsById
  {
    var ws := c.data.workgroups;
    var id: WorkGroup -> string := WgId();
    GroupOnce(c);
    IndexExact(id, ws);
    forall w | w in ws ensures w.id in c.workgroupsById {
      var i :| 0 <= i < |ws| && ws[i] == w;
      assert id(ws[i]) in c.workgroupsById;
    }
    forall k | k in c.workgroupsById ensures c.workgroupsById[k] in ws && c.workgroupsById[k].id == k {
      assert id(c.workgroupsById[k]) == k;
    }
  }

  /** `*` lists exactly the hosts that pass its filters and whose group belongs to a known workgroup, each
      once, in whatever order the map of the workgroups is visited. */
  lemma {:induction false} WorkGroupTokenCount(c: Conductor, lib: Library, rank: string -> nat, t: P.Token,
                                               hs: seq<string>, h: Host)
    requires c.Exact() && UniqueKeys(GroupId(), c.data.groups) && UniqueKeys(HostFqdn(), c.data.hosts) && UniqueWorkGroups(c)
    requires Descends(c, rank, t) && t.kind.TypeWorkGroup? && t.value == "" && Stands(c, lib, rank, t, hs)
    requires h in c.data.hosts
    ensures Count(hs, h.fqdn) == if Passes(lib, t, h) && InWorkGroup(c.data, h) then 1 else 0
  {
    var order :| WorkGroupStands(c, lib, t, hs, order);
    var gs := GroupsAt(c.workgroupsByName, order);
    GroupsAtFrom(c, order);
    GroupOnce(c);
    assert forall x | x in gs :: x in c.groupsById.Values;
    GroupListCount(c, lib, t, gs, h);
    InWorkGroupByIndex(c, h);
    if h.groupId != "" && h.groupId in c.groupsById {
      GroupsAtCount(c, order, c.groupsById[h.groupId]);
      SameWorkGroup(c);
    }
  }

  /** The raw data put the host into a workgroup with the given name. */
  ghost predicate InNamedWorkGroup(data: Data, h: Host, name: string) {
    && h.groupId != ""
    && exists g | g in data.groups :: g.id == h.groupId &&
         exists w | w in data.workgroups :: w.id == g.workGroupId && w.name == name
  }

  lemma {:induction false} InNamedByIndex(c: Conductor, h: Host, name: string)
    requires c.Exact() && UniqueKeys(GroupId(), c.data.groups) && UniqueWorkGroups(c)
    ensures InNamedWorkGroup(c.data, h, name) <==>
            && h.groupId != "" && h.groupId in c.groupsById
            && c.groupsById[h.groupId].workGroupId in c.workgroupsById
            && c.workgroupsById[c.groupsById[h.groupId].workGroupId].name == name
  {
    var ws := c.data.workgroups;
    var id: WorkGroup -> string := WgId();
    GroupOnce(c);
    IndexExact(id, ws);
    forall w | w in ws ensures w.id in c.workgroupsById && c.workgroupsById[w.id] == w {
      var i :| 0 <= i < |ws| && ws[i] == w;
      assert c.workgroupsById[id(ws[i])] == ws[i];
    }
    forall k | k in c.workgroupsById ensures c.workgroupsById[k] in ws && c.workgroupsById[k].id == k {
      assert id(c.workgroupsById[k]) == k;
    }
  }

  lemma {:induction false} NamedSelects(c: Conductor, value: string)
    requires c.Exact()
    ensures value in c.workgroupsByName <==> exists w | w in c.data.workgroups :: w.name == value
  {
    var ws := c.data.workgroups;
    var name: WorkGroup -> string := WgName();
    IndexExact(name, ws);
    if w :| w in ws && w.name == value {
      var i :| 0 <= i < |ws| && ws[i] == w;
      assert name(ws[i]) in c.workgroupsByName;
    }
    if value in c.workgroupsByName {
      assert name(c.workgroupsByName[value]) == value && c.workgroupsByName[value] in ws;
    }
  }

  /** The groups of the named workgroup, each once. */
  lemma {:induction false} NamedGroupsCount(c: Conductor, value: string, order: seq<string>, t: Group)
    requires c.Exact() && UniqueWorkGroups(c) && Count(c.data.groups, t) == 1
    requires order == if value in c.workgroupsByName then [value] else []
    ensures Count(GroupsAt(c.workgroupsByName, order), t) ==
            if t.workGroupId in c.workgroupsById && c.workgroupsById[t.workGroupId].name == value then 1 else 0
  {
    GroupsAtCount(c, order, t);
    SameWorkGroup(c);
  }

  /** `*name` lists exactly the hosts that pass its filters and whose group belongs to the workgroup of that
      name, each once. */
  lemma {:induction false} NamedWorkGroupTokenCount(c: Conductor, lib: Library, rank: string -> nat, t: P.Token,
                                                    hs: seq<string>, h: Host)
    requires c.Exact() && UniqueKeys(GroupId(), c.data.groups) && UniqueKeys(HostFqdn(), c.data.hosts) && UniqueWorkGroups(c)
    requires Descends(c, rank, t) && t.kind.TypeWorkGroup? && t.value != "" && Stands(c, lib, rank, t, hs)
    requires h in c.data.hosts
    ensures Count(hs, h.fqdn) == if Passes(lib, t, h) && InNamedWorkGroup(c.data, h, t.value) then 1 else 0
  {
    var order :| WorkGroupStands(c, lib, t, hs, order);
    var gs := GroupsAt(c.workgroupsByName, order);
    assert forall g | g in gs :: g.hosts == HostsIn(c.groupsById, g, c.data.hosts) by {
      GroupsAtFrom(c, order);
      GroupOnce(c);
      assert forall x | x in gs :: x in c.groupsById.Values;
    }
    GroupListCount(c, lib, t, gs, h);
    InNamedByIndex(c, h, t.value);
    if h.groupId != "" && h.groupId in c.groupsById {
      GroupOnce(c);
      NamedGroupsCount(c, t.value, order, c.groupsById[h.groupId]);
    }
  }

  /** A name that no workgroup has lists nothing. */
  lemma {:induction false} UnknownWorkGroup(c: Conductor, lib: Library, rank: string -> nat, t: P.Token,
                                            hs: seq<string>)
    requires c.Exact() && Descends(c, rank, t) && t.kind.TypeWorkGroup? && t.value != "" && Stands(c, lib, rank, t, hs)
    requires forall w | w in c.data.workgroups :: w.name != t.value
    ensures hs == []
  {
    var order :| WorkGroupStands(c, lib, t, hs, order);
    NamedSelects(c, t.value);
    assert order == [];
  }

  // ---------------------------------------------------------------- the other tokens and filters

  /** `~/re/` lists every name of the index that matches, once, whatever the order of the map. */
  lemma {:induction false} RegexpTokenCount(c: Conductor, lib: Library, rank: string -> nat, t: P.Token,
                                            hs: seq<string>, x: string)
    requires Sorts(lib) && Descends(c, rank, t) && t.kind.TypeHostRegexp? && t.regexp.Some? && Stands(c, lib, rank, t, hs)
    ensures Count(hs, x) == if x in c.hostsByFqdn && lib.matches(t.regexp.value, x) then 1 else 0
  {
    var order :| Enumerates(order, c.hostsByFqdn.Keys) && hs == MatchedNames(lib, t.regexp, order);
    SortCount(lib, Matching(lib, t.regexp.value, order), x);
    MatchingCount(lib, t.regexp.value, order, x);
    CountOnce(order, x);
  }

  /** No expression reaches the tag filter of plain hosts: a plain host is its expansion. */
  lemma {:induction false} PlainHostUnfiltered(c: Conductor, lib: Library, rank: string -> nat, expr: string, i: nat,
                                               hs: seq<string>)
    requires var r := P.Parse(lib.valid, expr);
             && r.Ok? && i < |r.value| && r.value[i].kind.TypeHost?
             && Descends(c, rank, r.value[i]) && Stands(c, lib, rank, r.value[i], hs)
    ensures hs == Expansion(lib, P.Parse(lib.valid, expr).value[i].value)
  {
    PS.TokenShape(lib.valid, expr);
    var t := P.Parse(lib.valid, expr).value[i];
    assert PS.ShapeOk(lib.valid, t);
    Unfiltered(c.hostsByFqdn.Keys, t, Expansion(lib, t.value));
  }

  /** The filters over the raw data: the datacenter is looked up by the id in the host record, and a host
      that was decoded without a datacenter passes no datacenter filter. */
  lemma {:induction false} PassesByData(c: Conductor, lib: Library, t: P.Token, h: Host)
    requires c.Exact() && UniqueKeys(DcId(), c.data.datacenters) && h in c.data.hosts
    requires h.datacenterId == "" ==> h.datacenter == null
    ensures Passes(lib, t, h) <==>
            && (t.datacenter != "" ==> h.datacenterId != "" && InDatacenter(c.data, h, t.datacenter))
            && (forall tag | tag in t.tags :: tag in h.allTags)
            && (t.regexp.Some? ==> lib.matches(t.regexp.value, h.fqdn))
  {
    var ds := c.data.datacenters;
    var id: Datacenter -> string := DcId();
    IndexExact(id, ds);
    if t.datacenter != "" && h.datacenterId != "" && InDatacenter(c.data, h, t.datacenter) {
      var d :| d in ds && d.id == h.datacenterId && d.name == t.datacenter;
      var i :| 0 <= i < |ds| && ds[i] == d;
      assert c.datacentersById[id(ds[i])] == ds[i];
    }
  }

  ghost predicate InDatacenter(data: Data, h: Host, name: string) {
    exists d | d in data.datacenters :: d.id == h.datacenterId && d.name == name
  }
}
