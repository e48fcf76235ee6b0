/** The inventory objects and the indexes that `build` derives from them by mutation
    (src/conductor/schema.go:7-45, src/conductor/cache.go, src/conductor/conductor.go:190-228). */
module Inventory {

  class Datacenter {
    const id: string
    const name: string
    const parentId: string
    var parent: Datacenter?

    constructor (id: string, name: string, parentId: string)
      ensures this.id == id && this.name == name && this.parentId == parentId && parent == null
    {
      this.id, this.name, this.parentId, parent := id, name, parentId, null;
    }
  }

  class Host {
    const id: string
    const fqdn: string
    const groupId: string
    const datacenterId: string
    const allTags: seq<string>
    var datacenter: Datacenter?

    constructor (id: string, fqdn: string, groupId: string, datacenterId: string, allTags: seq<string>)
      ensures this.id == id && this.fqdn == fqdn && this.groupId == groupId
      ensures this.datacenterId == datacenterId && this.allTags == allTags && datacenter == null
    {
      this.id, this.fqdn, this.groupId, this.datacenterId := id, fqdn, groupId, datacenterId;
      this.allTags, datacenter := allTags, null;
    }
  }

  class Group {
    const id: string
    const name: string
    const workGroupId: string
    const childIds: seq<string>
    var hosts: seq<Host>

    constructor (id: string, name: string, workGroupId: string, childIds: seq<string>)
      ensures this.id == id && this.name == name && this.workGroupId == workGroupId && this.childIds == childIds
      ensures hosts == []
    {
      this.id, this.name, this.workGroupId, this.childIds, hosts := id, name, workGroupId, childIds, [];
    }
  }

  class WorkGroup {
    const id: string
    const name: string
    var groups: seq<Group>

    constructor (id: string, name: string)
      ensures this.id == id && this.name == name && groups == []
    {
      this.id, this.name, groups := id, name, [];
    }
  }

  /** The decoded inventory. */
  datatype Data = Data(datacenters: seq<Datacenter>, groups: seq<Group>, hosts: seq<Host>, workgroups: seq<WorkGroup>)

  // ---------------------------------------------------------------- what the indexes should be

  /** The map that storing the elements one by one under their keys gives: a later element replaces an
      earlier one with the same key. */
  function Index<T>(key: T -> string, xs: seq<T>): map<string, T> {
    if xs == [] then map[] else Index(key, xs[..|xs| - 1])[key(xs[|xs| - 1]) := xs[|xs| - 1]]
  }

  /** Storing one more element extends what has been stored over an earlier map. */
  lemma {:induction false} IndexPut<T>(before: map<string, T>, key: T -> string, xs: seq<T>, n: nat, k: string)
    requires n < |xs| && k == key(xs[n])
    ensures before + Index(key, xs[..n + 1]) == (before + Index(key, xs[..n]))[k := xs[n]]
  {
    assert xs[..n + 1][..n] == xs[..n];
  }

  lemma {:induction false} IndexAll<T>(before: map<string, T>, key: T -> string, xs: seq<T>)
    ensures before + Index(key, xs[..0]) == before
    ensures xs[..|xs|] == xs
  {
  }

  lemma {:induction false} IndexValues<T>(before: map<string, T>, key: T -> string, xs: seq<T>)
    ensures forall v | v in (before + Index(key, xs)).Values :: v in before.Values || v in xs
  {
    IndexExact(key, xs);
  }

  lemma {:induction false} IndexOnly<T>(key: T -> string, xs: seq<T>)
    ensures forall v | v in Index(key, xs).Values :: v in xs
  {
    IndexExact(key, xs);
  }

  /** Storing over nothing, and storing the same again, give the same map. */
  ghost predicate Over<T>(m: map<string, T>) { map[] + m == m && m + m == m }

  lemma {:induction false} OverItself<T>(m: map<string, T>)
    ensures Over(m)
  {
  }

  ghost predicate UniqueKeys<T>(key: T -> string, xs: seq<T>) {
    forall i, j | 0 <= i < j < |xs| :: key(xs[i]) != key(xs[j])
  }

  /** With unique keys the index holds exactly the elements, each under its key. */
  lemma {:induction false} IndexExact<T>(key: T -> string, xs: seq<T>)
    ensures forall k | k in Index(key, xs) :: key(Index(key, xs)[k]) == k && Index(key, xs)[k] in xs
    ensures forall i | 0 <= i < |xs| :: key(xs[i]) in Index(key, xs)
    ensures UniqueKeys(key, xs) ==> forall i | 0 <= i < |xs| :: Index(key, xs)[key(xs[i])] == xs[i]
  {
    if xs != [] {
      IndexExact(key, xs[..|xs| - 1]);
      assert xs == xs[..|xs| - 1] + [xs[|xs| - 1]];
    }
  }

  /** Under a key stands the last element that has it. */
  lemma {:induction false} IndexLast<T>(key: T -> string, xs: seq<T>, i: nat)
    requires i < |xs| && forall j | i < j < |xs| :: key(xs[j]) != key(xs[i])
    ensures key(xs[i]) in Index(key, xs) && Index(key, xs)[key(xs[i])] == xs[i]
  {
    var init := xs[..|xs| - 1];
    if i < |xs| - 1 {
      assert init[i] == xs[i] && forall j | i < j < |init| :: init[j] == xs[j];
      IndexLast(key, init, i);
    }
  }

  /** What a host adds to the list of a group. */
  ghost function OfGroup(m: map<string, Group>, g: Group, h: Host): seq<Host> {
    if h.groupId != "" && h.groupId in m && m[h.groupId] == g then [h] else []
  }

  /** The hosts whose group id leads to the given group, in the order of the data. */
  ghost function HostsIn(m: map<string, Group>, g: Group, hs: seq<Host>): seq<Host> {
    if hs == [] then []
    else
      var h := hs[|hs| - 1];
      HostsIn(m, g, hs[..|hs| - 1]) + OfGroup(m, g, h)
  }

  lemma {:induction false} HostsInSnoc(m: map<string, Group>, g: Group, hs: seq<Host>, n: nat)
    requires n < |hs|
    ensures HostsIn(m, g, hs[..n + 1]) ==
            HostsIn(m, g, hs[..n]) + OfGroup(m, g, hs[n])
  {
    assert hs[..n + 1][..n] == hs[..n];
  }

  lemma {:induction false} HostsInNext(m: map<string, Group>, hs: seq<Host>, n: nat)
    requires n < |hs|
    ensures forall g | g in m.Values :: (HostsIn(m, g, hs[..n + 1]) ==
            HostsIn(m, g, hs[..n]) + OfGroup(m, g, hs[n]))
  {
    forall g | g in m.Values {
      HostsInSnoc(m, g, hs, n);
    }
  }

  /** What a group adds to the list of a workgroup. */
  ghost function OfWorkGroup(m: map<string, WorkGroup>, w: WorkGroup, g: Group): seq<Group> {
    if g.workGroupId in m && m[g.workGroupId] == w then [g] else []
  }

  /** The groups of a workgroup, in the order of the data. */
  ghost function GroupsIn(m: map<string, WorkGroup>, w: WorkGroup, gs: seq<Group>): seq<Group> {
    if gs == [] then []
    else
      var g := gs[|gs| - 1];
      GroupsIn(m, w, gs[..|gs| - 1]) + OfWorkGroup(m, w, g)
  }

  lemma {:induction false} GroupsInSnoc(m: map<string, WorkGroup>, w: WorkGroup, gs: seq<Group>, n: nat)
    requires n < |gs|
    ensures GroupsIn(m, w, gs[..n + 1]) ==
            GroupsIn(m, w, gs[..n]) + OfWorkGroup(m, w, gs[n])
  {
    assert gs[..n + 1][..n] == gs[..n];
  }

  lemma {:induction false} GroupsInNext(m: map<string, WorkGroup>, gs: seq<Group>, n: nat)
    requires n < |gs|
    ensures forall w | w in m.Values :: (GroupsIn(m, w, gs[..n + 1]) ==
            GroupsIn(m, w, gs[..n]) + OfWorkGroup(m, w, gs[n]))
  {
    forall w | w in m.Values {
      GroupsInSnoc(m, w, gs, n);
    }
  }

  /** A host with a group id that no group has makes `build` follow a nil reference. */
  predicate Dangling(m: map<string, Group>, h: Host) { h.groupId != "" && h.groupId !in m }

  /** Over the raw data: a host names a group that no record has. */
  lemma {:induction false} DanglingExactly(gs: seq<Group>, h: Host)
    ensures Dangling(Index(GroupId(), gs), h) <==> h.groupId != "" && forall g | g in gs :: g.id != h.groupId
  {
    var id := GroupId();
    IndexExact(id, gs);
    if h.groupId in Index(id, gs) {
      assert id(Index(id, gs)[h.groupId]) == h.groupId;
    }
    forall g | g in gs ensures g.id in Index(id, gs) {
      var i :| 0 <= i < |gs| && gs[i] == g;
      assert id(gs[i]) in Index(id, gs);
    }
  }

  function DcId(): Datacenter -> string { (d: Datacenter) => d.id }
  function DcName(): Datacenter -> string { (d: Datacenter) => d.name }
  function GroupId(): Group -> string { (g: Group) => g.id }
  function GroupName(): Group -> string { (g: Group) => g.name }
  function HostId(): Host -> string { (h: Host) => h.id }
  function HostFqdn(): Host -> string { (h: Host) => h.fqdn }
  function WgId(): WorkGroup -> string { (w: WorkGroup) => w.id }
  function WgName(): WorkGroup -> string { (w: WorkGroup) => w.name }

  /** The datacenter object that a host ends up with. */
  function DatacenterOf(m: map<string, Datacenter>, id: string): Datacenter? {
    if id in m then m[id] else null
  }

  // ---------------------------------------------------------------- the store and build

  class Conductor {
    var data: Data
    var datacentersById: map<string, Datacenter>
    var datacentersByName: map<string, Datacenter>
    var groupsById: map<string, Group>
    var groupsByName: map<string, Group>
    var hostsById: map<string, Host>
    var hostsByFqdn: map<string, Host>
    var workgroupsById: map<string, WorkGroup>
    var workgroupsByName: map<string, WorkGroup>

    /** newStore and the decoded data. */
    constructor (data: Data)
      ensures this.data == data && Fresh()
    {
      this.data := data;
      datacentersById, datacentersByName, groupsById, groupsByName := map[], map[], map[], map[];
      hostsById, hostsByFqdn, workgroupsById, workgroupsByName := map[], map[], map[], map[];
    }

    ghost predicate Fresh()
      reads this
    {
      && datacentersById == datacentersByName == map[] && groupsById == groupsByName == map[]
      && hostsById == hostsByFqdn == map[] && workgroupsById == workgroupsByName == map[]
    }

    method StoreDatacenter(d: Datacenter)
      modifies this`datacentersById, this`datacentersByName
      ensures datacentersById == old(datacentersById)[d.id := d]
      ensures datacentersByName == old(datacentersByName)[d.name := d]
    {
      datacentersById := datacentersById[d.id := d];
      datacentersByName := datacentersByName[d.name := d];
    }

    method StoreDatacenters()
      modifies this`datacentersById, this`datacentersByName
      ensures datacentersById == old(datacentersById) + Index(DcId(), data.datacenters)
      ensures datacentersByName == old(datacentersByName) + Index(DcName(), data.datacenters)
    {
      var ds, n := data.datacenters, 0;
      ghost var byId, byName := datacentersById, datacentersByName;
      IndexAll(byId, DcId(), ds);
      IndexAll(byName, DcName(), ds);
      while n < |ds|
        invariant n <= |ds|
        invariant datacentersById == byId + Index(DcId(), ds[..n])
        invariant datacentersByName == byName + Index(DcName(), ds[..n])
      {
        IndexPut(byId, DcId(), ds, n, ds[n].id);
        IndexPut(byName, DcName(), ds, n, ds[n].name);
        StoreDatacenter(ds[n]);
        n := n + 1;
      }
    }

    method LinkDatacenters()
      modifies (set d | d in data.datacenters)`parent
      ensures forall d | d in data.datacenters ::
                d.parent == if d.parentId in datacentersById then datacentersById[d.parentId] else old(d.parent)
    {
      var ds, n := data.datacenters, 0;
      while n < |ds|
        invariant n <= |ds|
        invariant forall d | d in ds :: d.parent ==
                    if d in ds[..n] && d.parentId in datacentersById then datacentersById[d.parentId] else old(d.parent)
      {
        if ds[n].parentId in datacentersById {
          ds[n].parent := datacentersById[ds[n].parentId];
        }
        assert ds[..n + 1] == ds[..n] + [ds[n]];
        n := n + 1;
      }
    }

    method StoreWorkGroup(w: WorkGroup)
      modifies this`workgroupsById, this`workgroupsByName, w`groups
      ensures workgroupsById == old(workgroupsById)[w.id := w]
      ensures workgroupsByName == old(workgroupsByName)[w.name := w]
      ensures w.groups == []
    {
      w.groups := [];
      workgroupsById := workgroupsById[w.id := w];
      workgroupsByName := workgroupsByName[w.name := w];
    }

    method BuildWorkGroups()
      modifies this`workgroupsById, this`workgroupsByName, (set w | w in data.workgroups)`groups
      ensures workgroupsById == old(workgroupsById) + Index(WgId(), data.workgroups)
      ensures workgroupsByName == old(workgroupsByName) + Index(WgName(), data.workgroups)
      ensures forall w | w in data.workgroups :: w.groups == []
    {
      var ws, n := data.workgroups, 0;
      ghost var byId, byName := workgroupsById, workgroupsByName;
      IndexAll(byId, WgId(), ws);
      IndexAll(byName, WgName(), ws);
      while n < |ws|
        invariant n <= |ws|
        invariant workgroupsById == byId + Index(WgId(), ws[..n])
        invariant workgroupsByName == byName + Index(WgName(), ws[..n])
        invariant forall w | w in ws[..n] :: w.groups == []
      {
        IndexPut(byId, WgId(), ws, n, ws[n].id);
        IndexPut(byName, WgName(), ws, n, ws[n].name);
        StoreWorkGroup(ws[n]);
        assert ws[..n + 1] == ws[..n] + [ws[n]];
        n := n + 1;
      }
    }

    method AttachGroup(g: Group)
      modifies workgroupsById.Values`groups
      ensures forall w | w in workgroupsById.Values ::
                w.groups == old(w.groups) + OfWorkGroup(workgroupsById, w, g)
    {
      if g.workGroupId in workgroupsById {
        var wg := workgroupsById[g.workGroupId];
        wg.groups := wg.groups + [g];
      }
    }

    method BuildGroup(g: Group)
      modifies this`groupsById, this`groupsByName, g`hosts, workgroupsById.Values`groups
      ensures groupsById == old(groupsById)[g.id := g] && groupsByName == old(groupsByName)[g.name := g]
      ensures g.hosts == []
      ensures forall w | w in workgroupsById.Values ::
                w.groups == old(w.groups) + OfWorkGroup(workgroupsById, w, g)
    {
      g.hosts := [];
      groupsById := groupsById[g.id := g];
      groupsByName := groupsByName[g.name := g];
      AttachGroup(g);
    }

    /** What the group loop has done when it is about to take group n: `was` holds the group lists of
        the workgroups before the loop. */
    ghost predicate GroupsBuilt(n: nat, byId: map<string, Group>, byName: map<string, Group>, was: map<WorkGroup, seq<Group>>)
      reads this, workgroupsById.Values`groups, (set g | g in data.groups)`hosts
    {
      && n <= |data.groups|
      && groupsById == byId + Index(GroupId(), data.groups[..n])
      && groupsByName == byName + Index(GroupName(), data.groups[..n])
      && (forall i | 0 <= i < n :: data.groups[i].hosts == [])
      && (forall w | w in workgroupsById.Values :: w in was && w.groups == was[w] + GroupsIn(workgroupsById, w, data.groups[..n]))
    }

    /** One round of the group loop. */
    method GroupRound(n: nat, ghost byId: map<string, Group>, ghost byName: map<string, Group>,
                      ghost was: map<WorkGroup, seq<Group>>)
      requires n < |data.groups| && GroupsBuilt(n, byId, byName, was)
      modifies this`groupsById, this`groupsByName, (set g | g in data.groups)`hosts, workgroupsById.Values`groups
      ensures GroupsBuilt(n + 1, byId, byName, was)
    {
      BuildGroup(data.groups[n]);
      IndexPut(byId, GroupId(), data.groups, n, data.groups[n].id);
      IndexPut(byName, GroupName(), data.groups, n, data.groups[n].name);
      GroupsInNext(workgroupsById, data.groups, n);
    }

    /** The group loop. */
    method BuildGroups()
      modifies this`groupsById, this`groupsByName, (set g | g in data.groups)`hosts, workgroupsById.Values`groups
      ensures groupsById == old(groupsById) + Index(GroupId(), data.groups)
      ensures groupsByName == old(groupsByName) + Index(GroupName(), data.groups)
      ensures forall g | g in data.groups :: g.hosts == []
      ensures forall w | w in workgroupsById.Values :: w.groups == old(w.groups) + GroupsIn(workgroupsById, w, data.groups)
    {
      ghost var byId, byName, was := groupsById, groupsByName, map w | w in workgroupsById.Values :: w.groups;
      var n := 0;
      while n < |data.groups|
        invariant n <= |data.groups| && GroupsBuilt(n, byId, byName, was)
      {
        GroupRound(n, byId, byName, was);
        n := n + 1;
      }
      assert data.groups[..n] == data.groups;
    }

    method AttachHost(h: Host) returns (panicked: bool)
      modifies groupsById.Values`hosts
      ensures panicked == Dangling(groupsById, h)
      ensures forall g | g in groupsById.Values ::
                g.hosts == old(g.hosts) + OfGroup(groupsById, g, h)
    {
      panicked := false;
      if h.groupId != "" {
        if h.groupId in groupsById {
          var group := groupsById[h.groupId];
          group.hosts := group.hosts + [h];
        } else {
          panicked := true;
        }
      }
    }

    method BuildHost(h: Host) returns (panicked: bool)
      modifies this`hostsById, this`hostsByFqdn, groupsById.Values`hosts, h`datacenter
      ensures hostsById == old(hostsById)[h.id := h] && hostsByFqdn == old(hostsByFqdn)[h.fqdn := h]
      ensures panicked == Dangling(groupsById, h)
      ensures forall g | g in groupsById.Values ::
                g.hosts == old(g.hosts) + OfGroup(groupsById, g, h)
      ensures h.datacenter ==
              if !panicked && h.datacenterId != "" then DatacenterOf(datacentersById, h.datacenterId) else old(h.datacenter)
    {
      hostsById := hostsById[h.id := h];
      hostsByFqdn := hostsByFqdn[h.fqdn := h];
      panicked := AttachHost(h);
      if !panicked && h.datacenterId != "" {
        h.datacenter := DatacenterOf(datacentersById, h.datacenterId);
      }
    }

    /** What the host loop has done when it is about to take host n: `was` holds the host lists of the
        groups before the loop. */
    ghost predicate HostsBuilt(n: nat, byId: map<string, Host>, byFqdn: map<string, Host>, was: map<Group, seq<Host>>)
      reads this, groupsById.Values`hosts, (set h | h in data.hosts)`datacenter
    {
      && n <= |data.hosts|
      && hostsById == byId + Index(HostId(), data.hosts[..n])
      && hostsByFqdn == byFqdn + Index(HostFqdn(), data.hosts[..n])
      && (forall g | g in groupsById.Values :: g in was && g.hosts == was[g] + HostsIn(groupsById, g, data.hosts[..n]))
      && (forall i | 0 <= i < n && data.hosts[i].datacenterId != "" ::
            data.hosts[i].datacenter == DatacenterOf(datacentersById, data.hosts[i].datacenterId))
    }

    lemma {:induction false} HostMapsNext(n: nat, byId: map<string, Host>, byFqdn: map<string, Host>)
      requires n < |data.hosts|
      ensures var h := data.hosts[n];
              && byId + Index(HostId(), data.hosts[..n + 1]) == (byId + Index(HostId(), data.hosts[..n]))[h.id := h]
              && byFqdn + Index(HostFqdn(), data.hosts[..n + 1]) == (byFqdn + Index(HostFqdn(), data.hosts[..n]))[h.fqdn := h]
    {
      IndexPut(byId, HostId(), data.hosts, n, data.hosts[n].id);
      IndexPut(byFqdn, HostFqdn(), data.hosts, n, data.hosts[n].fqdn);
    }

    /** One round of the host loop. */
    method HostRound(n: nat, ghost byId: map<string, Host>, ghost byFqdn: map<string, Host>, ghost was: map<Group, seq<Host>>)
      returns (panicked: bool)
      requires n < |data.hosts| && HostsBuilt(n, byId, byFqdn, was)
      modifies this`hostsById, this`hostsByFqdn, groupsById.Values`hosts, (set h | h in data.hosts)`datacenter
      ensures panicked == Dangling(groupsById, data.hosts[n])
      ensures !panicked ==> HostsBuilt(n + 1, byId, byFqdn, was)
    {
      hide Index, HostsIn;
      panicked := BuildHost(data.hosts[n]);
      if !panicked {
        HostMapsNext(n, byId, byFqdn);
        HostsInNext(groupsById, data.hosts, n);
      }
    }

    /** The host loop, up to the first nil reference. */
    method BuildHosts() returns (panicked: bool)
      modifies this`hostsById, this`hostsByFqdn, groupsById.Values`hosts, (set h | h in data.hosts)`datacenter
      ensures panicked <==> exists i :: 0 <= i < |data.hosts| && Dangling(groupsById, data.hosts[i])
      ensures !panicked ==> hostsById == old(hostsById) + Index(HostId(), data.hosts)
      ensures !panicked ==> hostsByFqdn == old(hostsByFqdn) + Index(HostFqdn(), data.hosts)
      ensures !panicked ==> forall g | g in groupsById.Values :: g.hosts == old(g.hosts) + HostsIn(groupsById, g, data.hosts)
      ensures !panicked ==> forall h | h in data.hosts && h.datacenterId != "" ::
                h.datacenter == DatacenterOf(datacentersById, h.datacenterId)
    {
      ghost var byId, byFqdn, was := hostsById, hostsByFqdn, map g | g in groupsById.Values :: g.hosts;
      var n := 0;
      panicked := false;
      while n < |data.hosts|
        invariant n <= |data.hosts| && HostsBuilt(n, byId, byFqdn, was)
        invariant forall i | 0 <= i < n :: !Dangling(groupsById, data.hosts[i])
      {
        panicked := HostRound(n, byId, byFqdn, was);
        if panicked {
          return;
        }
        n := n + 1;
      }
      assert data.hosts[..n] == data.hosts;
    }

    /** The first two loops of build. */
    method BuildDatacenters()
      modifies this`datacentersById, this`datacentersByName, (set d | d in data.datacenters)`parent
      ensures datacentersById == old(datacentersById) + Index(DcId(), data.datacenters)
      ensures datacentersByName == old(datacentersByName) + Index(DcName(), data.datacenters)
      ensures forall d | d in data.datacenters ::
                d.parent == if d.parentId in datacentersById then datacentersById[d.parentId] else old(d.parent)
    {
      StoreDatacenters();
      LinkDatacenters();
    }

    /** The next two. */
    method BuildWorkGroupsAndGroups()
      modifies this`workgroupsById, this`workgroupsByName, this`groupsById, this`groupsByName
      modifies (set w | w in data.workgroups)`groups, workgroupsById.Values`groups, (set g | g in data.groups)`hosts
      ensures workgroupsById == old(workgroupsById) + Index(WgId(), data.workgroups)
      ensures workgroupsByName == old(workgroupsByName) + Index(WgName(), data.workgroups)
      ensures groupsById == old(groupsById) + Index(GroupId(), data.groups)
      ensures groupsByName == old(groupsByName) + Index(GroupName(), data.groups)
      ensures forall w | w in data.workgroups && w in workgroupsById.Values ::
                w.groups == GroupsIn(workgroupsById, w, data.groups)
      ensures forall g | g in data.groups :: g.hosts == []
    {
      BuildWorkGroups();
      IndexValues(old(workgroupsById), WgId(), data.workgroups);
      BuildGroups();
    }

    /** The loops of build over datacenters, workgroups and groups. */
    method BuildAboveHosts()
      modifies this`datacentersById, this`datacentersByName, this`workgroupsById, this`workgroupsByName
      modifies this`groupsById, this`groupsByName, (set d | d in data.datacenters)`parent
      modifies (set w | w in data.workgroups)`groups, workgroupsById.Values`groups, (set g | g in data.groups)`hosts
      ensures datacentersById == old(datacentersById) + Index(DcId(), data.datacenters)
      ensures datacentersByName == old(datacentersByName) + Index(DcName(), data.datacenters)
      ensures forall d | d in data.datacenters ::
                d.parent == if d.parentId in datacentersById then datacentersById[d.parentId] else old(d.parent)
      ensures workgroupsById == old(workgroupsById) + Index(WgId(), data.workgroups)
      ensures workgroupsByName == old(workgroupsByName) + Index(WgName(), data.workgroups)
      ensures groupsById == old(groupsById) + Index(GroupId(), data.groups)
      ensures groupsByName == old(groupsByName) + Index(GroupName(), data.groups)
      ensures forall w | w in data.workgroups && w in workgroupsById.Values ::
                w.groups == GroupsIn(workgroupsById, w, data.groups)
      ensures forall g | g in data.groups :: g.hosts == []
    {
      BuildDatacenters();
      BuildWorkGroupsAndGroups();
    }

    /** build. Entries of an earlier load stay in the maps unless their key is taken again, and a nil
        reference is followed exactly when some host names a group that is nowhere in the map. */
    method Build() returns (panicked: bool)
      modifies this`datacentersById, this`datacentersByName, this`workgroupsById, this`workgroupsByName
      modifies this`groupsById, this`groupsByName, this`hostsById, this`hostsByFqdn
      modifies (set d | d in data.datacenters)`parent, (set w | w in data.workgroups)`groups, workgroupsById.Values`groups
      modifies (set g | g in data.groups)`hosts, groupsById.Values`hosts, (set h | h in data.hosts)`datacenter
      ensures datacentersById == old(datacentersById) + Index(DcId(), data.datacenters)
      ensures datacentersByName == old(datacentersByName) + Index(DcName(), data.datacenters)
      ensures forall d | d in data.datacenters ::
                d.parent == if d.parentId in datacentersById then datacentersById[d.parentId] else old(d.parent)
      ensures workgroupsById == old(workgroupsById) + Index(WgId(), data.workgroups)
      ensures workgroupsByName == old(workgroupsByName) + Index(WgName(), data.workgroups)
      ensures groupsById == old(groupsById) + Index(GroupId(), data.groups)
      ensures groupsByName == old(groupsByName) + Index(GroupName(), data.groups)
      ensures forall w | w in data.workgroups && w in workgroupsById.Values ::
                w.groups == GroupsIn(workgroupsById, w, data.groups)
      ensures panicked <==> exists i :: 0 <= i < |data.hosts| && Dangling(groupsById, data.hosts[i])
      ensures !panicked ==> hostsById == old(hostsById) + Index(HostId(), data.hosts)
      ensures !panicked ==> hostsByFqdn == old(hostsByFqdn) + Index(HostFqdn(), data.hosts)
      ensures !panicked ==> forall g | g in data.groups && g in groupsById.Values ::
                g.hosts == HostsIn(groupsById, g, data.hosts)
      ensures !panicked ==> forall h | h in data.hosts && h.datacenterId != "" ::
                h.datacenter == DatacenterOf(datacentersById, h.datacenterId)
    {
      BuildAboveHosts();
      IndexValues(old(groupsById), GroupId(), data.groups);
      panicked := BuildHosts();
    }

    /** The indexes say exactly what the raw data says. */
    ghost predicate Exact()
      reads this, groupsById.Values`hosts, workgroupsById.Values`groups, (set h | h in data.hosts)`datacenter
    {
      && datacentersById == Index(DcId(), data.datacenters) && datacentersByName == Index(DcName(), data.datacenters)
      && workgroupsById == Index(WgId(), data.workgroups) && workgroupsByName == Index(WgName(), data.workgroups)
      && groupsById == Index(GroupId(), data.groups) && groupsByName == Index(GroupName(), data.groups)
      && hostsById == Index(HostId(), data.hosts) && hostsByFqdn == Index(HostFqdn(), data.hosts)
      && (forall g | g in groupsById.Values :: g.hosts == HostsIn(groupsById, g, data.hosts))
      && (forall w | w in workgroupsById.Values :: w.groups == GroupsIn(workgroupsById, w, data.groups))
      && (forall h | h in data.hosts && h.datacenterId != "" :: h.datacenter == DatacenterOf(datacentersById, h.datacenterId))
    }

    lemma {:induction false} IndexesOver()
      ensures Over(Index(DcId(), data.datacenters))
      ensures Over(Index(DcName(), data.datacenters))
      ensures Over(Index(WgId(), data.workgroups))
      ensures Over(Index(WgName(), data.workgroups))
      ensures Over(Index(GroupId(), data.groups))
      ensures Over(Index(GroupName(), data.groups))
      ensures Over(Index(HostId(), data.hosts))
      ensures Over(Index(HostFqdn(), data.hosts))
    {
      OverItself(Index(DcId(), data.datacenters));
      OverItself(Index(DcName(), data.datacenters));
      OverItself(Index(WgId(), data.workgroups));
      OverItself(Index(WgName(), data.workgroups));
      OverItself(Index(GroupId(), data.groups));
      OverItself(Index(GroupName(), data.groups));
      OverItself(Index(HostId(), data.hosts));
      OverItself(Index(HostFqdn(), data.hosts));
    }

    /** Over a fresh store, build makes the indexes agree with the raw data, or follows a nil reference
        when some host names a group that is not in the data. */
    method BuildFresh() returns (panicked: bool)
      requires Fresh()
      modifies this`datacentersById, this`datacentersByName, this`workgroupsById, this`workgroupsByName
      modifies this`groupsById, this`groupsByName, this`hostsById, this`hostsByFqdn
      modifies (set d | d in data.datacenters)`parent, (set w | w in data.workgroups)`groups
      modifies (set g | g in data.groups)`hosts, (set h | h in data.hosts)`datacenter
      ensures panicked <==> exists i :: 0 <= i < |data.hosts| && Dangling(Index(GroupId(), data.groups), data.hosts[i])
      ensures !panicked ==> Exact()
    {
      IndexOnly(GroupId(), data.groups);
      IndexOnly(WgId(), data.workgroups);
      IndexesOver();
      panicked := Build();
    }

    /** Over indexes that agree with the data, running build again changes nothing: neither a map nor
        the host list of a group nor the group list of a workgroup. */
    method Rebuild() returns (panicked: bool)
      requires Exact()
      requires forall i | 0 <= i < |data.hosts| :: !Dangling(groupsById, data.hosts[i])
      modifies this`datacentersById, this`datacentersByName, this`workgroupsById, this`workgroupsByName
      modifies this`groupsById, this`groupsByName, this`hostsById, this`hostsByFqdn
      modifies (set d | d in data.datacenters)`parent, (set w | w in data.workgroups)`groups
      modifies (set g | g in data.groups)`hosts, (set h | h in data.hosts)`datacenter
      ensures !panicked && Exact()
      ensures groupsById == old(groupsById) && groupsByName == old(groupsByName)
      ensures hostsById == old(hostsById) && hostsByFqdn == old(hostsByFqdn)
      ensures workgroupsById == old(workgroupsById) && workgroupsByName == old(workgroupsByName)
      ensures datacentersById == old(datacentersById) && datacentersByName == old(datacentersByName)
      ensures forall g | g in groupsById.Values :: g.hosts == old(g.hosts)
      ensures forall w | w in workgroupsById.Values :: w.groups == old(w.groups)
    {
      IndexOnly(GroupId(), data.groups);
      IndexOnly(WgId(), data.workgroups);
      IndexesOver();
      panicked := Build();
    }
  }
}
