/** The descent into child groups (src/conductor/schema.go:57-82): over an index without cycles it ends,
    and it lists a group once for every path of child ids that leads to it. */
module Groups {
  import opened Basics
  import opened Inventory

  /** The groups found under a list of child ids; unknown ids are skipped. */
  ghost function Direct(m: map<string, Group>, ids: seq<string>): seq<Group> {
    if ids == [] then []
    else Direct(m, ids[..|ids| - 1]) + if ids[|ids| - 1] in m then [m[ids[|ids| - 1]]] else []
  }

  lemma {:induction false} DirectSnoc(m: map<string, Group>, ids: seq<string>, n: nat)
    requires n < |ids|
    ensures Direct(m, ids[..n + 1]) == Direct(m, ids[..n]) + if ids[n] in m then [m[ids[n]]] else []
  {
    assert ids[..n + 1][..n] == ids[..n];
  }

  /** A group has a rank above 0, and its child ids lead to groups of smaller rank. Rank 0 is for groups
      that nobody will descend into. */
  ghost predicate Fits(m: map<string, Group>, rank: string -> nat, g: Group) {
    rank(g.id) > 0 && forall c | c in g.childIds && c in m :: 0 < rank(c) < rank(g.id)
  }

  /** Every group stands under its own id, and the ranks fall along the child ids. */
  ghost predicate Ranked(m: map<string, Group>, rank: string -> nat) {
    forall k | k in m :: m[k].id == k && (rank(k) > 0 ==> Fits(m, rank, m[k]))
  }

  ghost predicate Below(m: map<string, Group>, rank: string -> nat, cs: seq<Group>, r: nat) {
    forall i | 0 <= i < |cs| :: Fits(m, rank, cs[i]) && rank(cs[i].id) < r
  }

  lemma {:induction false} DirectBelow(m: map<string, Group>, rank: string -> nat, g: Group, n: nat)
    requires Ranked(m, rank) && Fits(m, rank, g) && n <= |g.childIds|
    ensures Below(m, rank, Direct(m, g.childIds[..n]), rank(g.id))
  {
    if n > 0 {
      DirectBelow(m, rank, g, n - 1);
      DirectSnoc(m, g.childIds, n - 1);
    }
  }

  ghost function Kids(m: map<string, Group>, rank: string -> nat, g: Group): (cs: seq<Group>)
    requires Ranked(m, rank) && Fits(m, rank, g)
    ensures Below(m, rank, cs, rank(g.id))
  {
    DirectBelow(m, rank, g, |g.childIds|);
    assert g.childIds[..|g.childIds|] == g.childIds;
    Direct(m, g.childIds)
  }

  /** What Children returns: the direct children, then what each of them returns. */
  ghost function ChildrenOf(m: map<string, Group>, rank: string -> nat, g: Group): seq<Group>
    requires Ranked(m, rank) && Fits(m, rank, g)
    decreases rank(g.id) + 1, 0
  {
    Kids(m, rank, g) + LowerOf(m, rank, Kids(m, rank, g), rank(g.id))
  }

  ghost function LowerOf(m: map<string, Group>, rank: string -> nat, cs: seq<Group>, r: nat): seq<Group>
    requires Ranked(m, rank) && Below(m, rank, cs, r)
    decreases r, |cs|
  {
    if cs == [] then [] else LowerOf(m, rank, cs[..|cs| - 1], r) + ChildrenOf(m, rank, cs[|cs| - 1])
  }

  lemma {:induction false} DirectAt(m: map<string, Group>, ids: seq<string>, i: nat)
    requires i < |ids| && forall k | k in ids :: k in m
    ensures |Direct(m, ids)| == |ids| && Direct(m, ids)[i] == m[ids[i]]
  {
    var init := ids[..|ids| - 1];
    assert ids[|ids| - 1] in ids;
    if init != [] {
      assert forall k | k in init :: k in ids;
      DirectAt(m, init, if i < |init| then i else 0);
    }
  }

  /** The direct children come first, in the order of the record. */
  lemma {:induction false} ChildrenFirst(m: map<string, Group>, rank: string -> nat, g: Group, i: nat)
    requires Ranked(m, rank) && Fits(m, rank, g) && i < |g.childIds| && forall k | k in g.childIds :: k in m
    ensures i < |ChildrenOf(m, rank, g)| && ChildrenOf(m, rank, g)[i] == m[g.childIds[i]]
  {
    DirectAt(m, g.childIds, i);
  }

  lemma {:induction false} LowerSnoc(m: map<string, Group>, rank: string -> nat, cs: seq<Group>, r: nat, n: nat)
    requires Ranked(m, rank) && Below(m, rank, cs, r) && n < |cs|
    ensures LowerOf(m, rank, cs[..n + 1], r) == LowerOf(m, rank, cs[..n], r) + ChildrenOf(m, rank, cs[n])
  {
    assert cs[..n + 1][..n] == cs[..n];
  }

  method Children(m: map<string, Group>, ghost rank: string -> nat, g: Group) returns (children: seq<Group>)
    requires Ranked(m, rank) && Fits(m, rank, g)
    ensures children == ChildrenOf(m, rank, g)
    decreases rank(g.id)
  {
    children := [];
    if |g.childIds| > 0 {
      var i := 0;
      while i < |g.childIds|
        invariant i <= |g.childIds| && children == Direct(m, g.childIds[..i])
      {
        DirectSnoc(m, g.childIds, i);
        if g.childIds[i] in m {
          children := children + [m[g.childIds[i]]];
        }
        i := i + 1;
      }
      assert g.childIds[..i] == g.childIds;
      ghost var kids := Kids(m, rank, g);
      assert children == kids;
      var lower: seq<Group> := [];
      var j := 0;
      while j < |children|
        invariant j <= |children| && lower == LowerOf(m, rank, kids[..j], rank(g.id))
      {
        LowerSnoc(m, rank, kids, rank(g.id), j);
        var deeper := Children(m, rank, children[j]);
        lower := lower + deeper;
        j := j + 1;
      }
      assert kids[..j] == kids;
      children := children + lower;
    }
  }

  /** The host lists of a list of groups. */
  ghost function HostsAt(gs: seq<Group>): seq<Host>
    reads gs
  {
    if gs == [] then [] else HostsAt(gs[..|gs| - 1]) + gs[|gs| - 1].hosts
  }

  method AllHosts(m: map<string, Group>, ghost rank: string -> nat, g: Group) returns (hosts: seq<Host>)
    requires Ranked(m, rank) && Fits(m, rank, g)
    ensures hosts == HostsAt(ChildrenOf(m, rank, g) + [g])
  {
    var allGroups := Children(m, rank, g);
    allGroups := allGroups + [g];
    hosts := [];
    var i := 0;
    while i < |allGroups|
      invariant i <= |allGroups| && hosts == HostsAt(allGroups[..i])
    {
      assert allGroups[..i + 1][..i] == allGroups[..i];
      hosts := hosts + allGroups[i].hosts;
      i := i + 1;
    }
    assert allGroups[..i] == allGroups;
  }

  // ---------------------------------------------------------------- paths

  /** A path takes, at every group, one of the child ids that are found. */
  ghost function Walk(m: map<string, Group>, g: Group, p: seq<nat>): Option<Group>
    decreases |p|
  {
    if p == [] then Some(g)
    else
      var cs := Direct(m, g.childIds);
      if p[0] < |cs| then Walk(m, cs[p[0]], p[1..]) else None
  }

  ghost function Under(i: nat, ps: seq<seq<nat>>): (qs: seq<seq<nat>>)
    ensures |qs| == |ps| && forall k | 0 <= k < |ps| :: qs[k] == [i] + ps[k]
  {
    seq(|ps|, k requires 0 <= k < |ps| => [i] + ps[k])
  }

  ghost function Singles(n: nat): (qs: seq<seq<nat>>)
    ensures |qs| == n && forall k | 0 <= k < n :: qs[k] == [k]
  {
    seq(n, k => [k])
  }

  /** The non-empty paths from a group, in the order in which Children lists where they lead. */
  ghost function PathsOf(m: map<string, Group>, rank: string -> nat, g: Group): seq<seq<nat>>
    requires Ranked(m, rank) && Fits(m, rank, g)
    decreases rank(g.id) + 1, 0
  {
    Singles(|Kids(m, rank, g)|) + LowerPaths(m, rank, Kids(m, rank, g), rank(g.id))
  }

  ghost function LowerPaths(m: map<string, Group>, rank: string -> nat, cs: seq<Group>, r: nat): seq<seq<nat>>
    requires Ranked(m, rank) && Below(m, rank, cs, r)
    decreases r, |cs|
  {
    if cs == [] then []
    else LowerPaths(m, rank, cs[..|cs| - 1], r) + Under(|cs| - 1, PathsOf(m, rank, cs[|cs| - 1]))
  }

  /** Walking a path below one of the listed children. */
  ghost function WalkAmong(m: map<string, Group>, cs: seq<Group>, p: seq<nat>): Option<Group> {
    if p != [] && p[0] < |cs| then Walk(m, cs[p[0]], p[1..]) else None
  }

  /** The k-th group is where the k-th path from `g` leads; no path is empty, missing or repeated. */
  ghost predicate Matched(m: map<string, Group>, g: Group, ps: seq<seq<nat>>, gs: seq<Group>) {
    && |ps| == |gs| && AllDifferent(ps)
    && (forall k | 0 <= k < |ps| :: ps[k] != [] && Walk(m, g, ps[k]) == Some(gs[k]))
    && forall p | p != [] && Walk(m, g, p).Some? :: p in ps
  }

  /** The same for the paths of two steps or more that start in one of `cs`. */
  ghost predicate LowerMatched(m: map<string, Group>, cs: seq<Group>, ps: seq<seq<nat>>, gs: seq<Group>) {
    && |ps| == |gs| && AllDifferent(ps)
    && (forall k | 0 <= k < |ps| :: |ps[k]| >= 2 && WalkAmong(m, cs, ps[k]) == Some(gs[k]))
    && forall p | |p| >= 2 && WalkAmong(m, cs, p).Some? :: p in ps
  }

  lemma {:induction false} UnderDifferent(below: seq<seq<nat>>, n: nat, here: seq<seq<nat>>)
    requires AllDifferent(below) && AllDifferent(here)
    requires forall k | 0 <= k < |below| :: below[k] != [] && below[k][0] < n
    ensures AllDifferent(below + Under(n, here))
  {
    var all := below + Under(n, here);
    forall i, j | 0 <= i < j < |all| ensures all[i] != all[j] {
      if j >= |below| {
        assert all[j][0] == n && all[j][1..] == here[j - |below|];
        if i >= |below| {
          assert all[i][1..] == here[i - |below|];
        }
      }
    }
  }

  lemma {:induction false} WalkAmongMore(m: map<string, Group>, cs: seq<Group>, c: Group, p: seq<nat>)
    requires p != []
    ensures WalkAmong(m, cs, p).Some? ==> p[0] < |cs| && WalkAmong(m, cs + [c], p) == WalkAmong(m, cs, p)
    ensures p[0] == |cs| ==> WalkAmong(m, cs + [c], p) == Walk(m, c, p[1..])
    ensures p[0] < |cs| ==> WalkAmong(m, cs + [c], p) == WalkAmong(m, cs, p)
    ensures p[0] > |cs| ==> WalkAmong(m, cs + [c], p) == None
  {
  }

  lemma {:induction false} AddChildWalks(m: map<string, Group>, cs: seq<Group>, below: seq<seq<nat>>,
                                         lower: seq<Group>, c: Group, here: seq<seq<nat>>, gs: seq<Group>, k: nat)
    requires LowerMatched(m, cs, below, lower) && Matched(m, c, here, gs) && k < |below| + |here|
    ensures var p := (below + Under(|cs|, here))[k]; |p| >= 2 && WalkAmong(m, cs + [c], p) == Some((lower + gs)[k])
  {
    var p := (below + Under(|cs|, here))[k];
    if k < |below| {
      assert p == below[k];
    } else {
      assert p == [|cs|] + here[k - |below|] && p[1..] == here[k - |below|];
    }
    WalkAmongMore(m, cs, c, p);
  }

  lemma {:induction false} AddChildDifferent(m: map<string, Group>, cs: seq<Group>, below: seq<seq<nat>>,
                                             lower: seq<Group>, here: seq<seq<nat>>)
    requires LowerMatched(m, cs, below, lower) && AllDifferent(here)
    ensures AllDifferent(below + Under(|cs|, here))
  {
    forall k | 0 <= k < |below| ensures below[k] != [] && below[k][0] < |cs| {
      assert WalkAmong(m, cs, below[k]).Some?;
    }
    UnderDifferent(below, |cs|, here);
  }

  lemma {:induction false} UnderHas(below: seq<seq<nat>>, n: nat, here: seq<seq<nat>>, p: seq<nat>)
    requires p != [] && p[0] == n && p[1..] in here
    ensures p in below + Under(n, here)
  {
    var k :| 0 <= k < |here| && here[k] == p[1..];
    assert (below + Under(n, here))[|below| + k] == [n] + here[k] == p;
  }

  lemma {:induction false} AddChildComplete(m: map<string, Group>, cs: seq<Group>, below: seq<seq<nat>>,
                                            lower: seq<Group>, c: Group, here: seq<seq<nat>>, gs: seq<Group>,
                                            p: seq<nat>)
    requires LowerMatched(m, cs, below, lower) && Matched(m, c, here, gs)
    requires |p| >= 2 && WalkAmong(m, cs + [c], p).Some?
    ensures p in below + Under(|cs|, here)
  {
    WalkAmongMore(m, cs, c, p);
    if p[0] == |cs| {
      UnderHas(below, |cs|, here, p);
    } else {
      assert p in below;
    }
  }

  lemma {:induction false} AddChild(m: map<string, Group>, cs: seq<Group>, below: seq<seq<nat>>, lower: seq<Group>,
                                    c: Group, here: seq<seq<nat>>, gs: seq<Group>)
    requires LowerMatched(m, cs, below, lower) && Matched(m, c, here, gs)
    ensures LowerMatched(m, cs + [c], below + Under(|cs|, here), lower + gs)
  {
    AddChildDifferent(m, cs, below, lower, here);
    forall k | 0 <= k < |below + Under(|cs|, here)|
      ensures var p := (below + Under(|cs|, here))[k]; |p| >= 2 && WalkAmong(m, cs + [c], p) == Some((lower + gs)[k])
    {
      AddChildWalks(m, cs, below, lower, c, here, gs, k);
    }
    forall p | |p| >= 2 && WalkAmong(m, cs + [c], p).Some? ensures p in below + Under(|cs|, here) {
      AddChildComplete(m, cs, below, lower, c, here, gs, p);
    }
  }

  lemma {:induction false} AddSingles(m: map<string, Group>, g: Group, lower: seq<seq<nat>>, gs: seq<Group>)
    requires LowerMatched(m, Direct(m, g.childIds), lower, gs)
    ensures Matched(m, g, Singles(|Direct(m, g.childIds)|) + lower, Direct(m, g.childIds) + gs)
  {
    var cs := Direct(m, g.childIds);
    var all := Singles(|cs|) + lower;
    forall k | 0 <= k < |all| ensures all[k] != [] && Walk(m, g, all[k]) == Some((cs + gs)[k]) {
      if k < |cs| {
        assert all[k] == [k] && all[k][1..] == [];
      } else {
        assert WalkAmong(m, cs, lower[k - |cs|]).Some?;
      }
    }
    forall p | p != [] && Walk(m, g, p).Some? ensures p in all {
      if |p| == 1 {
        assert p == [p[0]] && all[p[0]] == p;
      } else {
        assert WalkAmong(m, cs, p).Some?;
      }
    }
  }

  /** Children lists one entry for every non-empty path. */
  lemma {:induction false} PathsMatch(m: map<string, Group>, rank: string -> nat, g: Group)
    requires Ranked(m, rank) && Fits(m, rank, g)
    ensures Matched(m, g, PathsOf(m, rank, g), ChildrenOf(m, rank, g))
    decreases rank(g.id) + 1, 0
  {
    var kids := Kids(m, rank, g);
    LowerMatch(m, rank, kids, rank(g.id));
    AddSingles(m, g, LowerPaths(m, rank, kids, rank(g.id)), LowerOf(m, rank, kids, rank(g.id)));
  }

  lemma {:induction false} LowerUnfold(m: map<string, Group>, rank: string -> nat, init: seq<Group>, c: Group, r: nat)
    requires Ranked(m, rank) && Below(m, rank, init, r) && Fits(m, rank, c) && Below(m, rank, init + [c], r)
    ensures LowerPaths(m, rank, init + [c], r) == LowerPaths(m, rank, init, r) + Under(|init|, PathsOf(m, rank, c))
    ensures LowerOf(m, rank, init + [c], r) == LowerOf(m, rank, init, r) + ChildrenOf(m, rank, c)
  {
    assert (init + [c])[..|init|] == init;
  }

  lemma {:induction false} LowerNext(m: map<string, Group>, rank: string -> nat, init: seq<Group>, c: Group, r: nat)
    requires Ranked(m, rank) && Below(m, rank, init, r) && Fits(m, rank, c) && Below(m, rank, init + [c], r)
    requires LowerMatched(m, init, LowerPaths(m, rank, init, r), LowerOf(m, rank, init, r))
    requires Matched(m, c, PathsOf(m, rank, c), ChildrenOf(m, rank, c))
    ensures LowerMatched(m, init + [c], LowerPaths(m, rank, init + [c], r), LowerOf(m, rank, init + [c], r))
  {
    LowerUnfold(m, rank, init, c, r);
    AddChild(m, init, LowerPaths(m, rank, init, r), LowerOf(m, rank, init, r), c, PathsOf(m, rank, c), ChildrenOf(m, rank, c));
  }

  lemma {:induction false} LowerMatch(m: map<string, Group>, rank: string -> nat, cs: seq<Group>, r: nat)
    requires Ranked(m, rank) && Below(m, rank, cs, r)
    ensures LowerMatched(m, cs, LowerPaths(m, rank, cs, r), LowerOf(m, rank, cs, r))
    decreases r, |cs|
  {
    if cs == [] {
    } else {
      var init, c := cs[..|cs| - 1], cs[|cs| - 1];
      assert cs == init + [c];
      LowerMatch(m, rank, init, r);
      PathsMatch(m, rank, c);
      LowerNext(m, rank, init, c, r);
    }
  }

  // ---------------------------------------------------------------- counting

  /** The paths at the places where `t` stands. */
  ghost function Hits(ps: seq<seq<nat>>, gs: seq<Group>, t: Group): set<seq<nat>>
    requires |ps| == |gs|
  {
    if ps == [] then {}
    else
      var n := |ps| - 1;
      Hits(ps[..n], gs[..n], t) + if gs[n] == t then {ps[n]} else {}
  }

  lemma {:induction false} HitsAre(ps: seq<seq<nat>>, gs: seq<Group>, t: Group, p: seq<nat>)
    requires |ps| == |gs|
    ensures p in Hits(ps, gs, t) <==> exists k :: 0 <= k < |ps| && ps[k] == p && gs[k] == t
  {
    if ps != [] {
      var n := |ps| - 1;
      HitsAre(ps[..n], gs[..n], t, p);
      if k :| 0 <= k < n && ps[k] == p && gs[k] == t {
        assert ps[..n][k] == p && gs[..n][k] == t;
      }
    }
  }

  lemma {:induction false} HitsCount(ps: seq<seq<nat>>, gs: seq<Group>, t: Group)
    requires |ps| == |gs| && AllDifferent(ps)
    ensures |Hits(ps, gs, t)| == Count(gs, t)
  {
    if ps != [] {
      var n := |ps| - 1;
      HitsCount(ps[..n], gs[..n], t);
      HitsAre(ps[..n], gs[..n], t, ps[n]);
      CountLast(gs, t);
    }
  }

  lemma {:induction false} HitsWalk(m: map<string, Group>, rank: string -> nat, g: Group, t: Group, p: seq<nat>)
    requires Ranked(m, rank) && Fits(m, rank, g)
    ensures |PathsOf(m, rank, g)| == |ChildrenOf(m, rank, g)|
    ensures p in Hits(PathsOf(m, rank, g) + [[]], ChildrenOf(m, rank, g) + [g], t) <==> Walk(m, g, p) == Some(t)
  {
    PathsMatch(m, rank, g);
    var ps, gs := PathsOf(m, rank, g) + [[]], ChildrenOf(m, rank, g) + [g];
    HitsAre(ps, gs, t, p);
    if p == [] {
      assert ps[|ps| - 1] == p && gs[|ps| - 1] == g;
    } else if Walk(m, g, p) == Some(t) {
      var k :| 0 <= k < |PathsOf(m, rank, g)| && PathsOf(m, rank, g)[k] == p;
      assert ps[k] == p && gs[k] == t;
    }
  }

  /** `g` and what Children returns hold a group once for every path from `g` to it, the empty one
      included. */
  lemma {:induction false} PathCount(m: map<string, Group>, rank: string -> nat, g: Group, t: Group,
                                     paths: set<seq<nat>>)
    requires Ranked(m, rank) && Fits(m, rank, g)
    requires forall p :: p in paths <==> Walk(m, g, p) == Some(t)
    ensures |paths| == Count(ChildrenOf(m, rank, g) + [g], t)
  {
    var all := PathSet(m, rank, g, t);
    assert paths == all;
  }

  /** There is such a set of paths: from a group without a cycle below it only finitely many start. */
  lemma {:induction false} PathSet(m: map<string, Group>, rank: string -> nat, g: Group,
                                   t: Group) returns (paths: set<seq<nat>>)
    requires Ranked(m, rank) && Fits(m, rank, g)
    ensures forall p :: p in paths <==> Walk(m, g, p) == Some(t)
    ensures |paths| == Count(ChildrenOf(m, rank, g) + [g], t)
  {
    PathsMatch(m, rank, g);
    var ps, gs := PathsOf(m, rank, g) + [[]], ChildrenOf(m, rank, g) + [g];
    paths := Hits(ps, gs, t);
    HitsCount(ps, gs, t);
    forall p ensures p in paths <==> Walk(m, g, p) == Some(t) {
      HitsWalk(m, rank, g, t, p);
    }
  }

  // ---------------------------------------------------------------- cycles

  lemma {:induction false} WalkAppend(m: map<string, Group>, g: Group, p: seq<nat>, q: seq<nat>)
    requires Walk(m, g, p).Some?
    ensures Walk(m, g, p + q) == Walk(m, Walk(m, g, p).value, q)
    decreases |p|
  {
    if p == [] {
      assert p + q == q;
    } else {
      var cs := Direct(m, g.childIds);
      WalkAppend(m, cs[p[0]], p[1..], q);
      assert (p + q)[1..] == p[1..] + q;
    }
  }

  /** No path of one step or more leads from a group back to itself. */
  ghost predicate OffCycle(m: map<string, Group>, g: Group) {
    forall p | p != [] :: Walk(m, g, p) != Some(g)
  }

  /** No group that a path from `g` leads to is on a cycle. */
  ghost predicate AcyclicBelow(m: map<string, Group>, g: Group) {
    forall p | Walk(m, g, p).Some? :: OffCycle(m, Walk(m, g, p).value)
  }

  /** The ids of the groups below a group. */
  ghost function Reach(m: map<string, Group>, g: Group): set<string> {
    set k | k in m && exists p :: p != [] && Walk(m, g, p) == Some(m[k])
  }

  lemma {:induction false} DirectHas(m: map<string, Group>, ids: seq<string>, c: string) returns (i: nat)
    requires c in ids && c in m
    ensures i < |Direct(m, ids)| && Direct(m, ids)[i] == m[c]
  {
    var n := |ids| - 1;
    if ids[n] == c {
      i := |Direct(m, ids[..n])|;
    } else {
      i := DirectHas(m, ids[..n], c);
    }
  }

  lemma {:induction false} ReachSmaller(m: map<string, Group>, g: Group, c: string)
    requires c in g.childIds && c in m && OffCycle(m, m[c])
    ensures |Reach(m, m[c])| < |Reach(m, g)|
  {
    var i := DirectHas(m, g.childIds, c);
    assert [i][1..] == [];
    assert Walk(m, g, [i]) == Some(m[c]);
    forall k | k in Reach(m, m[c]) ensures k in Reach(m, g) {
      var p :| p != [] && Walk(m, m[c], p) == Some(m[k]);
      WalkAppend(m, g, [i], p);
    }
    assert c in Reach(m, g) && c !in Reach(m, m[c]);
    Smaller(Reach(m, m[c]), Reach(m, g), c);
  }

  lemma {:induction false} Smaller(a: set<string>, b: set<string>, x: string)
    requires a <= b && x in b && x !in a
    ensures |a| < |b|
  {
    assert a + {x} <= b;
    Subset(a + {x}, b);
  }

  lemma {:induction false} Subset(a: set<string>, b: set<string>)
    requires a <= b
    ensures |a| <= |b|
  {
    if a != {} {
      var x :| x in a;
      Subset(a - {x}, b - {x});
    }
  }

  lemma {:induction false} WalkLowers(m: map<string, Group>, rank: string -> nat, g: Group, p: seq<nat>)
    requires Ranked(m, rank) && Fits(m, rank, g) && Walk(m, g, p).Some?
    ensures Fits(m, rank, Walk(m, g, p).value)
    ensures p != [] ==> rank(Walk(m, g, p).value.id) < rank(g.id)
    decreases |p|
  {
    if p != [] {
      var kids := Kids(m, rank, g);
      WalkLowers(m, rank, kids[p[0]], p[1..]);
    }
  }

  ghost predicate Reachable(m: map<string, Group>, gs: seq<Group>, t: Group) {
    exists i, p | 0 <= i < |gs| :: Walk(m, gs[i], p) == Some(t)
  }

  /** One plus the number of groups below, for what can be reached from the given groups. */
  ghost function Depth(m: map<string, Group>, gs: seq<Group>): string -> nat {
    k => if k in m && Reachable(m, gs, m[k]) then 1 + |Reach(m, m[k])| else 0
  }

  lemma {:induction false} DepthFits(m: map<string, Group>, gs: seq<Group>, t: Group)
    requires forall k | k in m :: m[k].id == k
    requires forall g | g in gs :: AcyclicBelow(m, g)
    requires t.id in m && m[t.id] == t && Reachable(m, gs, t)
    ensures Fits(m, Depth(m, gs), t)
  {
    var i, p :| 0 <= i < |gs| && Walk(m, gs[i], p) == Some(t);
    assert AcyclicBelow(m, gs[i]);
    forall c | c in t.childIds && c in m ensures 0 < Depth(m, gs)(c) < Depth(m, gs)(t.id) {
      var n := DirectHas(m, t.childIds, c);
      assert [n][1..] == [];
      assert Walk(m, t, [n]) == Some(m[c]);
      WalkAppend(m, gs[i], p, [n]);
      assert Walk(m, gs[i], p + [n]) == Some(m[c]);
      assert OffCycle(m, m[c]);
      ReachSmaller(m, t, c);
    }
  }

  /** The descent from some groups ends exactly when none of them leads to a cycle, whatever cycles there
      are elsewhere: the number of groups below a group can serve as its rank. */
  lemma {:induction false} RankedExactly(m: map<string, Group>, gs: seq<Group>)
    requires forall k | k in m :: m[k].id == k
    requires forall g | g in gs :: g.id in m && m[g.id] == g
    ensures (exists rank :: Ranked(m, rank) && forall g | g in gs :: Fits(m, rank, g)) <==>
            forall g | g in gs :: AcyclicBelow(m, g)
  {
    if forall g | g in gs :: AcyclicBelow(m, g) {
      var rank := Depth(m, gs);
      forall k | k in m && rank(k) > 0 ensures Fits(m, rank, m[k]) {
        DepthFits(m, gs, m[k]);
      }
      forall g | g in gs ensures Fits(m, rank, g) {
        var i :| 0 <= i < |gs| && gs[i] == g;
        assert Walk(m, gs[i], []) == Some(g);
        DepthFits(m, gs, g);
      }
      assert Ranked(m, rank);
    }
    if rank :| Ranked(m, rank) && forall g | g in gs :: Fits(m, rank, g) {
      forall g | g in gs ensures AcyclicBelow(m, g) {
        NoCycleBelow(m, rank, g);
      }
    }
  }

  lemma {:induction false} NoCycleBelow(m: map<string, Group>, rank: string -> nat, g: Group)
    requires Ranked(m, rank) && Fits(m, rank, g)
    ensures AcyclicBelow(m, g)
  {
    forall p, q | Walk(m, g, p).Some? && q != [] ensures Walk(m, Walk(m, g, p).value, q) != Walk(m, g, p) {
      WalkLowers(m, rank, g, p);
      var t := Walk(m, g, p).value;
      if Walk(m, t, q).Some? {
        WalkLowers(m, rank, t, q);
      }
    }
  }

  // ---------------------------------------------------------------- hosts

  /** The group that a host belongs to. */
  ghost predicate Leads(m: map<string, Group>, h: Host, g: Group) {
    h.groupId != "" && h.groupId in m && m[h.groupId] == g
  }

  lemma {:induction false} HostsInCount(m: map<string, Group>, g: Group, hs: seq<Host>, h: Host)
    ensures Count(HostsIn(m, g, hs), h) == if Leads(m, h, g) then Count(hs, h) else 0
  {
    if hs != [] {
      var last := hs[|hs| - 1];
      HostsInCount(m, g, hs[..|hs| - 1], h);
      CountLast(hs, h);
      if Leads(m, last, g) {
        CountSnoc(HostsIn(m, g, hs[..|hs| - 1]), last, h);
      } else {
        assert HostsIn(m, g, hs) == HostsIn(m, g, hs[..|hs| - 1]);
      }
    }
  }

  /** A host is listed once for every time its group is. */
  lemma {:induction false} HostsAtCount(m: map<string, Group>, gs: seq<Group>, hs: seq<Host>, h: Host, t: Group)
    requires forall g | g in gs :: g.hosts == HostsIn(m, g, hs)
    requires Leads(m, h, t) && Count(hs, h) == 1
    ensures Count(HostsAt(gs), h) == Count(gs, t)
  {
    if gs != [] {
      var init, g := gs[..|gs| - 1], gs[|gs| - 1];
      HostsAtCount(m, init, hs, h, t);
      CountLast(gs, t);
      HostsInCount(m, g, hs, h);
      CountAppend(HostsAt(init), g.hosts, h);
    }
  }

  lemma {:induction false} HostsAtNone(m: map<string, Group>, gs: seq<Group>, hs: seq<Host>, h: Host)
    requires forall g | g in gs :: g.hosts == HostsIn(m, g, hs)
    requires forall g | g in gs :: !Leads(m, h, g)
    ensures Count(HostsAt(gs), h) == 0
  {
    if gs != [] {
      var init, g := gs[..|gs| - 1], gs[|gs| - 1];
      HostsAtNone(m, init, hs, h);
      HostsInCount(m, g, hs, h);
      CountAppend(HostsAt(init), g.hosts, h);
    }
  }
}
