/** The left-to-right interpreter of includes and excludes that both backends share
    (src/parser/parser.go:50-61 and 311-318): what a host list contains after any sequence of calls. */
module HostSet {
  import opened Basics

  datatype Event = Event(host: string, exclude: bool)

  /** The list without the first occurrence of a host. */
  function RemoveFirst(s: seq<string>, h: string): seq<string> {
    if s == [] then [] else if s[0] == h then s[1..] else [s[0]] + RemoveFirst(s[1..], h)
  }

  function Apply(s: seq<string>, e: Event): seq<string> {
    if e.exclude then RemoveFirst(s, e.host) else s + [e.host]
  }

  function Eval(es: seq<Event>): seq<string> {
    if es == [] then [] else Apply(Eval(es[..|es| - 1]), es[|es| - 1])
  }

  lemma {:induction false} EvalSnoc(es: seq<Event>, e: Event)
    ensures Eval(es + [e]) == Apply(Eval(es), e)
  {
    assert (es + [e])[..|es|] == es;
  }

  lemma {:induction false} RemoveAt(s: seq<string>, h: string, k: nat)
    requires k < |s| && s[k] == h && h !in s[..k]
    ensures RemoveFirst(s, h) == s[..k] + s[k + 1..]
  {
    if k == 0 {
    } else {
      assert s[0] == s[..k][0] && s[1..][..k - 1] == s[..k][1..];
      RemoveAt(s[1..], h, k - 1);
      assert [s[0]] + (s[1..][..k - 1] + s[1..][k..]) == s[..k] + s[k + 1..];
    }
  }

  lemma {:induction false} RemoveAbsent(s: seq<string>, h: string)
    requires h !in s
    ensures RemoveFirst(s, h) == s
  {
    if s != [] {
      RemoveAbsent(s[1..], h);
    }
  }

  /** The position of the first occurrence, or -1. */
  method SliceIndex(s: seq<string>, t: string) returns (k: int)
    ensures k == -1 ==> t !in s
    ensures k != -1 ==> 0 <= k < |s| && s[k] == t && t !in s[..k]
  {
    var i := 0;
    while i < |s|
      invariant 0 <= i <= |s| && t !in s[..i]
    {
      if t == s[i] {
        return i;
      }
      i := i + 1;
    }
    return -1;
  }

  /** The slice before and after the call. */
  method MaybeAddHost(hostlist: seq<string>, host: string, exclude: bool) returns (newHl: seq<string>)
    ensures newHl == Apply(hostlist, Event(host, exclude))
  {
    newHl := hostlist;
    if exclude {
      var k := SliceIndex(newHl, host);
      if k >= 0 {
        RemoveAt(newHl, host, k);
        newHl := newHl[..k] + newHl[k + 1..];
      } else {
        RemoveAbsent(newHl, host);
      }
    } else {
      newHl := newHl + [host];
    }
  }

  lemma {:induction false} EvalNext(es: seq<Event>, hs: seq<string>, exclude: bool, i: nat)
    requires i < |hs|
    ensures Eval(es + Events(hs[..i + 1], exclude)) == Apply(Eval(es + Events(hs[..i], exclude)), Event(hs[i], exclude))
  {
    assert es + Events(hs[..i + 1], exclude) == es + Events(hs[..i], exclude) + [Event(hs[i], exclude)];
    EvalSnoc(es + Events(hs[..i], exclude), Event(hs[i], exclude));
  }

  /** A loop that hands the hosts of one token to MaybeAddHost; `es` is what happened before. */
  method AddAll(hostlist: seq<string>, hs: seq<string>, exclude: bool, ghost es: seq<Event>) returns (newHl: seq<string>)
    requires hostlist == Eval(es)
    ensures newHl == Eval(es + Events(hs, exclude))
  {
    newHl := hostlist;
    var i := 0;
    assert es + Events(hs[..0], exclude) == es && hs[..|hs|] == hs;
    while i < |hs|
      invariant i <= |hs| && newHl == Eval(es + Events(hs[..i], exclude))
    {
      EvalNext(es, hs, exclude, i);
      newHl := MaybeAddHost(newHl, hs[i], exclude);
      i := i + 1;
    }
  }

  function Events(hs: seq<string>, exclude: bool): (es: seq<Event>)
    ensures |es| == |hs| && forall i | 0 <= i < |hs| :: es[i] == Event(hs[i], exclude)
  {
    seq(|hs|, i requires 0 <= i < |hs| => Event(hs[i], exclude))
  }

  // ---------------------------------------------------------------- how often a host is listed

  lemma {:induction false} RemoveCount(s: seq<string>, h: string, x: string)
    ensures Count(RemoveFirst(s, h), x) == if x == h && Count(s, x) > 0 then Count(s, x) - 1 else Count(s, x)
  {
    if s != [] && s[0] != h {
      RemoveCount(s[1..], h, x);
      assert ([s[0]] + RemoveFirst(s[1..], h))[1..] == RemoveFirst(s[1..], h);
    }
  }

  lemma {:induction false} ApplyCount(s: seq<string>, e: Event, h: string)
    ensures Count(Apply(s, e), h) ==
            if e.host != h then Count(s, h)
            else if !e.exclude then Count(s, h) + 1
            else if Count(s, h) > 0 then Count(s, h) - 1 else 0
  {
    RemoveCount(s, e.host, h);
    CountSnoc(s, e.host, h);
  }

  ghost function AddsOf(h: string): Event -> nat { (e: Event) => if e.host == h && !e.exclude then 1 else 0 }

  ghost function RemovesOf(h: string): Event -> nat { (e: Event) => if e.host == h && e.exclude then 1 else 0 }

  /** Includes minus excludes of a host. */
  ghost function Net(es: seq<Event>, h: string): int { Sum(AddsOf(h), es) - Sum(RemovesOf(h), es) }

  lemma {:induction false} NetSnoc(es: seq<Event>, e: Event, h: string)
    ensures Net(es + [e], h) == Net(es, h) + (if e.host != h then 0 else if e.exclude then -1 else 1)
  {
    SumSnoc(AddsOf(h), es, e);
    SumSnoc(RemovesOf(h), es, e);
  }

  /** Closed form: a host is listed as many times as the largest excess of its includes over its
      excludes in any final part of the sequence, the empty one included. */
  lemma {:induction false} CountIsLargestNet(es: seq<Event>, h: string) returns (k: nat)
    ensures k <= |es| && Net(es[k..], h) == Count(Eval(es), h)
    ensures forall j | 0 <= j <= |es| :: Net(es[j..], h) <= Count(Eval(es), h)
  {
    if es == [] {
      k := 0;
    } else {
      var init, e := es[..|es| - 1], es[|es| - 1];
      assert es == init + [e];
      k := CountIsLargestNet(init, h);
      EvalSnoc(init, e);
      ApplyCount(Eval(init), e, h);
      forall j | 0 <= j <= |init| ensures Net(es[j..], h) == Net(init[j..], h) + (if e.host != h then 0 else if e.exclude then -1 else 1) {
        assert es[j..] == init[j..] + [e];
        NetSnoc(init[j..], e, h);
      }
      assert es[|es|..] == [] && Net(es[|es|..], h) == 0;
      if Count(Eval(es), h) == 0 && Net(es[k..], h) != 0 {
        k := |es|;
      }
    }
  }

  // ---------------------------------------------------------------- the order of the list

  function Added(es: seq<Event>): seq<string> {
    if es == [] then [] else Added(es[..|es| - 1]) + if es[|es| - 1].exclude then [] else [es[|es| - 1].host]
  }

  /** `a` stands in `b` at the increasing positions `f`. */
  ghost predicate Embeds(f: seq<nat>, a: seq<string>, b: seq<string>) {
    && |f| == |a|
    && (forall i | 0 <= i < |f| :: f[i] < |b| && b[f[i]] == a[i])
    && forall i, j | 0 <= i < j < |f| :: f[i] < f[j]
  }

  lemma {:induction false} FirstIndex(s: seq<string>, h: string) returns (k: nat)
    requires h in s
    ensures k < |s| && s[k] == h && h !in s[..k]
  {
    if s[0] == h {
      k := 0;
    } else {
      var j := FirstIndex(s[1..], h);
      k := j + 1;
      assert s[..k] == [s[0]] + s[1..][..j];
    }
  }

  lemma {:induction false} EmbedsSnoc(f: seq<nat>, a: seq<string>, b: seq<string>, x: string)
    requires Embeds(f, a, b)
    ensures Embeds(f + [|b|], a + [x], b + [x])
  {
  }

  lemma {:induction false} EmbedsDrop(f: seq<nat>, a: seq<string>, b: seq<string>, k: nat)
    requires Embeds(f, a, b) && k < |a|
    ensures Embeds(f[..k] + f[k + 1..], a[..k] + a[k + 1..], b)
  {
  }

  /** The hosts that remain keep the order in which they were added. */
  lemma {:induction false} EvalKeepsOrder(es: seq<Event>) returns (f: seq<nat>)
    ensures Embeds(f, Eval(es), Added(es))
  {
    if es == [] {
      f := [];
    } else {
      var init, e := es[..|es| - 1], es[|es| - 1];
      var g := EvalKeepsOrder(init);
      if !e.exclude {
        f := g + [|Added(init)|];
        EmbedsSnoc(g, Eval(init), Added(init), e.host);
      } else {
        assert Added(init) + [] == Added(init);
        if e.host in Eval(init) {
          var k := FirstIndex(Eval(init), e.host);
          RemoveAt(Eval(init), e.host, k);
          f := g[..k] + g[k + 1..];
          EmbedsDrop(g, Eval(init), Added(init), k);
        } else {
          RemoveAbsent(Eval(init), e.host);
          f := g;
        }
      }
    }
  }

  // ---------------------------------------------------------------- exclusions on the right

  function Max0(n: int): nat { if n > 0 then n else 0 }

  lemma {:induction false} EventsSnoc(es: seq<Event>, hs: seq<string>, exclude: bool)
    requires hs != []
    ensures es + Events(hs, exclude) == es + Events(hs[..|hs| - 1], exclude) + [Event(hs[|hs| - 1], exclude)]
  {
  }

  lemma {:induction false} CountNext(es: seq<Event>, e: Event, h: string)
    ensures Count(Eval(es + [e]), h) ==
            if e.host != h then Count(Eval(es), h)
            else if e.exclude then Max0(Count(Eval(es), h) - 1)
            else Count(Eval(es), h) + 1
  {
    EvalSnoc(es, e);
    ApplyCount(Eval(es), e, h);
  }

  lemma {:induction false} EvalAppend(es: seq<Event>, hs: seq<string>, exclude: bool, h: string)
    ensures Count(Eval(es + Events(hs, exclude)), h) ==
            if exclude then Max0(Count(Eval(es), h) - Count(hs, h)) else Count(Eval(es), h) + Count(hs, h)
    decreases |hs|
  {
    if hs == [] {
      assert es + Events(hs, exclude) == es;
    } else {
      var init, last := hs[..|hs| - 1], hs[|hs| - 1];
      EvalAppend(es, init, exclude, h);
      EventsSnoc(es, hs, exclude);
      CountNext(es + Events(init, exclude), Event(last, exclude), h);
      assert hs == init + [last];
      CountSnoc(init, last, h);
    }
  }

  lemma {:induction false} SameCount(a: seq<string>, b: seq<string>, h: string)
    requires multiset(a) == multiset(b)
    ensures Count(a, h) == Count(b, h)
  {
    CountIsMultiplicity(a, h);
    CountIsMultiplicity(b, h);
  }

  lemma {:induction false} SameMultiset(a: seq<string>, b: seq<string>)
    requires forall h :: Count(a, h) == Count(b, h)
    ensures multiset(a) == multiset(b)
  {
    forall h ensures multiset(a)[h] == multiset(b)[h] {
      CountIsMultiplicity(a, h);
      CountIsMultiplicity(b, h);
    }
  }

  /** A token and then its exclusion list every host as often as before, even when the token names its
      hosts in another order the second time, as a workgroup token may. */
  lemma {:induction false} IncludeThenExclude(es: seq<Event>, hs: seq<string>, again: seq<string>)
    requires multiset(hs) == multiset(again)
    ensures multiset(Eval(es + Events(hs, false) + Events(again, true))) == multiset(Eval(es))
  {
    forall h ensures Count(Eval(es + Events(hs, false) + Events(again, true)), h) == Count(Eval(es), h) {
      EvalAppend(es, hs, false, h);
      EvalAppend(es + Events(hs, false), again, true, h);
      SameCount(hs, again, h);
    }
    SameMultiset(Eval(es + Events(hs, false) + Events(again, true)), Eval(es));
  }

  /** The hosts a token stands for, and whether it excludes them. */
  datatype Block = Block(hosts: seq<string>, exclude: bool)

  function BlockEvents(bs: seq<Block>): seq<Event> {
    if bs == [] then [] else BlockEvents(bs[..|bs| - 1]) + Events(bs[|bs| - 1].hosts, bs[|bs| - 1].exclude)
  }

  lemma {:induction false} BlocksSnoc(bs: seq<Block>, b: Block)
    ensures BlockEvents(bs + [b]) == BlockEvents(bs) + Events(b.hosts, b.exclude)
  {
    assert (bs + [b])[..|bs|] == bs;
  }

  ghost function Included(h: string): Block -> nat { (b: Block) => if b.exclude then 0 else Count(b.hosts, h) }

  ghost function Excluded(h: string): Block -> nat { (b: Block) => if b.exclude then Count(b.hosts, h) else 0 }

  lemma {:induction false} EventsNet(hs: seq<string>, exclude: bool, h: string)
    ensures Net(Events(hs, exclude), h) == if exclude then 0 - Count(hs, h) else Count(hs, h)
  {
    if hs != [] {
      var init, last := hs[..|hs| - 1], hs[|hs| - 1];
      assert hs == init + [last] && Events(hs, exclude) == Events(init, exclude) + [Event(last, exclude)];
      EventsNet(init, exclude, h);
      NetSnoc(Events(init, exclude), Event(last, exclude), h);
      CountSnoc(init, last, h);
    }
  }

  lemma {:induction false} BlocksNet(bs: seq<Block>, h: string)
    ensures Net(BlockEvents(bs), h) == Sum(Included(h), bs) - Sum(Excluded(h), bs)
  {
    if bs != [] {
      var init, last := bs[..|bs| - 1], bs[|bs| - 1];
      assert bs == init + [last];
      BlocksNet(init, h);
      EventsNet(last.hosts, last.exclude, h);
      SumAppend(AddsOf(h), BlockEvents(init), Events(last.hosts, last.exclude));
      SumAppend(RemovesOf(h), BlockEvents(init), Events(last.hosts, last.exclude));
      SumSnoc(Included(h), init, last);
      SumSnoc(Excluded(h), init, last);
    }
  }

  /** The whole sequence is one of its final parts. */
  lemma {:induction false} NetFromStart(es: seq<Event>, h: string)
    ensures Count(Eval(es), h) >= Max0(Net(es, h))
  {
    var k := CountIsLargestNet(es, h);
    assert es[0..] == es;
  }

  /** Whatever the order of the tokens, no host is listed less often than its includes exceed its
      excludes. */
  lemma {:induction false} AtLeastNet(bs: seq<Block>, h: string)
    ensures Count(Eval(BlockEvents(bs)), h) >= Max0(Sum(Included(h), bs) - Sum(Excluded(h), bs))
  {
    NetFromStart(BlockEvents(bs), h);
    BlocksNet(bs, h);
  }

  /** One more token changes the count of a host... */
  lemma {:induction false} CountBlock(init: seq<Block>, last: Block, h: string)
    ensures Count(Eval(BlockEvents(init + [last])), h) ==
            if last.exclude then Max0(Count(Eval(BlockEvents(init)), h) - Count(last.hosts, h))
            else Count(Eval(BlockEvents(init)), h) + Count(last.hosts, h)
  {
    BlocksSnoc(init, last);
    EvalAppend(BlockEvents(init), last.hosts, last.exclude, h);
  }

  /** ... and its includes and excludes. */
  lemma {:induction false} SumsBlock(init: seq<Block>, last: Block, h: string)
    ensures Sum(Included(h), init + [last]) == Sum(Included(h), init) + (if last.exclude then 0 else Count(last.hosts, h))
    ensures Sum(Excluded(h), init + [last]) == Sum(Excluded(h), init) + (if last.exclude then Count(last.hosts, h) else 0)
  {
    SumSnoc(Included(h), init, last);
    SumSnoc(Excluded(h), init, last);
  }

  /** A host is listed exactly as often as its includes exceed its excludes. */
  ghost predicate Tight(bs: seq<Block>, h: string) {
    Count(Eval(BlockEvents(bs)), h) == Max0(Sum(Included(h), bs) - Sum(Excluded(h), bs))
  }

  lemma {:induction false} TightSum(before: int, inc: int, exc: int, n: nat, exclude: bool)
    requires before == Max0(inc - exc) && inc >= 0 && exc >= 0 && (exclude || exc == 0)
    ensures (if exclude then Max0(before - n) else before + n)
         == Max0(inc + (if exclude then 0 else n) - (exc + if exclude then n else 0))
  {
  }

  lemma {:induction false} TightNext(init: seq<Block>, last: Block, h: string)
    requires Tight(init, h) && (last.exclude || Sum(Excluded(h), init) == 0)
    ensures Tight(init + [last], h)
    ensures !last.exclude ==> Sum(Excluded(h), init + [last]) == 0
  {
    hide Eval, BlockEvents, Sum, Count;
    CountBlock(init, last, h);
    SumsBlock(init, last, h);
    TightSum(Count(Eval(BlockEvents(init)), h), Sum(Included(h), init), Sum(Excluded(h), init), Count(last.hosts, h), last.exclude);
  }

  lemma {:induction false} ExcludeTail(bs: seq<Block>, n: nat, h: string)
    requires n <= |bs| && (forall i | 0 <= i < n :: !bs[i].exclude) && forall i | n <= i < |bs| :: bs[i].exclude
    ensures Tight(bs, h)
    ensures n == |bs| ==> Sum(Excluded(h), bs) == 0
    decreases |bs|
  {
    if bs != [] {
      var init, last := bs[..|bs| - 1], bs[|bs| - 1];
      assert bs == init + [last];
      ExcludeTail(init, if n == |bs| then n - 1 else n, h);
      TightNext(init, last, h);
    }
  }

  /** The same tokens, each with its hosts in some other order. */
  ghost predicate Shuffled(bs: seq<Block>, mid: seq<Block>) {
    && |mid| == |bs|
    && forall i | 0 <= i < |bs| :: mid[i].exclude == bs[i].exclude && multiset(mid[i].hosts) == multiset(bs[i].hosts)
  }

  /** Neither the count of a host nor its includes and excludes tell the two apart. */
  ghost predicate Alike(bs: seq<Block>, mid: seq<Block>, h: string) {
    && Count(Eval(BlockEvents(bs)), h) == Count(Eval(BlockEvents(mid)), h)
    && Sum(Included(h), bs) == Sum(Included(h), mid) && Sum(Excluded(h), bs) == Sum(Excluded(h), mid)
  }

  lemma {:induction false} CountAfter(bs: seq<Block>, b: Block, h: string, n: nat, k: nat)
    requires Count(Eval(BlockEvents(bs)), h) == n && Count(b.hosts, h) == k
    ensures Count(Eval(BlockEvents(bs + [b])), h) == if b.exclude then Max0(n - k) else n + k
  {
    CountBlock(bs, b, h);
  }

  lemma {:induction false} AlikeNext(bs: seq<Block>, mid: seq<Block>, b: Block, c: Block, h: string)
    requires Alike(bs, mid, h) && b.exclude == c.exclude && multiset(b.hosts) == multiset(c.hosts)
    ensures Alike(bs + [b], mid + [c], h)
  {
    SameCount(b.hosts, c.hosts, h);
    var n, k := Count(Eval(BlockEvents(bs)), h), Count(b.hosts, h);
    CountAfter(bs, b, h, n, k);
    CountAfter(mid, c, h, n, k);
    SumsBlock(bs, b, h);
    SumsBlock(mid, c, h);
  }

  /** The order in which a token names its hosts does not change how often a host is listed. */
  lemma {:induction false} ShuffledCount(bs: seq<Block>, mid: seq<Block>, h: string)
    requires Shuffled(bs, mid)
    ensures Alike(bs, mid, h)
    decreases |bs|
  {
    if bs != [] {
      var n := |bs| - 1;
      assert bs == bs[..n] + [bs[n]] && mid == mid[..n] + [mid[n]];
      ShuffledCount(bs[..n], mid[..n], h);
      AlikeNext(bs[..n], mid[..n], bs[n], mid[n], h);
    }
  }

  lemma {:induction false} NetPermuted(bs: seq<Block>, mid: seq<Block>, other: seq<Block>, h: string)
    requires Shuffled(bs, mid) && multiset(mid) == multiset(other)
    ensures Sum(Included(h), bs) == Sum(Included(h), other) && Sum(Excluded(h), bs) == Sum(Excluded(h), other)
  {
    ShuffledCount(bs, mid, h);
    SumPermuted(Included(h), mid, other);
    SumPermuted(Excluded(h), mid, other);
  }

  /** Exclusions on the right are strongest: of all the orders of the same tokens, each with its hosts in
      any order, one with every exclusion after every inclusion lists each host least often, and exactly
      as often as its includes exceed its excludes. */
  lemma {:induction false} ExclusionsLast(bs: seq<Block>, mid: seq<Block>, other: seq<Block>, n: nat, h: string)
    requires Shuffled(bs, mid) && multiset(mid) == multiset(other)
    requires n <= |bs| && (forall i | 0 <= i < n :: !bs[i].exclude) && forall i | n <= i < |bs| :: bs[i].exclude
    ensures Tight(bs, h) && Count(Eval(BlockEvents(bs)), h) <= Count(Eval(BlockEvents(other)), h)
  {
    assert Tight(bs, h) by {
      ExcludeTail(bs, n, h);
    }
    assert Count(Eval(BlockEvents(other)), h) >= Max0(Sum(Included(h), other) - Sum(Excluded(h), other)) by {
      AtLeastNet(other, h);
    }
    NetPermuted(bs, mid, other, h);
  }
}
