/** What both backends share: the libraries they call, the ways HostList can end, and the closed form of
    the list it returns (src/conductor/conductor.go:286-410, src/localfile/localfile.go:63-110). */
module Backend {
  import opened Basics
  import P = Parser
  import opened HostSet

  /** Regular expressions, the pattern expansion and the sort are foreign code. */
  datatype Library = Library(
    valid: string -> bool,
    matches: (string, string) -> bool,
    expand: string -> Option<seq<string>>,
    sort: multiset<string> -> seq<string>)

  ghost predicate Sorts(lib: Library) { forall s :: multiset(lib.sort(s)) == s }

  /** An error from the parser, a nil pattern that is followed, or a list. */
  datatype Outcome = Failed(error: P.ParseError) | Panicked | Listed(hosts: seq<string>)

  /** `~abc` is a host regexp that never gets a pattern. */
  predicate NilPattern(t: P.Token) { t.kind.TypeHostRegexp? && t.regexp.None? }

  predicate AnyNilPattern(ts: seq<P.Token>) { exists t | t in ts :: NilPattern(t) }

  predicate NilFree(ts: seq<P.Token>, n: nat) { n <= |ts| && forall i | 0 <= i < n :: !NilPattern(ts[i]) }

  lemma {:induction false} NilFreeAll(ts: seq<P.Token>)
    ensures NilFree(ts, |ts|) == !AnyNilPattern(ts)
  {
    assert forall i | 0 <= i < |ts| :: ts[i] in ts;
  }

  /** An order in which a loop over a map may visit its keys. */
  ghost predicate Enumerates(order: seq<string>, keys: set<string>) {
    && AllDifferent(order)
    && forall k :: k in order <==> k in keys
  }

  /** The list after the given tokens, when they stand for the given hosts. */
  ghost function ListOf(ts: seq<P.Token>, hosts: seq<seq<string>>): seq<string>
    requires |ts| == |hosts|
  {
    Eval(BlockEvents(Blocks(ts, hosts)))
  }

  function Blocks(ts: seq<P.Token>, hosts: seq<seq<string>>): (bs: seq<Block>)
    requires |ts| == |hosts|
    ensures |bs| == |ts| && forall i | 0 <= i < |ts| :: bs[i] == Block(hosts[i], ts[i].exclude)
  {
    seq(|ts|, i requires 0 <= i < |ts| => Block(hosts[i], ts[i].exclude))
  }

  lemma {:induction false} ListOfNone(ts: seq<P.Token>)
    ensures ListOf(ts[..0], []) == []
  {
  }

  lemma {:induction false} BlocksNext(ts: seq<P.Token>, hosts: seq<seq<string>>, n: nat, more: seq<string>)
    requires n == |hosts| < |ts|
    ensures BlockEvents(Blocks(ts[..n + 1], hosts + [more])) ==
            BlockEvents(Blocks(ts[..n], hosts)) + Events(more, ts[n].exclude)
  {
    assert Blocks(ts[..n + 1], hosts + [more]) == Blocks(ts[..n], hosts) + [Block(more, ts[n].exclude)];
    BlocksSnoc(Blocks(ts[..n], hosts), Block(more, ts[n].exclude));
  }

  /** The hosts of one more token go through MaybeAddHost. */
  method AddToken(hostlist: seq<string>, hs: seq<string>, ghost ts: seq<P.Token>, exclude: bool, ghost hosts: seq<seq<string>>)
    returns (newHl: seq<string>)
    requires |hosts| < |ts| && ts[|hosts|].exclude == exclude && hostlist == ListOf(ts[..|hosts|], hosts)
    ensures newHl == ListOf(ts[..|hosts| + 1], hosts + [hs])
  {
    BlocksNext(ts, hosts, |hosts|, hs);
    newHl := AddAll(hostlist, hs, exclude, BlockEvents(Blocks(ts[..|hosts|], hosts)));
  }

  /** The names that a pattern matches. */
  function Matching(lib: Library, text: string, names: seq<string>): seq<string> {
    if names == [] then []
    else
      var last := names[|names| - 1];
      Matching(lib, text, names[..|names| - 1]) + if lib.matches(text, last) then [last] else []
  }

  lemma {:induction false} MatchingCount(lib: Library, text: string, names: seq<string>, x: string)
    ensures Count(Matching(lib, text, names), x) == if lib.matches(text, x) then Count(names, x) else 0
  {
    if names != [] {
      var init, last := names[..|names| - 1], names[|names| - 1];
      MatchingCount(lib, text, init, x);
      assert names == init + [last];
      CountSnoc(init, last, x);
      if lib.matches(text, last) {
        CountSnoc(Matching(lib, text, init), last, x);
      } else {
        assert Matching(lib, text, names) == Matching(lib, text, init);
      }
    }
  }

  /** A sorted list counts like the list that was sorted. */
  lemma {:induction false} SortCount(lib: Library, s: seq<string>, x: string)
    requires Sorts(lib)
    ensures Count(lib.sort(multiset(s)), x) == Count(s, x)
  {
    CountIsMultiplicity(lib.sort(multiset(s)), x);
    CountIsMultiplicity(s, x);
  }

  /** Two orders of the same keys are permutations of one another. */
  lemma {:induction false} OrdersPermute(a: seq<string>, b: seq<string>, keys: set<string>)
    requires Enumerates(a, keys) && Enumerates(b, keys)
    ensures multiset(a) == multiset(b)
  {
    forall x ensures multiset(a)[x] == multiset(b)[x] {
      CountOnce(a, x);
      CountOnce(b, x);
      CountIsMultiplicity(a, x);
      CountIsMultiplicity(b, x);
    }
  }

  /** The same tokens with their hosts in other orders list every host as often. */
  lemma {:induction false} ListShuffled(ts: seq<P.Token>, a: seq<seq<string>>, b: seq<seq<string>>)
    requires |a| == |b| == |ts| && forall i | 0 <= i < |ts| :: multiset(a[i]) == multiset(b[i])
    ensures multiset(ListOf(ts, a)) == multiset(ListOf(ts, b))
  {
    forall h ensures Count(ListOf(ts, a), h) == Count(ListOf(ts, b), h) {
      ShuffledCount(Blocks(ts, a), Blocks(ts, b), h);
    }
    SameMultiset(ListOf(ts, a), ListOf(ts, b));
  }

  function Excluding(t: P.Token): P.Token { t.(exclude := true) }

  lemma {:induction false} ListTwoMore(ts: seq<P.Token>, t: P.Token, hosts: seq<seq<string>>)
    requires |hosts| == |ts| + 2 && !t.exclude
    ensures var n := |ts|;
            BlockEvents(Blocks(ts + [t, Excluding(t)], hosts)) ==
            BlockEvents(Blocks(ts, hosts[..n])) + Events(hosts[n], false) + Events(hosts[n + 1], true)
  {
    var n, all := |ts|, ts + [t, Excluding(t)];
    assert all[..n] == ts && all[..n + 1] == ts + [t] && all[..n + 2] == all;
    assert hosts[..n] + [hosts[n]] == hosts[..n + 1] && hosts[..n + 1] + [hosts[n + 1]] == hosts;
    BlocksNext(all, hosts[..n], n, hosts[n]);
    BlocksNext(all, hosts[..n + 1], n + 1, hosts[n + 1]);
  }

  /** A token and its exclusion at the end of the tokens list every host as often as the tokens alone,
      when the hosts of equal tokens agree up to their order. */
  lemma {:induction false} ListThenExclusion(ts: seq<P.Token>, t: P.Token, before: seq<seq<string>>,
                                             after: seq<seq<string>>)
    requires |before| == |ts| && |after| == |ts| + 2 && !t.exclude
    requires forall i | 0 <= i < |ts| :: multiset(after[i]) == multiset(before[i])
    requires multiset(after[|ts|]) == multiset(after[|ts| + 1])
    ensures multiset(ListOf(ts + [t, Excluding(t)], after)) == multiset(ListOf(ts, before))
  {
    var n := |ts|;
    ListTwoMore(ts, t, after);
    IncludeThenExclude(BlockEvents(Blocks(ts, after[..n])), after[n], after[n + 1]);
    ListShuffled(ts, after[..n], before);
  }
}
