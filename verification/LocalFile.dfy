/** The host lists of the local file backend (src/localfile/localfile.go:63-110). */
module LocalFile {
  import opened Basics
  import P = Parser
  import opened HostSet
  import opened Backend

  /** The host names of the groups visited in the given order. */
  function Concat(data: map<string, seq<string>>, order: seq<string>): seq<string>
    requires forall k | k in order :: k in data
  {
    if order == [] then [] else Concat(data, order[..|order| - 1]) + data[order[|order| - 1]]
  }

  /** The hosts that a token stands for. */
  ghost predicate Stands(data: map<string, seq<string>>, lib: Library, t: P.Token, hs: seq<string>) {
    match t.kind
    case TypeHostRegexp =>
      exists order :: Enumerates(order, data.Keys) &&
        hs == lib.sort(multiset(if t.regexp.Some? then Matching(lib, t.regexp.value, Concat(data, order)) else []))
    case TypeHost => hs == if t.value in data && data[t.value] != [] then data[t.value] else [t.value]
    case TypeGroup => hs == if t.value in data then data[t.value] else []
    case TypeWorkGroup => hs == []
  }

  ghost predicate AllStand(data: map<string, seq<string>>, lib: Library, ts: seq<P.Token>, hosts: seq<seq<string>>) {
    |hosts| <= |ts| && forall i | 0 <= i < |hosts| :: Stands(data, lib, ts[i], hosts[i])
  }

  predicate HasHosts(data: map<string, seq<string>>) { exists k | k in data :: data[k] != [] }

  ghost predicate AnswersTokens(data: map<string, seq<string>>, lib: Library, ts: seq<P.Token>, r: Outcome) {
    if AnyNilPattern(ts) && HasHosts(data) then r == Panicked
    else exists hosts :: |hosts| == |ts| && AllStand(data, lib, ts, hosts) && r == Listed(ListOf(ts, hosts))
  }

  /** What HostList returns: the parse error, a nil pattern followed, or the closed form of the hosts that
      the tokens stand for. */
  ghost predicate Answers(data: map<string, seq<string>>, lib: Library, expr: string, r: Outcome) {
    match P.Parse(lib.valid, expr)
    case Err(e) => r == Failed(e)
    case Ok(ts) => AnswersTokens(data, lib, ts, r)
  }

  /** The loop over the tokens after n rounds. */
  ghost predicate Progress(data: map<string, seq<string>>, lib: Library, ts: seq<P.Token>, n: nat, hostlist: seq<string>,
                           hosts: seq<seq<string>>)
  {
    && |hosts| == n <= |ts| && AllStand(data, lib, ts, hosts) && hostlist == ListOf(ts[..n], hosts)
    && (HasHosts(data) ==> NilFree(ts, n))
  }

  lemma {:induction false} ProgressEnds(data: map<string, seq<string>>, lib: Library, ts: seq<P.Token>,
                                        hostlist: seq<string>, hosts: seq<seq<string>>)
    ensures Progress(data, lib, ts, 0, [], [])
    ensures Progress(data, lib, ts, |ts|, hostlist, hosts) ==>
              && |hosts| == |ts| && AllStand(data, lib, ts, hosts) && hostlist == ListOf(ts, hosts)
              && !(AnyNilPattern(ts) && HasHosts(data))
  {
    ListOfNone(ts);
    NilFreeAll(ts);
    assert ts[..|ts|] == ts;
  }

  lemma {:induction false} ProgressNext(data: map<string, seq<string>>, lib: Library, ts: seq<P.Token>, n: nat,
                                        hostlist: seq<string>, hosts: seq<seq<string>>, newHl: seq<string>,
                                        hs: seq<string>)
    requires n < |ts| && Progress(data, lib, ts, n, hostlist, hosts) && Stands(data, lib, ts[n], hs)
    requires newHl == ListOf(ts[..n + 1], hosts + [hs]) && !(NilPattern(ts[n]) && HasHosts(data))
    ensures Progress(data, lib, ts, n + 1, newHl, hosts + [hs])
  {
  }

  class LocalFile {
    var data: map<string, seq<string>>

    constructor (data: map<string, seq<string>>)
      ensures this.data == data
    {
      this.data := data;
    }

    /** Load and Reload replace the decoded data as a whole. */
    method Load(loaded: map<string, seq<string>>)
      modifies this
      ensures data == loaded
    {
      data := loaded;
    }

    /** The inner loop of MatchHost: nothing is matched against a nil pattern. */
    method MatchGroup(lib: Library, pattern: Option<string>, names: seq<string>) returns (panicked: bool, res: seq<string>)
      ensures panicked <==> pattern.None? && names != []
      ensures !panicked ==> res == if pattern.Some? then Matching(lib, pattern.value, names) else []
    {
      res, panicked := [], false;
      var i := 0;
      while i < |names|
        invariant i <= |names| && (i > 0 ==> pattern.Some?)
        invariant res == if pattern.Some? then Matching(lib, pattern.value, names[..i]) else []
      {
        if pattern.None? {
          panicked := true;
          return;
        }
        assert names[..i + 1][..i] == names[..i];
        if lib.matches(pattern.value, names[i]) {
          res := res + [names[i]];
        }
        i := i + 1;
      }
      assert names[..i] == names;
    }

    method MatchHost(lib: Library, pattern: Option<string>) returns (panicked: bool, res: seq<string>, ghost order: seq<string>)
      ensures panicked <==> pattern.None? && HasHosts(data)
      ensures !panicked ==> Enumerates(order, data.Keys)
      ensures !panicked ==>
                res == lib.sort(multiset(if pattern.Some? then Matching(lib, pattern.value, Concat(data, order)) else []))
    {
      res, panicked, order := [], false, [];
      var todo := data.Keys;
      while todo != {}
        invariant todo <= data.Keys && Enumerates(order, data.Keys - todo)
        invariant pattern.None? ==> forall k | k in order :: data[k] == []
        invariant res == if pattern.Some? then Matching(lib, pattern.value, Concat(data, order)) else []
      {
        var k :| k in todo;
        var more: seq<string>;
        panicked, more := MatchGroup(lib, pattern, data[k]);
        if panicked {
          return;
        }
        assert (order + [k])[..|order|] == order;
        if pattern.Some? {
          MatchingAppend(lib, pattern.value, Concat(data, order), data[k]);
        }
        res := res + more;
        order := order + [k];
        todo := todo - {k};
      }
      assert data.Keys - todo == data.Keys;
      res := lib.sort(multiset(res));
    }

    /** The switch over the token types: the hosts handed to MaybeAddHost. */
    method TokenHosts(lib: Library, t: P.Token) returns (panicked: bool, hs: seq<string>)
      ensures panicked <==> NilPattern(t) && HasHosts(data)
      ensures !panicked ==> Stands(data, lib, t, hs)
    {
      panicked := false;
      hs := if t.value in data then data[t.value] else [];
      match t.kind {
        case TypeHostRegexp =>
          ghost var order;
          panicked, hs, order := MatchHost(lib, t.regexp);
        case TypeHost =>
          if |hs| == 0 {
            hs := [t.value];
          }
        case TypeGroup =>
        case TypeWorkGroup =>
          hs := [];
      }
    }

    /** One round of the loop over the tokens. */
    method TokenRound(lib: Library, ts: seq<P.Token>, n: nat, hostlist: seq<string>, ghost hosts: seq<seq<string>>)
      returns (panicked: bool, newHl: seq<string>, ghost newHosts: seq<seq<string>>)
      requires n < |ts| && Progress(data, lib, ts, n, hostlist, hosts)
      ensures panicked ==> AnyNilPattern(ts) && HasHosts(data)
      ensures !panicked ==> Progress(data, lib, ts, n + 1, newHl, newHosts)
    {
      newHl, newHosts := hostlist, hosts;
      var hs: seq<string>;
      panicked, hs := TokenHosts(lib, ts[n]);
      if !panicked {
        newHl := AddToken(hostlist, hs, ts, ts[n].exclude, hosts);
        ProgressNext(data, lib, ts, n, hostlist, hosts, newHl, hs);
        newHosts := hosts + [hs];
      }
    }

    /** The loop over the tokens. */
    method TokenLoop(lib: Library, ts: seq<P.Token>) returns (panicked: bool, hostlist: seq<string>, ghost hosts: seq<seq<string>>)
      ensures panicked <==> AnyNilPattern(ts) && HasHosts(data)
      ensures !panicked ==> |hosts| == |ts| && AllStand(data, lib, ts, hosts) && hostlist == ListOf(ts, hosts)
    {
      hosts, hostlist, panicked := [], [], false;
      var n := 0;
      ProgressEnds(data, lib, ts, hostlist, hosts);
      while n < |ts|
        invariant n <= |ts| && Progress(data, lib, ts, n, hostlist, hosts)
      {
        panicked, hostlist, hosts := TokenRound(lib, ts, n, hostlist, hosts);
        if panicked {
          return;
        }
        n := n + 1;
      }
      ProgressEnds(data, lib, ts, hostlist, hosts);
    }

    method HostList(lib: Library, expr: string) returns (r: Outcome)
      ensures Answers(data, lib, expr, r)
    {
      var tokens := P.ParseExpression(lib.valid, expr);
      if tokens.Err? {
        return Failed(tokens.error);
      }
      var panicked, hostlist;
      ghost var hosts;
      panicked, hostlist, hosts := TokenLoop(lib, tokens.value);
      r := if panicked then Panicked else Listed(hostlist);
    }
  }

  lemma {:induction false} MatchingAppend(lib: Library, text: string, a: seq<string>, b: seq<string>)
    ensures Matching(lib, text, a + b) == Matching(lib, text, a) + Matching(lib, text, b)
    decreases |b|
  {
    if b == [] {
      assert a + b == a;
    } else {
      var init, last := b[..|b| - 1], b[|b| - 1];
      MatchingAppend(lib, text, a, init);
      assert a + b == a + init + [last];
      assert (a + b)[..|a + b| - 1] == a + init;
    }
  }

  ghost function Listing(data: map<string, seq<string>>, x: string): string -> nat {
    k => if k in data then Count(data[k], x) else 0
  }

  lemma {:induction false} ConcatCount(data: map<string, seq<string>>, order: seq<string>, x: string)
    requires forall k | k in order :: k in data
    ensures Count(Concat(data, order), x) == Sum(Listing(data, x), order)
  {
    if order != [] {
      var init, last := order[..|order| - 1], order[|order| - 1];
      assert order == init + [last];
      ConcatCount(data, init, x);
      SumSnoc(Listing(data, x), init, last);
      CountAppend(Concat(data, init), data[last], x);
    }
  }

  lemma {:induction false} MatchedSame(data: map<string, seq<string>>, lib: Library, text: string, p: seq<string>,
                                       q: seq<string>)
    requires Enumerates(p, data.Keys) && Enumerates(q, data.Keys)
    ensures multiset(Matching(lib, text, Concat(data, p))) == multiset(Matching(lib, text, Concat(data, q)))
  {
    var mp, mq := Matching(lib, text, Concat(data, p)), Matching(lib, text, Concat(data, q));
    OrdersPermute(p, q, data.Keys);
    forall x ensures Count(mp, x) == Count(mq, x) {
      ConcatCount(data, p, x);
      ConcatCount(data, q, x);
      SumPermuted(Listing(data, x), p, q);
      MatchingCount(lib, text, Concat(data, p), x);
      MatchingCount(lib, text, Concat(data, q), x);
    }
    SameMultiset(mp, mq);
  }

  /** The order of the loop over the groups does not show: a host is matched once for every time that
      the groups list it. */
  lemma {:induction false} MatchOrderIrrelevant(data: map<string, seq<string>>, lib: Library, t: P.Token,
                                                a: seq<string>, b: seq<string>)
    requires t.kind.TypeHostRegexp? && Stands(data, lib, t, a) && Stands(data, lib, t, b)
    ensures a == b
  {
    var p :| Enumerates(p, data.Keys) &&
      a == lib.sort(multiset(if t.regexp.Some? then Matching(lib, t.regexp.value, Concat(data, p)) else []));
    var q :| Enumerates(q, data.Keys) &&
      b == lib.sort(multiset(if t.regexp.Some? then Matching(lib, t.regexp.value, Concat(data, q)) else []));
    if t.regexp.Some? {
      MatchedSame(data, lib, t.regexp.value, p, q);
    }
  }

  /** So the local file backend is a function of the data and the expression. */
  lemma {:induction false} Deterministic(data: map<string, seq<string>>, lib: Library, t: P.Token, a: seq<string>,
                                         b: seq<string>)
    requires Stands(data, lib, t, a) && Stands(data, lib, t, b)
    ensures a == b
  {
    if t.kind.TypeHostRegexp? {
      MatchOrderIrrelevant(data, lib, t, a, b);
    }
  }

  /** A host regexp lists a host as often as the groups do, when it matches. */
  lemma {:induction false} MatchCount(data: map<string, seq<string>>, lib: Library, t: P.Token, hs: seq<string>,
                                      order: seq<string>, x: string)
    requires Sorts(lib) && t.kind.TypeHostRegexp? && t.regexp.Some? && Stands(data, lib, t, hs)
    requires Enumerates(order, data.Keys)
    ensures Count(hs, x) == if lib.matches(t.regexp.value, x) then Sum(Listing(data, x), order) else 0
  {
    var mine := lib.sort(multiset(Matching(lib, t.regexp.value, Concat(data, order))));
    assert Stands(data, lib, t, mine);
    MatchOrderIrrelevant(data, lib, t, hs, mine);
    SortCount(lib, Matching(lib, t.regexp.value, Concat(data, order)), x);
    MatchingCount(lib, t.regexp.value, Concat(data, order), x);
    ConcatCount(data, order, x);
  }
}
