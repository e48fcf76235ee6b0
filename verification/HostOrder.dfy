/** When a token followed by its exclusion leaves the host list as it was, order included. The first
    occurrence of a host is the one removed, so the hosts of the token that were listed move to the end. */
module HostOrder {
  import opened Basics
  import opened HostSet

  /** Excluding the hosts one after the other. */
  function RemoveAll(s: seq<string>, hs: seq<string>): seq<string>
    decreases |hs|
  {
    if hs == [] then s else RemoveAll(RemoveFirst(s, hs[0]), hs[1..])
  }

  /** The exclusions that find nothing to remove. */
  function Unmet(s: seq<string>, hs: seq<string>): seq<string>
    decreases |hs|
  {
    if hs == [] then []
    else if hs[0] in s then Unmet(RemoveFirst(s, hs[0]), hs[1..])
    else [hs[0]] + Unmet(s, hs[1..])
  }

  /** The hosts of a token that are listed already, in the order of the token. `again` are the hosts of
      its exclusion, which a workgroup token may name in another order. */
  function Listed(s: seq<string>, hs: seq<string>, again: seq<string>): seq<string> { RemoveAll(hs, Unmet(s, again)) }

  lemma {:induction false} Regroup<T>(a: seq<T>, b: seq<T>, c: seq<T>)
    ensures a + b + c == a + (b + c)
  {
  }

  lemma {:induction false} RemoveFirstAppend(x: seq<string>, y: seq<string>, h: string)
    ensures RemoveFirst(x + y, h) == if h in x then RemoveFirst(x, h) + y else x + RemoveFirst(y, h)
  {
    if x == [] {
      assert x + y == y;
    } else {
      assert (x + y)[1..] == x[1..] + y && (x + y)[0] == x[0] && x == [x[0]] + x[1..];
      RemoveFirstAppend(x[1..], y, h);
      if x[0] != h {
        Regroup([x[0]], RemoveFirst(x[1..], h), y);
        Regroup([x[0]], x[1..], RemoveFirst(y, h));
      }
    }
  }

  lemma {:induction false} RemoveAllAppend(x: seq<string>, y: seq<string>, hs: seq<string>)
    ensures RemoveAll(x + y, hs) == RemoveAll(x, hs) + RemoveAll(y, Unmet(x, hs))
    decreases |hs|
  {
    if hs != [] {
      var h, rest := hs[0], hs[1..];
      RemoveFirstAppend(x, y, h);
      if h in x {
        RemoveAllAppend(RemoveFirst(x, h), y, rest);
      } else {
        RemoveAbsent(x, h);
        RemoveAllAppend(x, RemoveFirst(y, h), rest);
        assert ([h] + Unmet(x, rest))[1..] == Unmet(x, rest);
      }
    }
  }

  lemma {:induction false} RemoveAllCount(s: seq<string>, hs: seq<string>, x: string)
    ensures Count(RemoveAll(s, hs), x) == Max0(Count(s, x) - Count(hs, x))
    ensures Count(Unmet(s, hs), x) == Max0(Count(hs, x) - Count(s, x))
    decreases |hs|
  {
    if hs != [] {
      RemoveCount(s, hs[0], x);
      CountPositive(s, hs[0]);
      RemoveAllCount(RemoveFirst(s, hs[0]), hs[1..], x);
      if hs[0] !in s {
        RemoveAbsent(s, hs[0]);
        assert ([hs[0]] + Unmet(s, hs[1..]))[1..] == Unmet(s, hs[1..]);
      }
    }
  }

  lemma {:induction false} ListedCount(s: seq<string>, hs: seq<string>, again: seq<string>, x: string)
    requires multiset(hs) == multiset(again)
    ensures Count(Listed(s, hs, again), x) == if Count(s, x) < Count(hs, x) then Count(s, x) else Count(hs, x)
  {
    SameCount(hs, again, x);
    RemoveAllCount(s, again, x);
    RemoveAllCount(hs, Unmet(s, again), x);
  }

  lemma {:induction false} EventsFirst(es: seq<Event>, hs: seq<string>, exclude: bool)
    requires hs != []
    ensures es + Events(hs, exclude) == es + [Event(hs[0], exclude)] + Events(hs[1..], exclude)
  {
  }

  lemma {:induction false} EvalAdds(es: seq<Event>, hs: seq<string>)
    ensures Eval(es + Events(hs, false)) == Eval(es) + hs
    decreases |hs|
  {
    if hs == [] {
      assert es + Events(hs, false) == es;
    } else {
      EventsFirst(es, hs, false);
      EvalSnoc(es, Event(hs[0], false));
      EvalAdds(es + [Event(hs[0], false)], hs[1..]);
      assert Eval(es) + [hs[0]] + hs[1..] == Eval(es) + hs;
    }
  }

  lemma {:induction false} EvalRemoves(es: seq<Event>, hs: seq<string>)
    ensures Eval(es + Events(hs, true)) == RemoveAll(Eval(es), hs)
    decreases |hs|
  {
    if hs == [] {
      assert es + Events(hs, true) == es;
    } else {
      EventsFirst(es, hs, true);
      EvalSnoc(es, Event(hs[0], true));
      EvalRemoves(es + [Event(hs[0], true)], hs[1..]);
    }
  }

  /** The list after a token and then its exclusion. */
  ghost function Twice(es: seq<Event>, hs: seq<string>, again: seq<string>): seq<string> {
    Eval(es + Events(hs, false) + Events(again, true))
  }

  /** What the list is afterwards: what the exclusion alone would have left of it, then the hosts of the
      token that were listed. So the list is as it was if and only if it had this form before. */
  lemma {:induction false} TwiceExactly(es: seq<Event>, hs: seq<string>, again: seq<string>)
    ensures Twice(es, hs, again) == RemoveAll(Eval(es), again) + Listed(Eval(es), hs, again)
    ensures Twice(es, hs, again) == Eval(es) <==> Eval(es) == RemoveAll(Eval(es), again) + Listed(Eval(es), hs, again)
  {
    EvalAdds(es, hs);
    EvalRemoves(es + Events(hs, false), again);
    RemoveAllAppend(Eval(es), hs, again);
  }

  lemma {:induction false} RemoveNone(s: seq<string>, hs: seq<string>)
    requires forall h | h in hs :: h !in s
    ensures RemoveAll(s, hs) == s && Unmet(s, hs) == hs
    decreases |hs|
  {
    if hs != [] {
      assert hs[0] in hs && forall h | h in hs[1..] :: h in hs;
      RemoveAbsent(s, hs[0]);
      RemoveNone(s, hs[1..]);
    }
  }

  lemma {:induction false} RemoveItself(s: seq<string>, hs: seq<string>)
    requires forall x :: Count(s, x) <= Count(hs, x)
    ensures RemoveAll(s, hs) == []
  {
    var r := RemoveAll(s, hs);
    if r != [] {
      CountPositive(r, r[0]);
      RemoveAllCount(s, hs, r[0]);
    }
  }

  lemma {:induction false} SameHosts(hs: seq<string>, again: seq<string>)
    requires multiset(hs) == multiset(again)
    ensures forall h :: h in hs <==> h in again
    ensures forall h :: Count(hs, h) == Count(again, h)
  {
    forall h ensures (h in hs <==> h in again) && Count(hs, h) == Count(again, h) {
      assert h in hs <==> h in multiset(hs);
      SameCount(hs, again, h);
    }
  }

  /** A token none of whose hosts is listed leaves the list exactly as it was. */
  lemma {:induction false} NoneListed(es: seq<Event>, hs: seq<string>, again: seq<string>)
    requires multiset(hs) == multiset(again) && forall h | h in hs :: h !in Eval(es)
    ensures Twice(es, hs, again) == Eval(es)
  {
    TwiceExactly(es, hs, again);
    SameHosts(hs, again);
    RemoveNone(Eval(es), again);
    RemoveItself(hs, again);
    assert Eval(es) + [] == Eval(es);
  }

  lemma {:induction false} RemoveTail(u: seq<string>, v: seq<string>, again: seq<string>)
    requires forall h | h in again :: h !in u
    requires forall x :: Count(v, x) <= Count(again, x)
    ensures RemoveAll(u + v, again) == u
  {
    RemoveAllAppend(u, v, again);
    RemoveNone(u, again);
    RemoveItself(v, again);
    assert u + [] == u;
  }

  lemma {:induction false} LastStays(u: seq<string>, v: seq<string>, hs: seq<string>, again: seq<string>)
    requires multiset(hs) == multiset(again) && AllDifferent(u + v) && v == Listed(u + v, hs, again)
    ensures RemoveAll(u + v, again) == u
  {
    SameHosts(hs, again);
    forall h | h in again ensures h !in u {
      OnlyInTail(u, v, hs, again, h);
    }
    forall x ensures Count(v, x) <= Count(again, x) {
      ListedCount(u + v, hs, again, x);
    }
    RemoveTail(u, v, again);
  }

  lemma {:induction false} EndsWith<T>(s: seq<T>, r: seq<T>, v: seq<T>)
    requires s == r + v
    ensures |v| <= |s| && s[|s| - |v|..] == v
  {
  }

  lemma {:induction false} KeptForm(s: seq<string>, hs: seq<string>, again: seq<string>)
    requires multiset(hs) == multiset(again) && AllDifferent(s)
    ensures var v := Listed(s, hs, again);
            s == RemoveAll(s, again) + v <==> |v| <= |s| && s[|s| - |v|..] == v
  {
    var r, v := RemoveAll(s, again), Listed(s, hs, again);
    if s == r + v {
      EndsWith(s, r, v);
    } else if |v| <= |s| && s[|s| - |v|..] == v {
      var u := s[..|s| - |v|];
      assert s == u + v;
      LastStays(u, v, hs, again);
    }
  }

  /** When no host is listed twice, the order is kept if and only if the hosts of the token that are
      listed stand together at the end of the list, in the order of the token. */
  lemma {:induction false} KeptWhenLast(es: seq<Event>, hs: seq<string>, again: seq<string>)
    requires multiset(hs) == multiset(again) && AllDifferent(Eval(es))
    ensures Twice(es, hs, again) == Eval(es) <==>
            var s, v := Eval(es), Listed(Eval(es), hs, again);
            |v| <= |s| && s[|s| - |v|..] == v
  {
    TwiceExactly(es, hs, again);
    KeptForm(Eval(es), hs, again);
  }

  lemma {:induction false} OnlyInTail(u: seq<string>, v: seq<string>, hs: seq<string>, again: seq<string>, h: string)
    requires AllDifferent(u + v) && v == Listed(u + v, hs, again) && h in hs && multiset(hs) == multiset(again)
    ensures h !in u
  {
    CountOnce(u + v, h);
    CountAppend(u, v, h);
    ListedCount(u + v, hs, again, h);
    CountPositive(u, h);
    CountPositive(hs, h);
  }

  // ---------------------------------------------------------------- one host

  /** Nothing else stands behind the first occurrence. */
  predicate OnlyBehind(s: seq<string>, h: string) {
    forall i, j | 0 <= i < j < |s| && s[i] == h :: s[j] == h
  }

  lemma {:induction false} AllTheSame(s: seq<string>, h: string)
    ensures s + [h] == [h] + s <==> forall i | 0 <= i < |s| :: s[i] == h
  {
    if s != [] {
      AllTheSame(s[1..], h);
      if s + [h] == [h] + s {
        assert s[0] == (s + [h])[0] == h;
        assert s[1..] + [h] == (s + [h])[1..] == s == [h] + s[1..];
        forall i | 0 <= i < |s| ensures s[i] == h {
          if i > 0 {
            assert s[i] == s[1..][i - 1];
          }
        }
      }
    }
  }

  lemma {:induction false} RemoveFirstKeeps(s: seq<string>, h: string)
    ensures RemoveFirst(s + [h], h) == s <==> OnlyBehind(s, h)
  {
    if s == [] {
      assert s + [h] == [h];
    } else {
      assert (s + [h])[1..] == s[1..] + [h] && s == [s[0]] + s[1..];
      if s[0] == h {
        AllTheSame(s[1..], h);
        FirstBehind(s, h);
      } else {
        RemoveFirstKeeps(s[1..], h);
        TailBehind(s, h);
        var r := RemoveFirst(s[1..] + [h], h);
        assert [s[0]] + r == s ==> r == ([s[0]] + r)[1..] == s[1..];
      }
    }
  }

  lemma {:induction false} FirstBehind(s: seq<string>, h: string)
    requires s != [] && s[0] == h
    ensures OnlyBehind(s, h) <==> forall i | 0 <= i < |s[1..]| :: s[1..][i] == h
  {
    if OnlyBehind(s, h) {
      forall i | 0 <= i < |s[1..]| ensures s[1..][i] == h {
        assert s[0] == h && s[i + 1] == h;
      }
    }
    if forall i | 0 <= i < |s[1..]| :: s[1..][i] == h {
      forall i, j | 0 <= i < j < |s| && s[i] == h ensures s[j] == h {
        assert s[j] == s[1..][j - 1];
      }
    }
  }

  lemma {:induction false} TailBehind(s: seq<string>, h: string)
    requires s != [] && s[0] != h
    ensures OnlyBehind(s, h) <==> OnlyBehind(s[1..], h)
  {
    if OnlyBehind(s[1..], h) {
      forall i, j | 0 <= i < j < |s| && s[i] == h ensures s[j] == h {
        assert s[1..][i - 1] == h && s[1..][j - 1] == s[j];
      }
    }
    if OnlyBehind(s, h) {
      forall i, j | 0 <= i < j < |s[1..]| && s[1..][i] == h ensures s[1..][j] == h {
        assert s[i + 1] == h && s[j + 1] == s[1..][j];
      }
    }
  }

  /** One host, included and then excluded: the list is as it was if and only if nothing else stands
      behind the first occurrence of the host. */
  lemma {:induction false} OneHostExactly(es: seq<Event>, h: string)
    ensures Twice(es, [h], [h]) == Eval(es) <==> OnlyBehind(Eval(es), h)
  {
    EvalAdds(es, [h]);
    EvalRemoves(es + Events([h], false), [h]);
    assert RemoveAll(Eval(es) + [h], [h]) == RemoveFirst(Eval(es) + [h], h);
    RemoveFirstKeeps(Eval(es), h);
  }

  /** An input at which the order changes. */
  lemma {:induction false} IncludeThenExcludeMoves(a: string, b: string)
    requires a != b
    ensures var es := [Event(a, false)] + [Event(b, false)]; Eval(es) == [a, b] && Twice(es, [a], [a]) == [b, a]
  {
    var e, f := Event(a, false), Event(b, false);
    EvalSnoc([], e);
    assert [] + [e] == [e] && [] + [a] == [a] && Eval([e]) == [a];
    EvalSnoc([e], f);
    assert [a] + [b] == [a, b];
    EvalAdds([e] + [f], [a]);
    EvalRemoves([e] + [f] + Events([a], false), [a]);
    assert [a, b] + [a] == [a, b, a] && [a, b, a][1..] == [b, a];
    assert RemoveAll([a, b, a], [a]) == RemoveFirst([a, b, a], a) == [b, a];
  }
}
