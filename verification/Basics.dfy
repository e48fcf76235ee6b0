/** Sums and concatenations over sequences, used to weigh and to project protocol states. */
module Basics {

  datatype Option<+T> = None | Some(value: T)

  /** The sum of the weights of the elements of a sequence. */
  ghost function Sum<T(!new)>(f: T -> nat, s: seq<T>): nat
  {
    if s == [] then 0 else f(s[0]) + Sum(f, s[1..])
  }

  lemma {:induction false} SumAppend<T(!new)>(f: T -> nat, a: seq<T>, b: seq<T>)
    ensures Sum(f, a + b) == Sum(f, a) + Sum(f, b)
  {
    if a == [] {
      assert a + b == b;
    } else {
      assert (a + b)[1..] == a[1..] + b;
      SumAppend(f, a[1..], b);
    }
  }

  lemma {:induction false} SumSnoc<T(!new)>(f: T -> nat, a: seq<T>, x: T)
    ensures Sum(f, a + [x]) == Sum(f, a) + f(x)
  {
    SumAppend(f, a, [x]);
    assert [x][1..] == [];
  }

  lemma {:induction false} SumUpdate<T(!new)>(f: T -> nat, s: seq<T>, k: nat, x: T)
    requires k < |s|
    ensures Sum(f, s[k := x]) == Sum(f, s) - f(s[k]) + f(x)
    ensures f(s[k]) <= Sum(f, s)
  {
    if k == 0 {
      assert s[k := x][1..] == s[1..];
    } else {
      assert s[k := x][1..] == s[1..][k - 1 := x];
      SumUpdate(f, s[1..], k - 1, x);
    }
  }

  lemma {:induction false} SumMember<T(!new)>(f: T -> nat, s: seq<T>, k: nat)
    requires k < |s|
    ensures f(s[k]) <= Sum(f, s)
  {
    SumUpdate(f, s, k, s[k]);
  }

  lemma {:induction false} SumAll<T(!new)>(f: T -> nat, s: seq<T>, c: nat)
    requires forall i | 0 <= i < |s| :: f(s[i]) == c
    ensures Sum(f, s) == c * |s|
  {
    if s == [] {
    } else {
      SumAll(f, s[1..], c);
    }
  }

  lemma {:induction false} SumMonotone<T(!new)>(f: T -> nat, g: T -> nat, s: seq<T>)
    requires forall i | 0 <= i < |s| :: f(s[i]) <= g(s[i])
    ensures Sum(f, s) <= Sum(g, s)
  {
    if s != [] {
      SumMonotone(f, g, s[1..]);
    }
  }

  lemma {:induction false} SplitAt<T>(s: seq<T>, i: nat)
    requires i < |s|
    ensures s == (s[..i] + [s[i]]) + s[i + 1..]
  {
  }

  lemma {:induction false} DropOne<T>(s: seq<T>, k: nat)
    requires k < |s|
    ensures multiset(s[..k] + s[k + 1..]) == multiset(s) - multiset{s[k]}
  {
    SplitAt(s, k);
    assert multiset(s) == multiset(s[..k]) + multiset{s[k]} + multiset(s[k + 1..]);
  }

  lemma {:induction false} DropFirst<T>(s: seq<T>)
    requires s != []
    ensures multiset(s[1..]) == multiset(s) - multiset{s[0]}
  {
    DropOne(s, 0);
    assert s[..0] + s[1..] == s[1..];
  }

  lemma {:induction false} SumMiddle<T(!new)>(f: T -> nat, a: seq<T>, x: T, b: seq<T>)
    ensures Sum(f, a + [x] + b) == f(x) + Sum(f, a + b)
  {
    SumAppend(f, a, b);
    SumSnoc(f, a, x);
    SumAppend(f, a + [x], b);
  }

  lemma {:induction false} SumDropOne<T(!new)>(f: T -> nat, s: seq<T>, k: nat)
    requires k < |s|
    ensures Sum(f, s) == f(s[k]) + Sum(f, s[..k] + s[k + 1..])
  {
    SplitAt(s, k);
    SumMiddle(f, s[..k], s[k], s[k + 1..]);
  }

  /** In a permutation the first element stands somewhere, and the rest is a permutation of the rest. */
  lemma {:induction false} TakeOut<T>(a: seq<T>, b: seq<T>) returns (k: nat)
    requires a != [] && multiset(a) == multiset(b)
    ensures k < |b| && b[k] == a[0] && multiset(a[1..]) == multiset(b[..k] + b[k + 1..])
  {
    assert a[0] in multiset(a);
    assert a[0] in b;
    k :| 0 <= k < |b| && b[k] == a[0];
    DropOne(b, k);
    DropFirst(a);
  }

  /** A sum does not depend on the order of the elements. */
  lemma {:induction false} SumPermuted<T(!new)>(f: T -> nat, a: seq<T>, b: seq<T>)
    requires multiset(a) == multiset(b)
    ensures Sum(f, a) == Sum(f, b)
    decreases |a|
  {
    if a == [] {
      assert |multiset(b)| == 0;
    } else {
      var k := TakeOut(a, b);
      SumPermuted(f, a[1..], b[..k] + b[k + 1..]);
      SumDropOne(f, b, k);
    }
  }

  // ---------------------------------------------------------------- how often an element stands in a sequence

  ghost function Count<T>(s: seq<T>, x: T): nat {
    if s == [] then 0 else (if s[0] == x then 1 else 0) + Count(s[1..], x)
  }

  lemma {:induction false} CountAppend<T>(a: seq<T>, b: seq<T>, x: T)
    ensures Count(a + b, x) == Count(a, x) + Count(b, x)
  {
    if a == [] {
      assert a + b == b;
    } else {
      assert (a + b)[1..] == a[1..] + b;
      CountAppend(a[1..], b, x);
    }
  }

  lemma {:induction false} CountSnoc<T>(s: seq<T>, y: T, x: T)
    ensures Count(s + [y], x) == Count(s, x) + if y == x then 1 else 0
  {
    CountAppend(s, [y], x);
    assert [y][1..] == [];
  }

  lemma {:induction false} CountLast<T>(s: seq<T>, x: T)
    requires s != []
    ensures Count(s, x) == Count(s[..|s| - 1], x) + if s[|s| - 1] == x then 1 else 0
  {
    assert s == s[..|s| - 1] + [s[|s| - 1]];
    CountSnoc(s[..|s| - 1], s[|s| - 1], x);
  }

  lemma {:induction false} CountIsMultiplicity<T>(s: seq<T>, x: T)
    ensures Count(s, x) == multiset(s)[x]
  {
    if s != [] {
      CountIsMultiplicity(s[1..], x);
      assert s == [s[0]] + s[1..];
    }
  }

  lemma {:induction false} CountPositive<T>(s: seq<T>, x: T)
    ensures Count(s, x) > 0 <==> x in s
  {
    if s != [] {
      CountPositive(s[1..], x);
      assert s == [s[0]] + s[1..];
    }
  }

  /** No element stands twice. */
  ghost predicate AllDifferent<T>(s: seq<T>) { forall i, j | 0 <= i < j < |s| :: s[i] != s[j] }

  lemma {:induction false} CountOnce<T>(s: seq<T>, x: T)
    requires AllDifferent(s)
    ensures Count(s, x) == if x in s then 1 else 0
  {
    if s != [] {
      CountOnce(s[1..], x);
      assert s == [s[0]] + s[1..];
    }
  }

  /** The concatenation of the images of the elements of a sequence. */
  ghost function FlatMap<T(!new), U>(f: T -> seq<U>, s: seq<T>): seq<U>
  {
    if s == [] then [] else f(s[0]) + FlatMap(f, s[1..])
  }

  lemma {:induction false} FlatMapAppend<T(!new), U>(f: T -> seq<U>, a: seq<T>, b: seq<T>)
    ensures FlatMap(f, a + b) == FlatMap(f, a) + FlatMap(f, b)
  {
    if a == [] {
      assert a + b == b;
    } else {
      assert (a + b)[1..] == a[1..] + b;
      FlatMapAppend(f, a[1..], b);
    }
  }

  lemma {:induction false} FlatMapSnoc<T(!new), U>(f: T -> seq<U>, a: seq<T>, x: T)
    ensures FlatMap(f, a + [x]) == FlatMap(f, a) + f(x)
  {
    FlatMapAppend(f, a, [x]);
    assert [x][1..] == [];
  }

  /** With at most one non-empty image, the concatenation is that image. */
  lemma {:induction false} FlatMapOnly<T(!new), U>(f: T -> seq<U>, s: seq<T>, k: nat)
    requires k < |s|
    requires forall j | 0 <= j < |s| && j != k :: f(s[j]) == []
    ensures FlatMap(f, s) == f(s[k])
  {
    if k == 0 {
      FlatMapNone(f, s[1..]);
    } else {
      FlatMapOnly(f, s[1..], k - 1);
    }
  }

  lemma {:induction false} FlatMapNone<T(!new), U>(f: T -> seq<U>, s: seq<T>)
    requires forall j | 0 <= j < |s| :: f(s[j]) == []
    ensures FlatMap(f, s) == []
  {
    if s != [] {
      FlatMapNone(f, s[1..]);
    }
  }
}
