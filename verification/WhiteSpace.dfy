/** How a line is taken apart (src/cli/cli.go:73 and 277-296, src/cli/completer.go:46-53): trimming, the split
    at the first run of white space, and the split at every run. */
module WhiteSpace {
  import opened Basics

  /** What the pattern of white space matches. */
  predicate Space(c: char) { c in {' ', '\t', '\n', '\U{0c}', '\r'} }

  /** What is trimmed from both ends of a line. */
  predicate Padding(c: char) { c in {' ', '\n', '\t'} }

  predicate AllSpace(s: string) { forall i | 0 <= i < |s| :: Space(s[i]) }

  predicate NoSpace(s: string) { forall i | 0 <= i < |s| :: !Space(s[i]) }

  predicate AllPadding(s: string) { forall i | 0 <= i < |s| :: Padding(s[i]) }

  function TrimLeft(s: string): string {
    if s != "" && Padding(s[0]) then TrimLeft(s[1..]) else s
  }

  function TrimRight(s: string): string {
    if s != "" && Padding(s[|s| - 1]) then TrimRight(s[..|s| - 1]) else s
  }

  function Trim(s: string): string { TrimRight(TrimLeft(s)) }

  /** The length of the first word. */
  function WordLength(s: string): (n: nat)
    ensures n <= |s| && NoSpace(s[..n]) && (n < |s| ==> Space(s[n]))
  {
    if s == "" || Space(s[0]) then 0
    else
      var n := 1 + WordLength(s[1..]);
      assert s[..n] == [s[0]] + s[1..][..n - 1];
      n
  }

  /** The length of the run of white space at the start. */
  function SpaceLength(s: string): (n: nat)
    ensures n <= |s| && AllSpace(s[..n]) && (n < |s| ==> !Space(s[n]))
    ensures s != "" && Space(s[0]) ==> n > 0
  {
    if s == "" || !Space(s[0]) then 0
    else
      var n := 1 + SpaceLength(s[1..]);
      assert s[..n] == [s[0]] + s[1..][..n - 1];
      n
  }

  /** The first word, and what follows the white space behind it, if there is any. */
  function WsSplit(s: string): (string, Option<string>) {
    var n := WordLength(s);
    if n == |s| then (s, None) else (s[..n], Some(s[n + SpaceLength(s[n..])..]))
  }

  /** The words between all runs of white space. */
  function Fields(s: string): seq<string> {
    var (word, rest) := WsSplit(s);
    if rest.None? then [word] else [word] + Fields(rest.value)
  }

  // ---------------------------------------------------------------- what these functions mean

  lemma {:induction false} WordEnds(w: string, rest: string)
    requires NoSpace(w) && (rest == "" || Space(rest[0]))
    ensures WordLength(w + rest) == |w|
  {
    if w == "" {
      assert w + rest == rest;
    } else {
      assert (w + rest)[1..] == w[1..] + rest;
      WordEnds(w[1..], rest);
    }
  }

  lemma {:induction false} SpaceEnds(gap: string, rest: string)
    requires AllSpace(gap) && (rest == "" || !Space(rest[0]))
    ensures SpaceLength(gap + rest) == |gap|
  {
    if gap == "" {
      assert gap + rest == rest;
    } else {
      assert (gap + rest)[1..] == gap[1..] + rest;
      SpaceEnds(gap[1..], rest);
    }
  }

  /** One word, or a word, a gap and the rest. */
  lemma {:induction false} WsSplitExactly(w: string, gap: string, rest: string)
    requires NoSpace(w) && AllSpace(gap) && (rest == "" || !Space(rest[0]))
    ensures WsSplit(w) == (w, None)
    ensures gap != "" ==> WsSplit(w + (gap + rest)) == (w, Some(rest))
  {
    hide WordLength, SpaceLength;
    WordEnds(w, "");
    assert w + "" == w;
    if gap != "" {
      var s := w + (gap + rest);
      WordEnds(w, gap + rest);
      SpaceEnds(gap, rest);
      assert s[..|w|] == w && s[|w|..] == gap + rest && s[|w| + |gap|..] == rest;
    }
  }

  lemma {:induction false} FieldsExactly(w: string, gap: string, rest: string)
    requires NoSpace(w) && AllSpace(gap) && gap != "" && (rest == "" || !Space(rest[0]))
    ensures Fields(w) == [w] && Fields(w + (gap + rest)) == [w] + Fields(rest)
  {
    WsSplitExactly(w, gap, rest);
  }

  lemma {:induction false} TrimLeftExactly(a: string, s: string)
    requires AllPadding(a) && (s == "" || !Padding(s[0]))
    ensures TrimLeft(a + s) == s
  {
    if a == "" {
      assert a + s == s;
    } else {
      assert (a + s)[1..] == a[1..] + s;
      TrimLeftExactly(a[1..], s);
    }
  }

  lemma {:induction false} TrimRightExactly(s: string, b: string)
    requires AllPadding(b) && (s == "" || !Padding(s[|s| - 1]))
    ensures TrimRight(s + b) == s
    decreases |b|
  {
    if b == "" {
      assert s + b == s;
    } else {
      assert (s + b)[..|s + b| - 1] == s + b[..|b| - 1];
      TrimRightExactly(s, b[..|b| - 1]);
    }
  }

  /** Padding is taken from both ends and nowhere else. */
  lemma {:induction false} TrimExactly(a: string, s: string, b: string)
    requires AllPadding(a) && AllPadding(b) && s != "" && !Padding(s[0]) && !Padding(s[|s| - 1])
    ensures Trim(a + (s + b)) == s && Trim(a) == ""
  {
    TrimLeftExactly(a, s + b);
    TrimRightExactly(s, b);
    TrimLeftExactly(a, "");
    assert a + "" == a;
  }
}
