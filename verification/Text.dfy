/** Python's substring search, counting and replacement, on text whose only line end is '\n'. */
module Text {

  predicate MatchAt(s: string, p: string, i: nat) {
    i + |p| <= |s| && s[i..i + |p|] == p
  }

  /** `s.find(p, i)`: the leftmost match at or after i, or -1. */
  function FindFrom(s: string, p: string, i: nat): (r: int)
    requires i <= |s|
    ensures r == -1 || (i <= r && MatchAt(s, p, r))
    decreases |s| - i
  {
    if MatchAt(s, p, i) then i
    else if i == |s| then -1
    else FindFrom(s, p, i + 1)
  }

  lemma {:induction false} FindFromLeast(s: string, p: string, i: nat, j: nat)
    requires i <= |s| && i <= j && (FindFrom(s, p, i) == -1 || j < FindFrom(s, p, i))
    ensures !MatchAt(s, p, j)
    decreases |s| - i
  {
    if i < |s| && i < j {
      FindFromLeast(s, p, i + 1, j);
    }
  }

  function Find(s: string, p: string): int {
    FindFrom(s, p, 0)
  }

  /** Non-overlapping matches from position i on. */
  function CountFrom(s: string, p: string, i: nat): nat
    requires i <= |s| && p != ""
    decreases |s| - i
  {
    var k := FindFrom(s, p, i);
    if k < 0 then 0 else 1 + CountFrom(s, p, k + |p|)
  }

  /** `s.count(p)`; an empty p is found between all characters. */
  function Count(s: string, p: string): nat {
    if p == "" then |s| + 1 else CountFrom(s, p, 0)
  }

  /** Positions of matches of p, in order and without overlap, from i on. */
  ghost predicate Disjoint(s: string, p: string, i: nat, at: seq<nat>) {
    && (forall k :: 0 <= k < |at| ==> i <= at[k] && MatchAt(s, p, at[k]))
    && forall j, k :: 0 <= j < k < |at| ==> at[j] + |p| <= at[k]
  }

  lemma {:induction false} NoMoreDisjoint(s: string, p: string, i: nat, at: seq<nat>)
    requires p != "" && i <= |s| && Disjoint(s, p, i, at)
    ensures |at| <= CountFrom(s, p, i)
    decreases |at|
  {
    if at != [] {
      var k := FindFrom(s, p, i);
      assert MatchAt(s, p, at[0]);
      if k < 0 || at[0] < k {
        FindFromLeast(s, p, i, at[0]);
      }
      NoMoreDisjoint(s, p, k + |p|, at[1..]);
    }
  }

  lemma {:induction false} AsManyDisjoint(s: string, p: string, i: nat) returns (at: seq<nat>)
    requires p != "" && i <= |s|
    ensures Disjoint(s, p, i, at) && |at| == CountFrom(s, p, i)
    decreases |s| - i
  {
    var k := FindFrom(s, p, i);
    if k < 0 {
      at := [];
    } else {
      var rest := AsManyDisjoint(s, p, k + |p|);
      at := [k] + rest;
    }
  }

  /** `count` is the greatest number of matches that do not overlap. */
  lemma CountIsGreatest(s: string, p: string)
    requires p != ""
    ensures exists at :: Disjoint(s, p, 0, at) && |at| == Count(s, p)
    ensures forall at :: Disjoint(s, p, 0, at) ==> |at| <= Count(s, p)
  {
    var most := AsManyDisjoint(s, p, 0);
    forall at | Disjoint(s, p, 0, at) ensures |at| <= Count(s, p) {
      NoMoreDisjoint(s, p, 0, at);
    }
  }

  /** `s.replace(p, n, 1)`. */
  function ReplaceFirst(s: string, p: string, n: string): string {
    var k := Find(s, p);
    if k < 0 then s else s[..k] + n + s[k + |p|..]
  }

  /** k is the one position of p in s. */
  ghost predicate Single(s: string, p: string, k: nat) {
    MatchAt(s, p, k) && forall j: nat :: MatchAt(s, p, j) ==> j == k
  }

  lemma FindIsLeast(s: string, p: string, k: nat)
    requires MatchAt(s, p, k) && forall j: nat :: j < k ==> !MatchAt(s, p, j)
    ensures Find(s, p) == k
  {
    var f := Find(s, p);
    if f == -1 || k < f {
      FindFromLeast(s, p, 0, k);
    }
  }

  /** What `count == 1` says: the leftmost match has no match at or after its end. */
  lemma CountOne(s: string, p: string)
    requires p != ""
    ensures Count(s, p) == 1 <==> Find(s, p) >= 0 && forall j: nat :: Find(s, p) + |p| <= j ==> !MatchAt(s, p, j)
  {
    var k := Find(s, p);
    if k >= 0 {
      var m := FindFrom(s, p, k + |p|);
      assert Count(s, p) == 1 + CountFrom(s, p, k + |p|);
      assert Count(s, p) == 1 <==> m < 0;
      if m >= 0 {
        var j: nat := m;
        assert k + |p| <= j && MatchAt(s, p, j);
      } else {
        forall j: nat | k + |p| <= j ensures !MatchAt(s, p, j) {
          FindFromLeast(s, p, k + |p|, j);
        }
      }
    }
  }

  lemma SingleCountsOnce(s: string, p: string, k: nat)
    requires p != "" && Single(s, p, k)
    ensures Count(s, p) == 1 && Find(s, p) == k
  {
    FindIsLeast(s, p, k);
    CountOne(s, p);
  }

  /** No proper non-empty prefix of p is also a suffix of p. */
  ghost predicate Borderless(p: string) {
    forall b :: 0 < b < |p| ==> p[..b] != p[|p| - b..]
  }

  ghost predicate CountOneIsUnique(p: string) {
    forall s :: Count(s, p) == 1 ==> exists k :: Single(s, p, k)
  }

  /** Python's `count(p) == 1` means "at exactly one position" for every text just when p cannot overlap itself. */
  lemma CountOneUniqueIffBorderless(p: string)
    requires p != ""
    ensures CountOneIsUnique(p) <==> Borderless(p)
  {
    if Borderless(p) {
      forall s | Count(s, p) == 1 ensures exists k :: Single(s, p, k) {
        BorderlessUnique(s, p);
      }
    } else {
      var b :| 0 < b < |p| && p[..b] == p[|p| - b..];
      OverlapCountedOnce(p, b);
    }
  }

  lemma OverlapIsBorder(s: string, p: string, k: nat, j: nat)
    ensures MatchAt(s, p, k) && MatchAt(s, p, j) && k < j < k + |p| ==> !Borderless(p)
  {
    if MatchAt(s, p, k) && MatchAt(s, p, j) && k < j < k + |p| {
      var b := k + |p| - j;
      assert s[j..j + |p|][..b] == s[j..k + |p|] == s[k..k + |p|][|p| - b..];
      assert p[..b] == p[|p| - b..];
    }
  }

  lemma BorderlessUnique(s: string, p: string)
    requires p != "" && Borderless(p) && Count(s, p) == 1
    ensures Single(s, p, Find(s, p))
  {
    CountOne(s, p);
    var k := Find(s, p);
    forall j: nat | MatchAt(s, p, j) ensures j == k {
      OverlapIsBorder(s, p, k, j);
      if j < k {
        FindFromLeast(s, p, 0, j);
      }
    }
  }

  /** The overlap of p with itself at a border of length b is counted once but has two positions. */
  lemma OverlapCountedOnce(p: string, b: nat)
    requires 0 < b < |p| && p[..b] == p[|p| - b..]
    ensures Count(p + p[b..], p) == 1 && MatchAt(p + p[b..], p, 0) && MatchAt(p + p[b..], p, |p| - b)
    ensures !CountOneIsUnique(p)
  {
    var s := p + p[b..];
    var d := |p| - b;
    assert MatchAt(s, p, 0);
    assert s[d..d + |p|] == p by {
      assert s[d..d + |p|] == p[d..] + p[b..];
      assert p == p[..b] + p[b..];
    }
    FindIsLeast(s, p, 0);
    CountOne(s, p);
    if k: nat :| Single(s, p, k) {
      assert MatchAt(s, p, d);
      assert false;
    }
  }

  /** Two edits at disjoint places, each place being the only one in the text it is applied to, commute. */
  lemma DisjointEditsCommute(c: string, a: string, a': string, i: nat, b: string, b': string, j: nat, x: nat, y: nat)
    requires Single(c, a, i) && Single(c, b, j) && i + |a| <= j
    requires Single(ReplaceFirst(c, a, a'), b, x)
    requires Single(ReplaceFirst(c, b, b'), a, y)
    ensures ReplaceFirst(ReplaceFirst(c, a, a'), b, b') == ReplaceFirst(ReplaceFirst(c, b, b'), a, a')
  {
    var left, mid, right := c[..i], c[i + |a|..j], c[j + |b|..];
    SplitTwice(c, a, i, b, j);
    EditOnly(c, a, a', left, mid + b + right, i);
    EditOnly(c, b, b', left + a + mid, right, j);
    Regroup(left, a', mid, b, right);
    Regroup(left, a, mid, b', right);
    Regroup(left, a', mid, b', right);
    EditOnly(ReplaceFirst(c, a, a'), b, b', left + a' + mid, right, x);
    EditOnly(ReplaceFirst(c, b, b'), a, a', left, mid + b' + right, y);
  }

  lemma SplitTwice(c: string, a: string, i: nat, b: string, j: nat)
    requires MatchAt(c, a, i) && MatchAt(c, b, j) && i + |a| <= j
    ensures c == c[..i] + a + (c[i + |a|..j] + b + c[j + |b|..])
    ensures c == (c[..i] + a + c[i + |a|..j]) + b + c[j + |b|..]
  {
    assert c[i..i + |a|] == a && c[j..j + |b|] == b;
  }

  lemma Regroup(left: string, a: string, mid: string, b: string, right: string)
    ensures left + a + (mid + b + right) == (left + a + mid) + b + right
  {
  }

  /** An edit at the only position of p. */
  lemma EditOnly(s: string, p: string, n: string, left: string, right: string, k: nat)
    requires s == left + p + right && Single(s, p, k)
    ensures ReplaceFirst(s, p, n) == left + n + right
  {
    assert s[|left|..|left| + |p|] == p;
    assert MatchAt(s, p, |left|);
    FindIsLeast(s, p, |left|);
    assert s[..|left|] == left && s[|left| + |p|..] == right;
  }

  /** `after` is `before` with one occurrence of `inner`, at k, replaced by n. */
  ghost predicate EditedAt(before: string, after: string, inner: string, n: string, k: nat) {
    MatchAt(before, inner, k) && after == before[..k] + n + before[k + |inner|..]
  }

  lemma ReplaceEdits(s: string, p: string, n: string)
    requires Find(s, p) >= 0
    ensures EditedAt(s, ReplaceFirst(s, p, n), p, n, Find(s, p))
  {
  }

  /** Replacing a block by an edit of itself edits the text only where the inner text stood. */
  lemma NestedReplaceIsLocal(s: string, block: string, inner: string, n: string)
    requires Find(s, block) >= 0 && Find(block, inner) >= 0
    ensures EditedAt(s, ReplaceFirst(s, block, ReplaceFirst(block, inner, n)), inner, n,
                     Find(s, block) + Find(block, inner))
  {
    var block' := ReplaceFirst(block, inner, n);
    ReplaceEdits(block, inner, n);
    ReplaceEdits(s, block, block');
    NestedEdits(s, ReplaceFirst(s, block, block'), block, block', inner, n, Find(s, block), Find(block, inner));
  }

  lemma NestedEdits(s: string, s': string, block: string, block': string, inner: string, n: string, i: nat, j: nat)
    requires EditedAt(s, s', block, block', i) && EditedAt(block, block', inner, n, j)
    ensures EditedAt(s, s', inner, n, i + j)
  {
    var a, c, x, y := s[..i], s[i + |block|..], block[..j], block[j + |inner|..];
    assert s == a + (x + inner + y) + c by {
      SplitAt(s, block, i);
      SplitAt(block, inner, j);
    }
    Nest(a, x, inner, y, c);
    Slices(s, a + x, inner, y + c);
    Nest(a, x, n, y, c);
  }

  lemma SplitAt(s: string, p: string, k: nat)
    requires MatchAt(s, p, k)
    ensures s == s[..k] + p + s[k + |p|..]
  {
  }

  lemma Nest(a: string, x: string, m: string, y: string, c: string)
    ensures a + (x + m + y) + c == (a + x) + m + (y + c)
  {
  }

  lemma Slices(s: string, u: string, p: string, v: string)
    requires s == u + p + v
    ensures s[..|u|] == u && s[|u| + |p|..] == v && MatchAt(s, p, |u|)
  {
    assert s[|u|..|u| + |p|] == p;
  }
}
