/** Sequences without repetition, and one sequence kept in order inside another. */
module Subsequences {

  ghost predicate NoDuplicates<T>(s: seq<T>) {
    forall i, j :: 0 <= i < j < |s| ==> s[i] != s[j]
  }

  ghost function Elements<T>(s: seq<T>): set<T> {
    set x | x in s
  }

  /** `f` gives the increasing positions at which the elements of `s` stand in `t`. */
  ghost predicate Embeds<T>(f: seq<nat>, s: seq<T>, t: seq<T>) {
    && |f| == |s|
    && (forall i, j :: 0 <= i < j < |f| ==> f[i] < f[j])
    && (forall i :: 0 <= i < |f| ==> f[i] < |t| && t[f[i]] == s[i])
  }

  /** `s` can be obtained from `t` by deleting elements. */
  ghost predicate IsSubsequence<T>(s: seq<T>, t: seq<T>) {
    exists f :: Embeds(f, s, t)
  }

  /** Some occurrence of `x` in `s` precedes some occurrence of `y`. */
  ghost predicate Before<T>(s: seq<T>, x: T, y: T) {
    exists i, j :: 0 <= i < j < |s| && s[i] == x && s[j] == y
  }

  lemma SubsequenceReflexive<T>(s: seq<T>)
    ensures IsSubsequence(s, s)
  {
    assert Embeds(seq(|s|, i => i), s, s);
  }

  lemma SubsequenceTransitive<T>(s: seq<T>, t: seq<T>, u: seq<T>)
    requires IsSubsequence(s, t) && IsSubsequence(t, u)
    ensures IsSubsequence(s, u)
  {
    var f :| Embeds(f, s, t);
    var g :| Embeds(g, t, u);
    assert Embeds(seq(|s|, i requires 0 <= i < |s| => g[f[i]]), s, u);
  }

  lemma SubsequenceConcat<T>(s1: seq<T>, t1: seq<T>, s2: seq<T>, t2: seq<T>)
    requires IsSubsequence(s1, t1) && IsSubsequence(s2, t2)
    ensures IsSubsequence(s1 + s2, t1 + t2)
  {
    var f :| Embeds(f, s1, t1);
    var g :| Embeds(g, s2, t2);
    assert Embeds(f + seq(|g|, i requires 0 <= i < |g| => |t1| + g[i]), s1 + s2, t1 + t2);
  }

  lemma SubsequenceEmpty<T>(t: seq<T>)
    ensures IsSubsequence([], t)
  {
    assert Embeds([], [], t);
  }

  /** Both sequences end in `x`; what lies between in the second one is skipped. */
  lemma SubsequenceExtend<T>(s: seq<T>, t: seq<T>, gap: seq<T>, x: T)
    requires IsSubsequence(s, t)
    ensures IsSubsequence(s + [x], t + gap + [x])
  {
    var f :| Embeds(f, s, t);
    var next: nat := |t| + |gap|;
    assert Embeds(f + [next], s + [x], t + gap + [x]);
  }

  /** Inserting an element anywhere keeps every subsequence. */
  lemma SubsequenceInsert<T>(s: seq<T>, a: seq<T>, x: T, b: seq<T>)
    requires IsSubsequence(s, a + b)
    ensures IsSubsequence(s, a + [x] + b)
  {
    var f :| Embeds(f, s, a + b);
    assert Embeds(seq(|f|, i requires 0 <= i < |f| => if f[i] < |a| then f[i] else f[i] + 1), s, a + [x] + b);
  }

  lemma SubsequenceKeepsMember<T>(s: seq<T>, t: seq<T>, x: T)
    requires IsSubsequence(s, t) && x in s
    ensures x in t
  {
    var f :| Embeds(f, s, t);
    var i :| 0 <= i < |s| && s[i] == x;
    assert t[f[i]] == x;
  }

  lemma SubsequenceKeepsOrder<T>(s: seq<T>, t: seq<T>, x: T, y: T)
    requires IsSubsequence(s, t) && Before(s, x, y)
    ensures Before(t, x, y)
  {
    var f :| Embeds(f, s, t);
    var i, j :| 0 <= i < j < |s| && s[i] == x && s[j] == y;
    assert t[f[i]] == x && t[f[j]] == y;
  }

  lemma NoDuplicatesCount<T>(s: seq<T>)
    requires NoDuplicates(s)
    ensures |Elements(s)| == |s|
  {
    if s != [] {
      var n := |s| - 1;
      NoDuplicatesCount(s[..n]);
      assert s == s[..n] + [s[n]];
      assert Elements(s) == Elements(s[..n]) + {s[n]};
    }
  }

  /** Two repetition-free sequences over the same elements are equal when every adjacent pair
      of one is ordered the same way in the other. */
  lemma AdjacentOrderDetermines<T>(s: seq<T>, t: seq<T>)
    requires NoDuplicates(s) && NoDuplicates(t)
    requires Elements(s) == Elements(t)
    requires forall k :: 0 < k < |s| ==> Before(t, s[k - 1], s[k])
    ensures s == t
  {
    NoDuplicatesCount(s);
    NoDuplicatesCount(t);
    assert forall k :: 0 <= k < |s| ==> s[k] in Elements(s);
    var pos := seq(|s|, k requires 0 <= k < |s| => var p :| 0 <= p < |t| && t[p] == s[k]; p);
    forall k | 0 < k < |s|
      ensures pos[k - 1] < pos[k]
    {
      assert Before(t, s[k - 1], s[k]);
    }
    StrictlyIncreasingIsIdentity(pos);
    assert forall k :: 0 <= k < |s| ==> t[pos[k]] == s[k];
  }

  lemma StrictlyIncreasingIsIdentity(f: seq<int>)
    requires forall k :: 0 <= k < |f| ==> 0 <= f[k] < |f|
    requires forall k :: 0 < k < |f| ==> f[k - 1] < f[k]
    ensures forall k :: 0 <= k < |f| ==> f[k] == k
  {
    var k := 0;
    while k < |f|
      invariant 0 <= k <= |f|
      invariant forall i :: 0 <= i < k ==> f[i] >= i
    {
      if k > 0 { assert f[k - 1] < f[k]; }
      k := k + 1;
    }
    while 0 < k
      invariant 0 <= k <= |f|
      invariant forall i :: k <= i < |f| ==> f[i] <= i
    {
      k := k - 1;
      if k + 1 < |f| { assert f[k + 1 - 1] < f[k + 1]; }
    }
  }
}
