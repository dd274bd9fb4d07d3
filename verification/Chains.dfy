/** Chains of references: a finite partial function and what following it leads to. Bounds and alias
    statements both make such chains. */
module Chains {
  import opened Common

  /** The element `k` references after `x`, or nothing when the chain is shorter. */
  ghost function Follow<T>(next: map<T, T>, x: T, k: nat): Option<T> {
    if k == 0 then Some(x)
    else if x in next then Follow(next, next[x], k - 1)
    else None
  }

  /** The chain from `x` is finite. */
  ghost predicate Ends<T>(next: map<T, T>, x: T) {
    exists k: nat :: Follow(next, x, k) == None
  }

  /** The chain from `x` is finite and `r` is its last element. */
  ghost predicate EndsAt<T>(next: map<T, T>, x: T, r: T) {
    r !in next && exists k: nat :: Follow(next, x, k) == Some(r)
  }

  /** The chain from `x` runs into a circle; `x` itself need not be on it. */
  ghost predicate Circles<T>(next: map<T, T>, x: T) {
    exists i: nat, j: nat :: i < j && Follow(next, x, i) == Follow(next, x, j) != None
  }

  ghost predicate Closed<T>(next: map<T, T>, s: set<T>) {
    forall x :: x in next && x in s ==> next[x] in s
  }

  lemma {:induction false} FollowAdd<T>(next: map<T, T>, x: T, i: nat, j: nat)
    requires Follow(next, x, i).Some?
    ensures Follow(next, x, i + j) == Follow(next, Follow(next, x, i).value, j)
    decreases i
  {
    if i > 0 {
      FollowAdd(next, next[x], i - 1, j);
    }
  }

  lemma FollowStep<T>(next: map<T, T>, x: T, k: nat)
    requires Follow(next, x, k).Some?
    ensures var y := Follow(next, x, k).value;
            Follow(next, x, k + 1) == if y in next then Some(next[y]) else None
  {
    FollowAdd(next, x, k, 1);
    var y := Follow(next, x, k).value;
    if y in next {
      assert Follow(next, y, 1) == Follow(next, next[y], 0);
    }
  }

  lemma {:induction false} NoneStays<T>(next: map<T, T>, x: T, i: nat, j: nat)
    requires i <= j && Follow(next, x, i) == None
    ensures Follow(next, x, j) == None
    decreases i
  {
    if x in next {
      NoneStays(next, next[x], i - 1, j - 1);
    }
  }

  lemma {:induction false} FollowStays<T>(next: map<T, T>, s: set<T>, x: T, k: nat)
    requires Closed(next, s) && x in s && Follow(next, x, k).Some?
    ensures Follow(next, x, k).value in s
    decreases k
  {
    if k > 0 {
      FollowStays(next, s, next[x], k - 1);
    }
  }

  /** What repeats once repeats from there on. */
  lemma Repeats<T>(next: map<T, T>, x: T, i: nat, j: nat, k: nat)
    requires i <= j && i <= k && Follow(next, x, i) == Follow(next, x, j) != None
    ensures Follow(next, x, k) == Follow(next, x, k + (j - i))
  {
    FollowAdd(next, x, i, k - i);
    FollowAdd(next, x, j, k - i);
  }

  lemma {:induction false} CircleNeverEnds<T>(next: map<T, T>, x: T, i: nat, j: nat, k: nat)
    requires i < j && Follow(next, x, i) == Follow(next, x, j) != None
    ensures Follow(next, x, k) != None
    decreases k
  {
    if k <= j {
      if Follow(next, x, k) == None {
        NoneStays(next, x, k, j);
      }
    } else {
      Repeats(next, x, i, j, k - (j - i));
      CircleNeverEnds(next, x, i, j, k - (j - i));
    }
  }

  /** More elements than the set has: one of them repeats. */
  lemma {:induction false} Pigeonhole<T>(q: seq<T>, s: set<T>) returns (i: nat, j: nat)
    requires |q| > |s| && forall k :: 0 <= k < |q| ==> q[k] in s
    ensures i < j < |q| && q[i] == q[j]
    decreases |s|
  {
    var n := |q| - 1;
    if k :| 0 <= k < n && q[k] == q[n] {
      return k, n;
    }
    i, j := Pigeonhole(q[..n], s - {q[n]});
  }

  /** A chain longer than the set it stays in has repeated already. */
  lemma LongChainRepeats<T>(next: map<T, T>, s: set<T>, x: T) returns (i: nat, j: nat)
    requires Closed(next, s) && x in s && Follow(next, x, |s|) != None
    ensures i < j <= |s| && Follow(next, x, i) == Follow(next, x, j) != None
  {
    forall k: nat | k <= |s|
      ensures Follow(next, x, k).Some? && Follow(next, x, k).value in s
    {
      if Follow(next, x, k) == None {
        NoneStays(next, x, k, |s|);
      }
      FollowStays(next, s, x, k);
    }
    var q := seq(|s| + 1, k requires 0 <= k < |s| + 1 => Follow(next, x, k).value);
    i, j := Pigeonhole(q, s);
    assert q[i] == Follow(next, x, i).value && q[j] == Follow(next, x, j).value;
  }

  /** A chain either ends at exactly one element or circles. */
  lemma EndsOrCircles<T>(next: map<T, T>, s: set<T>, x: T)
    requires Closed(next, s) && x in s
    ensures Ends(next, x) <==> !Circles(next, x)
    ensures Ends(next, x) <==> Follow(next, x, |s|) == None
  {
    if Follow(next, x, |s|) != None {
      var i, j := LongChainRepeats(next, s, x);
      assert Circles(next, x);
    }
    if i: nat, j: nat :| i < j && Follow(next, x, i) == Follow(next, x, j) != None {
      forall k: nat
        ensures Follow(next, x, k) != None
      {
        CircleNeverEnds(next, x, i, j, k);
      }
    }
  }

  /** From a place that is at least `|s|` references away, a chain that goes on comes back within `|s|` more. */
  lemma ComesBack<T>(next: map<T, T>, s: set<T>, x: T, p: nat, q: nat)
    requires Closed(next, s) && x in s && |s| <= p && p + |s| <= q && Follow(next, x, q) != None
    ensures exists k: nat :: p < k <= p + |s| && Follow(next, x, k) == Follow(next, x, p)
  {
    if Follow(next, x, |s|) == None {
      NoneStays(next, x, |s|, q);
    }
    var i, j := LongChainRepeats(next, s, x);
    Repeats(next, x, i, j, p);
    assert p < p + (j - i) <= p + |s|;
  }

  /** No element is its own proper descendant exactly when every chain ends: then the references form
      a forest. */
  lemma ForestExactlyIfAllEnd<T>(next: map<T, T>, s: set<T>)
    requires Closed(next, s)
    ensures (forall x :: x in s ==> Ends(next, x)) <==>
        (forall x, k: nat :: x in s && k > 0 ==> Follow(next, x, k) != Some(x))
  {
    if x, k: nat :| x in s && k > 0 && Follow(next, x, k) == Some(x) {
      EndsOrCircles(next, s, x);
      assert Follow(next, x, 0) == Follow(next, x, k);
      assert Circles(next, x);
    }
    if x :| x in s && !Ends(next, x) {
      EndsOrCircles(next, s, x);
      var i: nat, j: nat :| i < j && Follow(next, x, i) == Follow(next, x, j) != None;
      var y := Follow(next, x, i).value;
      FollowStays(next, s, x, i);
      FollowAdd(next, x, i, j - i);
      assert Follow(next, y, j - i) == Some(y);
    }
  }

  // ---- Ends

  lemma IsEnd<T>(next: map<T, T>, x: T, k: nat, r: T)
    requires Follow(next, x, k) == Some(r) && r !in next
    ensures EndsAt(next, x, r)
  {
  }

  lemma EndIsUnique<T>(next: map<T, T>, x: T, r: T, t: T)
    requires EndsAt(next, x, r) && EndsAt(next, x, t)
    ensures r == t
  {
    var i: nat :| Follow(next, x, i) == Some(r);
    var j: nat :| Follow(next, x, j) == Some(t);
    FollowStep(next, x, i);
    FollowStep(next, x, j);
    if i < j {
      NoneStays(next, x, i + 1, j);
    } else if j < i {
      NoneStays(next, x, j + 1, i);
    }
  }

  lemma {:induction false} FiniteHasEnd<T>(next: map<T, T>, x: T, k: nat) returns (r: T)
    requires Follow(next, x, k) == None
    ensures EndsAt(next, x, r)
    decreases k
  {
    if x !in next {
      assert Follow(next, x, 0) == Some(x);
      return x;
    }
    r := FiniteHasEnd(next, next[x], k - 1);
    var i: nat :| Follow(next, next[x], i) == Some(r);
    assert Follow(next, x, i + 1) == Some(r);
  }

  lemma EndsExactlyAtSomeEnd<T>(next: map<T, T>, x: T)
    ensures Ends(next, x) <==> exists r :: EndsAt(next, x, r)
  {
    if k: nat :| Follow(next, x, k) == None {
      var r := FiniteHasEnd(next, x, k);
    }
    if r :| EndsAt(next, x, r) {
      var k: nat :| Follow(next, x, k) == Some(r);
      FollowStep(next, x, k);
    }
  }

  /** Pointing an element of a finite chain straight at the chain's end changes no end. */
  lemma ShortcutKeepsEnds<T>(next: map<T, T>, x: T, r: T, y: T, t: T)
    requires x in next && EndsAt(next, x, r)
    ensures EndsAt(next, y, t) <==> EndsAt(next[x := r], y, t)
  {
    if EndsAt(next, y, t) {
      var k: nat :| Follow(next, y, k) == Some(t);
      ShortcutKeepsEnd(next, x, r, y, t, k);
    }
    if EndsAt(next[x := r], y, t) {
      var k: nat :| Follow(next[x := r], y, k) == Some(t);
      ShortcutAddsNoEnd(next, x, r, y, t, k);
    }
  }

  lemma {:induction false} ShortcutKeepsEnd<T>(next: map<T, T>, x: T, r: T, y: T, t: T, k: nat)
    requires x in next && EndsAt(next, x, r)
    requires Follow(next, y, k) == Some(t) && t !in next
    ensures EndsAt(next[x := r], y, t)
    decreases k
  {
    var next' := next[x := r];
    if k == 0 {
      assert Follow(next', y, 0) == Some(t);
    } else if y == x {
      EndIsUnique(next, x, r, t);
      assert Follow(next', r, 0) == Some(r);
      assert Follow(next', x, 1) == Some(r);
    } else {
      ShortcutKeepsEnd(next, x, r, next[y], t, k - 1);
      var i: nat :| Follow(next', next[y], i) == Some(t);
      assert Follow(next', y, i + 1) == Some(t);
    }
  }

  lemma {:induction false} ShortcutAddsNoEnd<T>(next: map<T, T>, x: T, r: T, y: T, t: T, k: nat)
    requires x in next && EndsAt(next, x, r)
    requires Follow(next[x := r], y, k) == Some(t) && t !in next[x := r]
    ensures EndsAt(next, y, t)
    decreases k
  {
    var next' := next[x := r];
    if k == 0 {
      assert Follow(next, y, 0) == Some(t);
    } else if y == x {
      assert Follow(next', r, k - 1) == Some(t);
    } else {
      ShortcutAddsNoEnd(next, x, r, next[y], t, k - 1);
      var i: nat :| Follow(next, next[y], i) == Some(t);
      assert Follow(next, y, i + 1) == Some(t);
    }
  }
}
