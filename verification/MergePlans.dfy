/** When exactly all order statements can be merged. A plan says the same as the merge without its insertions: it
    knows only whether statements have exactly one combined order. */
module MergePlans {
  import opened Subsequences
  import opened OrderedLists
  import opened MergeExactness

  /** Exactly one order combines the lists. */
  ghost predicate Determined<T(!new)>(lists: seq<seq<T>>) {
    exists w: seq<T> :: OnlyOrderOf(w, lists)
  }

  // ---- The only order of some lists, inside an order of more lists

  /** The items of `v` that are also in `c`. */
  ghost function Filter<T>(v: seq<T>, c: seq<T>): seq<T> {
    if v == [] then [] else (if v[0] in c then [v[0]] else []) + Filter(v[1..], c)
  }

  lemma {:induction false} FilterHas<T>(v: seq<T>, c: seq<T>, x: T)
    ensures x in Filter(v, c) <==> x in v && x in c
  {
    if v != [] {
      FilterHas(v[1..], c, x);
      assert v == [v[0]] + v[1..];
    }
  }

  lemma {:induction false} FilterIsSubsequence<T>(v: seq<T>, c: seq<T>)
    ensures IsSubsequence(Filter(v, c), v)
  {
    if v == [] {
      SubsequenceEmpty(v);
    } else {
      hide IsSubsequence;
      FilterIsSubsequence(v[1..], c);
      var head := if v[0] in c then [v[0]] else [];
      if v[0] in c {
        SubsequenceReflexive(head);
      } else {
        SubsequenceEmpty([v[0]]);
      }
      SubsequenceConcat(head, [v[0]], Filter(v[1..], c), v[1..]);
      assert v == [v[0]] + v[1..];
    }
  }

  /** The first item of `v` is the first of the subsequence, or is not used. */
  lemma SubsequenceFirst<T>(s: seq<T>, v: seq<T>)
    requires IsSubsequence(s, v) && v != []
    ensures || IsSubsequence(s, v[1..])
            || (s != [] && s[0] == v[0] && IsSubsequence(s[1..], v[1..]))
  {
    var f :| Embeds(f, s, v);
    if s == [] || f[0] > 0 {
      assert s != [] ==> forall i :: 0 <= i < |s| ==> f[i] >= f[0];
      assert Embeds(seq(|f|, i requires 0 <= i < |f| => f[i] - 1), s, v[1..]);
    } else {
      assert Embeds(seq(|f| - 1, i requires 0 <= i < |f| - 1 => f[i + 1] - 1), s[1..], v[1..]);
    }
  }

  lemma {:induction false} FilterKeeps<T>(s: seq<T>, v: seq<T>, c: seq<T>)
    requires IsSubsequence(s, v) && forall x :: x in s ==> x in c
    ensures IsSubsequence(s, Filter(v, c))
    decreases |v|
  {
    hide IsSubsequence;
    if v == [] {
      assert Filter(v, c) == v;
    } else {
      SubsequenceFirst(s, v);
      var head := if v[0] in c then [v[0]] else [];
      if IsSubsequence(s, v[1..]) {
        FilterKeeps(s, v[1..], c);
        SubsequenceEmpty(head);
        SubsequenceConcat([], head, s, Filter(v[1..], c));
        assert [] + s == s;
      } else {
        FilterKeeps(s[1..], v[1..], c);
        SubsequenceReflexive([v[0]]);
        SubsequenceConcat([v[0]], [v[0]], s[1..], Filter(v[1..], c));
        assert s == [s[0]] + s[1..];
      }
    }
  }

  /** The only order of some lists is a subsequence of every order that they are subsequences of. */
  lemma OnlyOrderInside<T(!new)>(c: seq<T>, lists: seq<seq<T>>, v: seq<T>)
    requires OnlyOrderOf(c, lists) && NoDuplicates(v) && forall l :: l in lists ==> IsSubsequence(l, v)
    ensures IsSubsequence(c, v)
  {
    hide IsSubsequence;
    var u := Filter(v, c);
    FilterIsSubsequence(v, c);
    SubsequenceNoDuplicates(u, v);
    forall x ensures x in u <==> x in v && x in c {
      FilterHas(v, c, x);
    }
    forall l | l in lists ensures IsSubsequence(l, u) {
      assert forall x :: x in l ==> x in c;
      FilterKeeps(l, v, c);
    }
    forall l, x | l in lists && x in l ensures x in u {
      SubsequenceKeepsMember(l, v, x);
    }
    assert CombinesAll(u, lists);
  }

  /** Combining one more list with some lists is combining it with their only order. */
  lemma CombinesVia<T(!new)>(c: seq<T>, lists: seq<seq<T>>, l: seq<T>, w: seq<T>)
    requires OnlyOrderOf(c, lists)
    ensures CombinesAll(w, lists + [l]) <==> CombinesAll(w, [c, l])
  {
    hide IsSubsequence;
    assert forall k :: k in lists + [l] <==> k in lists || k == l;
    assert forall k :: k in [c, l] <==> k == c || k == l;
    if CombinesAll(w, lists + [l]) {
      OnlyOrderInside(c, lists, w);
      forall x | x in w ensures Listed([c, l], x) {
        if x !in l {
          var k :| k in lists + [l] && x in k;
          assert x in c;
        }
      }
      forall x | x in c ensures x in w {
        SubsequenceKeepsMember(c, w, x);
      }
    }
    if CombinesAll(w, [c, l]) {
      forall k | k in lists ensures IsSubsequence(k, w) {
        SubsequenceTransitive(k, c, w);
      }
      forall x | x in w ensures Listed(lists + [l], x) {
        if x !in l {
          assert x in c;
          var k :| k in lists && x in k;
          assert k in lists + [l];
        }
      }
    }
  }

  lemma OnlyOrderVia<T(!new)>(c: seq<T>, lists: seq<seq<T>>, l: seq<T>, w: seq<T>)
    requires OnlyOrderOf(c, lists)
    ensures OnlyOrderOf(w, lists + [l]) <==> OnlyOrder(w, c, l)
  {
    hide CombinesAll;
    forall v: seq<T> ensures CombinesAll(v, lists + [l]) <==> CombinesAll(v, [c, l]) {
      CombinesVia(c, lists, l, v);
    }
  }

  /** An attempt at the list of some merged lists succeeds exactly if these and the statement are determined. */
  lemma AttemptExactly<T(!new)>(c: seq<T>, lists: seq<seq<T>>, l: seq<T>)
    requires OnlyOrderOf(c, lists)
    ensures Merge(c, l).ok <==> Determined(lists + [l])
    ensures Merge(c, l).ok ==> OnlyOrderOf(Merge(c, l).list, lists + [l])
  {
    hide CombinesAll, Merge;
    assert NoDuplicates(c) by { CombinedHasNoDuplicates(c, lists); }
    MergeSucceedsExactly(c, l);
    if Merge(c, l).ok {
      OnlyOrderVia(c, lists, l, Merge(c, l).list);
    }
    if w: seq<T> :| OnlyOrderOf(w, lists + [l]) {
      OnlyOrderVia(c, lists, l, w);
    }
  }

  lemma CombinedHasNoDuplicates<T>(c: seq<T>, lists: seq<seq<T>>)
    requires CombinesAll(c, lists)
    ensures NoDuplicates(c)
  {
  }

  // ---- What a failed attempt leaves

  /** The attempt stands at positions `o` and `n`, and `v` has what is left of both lists in order, and nothing of
      what is before. */
  ghost predicate Fits<T>(v: seq<T>, list: seq<T>, o: nat, l: seq<T>, n: nat) {
    && o <= |list| && n <= |l| && NoDuplicates(v)
    && IsSubsequence(list[o..], v) && IsSubsequence(l[n..], v)
    && Disjoint(list[..o], v)
  }

  /** Where an item of a subsequence stands. */
  lemma PlaceOf<T>(s: seq<T>, v: seq<T>, k: nat) returns (j: nat)
    requires IsSubsequence(s, v) && k < |s| && NoDuplicates(v)
    ensures j < |v| && v[j] == s[k] && IsSubsequence(s[k + 1..], v[j + 1..])
    ensures forall x :: x in s[..k] ==> x in v[..j]
    ensures forall x :: x in s[k..] ==> x !in v[..j]
  {
    var f :| Embeds(f, s, v);
    j := f[k];
    assert Embeds(seq(|s| - k - 1, i requires 0 <= i < |s| - k - 1 => f[i + k + 1] - (j + 1)), s[k + 1..], v[j + 1..]);
    forall x | x in s[..k] ensures x in v[..j] {
      var i :| 0 <= i < k && s[i] == x;
      assert v[..j][f[i]] == x;
    }
    forall x | x in s[k..] ensures x !in v[..j] {
      var i :| k <= i < |s| && s[i] == x;
      assert v[f[i]] == x && f[i] >= j;
    }
  }

  ghost predicate Disjoint<T>(a: seq<T>, b: seq<T>) {
    forall x :: x in a ==> x !in b
  }

  /** Both lists have an item: what is left behind it. */
  lemma FitsMove<T>(v: seq<T>, s: seq<T>, l: seq<T>, i: nat, k: nat) returns (j: nat)
    requires NoDuplicates(v) && IsSubsequence(s, v) && IsSubsequence(l, v)
    requires i < |s| && k < |l| && s[i] == l[k]
    ensures j < |v| && v[j] == s[i] && NoDuplicates(v[j + 1..])
    ensures IsSubsequence(s[i + 1..], v[j + 1..]) && IsSubsequence(l[k + 1..], v[j + 1..])
    ensures Disjoint(s[..i + 1], v[j + 1..]) && Disjoint(l[..k + 1], v[j + 1..])
    ensures Disjoint(l[..k], s[i..])
  {
    hide IsSubsequence;
    j := PlaceOf(s, v, i);
    var j' := PlaceOf(l, v, k);
    assert j == j';
    assert v == v[..j] + [v[j]] + v[j + 1..];
    assert s[..i + 1] == s[..i] + [s[i]] && l[..k + 1] == l[..k] + [l[k]];
    assert forall x :: x in v[..j] ==> x !in v[j + 1..];
    assert v[j] !in v[j + 1..];
  }

  /** The items are the same. */
  lemma FitsSame<T>(v: seq<T>, list: seq<T>, o: nat, l: seq<T>, n: nat) returns (v': seq<T>)
    requires Fits(v, list, o, l, n) && o < |list| && n < |l| && list[o] == l[n]
    ensures Fits(v', list, o + 1, l, n + 1)
  {
    hide IsSubsequence;
    var j := FitsMove(v, list[o..], l[n..], 0, 0);
    v' := v[j + 1..];
    assert list[o..][1..] == list[o + 1..] && l[n..][1..] == l[n + 1..];
    assert list[..o + 1] == list[..o] + [list[o]] && list[o..][..1] == [list[o]];
    assert forall x :: x in v' ==> x in v;
  }

  /** The list has a gap: what is inserted is new. */
  lemma FitsGapInList<T>(v: seq<T>, list: seq<T>, o: nat, l: seq<T>, n: nat, m: nat) returns (v': seq<T>)
    requires Fits(v, list, o, l, n) && o < |list| && n < m < |l| && l[m] == list[o]
    ensures InsertRun(list, o, l[n..m]).ok
    ensures Fits(v', InsertRun(list, o, l[n..m]).list, o + (m - n) + 1, l, m + 1)
  {
    hide IsSubsequence, InsertRun;
    var s, t, run := list[o..], l[n..], l[n..m];
    var j := FitsMove(v, s, t, 0, m - n);
    v' := v[j + 1..];
    assert t[..m - n] == run;
    SubsequenceNoDuplicates(t, v);
    assert NoDuplicates(run);
    assert list == list[..o] + s;
    forall x | x in run ensures x !in list {
      assert x in t;
      SubsequenceKeepsMember(t, v, x);
    }
    InsertRunSucceeds(list, o, run);
    InsertRunInserts(list, o, run);
    var list' := list[..o] + run + list[o..];
    var o' := o + (m - n) + 1;
    assert list'[o'..] == list[o + 1..] == s[1..] && t[m - n + 1..] == l[m + 1..];
    assert list'[..o'] == list[..o] + run + [list[o]] && s[..1] == [list[o]];
    assert forall x :: x in v' ==> x in v;
  }

  /** The new items have a gap. */
  lemma FitsGapInNew<T>(v: seq<T>, list: seq<T>, o: nat, l: seq<T>, n: nat, p: nat) returns (v': seq<T>)
    requires Fits(v, list, o, l, n) && o < p < |list| && n < |l| && list[p] == l[n]
    ensures Fits(v', list, p + 1, l, n + 1)
  {
    hide IsSubsequence;
    var j := FitsMove(v, list[o..], l[n..], p - o, 0);
    v' := v[j + 1..];
    assert list[o..][p - o + 1..] == list[p + 1..] && l[n..][1..] == l[n + 1..];
    assert list[..p + 1] == list[..o] + list[o..][..p - o + 1];
    assert forall x :: x in v' ==> x in v;
  }

  /** The rest of the new items can be appended. */
  lemma FitsRest<T>(v: seq<T>, list: seq<T>, l: seq<T>, n: nat)
    requires Fits(v, list, |list|, l, n)
    ensures InsertRun(list, |list|, l[n..]).ok
  {
    SubsequenceNoDuplicates(l[n..], v);
    assert list[..|list|] == list;
    forall x | x in l[n..] ensures x !in list {
      SubsequenceKeepsMember(l[n..], v, x);
    }
    InsertRunSucceeds(list, |list|, l[n..]);
  }

  /** A step is the same for all beginnings of the new items that contain what it takes. */
  lemma StepOfPrefix<T>(list: seq<T>, o: nat, l: seq<T>, n: nat, q: nat)
    requires o < |list| && n < |l| && OverlapStep(list, o, l, n).Go? && OverlapStep(list, o, l, n).n <= q <= |l|
    ensures OverlapStep(list, o, l[..q], n) == OverlapStep(list, o, l, n)
  {
    hide InsertRun;
    var m, m' := Find(l, list[o], n + 1), Find(l[..q], list[o], n + 1);
    if l[n] != list[o] {
      if m < |l| {
        assert m < q && m == m' by {
          assert l[..q][m] == l[m];
        }
        assert l[..q][n..m] == l[n..m];
      } else {
        assert m' == q;
      }
    }
  }

  /** Where a step is stuck, the attempt fails. */
  lemma StuckStep<T>(list: seq<T>, o: nat, l: seq<T>, n: nat, q: nat)
    requires n < q <= |l| && Stuck(list, o, l, n)
    ensures MergeOverlap(list, o, l[..q], n) == Outcome(false, list)
  {
    assert Find(l[..q], list[o], n + 1) == q;
  }

  /** Both searches of a step fail. */
  ghost predicate Stuck<T>(list: seq<T>, o: nat, l: seq<T>, n: nat) {
    && o < |list| && n < |l| && l[n] != list[o]
    && Find(l, list[o], n + 1) == |l| && Find(list, l[n], o + 1) == |list|
  }

  /** A step goes on, or is stuck; no insertion fails. */
  lemma FitsStep<T>(v: seq<T>, list: seq<T>, o: nat, l: seq<T>, n: nat) returns (v': seq<T>)
    requires Fits(v, list, o, l, n) && o < |list| && n < |l|
    ensures OverlapStep(list, o, l, n).Stop? ==>
              Stuck(list, o, l, n) && OverlapStep(list, o, l, n).outcome == Outcome(false, list)
    ensures OverlapStep(list, o, l, n).Go? ==>
              var s := OverlapStep(list, o, l, n); Fits(v', s.list, s.o, l, s.n)
  {
    hide Fits, InsertRun;
    v' := v;
    var m := Find(l, list[o], n + 1);
    if l[n] == list[o] {
      v' := FitsSame(v, list, o, l, n);
    } else if m < |l| {
      v' := FitsGapInList(v, list, o, l, n, m);
    } else if Find(list, l[n], o + 1) < |list| {
      v' := FitsGapInNew(v, list, o, l, n, Find(list, l[n], o + 1));
    }
  }

  /** Where a failing attempt stops: at the end of the longest beginning that can be merged. */
  lemma {:induction false} FailsAt<T>(v: seq<T>, list: seq<T>, o: nat, l: seq<T>, n: nat) returns (p: nat)
    requires Fits(v, list, o, l, n) && !MergeOverlap(list, o, l, n).ok
    ensures n <= p < |l|
    ensures MergeOverlap(list, o, l[..p], n) == Outcome(true, MergeOverlap(list, o, l, n).list)
    ensures forall q :: p < q <= |l| ==> !MergeOverlap(list, o, l[..q], n).ok
    decreases |l| - n
  {
    assert o <= |list|;
    hide Fits, InsertRun, OverlapStep, Stuck;
    if o == |list| {
      FitsRest(v, list, l, n);
      assert false;
    } else {
      var v' := FitsStep(v, list, o, l, n);
      var s := OverlapStep(list, o, l, n);
      if s.Stop? {
        p := n;
        assert l[..|l|] == l;
        forall q | p < q <= |l| ensures !MergeOverlap(list, o, l[..q], n).ok {
          StuckStep(list, o, l, n, q);
        }
      } else {
        p := FailsAt(v', s.list, s.o, l, s.n);
        forall q | p <= q <= |l| ensures MergeOverlap(list, o, l[..q], n) == MergeOverlap(s.list, s.o, l[..q], s.n) {
          StepOfPrefix(list, o, l, n, q);
        }
      }
    }
  }

  /** A failed attempt at lists that can be combined has merged the longest beginning of the statement that it can
      merge, and nothing else. */
  lemma LongestBeginning<T>(c: seq<T>, l: seq<T>, v: seq<T>) returns (p: nat)
    requires NoDuplicates(v) && IsSubsequence(c, v) && IsSubsequence(l, v) && !Merge(c, l).ok
    ensures p < |l| && Merge(c, l[..p]) == Outcome(true, Merge(c, l).list)
    ensures forall q :: p < q <= |l| ==> !Merge(c, l[..q]).ok
  {
    hide IsSubsequence, MergeOverlap, InsertRun;
    SubsequenceNoDuplicates(l, v);
    SubsequenceNoDuplicates(c, v);
    if c == [] {
      InsertRunSucceeds(c, 0, l);
      assert false;
    } else {
      var n := FirstCommon(l, c, 0);
      var o := if n < |l| then Find(c, l[n], 0) else 0;
      forall q | 0 < q <= |l| ensures FirstCommon(l[..q], c, 0) == if n < q then n else q {
        FirstCommonOfPrefix(l, c, q);
      }
      if n == |l| || (n != 0 && o != 0) {
        p := 0;
      } else {
        p := StartFails(c, l, v, n, o);
      }
    }
  }

  lemma FirstCommonOfPrefix<T>(l: seq<T>, c: seq<T>, q: nat)
    requires q <= |l|
    ensures FirstCommon(l[..q], c, 0) == if FirstCommon(l, c, 0) < q then FirstCommon(l, c, 0) else q
  {
    var n, n' := FirstCommon(l, c, 0), FirstCommon(l[..q], c, 0);
    assert n' < q ==> l[..q][n'] == l[n'];
    assert n < q ==> l[..q][n] == l[n];
  }

  /** The attempt gets into the overlapping part. */
  lemma StartFails<T>(c: seq<T>, l: seq<T>, v: seq<T>, n: nat, o: nat) returns (p: nat)
    requires NoDuplicates(v) && IsSubsequence(c, v) && IsSubsequence(l, v) && !Merge(c, l).ok && c != []
    requires n == FirstCommon(l, c, 0) < |l| && o == Find(c, l[n], 0) && (n == 0 || o == 0)
    ensures p < |l| && Merge(c, l[..p]) == Outcome(true, Merge(c, l).list)
    ensures forall q :: p < q <= |l| ==> !Merge(c, l[..q]).ok
  {
    hide IsSubsequence, MergeOverlap, InsertRun;
    var v', list := StartFits(c, l, v, n, o);
    p := FailsAt(v', list, o + n + 1, l, n + 1);
    forall q | p <= q <= |l| ensures Merge(c, l[..q]) == MergeOverlap(list, o + n + 1, l[..q], n + 1) {
      FirstCommonOfPrefix(l, c, q);
      assert l[..q][..n] == l[..n] && l[..q][n] == l[n];
    }
  }

  lemma StartFits<T>(c: seq<T>, l: seq<T>, v: seq<T>, n: nat, o: nat) returns (v': seq<T>, list: seq<T>)
    requires NoDuplicates(v) && IsSubsequence(c, v) && IsSubsequence(l, v) && c != []
    requires n == FirstCommon(l, c, 0) < |l| && o == Find(c, l[n], 0) && (n == 0 || o == 0)
    ensures list == if n == 0 then c else InsertRun(c, 0, l[..n]).list
    ensures n > 0 ==> InsertRun(c, 0, l[..n]).ok
    ensures Fits(v', list, o + n + 1, l, n + 1)
    ensures Merge(c, l) == MergeOverlap(list, o + n + 1, l, n + 1)
  {
    hide IsSubsequence, MergeOverlap, InsertRun;
    assert l[n] in c && c[o] == l[n];
    var j := FitsMove(v, c, l, o, n);
    v' := v[j + 1..];
    if n == 0 {
      list := c;
    } else {
      SubsequenceNoDuplicates(l, v);
      assert NoDuplicates(l[..n]);
      InsertRunSucceeds(c, 0, l[..n]);
      InsertRunInserts(c, 0, l[..n]);
      list := l[..n] + c;
      assert c[..0] + l[..n] + c[0..] == list;
      assert list[n + 1..] == c[1..] && list[..n + 1] == l[..n] + [c[0]];
      assert l[..n + 1] == l[..n] + [l[n]];
    }
    assert Disjoint(list[..o + n + 1], v');
    assert list[o + n + 1..] == c[o + 1..];
  }

  // ---- What a failed attempt leaves in any case

  /** Behind the item that `c` and the beginning of length `p` share, the first `k` of the remaining items are
      inserted at position `o`. The next one is taken, or both searches of a step fail, or the statement begins with
      items that are not in the list while the list begins with another item than the first common one. */
  ghost predicate LeavesAt<T>(c: seq<T>, o: nat, l: seq<T>, p: nat, k: nat, left: seq<T>) {
    && o <= |c| && p + k < |l|
    && (if p == 0 then o == 0 else o > 0 && c[o - 1] == l[p - 1])
    && left == c[..o] + l[p..p + k] + c[o..]
    && (forall j :: 0 <= j < k ==> !Taken(c, l[p..], j))
    && (|| (Taken(c, l[p..], k) && (o == |c| || (c[o] in l[p + k + 1..] && c[o] !in l[p..p + k + 1])))
        || (k == 0 && o < |c| && c[o] !in l[p..] && l[p] !in c[o..])
        || (k == 0 && p == 0 && CommonElsewhere(c, l)))
  }

  /** The first item of `l` that is in `c` is the first of neither. */
  ghost predicate CommonElsewhere<T>(c: seq<T>, l: seq<T>) {
    exists n :: 0 < n < |l| && l[n] in c && c[0] != l[n] && forall j :: 0 <= j < n ==> l[j] !in c
  }

  /** An insertion that fails leaves the items before the first that is taken. */
  lemma RunLeaves<T>(c: seq<T>, o: nat, l: seq<T>, p: nat, m: nat) returns (k: nat)
    requires o <= |c| && p <= m <= |l| && !InsertRun(c, o, l[p..m]).ok
    requires if p == 0 then o == 0 else o > 0 && c[o - 1] == l[p - 1]
    requires if o == |c| then m == |l| else m < |l| && l[m] == c[o] && c[o] !in l[p..m]
    ensures LeavesAt(c, o, l, p, k, InsertRun(c, o, l[p..m]).list)
  {
    hide FirstTaken, InsertRun;
    var run := l[p..m];
    InsertRunExactly(c, o, run);
    k := FirstTaken(c, run, 0);
    assert run[..k] == l[p..p + k];
    forall j | 0 <= j <= k ensures Taken(c, run, j) <==> Taken(c, l[p..], j) {
      assert run[..j] == l[p..][..j] && run[j] == l[p..][j];
    }
    if o < |c| {
      assert l[p + k + 1..][m - (p + k + 1)] == c[o];
      assert forall x :: x in l[p..p + k + 1] ==> x in run;
    }
  }

  /** The overlapping part: the steps before the one that fails have merged a beginning. */
  lemma {:induction false} OverlapLeaves<T>(list: seq<T>, o: nat, l: seq<T>, n: nat)
      returns (c: seq<T>, o': nat, p: nat, k: nat)
    requires 0 < o <= |list| && 0 < n <= |l| && list[o - 1] == l[n - 1] && !MergeOverlap(list, o, l, n).ok
    ensures n <= p <= |l| && MergeOverlap(list, o, l[..p], n) == Outcome(true, c)
    ensures LeavesAt(c, o', l, p, k, MergeOverlap(list, o, l, n).list)
    decreases |l| - n
  {
    hide InsertRun, LeavesAt, OverlapStep;
    c, o', p := list, o, n;
    if o == |list| {
      assert l[n..|l|] == l[n..];
      k := RunLeaves(list, o, l, n, |l|);
    } else {
      var s := OverlapStep(list, o, l, n);
      if s.Stop? {
        k := StepLeaves(list, o, l, n);
      } else {
        StepAligned(list, o, l, n);
        c, o', p, k := OverlapLeaves(s.list, s.o, l, s.n);
        StepOfPrefix(list, o, l, n, p);
      }
    }
  }

  lemma StepAligned<T>(list: seq<T>, o: nat, l: seq<T>, n: nat)
    requires o < |list| && n < |l| && OverlapStep(list, o, l, n).Go?
    ensures var s := OverlapStep(list, o, l, n); s.list[s.o - 1] == l[s.n - 1]
  {
    var m := Find(l, list[o], n + 1);
    if l[n] != list[o] && m < |l| {
      InsertRunInserts(list, o, l[n..m]);
    }
  }

  lemma StepLeaves<T>(list: seq<T>, o: nat, l: seq<T>, n: nat) returns (k: nat)
    requires 0 < o < |list| && 0 < n < |l| && list[o - 1] == l[n - 1] && OverlapStep(list, o, l, n).Stop?
    ensures !OverlapStep(list, o, l, n).outcome.ok ==>
        LeavesAt(list, o, l, n, k, OverlapStep(list, o, l, n).outcome.list)
  {
    hide InsertRun;
    var m := Find(l, list[o], n + 1);
    if m < |l| {
      k := RunLeaves(list, o, l, n, m);
    } else {
      k := 0;
      assert list == list[..o] + l[n..n] + list[o..];
    }
  }

  /** A failed attempt at any list and statement has merged a beginning of the statement as a whole, and may have
      inserted some of the next items as well. */
  lemma FailureLeaves<T>(c: seq<T>, l: seq<T>) returns (c': seq<T>, o: nat, p: nat, k: nat)
    requires !Merge(c, l).ok
    ensures p <= |l| && Merge(c, l[..p]) == Outcome(true, c')
    ensures LeavesAt(c', o, l, p, k, Merge(c, l).list)
  {
    hide MergeOverlap, InsertRun, LeavesAt;
    c', o, p, k := c, 0, 0, 0;
    var n := FirstCommon(l, c, 0);
    if c == [] {
      assert l[0..|l|] == l;
      k := RunLeaves(c, 0, l, 0, |l|);
    } else if n == |l| || (n != 0 && Find(c, l[n], 0) != 0) {
      NothingLeft(c, l);
    } else {
      var j := Find(c, l[n], 0);
      if n != 0 && !InsertRun(c, 0, l[..n]).ok {
        assert l[0..n] == l[..n];
        k := RunLeaves(c, 0, l, 0, n);
      } else {
        var list := if n == 0 then c else InsertRun(c, 0, l[..n]).list;
        if n != 0 {
          InsertRunInserts(c, 0, l[..n]);
        }
        c', o, p, k := OverlapLeaves(list, j + n + 1, l, n + 1);
        FirstCommonOfPrefix(l, c, p);
        assert l[..p][..n] == l[..n] && l[..p][n] == l[n];
      }
    }
  }

  lemma NothingLeft<T>(c: seq<T>, l: seq<T>)
    requires c != [] && l != []
    requires var n := FirstCommon(l, c, 0); n == |l| || (n != 0 && Find(c, l[n], 0) != 0)
    ensures LeavesAt(c, 0, l, 0, 0, c)
  {
    assert c == c[..0] + l[0..0] + c[0..];
    var n := FirstCommon(l, c, 0);
    assert n < |l| ==> CommonElsewhere(c, l);
  }

  // ---- Plans

  /** What a plan has got to: the lists that have been merged, beginnings of statements among them, which statements
      are merged as a whole, how many of this round wait, and whether the round merged any. */
  datatype Plan<T> = Plan(done: seq<seq<T>>, merged: seq<bool>, waiting: nat, changed: bool)

  /** The longest beginning, of at most `p` items, that is determined together with what has been merged. */
  ghost function Longest<T(!new)>(done: seq<seq<T>>, l: seq<T>, p: nat): (r: nat)
    requires p <= |l|
    ensures r <= p && (r == 0 || Determined(done + [l[..r]]))
    ensures forall q :: r < q <= p ==> !Determined(done + [l[..q]])
  {
    if p == 0 || Determined(done + [l[..p]]) then p else Longest(done, l, p - 1)
  }

  /** A statement that is not merged as a whole contributes its longest determined beginning, and waits. */
  ghost function PlanAttempt<T(!new)>(r: Plan<T>, lists: seq<seq<T>>, i: nat): (r': Plan<T>)
    requires |r.merged| == |lists| && i < |lists|
    ensures |r'.merged| == |lists|
    ensures r.changed ==> r'.changed
    ensures Unmerged(r'.merged) == Unmerged(r.merged) - if r'.merged == r.merged then 0 else 1
    ensures r'.changed <==> r.changed || r'.merged != r.merged
  {
    if r.merged[i] then r
    else
      var l := lists[i];
      var p := Longest(r.done, l, |l|);
      UnmergedUpdate(r.merged, i);
      if p == |l| then Plan(r.done + [l], r.merged[i := true], r.waiting, true)
      else Plan(r.done + [l[..p]], r.merged, r.waiting + 1, r.changed)
  }

  ghost function PlanRound<T(!new)>(r: Plan<T>, lists: seq<seq<T>>, i: nat): (r': Plan<T>)
    requires |r.merged| == |lists| && i <= |lists|
    ensures |r'.merged| == |lists|
    ensures Unmerged(r'.merged) <= Unmerged(r.merged)
    ensures r.changed ==> r'.changed
    ensures r'.changed && !r.changed ==> Unmerged(r'.merged) < Unmerged(r.merged)
    decreases |lists| - i
  {
    if i == |lists| then r else PlanRound(PlanAttempt(r, lists, i), lists, i + 1)
  }

  /** Whether all statements are merged in the end, and what has been merged by then. */
  datatype Planned<T> = Planned(ok: bool, done: seq<seq<T>>)

  /** Rounds are planned until no statement waits or a round has merged none. */
  ghost function PlanRounds<T(!new)>(done: seq<seq<T>>, lists: seq<seq<T>>, merged: seq<bool>): Planned<T>
    requires |merged| == |lists|
    decreases Unmerged(merged)
  {
    var r := PlanRound(Plan(done, merged, 0, false), lists, 0);
    if r.waiting == 0 then Planned(true, r.done)
    else if r.changed then PlanRounds(r.done, lists, r.merged)
    else Planned(false, r.done)
  }

  ghost function PlanOf<T(!new)>(lists: seq<seq<T>>): Planned<T> {
    PlanRounds([], lists, seq(|lists|, _ => false))
  }

  ghost predicate PlanAll<T(!new)>(lists: seq<seq<T>>) {
    PlanOf(lists).ok
  }

  // ---- The merge goes as planned

  /** `v` has all the lists in order. */
  ghost predicate Holds<T>(v: seq<T>, lists: seq<seq<T>>) {
    NoDuplicates(v) && forall l :: l in lists ==> IsSubsequence(l, v)
  }

  ghost predicate AsPlanned<T(!new)>(r: Round<T>, p: Plan<T>) {
    OnlyOrderOf(r.list, p.done) && r.merged == p.merged && r.waiting == p.waiting && r.changed == p.changed
  }

  lemma PrefixInside<T>(l: seq<T>, p: nat, v: seq<T>)
    requires p <= |l| && IsSubsequence(l, v)
    ensures IsSubsequence(l[..p], v)
  {
    var f :| Embeds(f, l, v);
    assert Embeds(f[..p], l[..p], v);
  }

  /** The longest beginning that can be merged is the longest one that is determined. */
  lemma LongestIs<T(!new)>(c: seq<T>, done: seq<seq<T>>, l: seq<T>, p: nat)
    requires OnlyOrderOf(c, done) && p <= |l| && Merge(c, l[..p]).ok
    requires forall q :: p < q <= |l| ==> !Merge(c, l[..q]).ok
    ensures Longest(done, l, |l|) == p && OnlyOrderOf(Merge(c, l[..p]).list, done + [l[..p]])
  {
    hide Merge, OnlyOrderOf;
    forall q | p <= q <= |l| ensures Determined(done + [l[..q]]) <==> q == p {
      AttemptExactly(c, done, l[..q]);
    }
    AttemptExactly(c, done, l[..p]);
    hide Determined;
    var r := Longest(done, l, |l|);
    assert r >= p;
  }

  lemma AttemptPlanned<T(!new)>(r: Round<T>, pl: Plan<T>, lists: seq<seq<T>>, i: nat, v: seq<T>)
    requires |r.merged| == |lists| && i < |lists| && AsPlanned(r, pl)
    requires Holds(v, lists) && Holds(v, pl.done)
    ensures AsPlanned(Attempt(r, lists, i), PlanAttempt(pl, lists, i))
    ensures Holds(v, PlanAttempt(pl, lists, i).done)
  {
    hide OnlyOrderOf, IsSubsequence, Merge, Determined;
    if !r.merged[i] {
      var l, c := lists[i], r.list;
      assert l in lists && l[..|l|] == l;
      OnlyOrderInside(c, pl.done, v);
      var p := |l|;
      if !Merge(c, l).ok {
        p := LongestBeginning(c, l, v);
      }
      LongestIs(c, pl.done, l, p);
      PrefixInside(l, p, v);
    }
  }

  lemma {:induction false} RoundPlanned<T(!new)>(r: Round<T>, pl: Plan<T>, lists: seq<seq<T>>, i: nat, v: seq<T>)
    requires |r.merged| == |lists| && i <= |lists| && AsPlanned(r, pl)
    requires Holds(v, lists) && Holds(v, pl.done)
    ensures AsPlanned(RunRound(r, lists, i), PlanRound(pl, lists, i))
    ensures Holds(v, PlanRound(pl, lists, i).done)
    decreases |lists| - i
  {
    assert |pl.merged| == |lists|;
    hide AsPlanned, Holds, Attempt, PlanAttempt;
    if i < |lists| {
      AttemptPlanned(r, pl, lists, i, v);
      RoundPlanned(Attempt(r, lists, i), PlanAttempt(pl, lists, i), lists, i + 1, v);
    }
  }

  lemma {:induction false} RoundsPlanned<T(!new)>(list: seq<T>, done: seq<seq<T>>, lists: seq<seq<T>>,
      merged: seq<bool>, v: seq<T>)
    requires |merged| == |lists| && OnlyOrderOf(list, done) && Holds(v, lists) && Holds(v, done)
    ensures MergeRounds(list, lists, merged).ok <==> PlanRounds(done, lists, merged).ok
    ensures OnlyOrderOf(MergeRounds(list, lists, merged).list, PlanRounds(done, lists, merged).done)
    decreases Unmerged(merged)
  {
    hide OnlyOrderOf, Holds, RunRound, PlanRound;
    var r, pl := Round(list, merged, 0, false), Plan(done, merged, 0, false);
    RoundPlanned(r, pl, lists, 0, v);
    var r', pl' := RunRound(r, lists, 0), PlanRound(pl, lists, 0);
    if r'.waiting > 0 && r'.changed {
      RoundsPlanned(r'.list, pl'.done, lists, r'.merged, v);
    }
  }

  /** What a plan has merged is determined, and contains the statements that are merged as a whole. */
  ghost predicate Sensible<T(!new)>(p: Plan<T>, lists: seq<seq<T>>, i: nat) {
    && |p.merged| == |lists| && i <= |lists|
    && Determined(p.done)
    && (forall k :: 0 <= k < |lists| && p.merged[k] ==> lists[k] in p.done)
    && (p.waiting == 0 ==> forall k :: 0 <= k < i ==> p.merged[k])
  }

  lemma NothingAdded<T(!new)>(done: seq<seq<T>>)
    requires Determined(done)
    ensures Determined(done + [[]])
  {
    var w: seq<T> :| OnlyOrderOf(w, done);
    AttemptExactly(w, done, []);
  }

  lemma {:induction false} RoundSensible<T(!new)>(p: Plan<T>, lists: seq<seq<T>>, i: nat)
    requires Sensible(p, lists, i)
    ensures Sensible(PlanRound(p, lists, i), lists, |lists|)
    decreases |lists| - i
  {
    hide Determined;
    if i < |lists| {
      if !p.merged[i] {
        NothingAdded(p.done);
        var l := lists[i];
        assert l[..|l|] == l && l[..0] == [];
      }
      RoundSensible(PlanAttempt(p, lists, i), lists, i + 1);
    }
  }

  /** A plan for all statements determines an order that combines them. */
  lemma {:induction false} RoundsSensible<T(!new)>(done: seq<seq<T>>, lists: seq<seq<T>>, merged: seq<bool>)
      returns (w: seq<T>)
    requires Sensible(Plan(done, merged, 0, false), lists, 0) && PlanRounds(done, lists, merged).ok
    ensures Holds(w, lists)
    decreases Unmerged(merged)
  {
    hide Determined;
    var p := Plan(done, merged, 0, false);
    RoundSensible(p, lists, 0);
    var r := PlanRound(p, lists, 0);
    if r.waiting == 0 {
      w := OrderOf(r.done);
      assert forall l :: l in lists ==> l in r.done;
    } else {
      w := RoundsSensible(r.done, lists, r.merged);
    }
  }

  lemma OrderOf<T(!new)>(lists: seq<seq<T>>) returns (w: seq<T>)
    requires Determined(lists)
    ensures Holds(w, lists)
  {
    w :| OnlyOrderOf(w, lists);
  }

  lemma NothingIsDetermined<T(!new)>()
    ensures OnlyOrderOf<T>([], []) && Determined<T>([])
  {
    forall v: seq<T> | CombinesAll(v, []) ensures v == [] {
      assert v != [] ==> Listed([], v[0]);
    }
    SubsequenceEmpty<T>([]);
    assert CombinesAll<T>([], []);
  }

  /** All order statements can be merged exactly if they can be planned. */
  lemma MergeAllExactly<T(!new)>(lists: seq<seq<T>>)
    ensures MergeAll(lists).ok <==> PlanAll(lists)
  {
    hide Determined, OnlyOrderOf, CombinesAll;
    NothingIsDetermined<T>();
    var none := seq(|lists|, _ => false);
    if MergeAll(lists).ok {
      MergeAllCombines(lists);
      var v := MergeAll(lists).list;
      assert Holds(v, lists) && Holds(v, []) by { CombinedHolds(v, lists); }
      RoundsPlanned([], [], lists, none, v);
    } else if PlanAll(lists) {
      var v := RoundsSensible([], lists, none);
      assert Holds(v, []);
      RoundsPlanned([], [], lists, none, v);
    }
  }

  /** If the statements can be combined at all, the merge leaves the only order of the beginnings that the plan has
      merged, whether it succeeds or fails. */
  lemma LeavesAsPlanned<T(!new)>(lists: seq<seq<T>>, v: seq<T>)
    requires CombinesAll(v, lists)
    ensures OnlyOrderOf(MergeAll(lists).list, PlanOf(lists).done)
  {
    hide CombinesAll, OnlyOrderOf;
    NothingIsDetermined<T>();
    assert Holds(v, lists) && Holds(v, []) by { CombinedHolds(v, lists); }
    RoundsPlanned([], [], lists, seq(|lists|, _ => false), v);
  }

  lemma MarkedAsPlanned<T(!new)>(lists: seq<seq<T>>, v: seq<T>)
    requires CombinesAll(v, lists)
    ensures forall x :: x in MergeAll(lists).list <==> Listed(PlanOf(lists).done, x)
  {
    hide PlanOf, MergeAll, IsSubsequence;
    LeavesAsPlanned(lists, v);
    assert CombinesAll(MergeAll(lists).list, PlanOf(lists).done);
  }

  lemma CombinedHolds<T>(v: seq<T>, lists: seq<seq<T>>)
    requires CombinesAll(v, lists)
    ensures Holds(v, lists)
  {
  }

  // ---- One round

  lemma {:induction false} WaitingStays<T>(r: Round<T>, lists: seq<seq<T>>, i: nat)
    requires |r.merged| == |lists| && i <= |lists|
    ensures RunRound(r, lists, i).waiting >= r.waiting
    decreases |lists| - i
  {
    if i < |lists| {
      WaitingStays(Attempt(r, lists, i), lists, i + 1);
    }
  }

  lemma {:induction false} RestOfRound<T(!new)>(r: Round<T>, lists: seq<seq<T>>, i: nat)
    requires |r.merged| == |lists| && i <= |lists| && r.waiting == 0 && OnlyOrderOf(r.list, lists[..i])
    requires forall k :: i <= k < |lists| ==> !r.merged[k]
    ensures RunRound(r, lists, i).waiting == 0 <==> forall k :: i <= k <= |lists| ==> Determined(lists[..k])
    decreases |lists| - i
  {
    hide OnlyOrderOf, Merge;
    assert Determined(lists[..i]);
    if i < |lists| {
      AttemptExactly(r.list, lists[..i], lists[i]);
      assert lists[..i + 1] == lists[..i] + [lists[i]];
      var r' := Attempt(r, lists, i);
      if Merge(r.list, lists[i]).ok {
        RestOfRound(r', lists, i + 1);
      } else {
        WaitingStays(r', lists, i + 1);
      }
    }
  }

  /** The first round merges all statements exactly if the statements up to each one are determined. */
  lemma FirstRoundExactly<T(!new)>(lists: seq<seq<T>>)
    ensures RunRound(Round([], seq(|lists|, _ => false), 0, false), lists, 0).waiting == 0 <==>
            forall k :: 0 <= k <= |lists| ==> Determined(lists[..k])
    ensures (forall k :: 0 <= k <= |lists| ==> Determined(lists[..k])) ==> MergeAll(lists).ok
  {
    NothingIsDetermined<T>();
    assert lists[..0] == [];
    RestOfRound(Round([], seq(|lists|, _ => false), 0, false), lists, 0);
  }
}
