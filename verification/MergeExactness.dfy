/** When exactly a single attempt to merge an order statement succeeds. */
module MergeExactness {
  import opened Subsequences
  import opened OrderedLists

  /** `w` is the one and only order that combines the lists. */
  ghost predicate OnlyOrderOf<T(!new)>(w: seq<T>, lists: seq<seq<T>>) {
    CombinesAll(w, lists) && forall v: seq<T> :: CombinesAll(v, lists) ==> v == w
  }

  ghost predicate OnlyOrder<T(!new)>(w: seq<T>, list: seq<T>, l: seq<T>) {
    OnlyOrderOf(w, [list, l])
  }

  ghost predicate Together<T>(x: T, y: T, list: seq<T>, l: seq<T>) {
    (x in list && y in list) || (x in l && y in l)
  }

  /** Adjacent items of `w` come from the same one of the two lists. */
  ghost predicate Linked<T>(w: seq<T>, list: seq<T>, l: seq<T>) {
    forall k :: 0 < k < |w| ==> Together(w[k - 1], w[k], list, l)
  }

  ghost function Swapped<T>(w: seq<T>, k: nat): (r: seq<T>)
    requires 0 < k < |w|
    ensures |r| == |w|
  {
    w[k - 1 := w[k]][k := w[k - 1]]
  }

  /** Two neighbours that `s` does not contain together may change places. */
  lemma SwapKeeps<T>(s: seq<T>, w: seq<T>, k: nat)
    requires 0 < k < |w| && IsSubsequence(s, w)
    requires !(w[k - 1] in s && w[k] in s)
    ensures IsSubsequence(s, Swapped(w, k))
  {
    var f :| Embeds(f, s, w);
    var g: seq<nat> := seq(|f|, i requires 0 <= i < |f| =>
        if f[i] == k - 1 then k else if f[i] == k then k - 1 else f[i]);
    assert forall i, j :: 0 <= i < |f| && 0 <= j < |f| && f[i] == k - 1 && f[j] == k ==>
        w[k - 1] == s[i] && w[k] == s[j];
    assert Embeds(g, s, Swapped(w, k));
  }

  /** If the combined order is unique, its neighbours are linked. */
  lemma UniqueIsLinked<T(!new)>(w: seq<T>, list: seq<T>, l: seq<T>)
    requires OnlyOrder(w, list, l)
    ensures Linked(w, list, l)
  {
    forall k | 0 < k < |w|
      ensures Together(w[k - 1], w[k], list, l)
    {
      if !Together(w[k - 1], w[k], list, l) {
        var v := Swapped(w, k);
        assert v[k] != w[k];
        SwapCombines(w, k, list, l);
        assert false;
      }
    }
  }

  lemma SwapCombines<T>(w: seq<T>, k: nat, list: seq<T>, l: seq<T>)
    requires CombinesAll(w, [list, l]) && 0 < k < |w| && !Together(w[k - 1], w[k], list, l)
    ensures CombinesAll(Swapped(w, k), [list, l])
  {
    hide IsSubsequence;
    var v := Swapped(w, k);
    assert list in [list, l] && l in [list, l];
    SwapKeeps(list, w, k);
    SwapKeeps(l, w, k);
    SwapSame(w, k);
  }

  lemma SwapSame<T>(w: seq<T>, k: nat)
    requires 0 < k < |w| && NoDuplicates(w)
    ensures NoDuplicates(Swapped(w, k))
    ensures forall x :: x in Swapped(w, k) <==> x in w
  {
    var v := Swapped(w, k);
    forall x
      ensures x in v <==> x in w
    {
      assert v[k - 1] == w[k] && v[k] == w[k - 1];
      assert forall i :: 0 <= i < |w| && i != k && i != k - 1 ==> v[i] == w[i];
    }
  }

  /** Where the first item of a subsequence stands: nothing of the subsequence stands before. */
  lemma NextPosition<T>(s: seq<T>, t: seq<T>) returns (j: nat)
    requires s != [] && IsSubsequence(s, t) && NoDuplicates(t)
    ensures j < |t| && t[j] == s[0]
    ensures forall i :: 0 <= i < j ==> t[i] !in s
    ensures IsSubsequence(s[1..], t[j + 1..])
  {
    var f :| Embeds(f, s, t);
    j := f[0];
    forall i | 0 <= i < j
      ensures t[i] !in s
    {
      forall q | 0 <= q < |s|
        ensures s[q] != t[i]
      {
        assert f[0] <= f[q] && t[f[q]] == s[q];
      }
    }
    assert Embeds(seq(|s| - 1, i requires 0 <= i < |s| - 1 => f[i + 1] - (j + 1)), s[1..], t[j + 1..]);
  }

  /** If `s` has the first `j` items of `t`, it starts with them. */
  lemma {:induction false} PrefixTaken<T>(s: seq<T>, t: seq<T>, j: nat)
    requires IsSubsequence(s, t) && NoDuplicates(t) && j <= |t|
    requires forall i :: 0 <= i < j ==> t[i] in s
    ensures j <= |s| && s[..j] == t[..j]
    ensures IsSubsequence(s[j..], t[j..])
    decreases j
  {
    hide IsSubsequence;
    if j == 0 {
      assert s[0..] == s && t[0..] == t;
    } else {
      assert t[0] in s;
      var p := NextPosition(s, t);
      assert p == 0;
      forall i | 0 <= i < j - 1
        ensures t[1..][i] in s[1..]
      {
        assert t[1..][i] == t[i + 1] != t[0] && s == [s[0]] + s[1..];
      }
      PrefixTaken(s[1..], t[1..], j - 1);
      assert s[1..][..j - 1] == s[1..j] && t[1..][..j - 1] == t[1..j];
      assert s[..j] == [s[0]] + s[1..j] && t[..j] == [t[0]] + t[1..j];
      assert s[1..][j - 1..] == s[j..] && t[1..][j - 1..] == t[j..];
    }
  }

  lemma {:induction false} InsertRunSucceeds<T>(list: seq<T>, pos: nat, run: seq<T>)
    requires pos <= |list| && NoDuplicates(run)
    requires forall x :: x in run ==> x !in list
    ensures InsertRun(list, pos, run).ok
    decreases |run|
  {
    if run != [] {
      assert forall i :: 0 <= i < |run| ==> run[i] in run;
      forall x | x in run[1..]
        ensures x !in list[..pos] + [run[0]] + list[pos..]
      {
        assert x in run;
      }
      InsertRunSucceeds(list[..pos] + [run[0]] + list[pos..], pos + 1, run[1..]);
    }
  }

  /** What is left of the combined order: `w` combines `s` and `l`, which are what is left of the two lists
      `a` and `b`. */
  ghost predicate Rest<T>(w: seq<T>, s: seq<T>, l: seq<T>, a: seq<T>, b: seq<T>) {
    && NoDuplicates(w) && Linked(w, a, b)
    && IsSubsequence(s, w) && IsSubsequence(l, w)
    && (forall x :: x in w ==> (x in a || x in b) && (x in a <==> x in s) && (x in b <==> x in l))
  }

  lemma RestSymmetric<T>(w: seq<T>, s: seq<T>, l: seq<T>, a: seq<T>, b: seq<T>)
    requires Rest(w, s, l, a, b)
    ensures Rest(w, l, s, b, a)
  {
    assert forall x, y :: Together(x, y, a, b) ==> Together(x, y, b, a);
  }

  /** Consuming `i` items of one list and `j` of the other, all among the first `k` of `w`. */
  lemma RestAdvance<T>(w: seq<T>, s: seq<T>, l: seq<T>, a: seq<T>, b: seq<T>, k: nat, i: nat, j: nat)
    requires Rest(w, s, l, a, b)
    requires k <= |w| && i <= |s| && j <= |l|
    requires forall x :: x in s[..i] || x in l[..j] ==> x in w[..k]
    requires IsSubsequence(s[i..], w[k..]) && IsSubsequence(l[j..], w[k..])
    ensures Rest(w[k..], s[i..], l[j..], a, b)
  {
    hide IsSubsequence;
    var w' := w[k..];
    assert s == s[..i] + s[i..] && l == l[..j] + l[j..] && w == w[..k] + w';
    forall q | 0 < q < |w'|
      ensures Together(w'[q - 1], w'[q], a, b)
    {
      assert w'[q - 1] == w[k + q - 1] && w'[q] == w[k + q];
    }
    assert forall x :: x in w' ==> x in w && x !in w[..k];
  }

  /** The two next items are the same. */
  lemma NextSame<T>(w: seq<T>, s: seq<T>, l: seq<T>, a: seq<T>, b: seq<T>)
    requires Rest(w, s, l, a, b) && s != [] && l != [] && s[0] == l[0]
    ensures w != [] && w[0] == s[0] && Rest(w[1..], s[1..], l[1..], a, b)
  {
    hide IsSubsequence, Linked;
    var i := NextPosition(s, w);
    var j := NextPosition(l, w);
    assert i == j;
    assert w[0] in w;
    RestAdvance(w, s, l, a, b, 1, 1, 1);
  }

  /** The next item is that of `s` alone: `s` goes on up to the next item of `l`. */
  lemma NextInOne<T>(w: seq<T>, s: seq<T>, l: seq<T>, a: seq<T>, b: seq<T>) returns (j: nat)
    requires Rest(w, s, l, a, b) && s != [] && l != [] && s[0] != l[0] && w[0..1] == [s[0]]
    ensures 0 < j < |s| && j < |w| && s[..j + 1] == w[..j + 1] && s[j] == l[0]
    ensures forall x :: x in s[..j] ==> x !in b
    ensures Rest(w[j + 1..], s[j + 1..], l[1..], a, b)
  {
    hide IsSubsequence;
    j := NextPosition(l, w);
    assert w[0] == s[0];
    assert w[j - 1] in w && w[j] in w && w[j - 1] !in b;
    assert Together(w[j - 1], w[j], a, b);
    forall i | 0 <= i < j + 1
      ensures w[i] in s
    {
      assert w[i] in w;
    }
    PrefixTaken(s, w, j + 1);
    assert s[j] == s[..j + 1][j] == w[..j + 1][j];
    forall x | x in s[..j]
      ensures x !in b
    {
      var i :| 0 <= i < j && s[..j][i] == x;
      assert s[..j + 1][i] == w[..j + 1][i] == x && w[i] in w;
    }
    assert l[..1] == [w[j]] && w[j] in w[..j + 1];
    RestAdvance(w, s, l, a, b, j + 1, j + 1, 1);
  }

  lemma FirstOfRest<T>(w: seq<T>, s: seq<T>, l: seq<T>, a: seq<T>, b: seq<T>)
    requires Rest(w, s, l, a, b) && s != [] && l != []
    ensures w != [] && (w[0] == s[0] || w[0] == l[0])
  {
    var i := NextPosition(s, w);
    var j := NextPosition(l, w);
    assert w[0] in w;
  }

  lemma SubsequenceNoDuplicates<T>(s: seq<T>, t: seq<T>)
    requires IsSubsequence(s, t) && NoDuplicates(t)
    ensures NoDuplicates(s)
  {
    var f :| Embeds(f, s, t);
    assert forall i :: 0 <= i < |s| ==> t[f[i]] == s[i];
  }

  /** The list item is next: the step goes on behind the place of the next new item in the list. */
  lemma StepInList<T>(w: seq<T>, list: seq<T>, o: nat, l: seq<T>, n: nat, a: seq<T>) returns (j: nat)
    requires o < |list| && n < |l| && list[o] != l[n]
    requires Rest(w, list[o..], l[n..], a, l) && w[0..1] == [list[o]]
    ensures j < |w| && o + j < |list| && list[o..o + j + 1] == w[..j + 1]
    ensures OverlapStep(list, o, l, n) == Go(list, o + j + 1, n + 1)
    ensures Rest(w[j + 1..], list[o + j + 1..], l[n + 1..], a, l)
  {
    hide IsSubsequence, Linked;
    var s := list[o..];
    j := NextInOne(w, s, l[n..], a, l);
    assert s[..j][0] == list[o] && list[o] !in l;
    assert Find(l, list[o], n + 1) == |l|;
    forall i | o < i < o + j
      ensures list[i] != l[n]
    {
      assert s[..j][i - o] == list[i];
    }
    assert list[o + j] == s[j] == l[n];
    assert s[..j + 1] == list[o..o + j + 1] && s[j + 1..] == list[o + j + 1..] && l[n..][1..] == l[n + 1..];
  }

  /** The new item is next: the step inserts the new items up to the next one of the list. */
  lemma StepInNew<T>(w: seq<T>, list: seq<T>, o: nat, l: seq<T>, n: nat, a: seq<T>) returns (j: nat)
    requires o < |list| && n < |l| && list[o] != l[n] && list[o] in a
    requires Rest(w, list[o..], l[n..], a, l) && w[0..1] == [l[n]]
    ensures 0 < j < |w| && n + j < |l| && l[n..n + j + 1] == w[..j + 1]
    ensures list[o] !in l[n..n + j] && l[n + j] == list[o]
    ensures forall x :: x in l[n..n + j] ==> x !in a
    ensures Find(l, list[o], n + 1) == n + j
    ensures Rest(w[j + 1..], list[o + 1..], l[n + j + 1..], a, l)
  {
    hide IsSubsequence, Linked;
    var s := l[n..];
    RestSymmetric(w, list[o..], s, a, l);
    j := NextInOne(w, s, list[o..], l, a);
    assert s[..j] == l[n..n + j];
    forall i | n < i < n + j
      ensures l[i] != list[o]
    {
      assert s[..j][i - n] == l[i];
    }
    assert l[n + j] == s[j] == list[o];
    assert s[..j + 1] == l[n..n + j + 1] && s[j + 1..] == l[n + j + 1..] && list[o..][1..] == list[o + 1..];
    RestSymmetric(w[j + 1..], l[n + j + 1..], list[o + 1..], l, a);
  }

  /** The merge stands at positions `o` and `n`, and `w` combines what is left. */
  ghost predicate Ready<T>(w: seq<T>, list: seq<T>, o: nat, l: seq<T>, n: nat, a: seq<T>) {
    && o <= |list| && n <= |l|
    && Rest(w, list[o..], l[n..], a, l)
    && (forall x :: x in list[o..] ==> x in a)
    && (forall x :: x in list[..o] ==> x !in w)
  }

  lemma ReadySame<T>(w: seq<T>, list: seq<T>, o: nat, l: seq<T>, n: nat, a: seq<T>)
    requires Ready(w, list, o, l, n, a) && o < |list| && n < |l| && list[o] == l[n]
    ensures w != [] && Ready(w[1..], list, o + 1, l, n + 1, a)
  {
    hide IsSubsequence, Linked;
    NextSame(w, list[o..], l[n..], a, l);
    assert list[o..][1..] == list[o + 1..] && l[n..][1..] == l[n + 1..];
    assert list[..o + 1] == list[..o] + [list[o]];
  }

  lemma ReadyInList<T>(w: seq<T>, list: seq<T>, o: nat, l: seq<T>, n: nat, a: seq<T>) returns (w': seq<T>)
    requires Ready(w, list, o, l, n, a) && o < |list| && n < |l| && list[o] != l[n] && w[0..1] == [list[o]]
    ensures var s := OverlapStep(list, o, l, n);
            s.Go? && Ready(w', s.list, s.o, l, s.n, a)
  {
    hide IsSubsequence, Linked;
    var j := StepInList(w, list, o, l, n, a);
    w' := w[j + 1..];
    assert list[..o + j + 1] == list[..o] + list[o..o + j + 1];
    assert w == w[..j + 1] + w';
    assert list[o..] == list[o..o + j + 1] + list[o + j + 1..];
  }

  /** Items of the combined order that are not in the list can be inserted. */
  lemma PrefixInserts<T>(w: seq<T>, list: seq<T>, o: nat, a: seq<T>, j: nat)
    requires o <= |list| && j <= |w| && NoDuplicates(w)
    requires forall x :: x in list[o..] ==> x in a
    requires forall x :: x in list[..o] ==> x !in w
    requires forall x :: x in w[..j] ==> x !in a
    ensures InsertRun(list, o, w[..j]).ok
  {
    hide InsertRun;
    assert list == list[..o] + list[o..];
    InsertRunSucceeds(list, o, w[..j]);
  }

  /** The insertion succeeds and this is what it leaves. */
  lemma StepInserts<T>(list: seq<T>, o: nat, l: seq<T>, n: nat, j: nat)
    requires o < |list| && n < |l| && list[o] != l[n] && n + j < |l|
    requires Find(l, list[o], n + 1) == n + j
    requires InsertRun(list, o, l[n..n + j]).ok
    ensures OverlapStep(list, o, l, n) == Go(list[..o] + l[n..n + j] + list[o..], o + j + 1, n + j + 1)
  {
    hide InsertRun;
    InsertRunInserts(list, o, l[n..n + j]);
  }

  lemma ReadyInNew<T>(w: seq<T>, list: seq<T>, o: nat, l: seq<T>, n: nat, a: seq<T>) returns (w': seq<T>)
    requires Ready(w, list, o, l, n, a) && o < |list| && n < |l| && list[o] != l[n] && w[0..1] == [l[n]]
    ensures var s := OverlapStep(list, o, l, n);
            s.Go? && Ready(w', s.list, s.o, l, s.n, a)
  {
    hide IsSubsequence, Linked, OverlapStep;
    assert list[o] in list[o..];
    var j := StepInNew(w, list, o, l, n, a);
    assert l[n..n + j] == l[n..n + j + 1][..j] == w[..j];
    PrefixInserts(w, list, o, a, j);
    StepInserts(list, o, l, n, j);
    w' := w[j + 1..];
    ReadyAfterInsert(w, list, o, l, n, a, j);
  }

  lemma ReadyAfterInsert<T>(w: seq<T>, list: seq<T>, o: nat, l: seq<T>, n: nat, a: seq<T>, j: nat)
    requires o < |list| && n + j < |l| && j < |w| && NoDuplicates(w)
    requires forall x :: x in list[o..] ==> x in a
    requires forall x :: x in list[..o] ==> x !in w
    requires l[n..n + j + 1] == w[..j + 1] && l[n + j] == list[o]
    requires Rest(w[j + 1..], list[o + 1..], l[n + j + 1..], a, l)
    ensures Ready(w[j + 1..], list[..o] + l[n..n + j] + list[o..], o + j + 1, l, n + j + 1, a)
  {
    hide Rest;
    var list' := list[..o] + l[n..n + j] + list[o..];
    assert list'[o + j + 1..] == list[o + 1..];
    assert list'[..o + j + 1] == list[..o] + l[n..n + j + 1];
    assert list[o..] == [list[o]] + list[o + 1..];
    assert w == w[..j + 1] + w[j + 1..];
  }

  /** As long as a combined order with linked neighbours is left, the merge goes through. */
  lemma {:induction false} MergeOverlapSucceeds<T>(w: seq<T>, list: seq<T>, o: nat, l: seq<T>, n: nat, a: seq<T>)
    requires Ready(w, list, o, l, n, a)
    ensures MergeOverlap(list, o, l, n).ok
    decreases |l| - n
  {
    if n == |l| {
    } else if o == |list| {
      RestInserts(w, list, l, n, a);
    } else {
      assert list[o..][0] == list[o] && l[n..][0] == l[n];
      FirstOfRest(w, list[o..], l[n..], a, l);
      hide Ready, OverlapStep;
      if list[o] == l[n] {
        ReadySame(w, list, o, l, n, a);
        assert OverlapStep(list, o, l, n) == Go(list, o + 1, n + 1) by { StepOnSame(list, o, l, n); }
        MergeOverlapSucceeds(w[1..], list, o + 1, l, n + 1, a);
      } else {
        var w';
        if w[0] == list[o] {
          w' := ReadyInList(w, list, o, l, n, a);
        } else {
          w' := ReadyInNew(w, list, o, l, n, a);
        }
        var s := OverlapStep(list, o, l, n);
        MergeOverlapSucceeds(w', s.list, s.o, l, s.n, a);
      }
    }
  }

  lemma StepOnSame<T>(list: seq<T>, o: nat, l: seq<T>, n: nat)
    requires o < |list| && n < |l| && list[o] == l[n]
    ensures OverlapStep(list, o, l, n) == Go(list, o + 1, n + 1)
  {
  }

  /** At the end of the list, the rest of the new items is appended. */
  lemma RestInserts<T>(w: seq<T>, list: seq<T>, l: seq<T>, n: nat, a: seq<T>)
    requires Ready(w, list, |list|, l, n, a)
    ensures InsertRun(list, |list|, l[n..]).ok
  {
    hide IsSubsequence, Linked;
    SubsequenceNoDuplicates(l[n..], w);
    assert list[..|list|] == list;
    forall x | x in l[n..]
      ensures x !in list
    {
      SubsequenceKeepsMember(l[n..], w, x);
    }
    InsertRunSucceeds(list, |list|, l[n..]);
  }

  /** At the start, with nothing merged yet, the attempt is the overlapping part from the first common item. */
  lemma MergeSucceeds<T>(w: seq<T>, list: seq<T>, l: seq<T>)
    requires list != [] && l != [] && Rest(w, list, l, list, l)
    ensures Merge(list, l).ok
  {
    hide IsSubsequence, Linked, MergeOverlap, Merge;
    assert list[0..] == list && l[0..] == l;
    FirstOfRest(w, list, l, list, l);
    if list[0] == l[0] {
      StartSame(w, list, l);
    } else if w[0] == list[0] {
      StartInList(w, list, l);
    } else {
      StartInNew(w, list, l);
    }
  }

  lemma StartSame<T>(w: seq<T>, list: seq<T>, l: seq<T>)
    requires list != [] && l != [] && Rest(w, list, l, list, l) && list[0] == l[0]
    ensures Merge(list, l).ok
  {
    hide IsSubsequence, Linked, MergeOverlap;
    assert list[0..] == list && l[0..] == l;
    assert Ready(w, list, 0, l, 0, list);
    ReadySame(w, list, 0, l, 0, list);
    MergeOverlapSucceeds(w[1..], list, 1, l, 1, list);
    assert FirstCommon(l, list, 0) == 0 && Find(list, l[0], 0) == 0;
  }

  lemma StartInList<T>(w: seq<T>, list: seq<T>, l: seq<T>)
    requires list != [] && l != [] && Rest(w, list, l, list, l) && list[0] != l[0] && w[0..1] == [list[0]]
    ensures Merge(list, l).ok
  {
    hide IsSubsequence, Linked, MergeOverlap;
    var j := NextInOne(w, list, l, list, l);
    forall i | 0 <= i < j
      ensures list[i] != l[0]
    {
      assert list[..j][i] == list[i];
    }
    assert FirstCommon(l, list, 0) == 0 && Find(list, l[0], 0) == j;
    assert w == w[..j + 1] + w[j + 1..];
    MergeOverlapSucceeds(w[j + 1..], list, j + 1, l, 1, list);
  }

  lemma StartInNew<T>(w: seq<T>, list: seq<T>, l: seq<T>)
    requires list != [] && l != [] && Rest(w, list, l, list, l) && list[0] != l[0] && w[0..1] == [l[0]]
    ensures Merge(list, l).ok
  {
    hide IsSubsequence, Linked, MergeOverlap;
    assert list[0..] == list && l[0..] == l;
    var j := StepInNew(w, list, 0, l, 0, list);
    assert l[..j] == l[0..j] == l[0..j + 1][..j] == w[..j];
    forall i | 0 <= i < j
      ensures l[i] !in list
    {
      assert l[..j][i] == l[i];
    }
    assert FirstCommon(l, list, 0) == j && Find(list, l[j], 0) == 0;
    PrefixInserts(w, list, 0, list, j);
    InsertRunInserts(list, 0, l[..j]);
    ReadyAfterInsert(w, list, 0, l, 0, list, j);
    MergeOverlapSucceeds(w[j + 1..], list[..0] + l[0..j] + list[0..], j + 1, l, j + 1, list);
  }

  /** An attempt succeeds exactly when one single order combines the list with the new items. */
  lemma MergeSucceedsExactly<T(!new)>(list: seq<T>, l: seq<T>)
    requires NoDuplicates(list)
    ensures Merge(list, l).ok <==> exists w :: OnlyOrder(w, list, l)
    ensures Merge(list, l).ok ==> OnlyOrder(Merge(list, l).list, list, l)
  {
    if Merge(list, l).ok {
      SuccessIsOnlyOrder(list, l);
    }
    if w :| OnlyOrder(w, list, l) {
      OnlyOrderSucceeds(w, list, l);
    }
  }

  lemma SuccessIsOnlyOrder<T(!new)>(list: seq<T>, l: seq<T>)
    requires NoDuplicates(list) && Merge(list, l).ok
    ensures OnlyOrder(Merge(list, l).list, list, l)
  {
    hide IsSubsequence, Merge;
    var lists := [list, l];
    assert lists[0] == list && lists[1] == l;
    forall k | 0 < k < |list|
      ensures Demanded(lists, list[k - 1], list[k])
    {
      assert Before(list, list[k - 1], list[k]);
    }
    MergeKeeps(list, lists, l);
    var r := Merge(list, l).list;
    forall x | x in list || x in l
      ensures x in r
    {
      if x in list {
        SubsequenceKeepsMember(list, r, x);
      } else {
        SubsequenceKeepsMember(l, r, x);
      }
    }
    assert CombinesAll(r, lists);
    forall v: seq<T> | CombinesAll(v, lists)
      ensures v == r
    {
      JustifiedIsUnique(r, lists, v);
    }
  }

  lemma OnlyOrderSucceeds<T(!new)>(w: seq<T>, list: seq<T>, l: seq<T>)
    requires OnlyOrder(w, list, l)
    ensures Merge(list, l).ok
  {
    hide IsSubsequence;
    UniqueIsLinked(w, list, l);
    assert list in [list, l] && l in [list, l];
    if list == [] {
      SubsequenceNoDuplicates(l, w);
      InsertRunSucceeds([], 0, l);
    } else if l != [] {
      MergeSucceeds(w, list, l);
    }
  }
}
