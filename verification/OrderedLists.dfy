/** Merging of the order statements (classorder, categoryorder, sensitivityorder, sidorder).

    The functions describe on values what the merge does to the combined list; the class `CombinedList`
    is the code, which inserts into the combined list in place and marks each inserted datum. */
module OrderedLists {
  import opened Subsequences

  /** The combined list after an attempt. A failed attempt may leave insertions behind. */
  datatype Outcome<T> = Outcome(ok: bool, list: seq<T>)

  /** Inserts the items of `run` one after the other from position `pos`, stopping at the first that is
      already in the list. */
  function InsertRun<T(==)>(list: seq<T>, pos: nat, run: seq<T>): (r: Outcome<T>)
    requires pos <= |list|
    ensures r.ok ==> |r.list| == |list| + |run|
    decreases |run|
  {
    if run == [] then Outcome(true, list)
    else if run[0] in list then Outcome(false, list)
    else InsertRun(list[..pos] + [run[0]] + list[pos..], pos + 1, run[1..])
  }

  lemma InsertedAll<T>(list: seq<T>, pos: nat)
    requires pos <= |list|
    ensures InsertRun(list, pos, []) == Outcome(true, list)
  {
  }

  lemma NextInserted<T>(list: seq<T>, pos: nat, run: seq<T>, n: nat)
    requires pos <= |list| && n < |run|
    ensures InsertRun(list, pos, run[n..]) ==
            if run[n] in list then Outcome(false, list)
            else InsertRun(list[..pos] + [run[n]] + list[pos..], pos + 1, run[n + 1..])
  {
    assert run[n..][0] == run[n] && run[n..][1..] == run[n + 1..];
  }

  /** The item is in the list, or stands earlier in the run. */
  predicate Taken<T(==)>(list: seq<T>, run: seq<T>, k: nat)
    requires k < |run|
  {
    run[k] in list || run[k] in run[..k]
  }

  /** How many items of the run come before the first that is taken. */
  function FirstTaken<T(==)>(list: seq<T>, run: seq<T>, from: nat): (k: nat)
    requires from <= |run|
    ensures from <= k <= |run| && (k < |run| ==> Taken(list, run, k))
    ensures forall j :: from <= j < k ==> !Taken(list, run, j)
    decreases |run| - from
  {
    if from == |run| || Taken(list, run, from) then from else FirstTaken(list, run, from + 1)
  }

  /** The items before the first that is taken are inserted, also when the insertion fails. */
  lemma {:induction false} InsertRunExactly<T>(list: seq<T>, pos: nat, run: seq<T>)
    requires pos <= |list|
    ensures var k := FirstTaken(list, run, 0);
            InsertRun(list, pos, run) == Outcome(k == |run|, list[..pos] + run[..k] + list[pos..])
    decreases |run|
  {
    var k := FirstTaken(list, run, 0);
    if k == 0 {
      assert list == list[..pos] + run[..0] + list[pos..];
    } else {
      assert !Taken(list, run, 0) && run[0] !in list;
      hide FirstTaken, Taken;
      var longer, rest := list[..pos] + [run[0]] + list[pos..], run[1..];
      InsertRunExactly(longer, pos + 1, rest);
      TakenLater(list, pos, run);
      OneMoreInserted(list, pos, run, k);
    }
  }

  lemma {:induction false} OneMoreInserted<T>(list: seq<T>, pos: nat, run: seq<T>, k: nat)
    requires pos <= |list| && 0 < k <= |run|
    ensures var longer := list[..pos] + [run[0]] + list[pos..];
            longer[..pos + 1] + run[1..][..k - 1] + longer[pos + 1..] == list[..pos] + run[..k] + list[pos..]
  {
    var longer := list[..pos] + [run[0]] + list[pos..];
    assert longer[..pos + 1] == list[..pos] + [run[0]] && longer[pos + 1..] == list[pos..];
    assert run[..k] == [run[0]] + run[1..][..k - 1];
  }

  lemma {:induction false} TakenLater<T>(list: seq<T>, pos: nat, run: seq<T>)
    requires pos <= |list| && run != [] && !Taken(list, run, 0)
    ensures FirstTaken(list, run, 0) == 1 + FirstTaken(list[..pos] + [run[0]] + list[pos..], run[1..], 0)
  {
    hide FirstTaken;
    var longer, rest := list[..pos] + [run[0]] + list[pos..], run[1..];
    forall j | 0 <= j < |rest| ensures Taken(longer, rest, j) <==> Taken(list, run, j + 1) {
      assert forall x :: x in longer <==> x == run[0] || x in list;
      assert run[..j + 1] == [run[0]] + rest[..j];
    }
    var k, k' := FirstTaken(list, run, 0), FirstTaken(longer, rest, 0);
    assert k' < |rest| ==> Taken(list, run, k' + 1);
    assert 0 < k < |run| ==> Taken(longer, rest, k - 1);
  }

  lemma InsertRunInserts<T>(list: seq<T>, pos: nat, run: seq<T>)
    requires pos <= |list| && InsertRun(list, pos, run).ok
    ensures InsertRun(list, pos, run).list == list[..pos] + run + list[pos..]
  {
    InsertRunExactly(list, pos, run);
    assert run[..|run|] == run;
  }

  /** The first position of `x` in `s` from `from` on, or `|s|`. */
  function Find<T(==)>(s: seq<T>, x: T, from: nat): (r: nat)
    requires from <= |s|
    ensures from <= r <= |s|
    ensures r < |s| ==> s[r] == x
    ensures forall i :: from <= i < r ==> s[i] != x
    decreases |s| - from
  {
    if from == |s| || s[from] == x then from else Find(s, x, from + 1)
  }

  /** The first position in `new` whose item is already in `old`, or `|new|`. */
  function FirstCommon<T(==)>(newList: seq<T>, oldList: seq<T>, from: nat): (r: nat)
    requires from <= |newList|
    ensures from <= r <= |newList|
    ensures r < |newList| ==> newList[r] in oldList
    ensures forall i :: from <= i < r ==> newList[i] !in oldList
    decreases |newList| - from
  {
    if from == |newList| || newList[from] in oldList then from else FirstCommon(newList, oldList, from + 1)
  }

  /** Either the end of an attempt or the list and the two positions to go on from. */
  datatype Step<T> = Stop(outcome: Outcome<T>) | Go(list: seq<T>, o: nat, n: nat)

  function AfterGap<T>(r: Outcome<T>, o: nat, n: nat): Step<T> {
    if r.ok then Go(r.list, o, n) else Stop(r)
  }

  /** One step of the overlapping part. `o` is the position in the combined list, `n` the position in the new
      one, and the items just before the two positions are the same. The items at the two positions are the
      same, or the list has a gap, or the new items have one, or the orders cannot be combined. */
  function OverlapStep<T(==)>(list: seq<T>, o: nat, newList: seq<T>, n: nat): (r: Step<T>)
    requires o < |list| && n < |newList|
    ensures r.Go? ==> o < r.o <= |r.list| && n < r.n <= |newList|
  {
    if newList[n] == list[o] then Go(list, o + 1, n + 1)
    else
      var m := Find(newList, list[o], n + 1);
      if m < |newList| then
        AfterGap(InsertRun(list, o, newList[n..m]), o + (m - n) + 1, m + 1)
      else
        var p := Find(list, newList[n], o + 1);
        if p < |list| then Go(list, p + 1, n + 1) else Stop(Outcome(false, list))
  }

  /** The overlapping part and the rest of the new items. */
  function MergeOverlap<T(==)>(list: seq<T>, o: nat, newList: seq<T>, n: nat): (r: Outcome<T>)
    requires o <= |list| && n <= |newList|
    decreases |newList| - n
  {
    if n == |newList| then Outcome(true, list)
    else if o == |list| then InsertRun(list, |list|, newList[n..])
    else
      match OverlapStep(list, o, newList, n)
      case Stop(r) => r
      case Go(list', o', n') => MergeOverlap(list', o', newList, n')
  }

  /** One attempt to merge `newList` into `oldList`. */
  function Merge<T(==)>(oldList: seq<T>, newList: seq<T>): (r: Outcome<T>)
  {
    if newList == [] then Outcome(true, oldList)
    else if oldList == [] then InsertRun(oldList, 0, newList)
    else
      var n := FirstCommon(newList, oldList, 0);
      if n == |newList| then Outcome(false, oldList)
      else
        var o := Find(oldList, newList[n], 0);
        if n != 0 && o != 0 then Outcome(false, oldList)
        else
          var r := if n != 0 then InsertRun(oldList, 0, newList[..n]) else Outcome(true, oldList);
          if r.ok then MergeOverlap(r.list, o + n + 1, newList, n + 1) else r
  }

  /** What a round of attempts leaves: the combined list, which statements are merged, whether any is
      still waiting and whether any was merged in this round. */
  datatype Round<T> = Round(list: seq<T>, merged: seq<bool>, waiting: nat, changed: bool)

  /** What happens to statement `i` in a round. */
  function Attempt<T(==)>(r: Round<T>, lists: seq<seq<T>>, i: nat): (r': Round<T>)
    requires |r.merged| == |lists| && i < |lists|
    ensures |r'.merged| == |lists|
    ensures r.changed ==> r'.changed
    ensures Unmerged(r'.merged) == Unmerged(r.merged) - if r'.merged == r.merged then 0 else 1
    ensures r'.changed <==> r.changed || r'.merged != r.merged
  {
    if r.merged[i] then r
    else
      var a := Merge(r.list, lists[i]);
      UnmergedUpdate(r.merged, i);
      if a.ok then Round(a.list, r.merged[i := true], r.waiting, true)
      else Round(a.list, r.merged, r.waiting + 1, r.changed)
  }

  /** The rest of a round, from statement `i` on. */
  function RunRound<T(==)>(r: Round<T>, lists: seq<seq<T>>, i: nat): (r': Round<T>)
    requires |r.merged| == |lists| && i <= |lists|
    ensures |r'.merged| == |lists|
    ensures Unmerged(r'.merged) <= Unmerged(r.merged)
    ensures r.changed ==> r'.changed
    ensures r'.changed && !r.changed ==> Unmerged(r'.merged) < Unmerged(r.merged)
    decreases |lists| - i
  {
    if i == |lists| then r else RunRound(Attempt(r, lists, i), lists, i + 1)
  }

  function Unmerged(merged: seq<bool>): nat {
    if merged == [] then 0 else (if merged[0] then 0 else 1) + Unmerged(merged[1..])
  }

  lemma {:induction false} UnmergedUpdate(merged: seq<bool>, i: nat)
    requires i < |merged| && !merged[i]
    ensures Unmerged(merged[i := true]) == Unmerged(merged) - 1
  {
    if i > 0 {
      UnmergedUpdate(merged[1..], i - 1);
      assert merged[i := true][1..] == merged[1..][i - 1 := true];
    } else {
      assert merged[0 := true][1..] == merged[1..];
    }
  }

  /** Rounds until nothing waits or nothing changes. Every round that changes something leaves fewer
      statements unmerged. */
  function MergeRounds<T(==)>(list: seq<T>, lists: seq<seq<T>>, merged: seq<bool>): (r: Outcome<T>)
    requires |merged| == |lists|
    decreases Unmerged(merged)
  {
    var r := RunRound(Round(list, merged, 0, false), lists, 0);
    if r.waiting == 0 then Outcome(true, r.list)
    else if r.changed then MergeRounds(r.list, lists, r.merged)
    else Outcome(false, r.list)
  }

  function MergeAll<T(==)>(lists: seq<seq<T>>): (r: Outcome<T>)
  {
    MergeRounds([], lists, seq(|lists|, _ => false))
  }

  // ---- What every attempt keeps, successful or not

  /** Some order statement puts `x` before `y`. */
  ghost predicate Demanded<T>(lists: seq<seq<T>>, x: T, y: T) {
    exists l :: l in lists && Before(l, x, y)
  }

  /** Some order statement names `x`. */
  ghost predicate Listed<T>(lists: seq<seq<T>>, x: T) {
    exists l :: l in lists && x in l
  }

  /** Every adjacent pair of the combined list is demanded by some order statement. */
  ghost predicate Justified<T>(list: seq<T>, lists: seq<seq<T>>) {
    forall k :: 0 < k < |list| ==> Demanded(lists, list[k - 1], list[k])
  }

  /** The invariant of the combined list: no repetition, only items of the statements, and no adjacency
      that a statement does not demand. */
  ghost predicate Sound<T>(list: seq<T>, lists: seq<seq<T>>) {
    && NoDuplicates(list)
    && (forall x :: x in list ==> Listed(lists, x))
    && Justified(list, lists)
  }

  /** One insertion whose neighbours come from the statement `l`. */
  lemma InsertOne<T>(list: seq<T>, pos: nat, lists: seq<seq<T>>, l: seq<T>, n: nat, m: nat)
    requires Sound(list, lists) && l in lists && pos <= |list|
    requires n < m <= |l| && l[n] !in list
    requires if pos == 0 then true else n > 0 && list[pos - 1] == l[n - 1]
    requires if pos == |list| then true else m < |l| && list[pos] == l[m]
    ensures Sound(list[..pos] + [l[n]] + list[pos..], lists)
  {
    var r := list[..pos] + [l[n]] + list[pos..];
    forall x | x in r
      ensures Listed(lists, x)
    {
      assert if x == l[n] then l[n] in l else x in list;
    }
    forall k | 0 < k < |r|
      ensures Demanded(lists, r[k - 1], r[k])
    {
      if k < pos {
        assert r[k - 1] == list[k - 1] && r[k] == list[k];
      } else if k == pos {
        assert Before(l, l[n - 1], l[n]);
      } else if k == pos + 1 {
        assert Before(l, l[n], l[m]);
      } else {
        assert r[k - 1] == list[k - 2] && r[k] == list[k - 1];
      }
    }
  }

  lemma {:induction false} InsertRunKeeps<T>(list: seq<T>, pos: nat, lists: seq<seq<T>>, l: seq<T>, n: nat, m: nat)
    requires Sound(list, lists) && l in lists && pos <= |list|
    requires n <= m <= |l|
    requires if pos == 0 then true else n > 0 && list[pos - 1] == l[n - 1]
    requires if pos == |list| then true else m < |l| && list[pos] == l[m]
    ensures Sound(InsertRun(list, pos, l[n..m]).list, lists)
    ensures IsSubsequence(list, InsertRun(list, pos, l[n..m]).list)
    decreases m - n
  {
    hide IsSubsequence, Sound;
    var run := l[n..m];
    if run != [] && run[0] !in list {
      var longer := list[..pos] + [run[0]] + list[pos..];
      InsertOne(list, pos, lists, l, n, m);
      assert run[1..] == l[n + 1..m];
      InsertRunKeeps(longer, pos + 1, lists, l, n + 1, m);
      assert IsSubsequence(list, InsertRun(list, pos, run).list) by {
        SubsequenceReflexive(list);
        assert list[..pos] + list[pos..] == list;
        SubsequenceInsert(list, list[..pos], run[0], list[pos..]);
        SubsequenceTransitive(list, longer, InsertRun(longer, pos + 1, run[1..]).list);
      }
    } else {
      SubsequenceReflexive(list);
    }
  }

  /** The invariant of the overlapping part: what precedes position `n` of the new statement is already in
      order before position `o`, and the two positions follow the same item. */
  ghost predicate Aligned<T>(list: seq<T>, o: nat, l: seq<T>, n: nat) {
    && 0 < o <= |list| && 0 < n <= |l|
    && list[o - 1] == l[n - 1]
    && IsSubsequence(l[..n], list[..o])
  }

  lemma AlignedSkip<T>(list: seq<T>, o: nat, l: seq<T>, n: nat, p: nat)
    requires Aligned(list, o, l, n)
    requires o <= p < |list| && n < |l| && list[p] == l[n]
    ensures Aligned(list, p + 1, l, n + 1)
  {
    hide IsSubsequence;
    SubsequenceExtend(l[..n], list[..o], list[o..p], l[n]);
    assert l[..n] + [l[n]] == l[..n + 1];
    assert list[..o] + list[o..p] + [l[n]] == list[..p + 1];
  }

  /** Inserting the items up to the next common one keeps the alignment. */
  lemma AlignedInsert<T>(list: seq<T>, o: nat, l: seq<T>, n: nat, m: nat)
    requires Aligned(list, o, l, n) && n <= m <= |l|
    ensures Aligned(list[..o] + l[n..m] + list[o..], o + (m - n), l, m)
  {
    hide IsSubsequence;
    var r := list[..o] + l[n..m] + list[o..];
    assert IsSubsequence(l[..m], r[..o + (m - n)]) by {
      SubsequenceReflexive(l[n..m]);
      SubsequenceConcat(l[..n], list[..o], l[n..m], l[n..m]);
      assert l[..n] + l[n..m] == l[..m];
      assert list[..o] + l[n..m] == r[..o + (m - n)];
    }
  }

  /** What a step leaves for the next one. */
  ghost predicate StepKeeps<T>(list: seq<T>, r: Step<T>, lists: seq<seq<T>>, l: seq<T>) {
    match r
    case Stop(out) => !out.ok && Sound(out.list, lists) && IsSubsequence(list, out.list)
    case Go(list', o', n') => Sound(list', lists) && IsSubsequence(list, list') && Aligned(list', o', l, n')
  }

  lemma AlignedGap<T>(list: seq<T>, o: nat, l: seq<T>, n: nat, m: nat)
    requires Aligned(list, o, l, n) && o < |list| && n < m < |l| && l[m] == list[o]
    ensures Aligned(list[..o] + l[n..m] + list[o..], o + (m - n) + 1, l, m + 1)
  {
    hide IsSubsequence;
    var r := list[..o] + l[n..m] + list[o..];
    AlignedInsert(list, o, l, n, m);
    assert r[o + (m - n)] == list[o];
    AlignedSkip(r, o + (m - n), l, m, o + (m - n));
  }

  lemma GapInListKeeps<T>(list: seq<T>, o: nat, lists: seq<seq<T>>, l: seq<T>, n: nat, m: nat)
    requires Sound(list, lists) && l in lists && Aligned(list, o, l, n)
    requires o < |list| && n < m < |l| && l[m] == list[o]
    ensures StepKeeps(list, AfterGap(InsertRun(list, o, l[n..m]), o + (m - n) + 1, m + 1), lists, l)
  {
    hide IsSubsequence, Sound;
    InsertRunKeeps(list, o, lists, l, n, m);
    var r := InsertRun(list, o, l[n..m]);
    if r.ok {
      assert Aligned(r.list, o + (m - n) + 1, l, m + 1) by {
        InsertRunInserts(list, o, l[n..m]);
        AlignedGap(list, o, l, n, m);
      }
    }
  }

  lemma OverlapStepKeeps<T>(list: seq<T>, o: nat, lists: seq<seq<T>>, l: seq<T>, n: nat)
    requires Sound(list, lists) && l in lists && Aligned(list, o, l, n) && n < |l| && o < |list|
    ensures StepKeeps(list, OverlapStep(list, o, l, n), lists, l)
  {
    hide IsSubsequence, Sound;
    SubsequenceReflexive(list);
    if l[n] == list[o] {
      AlignedSkip(list, o, l, n, o);
    } else {
      var m := Find(l, list[o], n + 1);
      if m < |l| {
        GapInListKeeps(list, o, lists, l, n, m);
      } else {
        var p := Find(list, l[n], o + 1);
        if p < |list| {
          AlignedSkip(list, o, l, n, p);
        }
      }
    }
  }

  /** `r` keeps what was in order in `list`, and puts `l` in order too if it succeeded. */
  ghost predicate AttemptKeeps<T>(list: seq<T>, r: Outcome<T>, lists: seq<seq<T>>, l: seq<T>) {
    && Sound(r.list, lists)
    && IsSubsequence(list, r.list)
    && (r.ok ==> IsSubsequence(l, r.list))
  }

  lemma {:induction false} MergeOverlapKeeps<T>(list: seq<T>, o: nat, lists: seq<seq<T>>, l: seq<T>, n: nat)
    requires Sound(list, lists) && l in lists && Aligned(list, o, l, n)
    ensures AttemptKeeps(list, MergeOverlap(list, o, l, n), lists, l)
    decreases |l| - n
  {
    hide IsSubsequence, Sound, OverlapStep;
    if n == |l| {
      SubsequenceReflexive(list);
      SubsequenceEmpty(list[o..]);
      SubsequenceConcat(l[..n], list[..o], [], list[o..]);
      assert l[..n] + [] == l && list[..o] + list[o..] == list;
    } else if o == |list| {
      assert l[n..] == l[n..|l|];
      InsertRunKeeps(list, o, lists, l, n, |l|);
      AlignedInsert(list, o, l, n, |l|);
      assert l[..|l|] == l;
      var r := list[..o] + l[n..] + list[o..];
      assert r[..o + (|l| - n)] == r;
      if InsertRun(list, o, l[n..]).ok {
        InsertRunInserts(list, o, l[n..]);
      }
    } else {
      OverlapStepKeeps(list, o, lists, l, n);
      match OverlapStep(list, o, l, n)
      case Stop(_) =>
      case Go(list', o', n') =>
        MergeOverlapKeeps(list', o', lists, l, n');
        SubsequenceTransitive(list, list', MergeOverlap(list', o', l, n').list);
    }
  }

  lemma PrependKeeps<T>(list: seq<T>, lists: seq<seq<T>>, l: seq<T>, n: nat)
    requires Sound(list, lists) && l in lists && list != [] && 0 < n < |l| && l[n] == list[0]
    ensures var r := InsertRun(list, 0, l[..n]);
            AttemptKeeps(list, if r.ok then MergeOverlap(r.list, n + 1, l, n + 1) else r, lists, l)
  {
    hide IsSubsequence, Sound, InsertRun, MergeOverlap;
    assert l[..n] == l[0..n];
    InsertRunKeeps(list, 0, lists, l, 0, n);
    var r := InsertRun(list, 0, l[..n]);
    if r.ok {
      InsertRunInserts(list, 0, l[..n]);
      SubsequenceReflexive(l[..n + 1]);
      assert r.list[..n + 1] == l[..n + 1];
      MergeOverlapKeeps(r.list, n + 1, lists, l, n + 1);
      SubsequenceTransitive(list, r.list, MergeOverlap(r.list, n + 1, l, n + 1).list);
    }
  }

  /** One attempt, successful or not, keeps the invariant and everything that was in order; a successful
      one puts the new statement in order too. */
  lemma {:induction false} MergeKeeps<T>(list: seq<T>, lists: seq<seq<T>>, l: seq<T>)
    requires Sound(list, lists) && l in lists
    ensures AttemptKeeps(list, Merge(list, l), lists, l)
  {
    hide IsSubsequence, Sound, MergeOverlap;
    SubsequenceReflexive(list);
    if l == [] {
      SubsequenceEmpty(list);
    } else if list == [] {
      assert l[0..|l|] == l;
      InsertRunKeeps(list, 0, lists, l, 0, |l|);
      SubsequenceReflexive(l);
      if InsertRun(list, 0, l).ok {
        InsertRunInserts(list, 0, l);
        assert list[..0] + l + list[0..] == l;
      }
    } else {
      var n := FirstCommon(l, list, 0);
      if n < |l| {
        var o := Find(list, l[n], 0);
        if n == 0 {
          SubsequenceEmpty(list[..o]);
          SubsequenceExtend([], list[..o], [], l[0]);
          assert [] + [l[0]] == l[..1] && list[..o] + [] + [l[0]] == list[..o + 1];
          MergeOverlapKeeps(list, o + 1, lists, l, 1);
        } else if o == 0 {
          PrependKeeps(list, lists, l, n);
        }
      }
    }
  }

  /** What holds of the combined list between attempts. */
  ghost predicate RoundSound<T>(r: Round<T>, lists: seq<seq<T>>, i: nat)
    requires |r.merged| == |lists| && i <= |lists|
  {
    && Sound(r.list, lists)
    && (forall k :: 0 <= k < |lists| && r.merged[k] ==> IsSubsequence(lists[k], r.list))
    && (r.waiting == 0 ==> forall k :: 0 <= k < i ==> r.merged[k])
  }

  lemma {:induction false} RunRoundKeeps<T>(r: Round<T>, lists: seq<seq<T>>, i: nat)
    requires |r.merged| == |lists| && i <= |lists| && RoundSound(r, lists, i)
    ensures RoundSound(RunRound(r, lists, i), lists, |lists|)
    decreases |lists| - i
  {
    hide IsSubsequence, Sound, Merge;
    if i < |lists| {
      MergeKeeps(r.list, lists, lists[i]);
      forall k | 0 <= k < |lists| && r.merged[k]
        ensures IsSubsequence(lists[k], Merge(r.list, lists[i]).list)
      {
        SubsequenceTransitive(lists[k], r.list, Merge(r.list, lists[i]).list);
      }
      RunRoundKeeps(Attempt(r, lists, i), lists, i + 1);
    }
  }

  /** `list` is a combined order for `lists`: it names exactly their items, each once, and keeps every
      statement in order. */
  ghost predicate CombinesAll<T>(list: seq<T>, lists: seq<seq<T>>) {
    && NoDuplicates(list)
    && (forall x :: x in list ==> Listed(lists, x))
    && (forall l, x :: l in lists && x in l ==> x in list)
    && (forall l :: l in lists ==> IsSubsequence(l, list))
  }

  lemma {:induction false} MergeRoundsKeeps<T>(list: seq<T>, lists: seq<seq<T>>, merged: seq<bool>)
    requires |merged| == |lists| && RoundSound(Round(list, merged, 0, false), lists, 0)
    ensures Sound(MergeRounds(list, lists, merged).list, lists)
    ensures MergeRounds(list, lists, merged).ok ==>
              forall k :: 0 <= k < |lists| ==> IsSubsequence(lists[k], MergeRounds(list, lists, merged).list)
    decreases Unmerged(merged)
  {
    hide IsSubsequence, Sound, RunRound;
    RunRoundKeeps(Round(list, merged, 0, false), lists, 0);
    var r := RunRound(Round(list, merged, 0, false), lists, 0);
    if r.waiting != 0 && r.changed {
      MergeRoundsKeeps(r.list, lists, r.merged);
    }
  }

  // ---- Main results

  /** A successful merge combines all statements. */
  lemma MergeAllCombines<T>(lists: seq<seq<T>>)
    requires MergeAll(lists).ok
    ensures CombinesAll(MergeAll(lists).list, lists)
    ensures Justified(MergeAll(lists).list, lists)
  {
    MergeRoundsKeeps([], lists, seq(|lists|, _ => false));
    var list := MergeAll(lists).list;
    forall l, x | l in lists && x in l
      ensures x in list
    {
      var k :| 0 <= k < |lists| && lists[k] == l;
      SubsequenceKeepsMember(l, list, x);
    }
  }

  /** A combined order in which every adjacency is demanded is the only combined order. */
  lemma JustifiedIsUnique<T>(list: seq<T>, lists: seq<seq<T>>, other: seq<T>)
    requires CombinesAll(list, lists) && Justified(list, lists) && CombinesAll(other, lists)
    ensures other == list
  {
    forall k | 0 < k < |list|
      ensures Before(other, list[k - 1], list[k])
    {
      assert Demanded(lists, list[k - 1], list[k]);
      var l :| l in lists && Before(l, list[k - 1], list[k]);
      SubsequenceKeepsOrder(l, other, list[k - 1], list[k]);
    }
    assert Elements(list) == Elements(other);
    AdjacentOrderDetermines(list, other);
  }

  /** A successful merge has no freedom: its result is the only order that combines all statements. */
  lemma MergeAllUnique<T>(lists: seq<seq<T>>, other: seq<T>)
    requires MergeAll(lists).ok && CombinesAll(other, lists)
    ensures other == MergeAll(lists).list
  {
    MergeAllCombines(lists);
    JustifiedIsUnique(MergeAll(lists).list, lists, other);
  }

  /** So the order in which the statements are met does not influence a successful result. */
  lemma MergeAllIgnoresStatementOrder<T>(lists: seq<seq<T>>, permuted: seq<seq<T>>)
    requires multiset(lists) == multiset(permuted)
    requires MergeAll(lists).ok && MergeAll(permuted).ok
    ensures MergeAll(lists).list == MergeAll(permuted).list
  {
    assert forall l :: l in lists <==> l in multiset(lists);
    assert forall l :: l in permuted <==> l in multiset(permuted);
    MergeAllCombines(permuted);
    var list := MergeAll(permuted).list;
    assert forall x :: Listed(permuted, x) ==> Listed(lists, x);
    MergeAllUnique(lists, list);
  }

  /** A round in which attempts at all waiting statements, one after the other, fail: the list that each of them
      finds and leaves, and the statements that were merged before. */
  ghost predicate FruitlessRound<T>(found: seq<seq<T>>, merged: seq<bool>, lists: seq<seq<T>>, from: nat)
    requires from <= |lists|
  {
    && |merged| == |lists| && |found| == |lists| - from + 1
    && forall i :: from <= i < |lists| ==>
         if merged[i] then found[i - from + 1] == found[i - from]
         else Merge(found[i - from], lists[i]) == Outcome(false, found[i - from + 1])
  }

  lemma {:induction false} UnchangedRound<T>(r: Round<T>, lists: seq<seq<T>>, from: nat) returns (found: seq<seq<T>>)
    requires |r.merged| == |lists| && from <= |lists| && !RunRound(r, lists, from).changed
    ensures FruitlessRound(found, r.merged, lists, from)
    ensures found[0] == r.list && found[|lists| - from] == RunRound(r, lists, from).list
    ensures RunRound(r, lists, from).waiting > r.waiting ==> exists i :: from <= i < |lists| && !r.merged[i]
    decreases |lists| - from
  {
    hide Merge;
    if from == |lists| {
      found := [r.list];
    } else {
      var rest := UnchangedRound(Attempt(r, lists, from), lists, from + 1);
      found := [r.list] + rest;
    }
  }

  /** The merge gives up only after a round in which every statement that was still waiting has been tried and has
      failed, and what that round leaves is the result. */
  lemma GivesUpAfterFruitlessRound<T>(lists: seq<seq<T>>) returns (found: seq<seq<T>>, merged: seq<bool>)
    requires !MergeAll(lists).ok
    ensures FruitlessRound(found, merged, lists, 0) && found[|lists|] == MergeAll(lists).list
    ensures exists i :: 0 <= i < |lists| && !merged[i]
    ensures forall i :: 0 <= i < |lists| && merged[i] ==> IsSubsequence(lists[i], found[0])
  {
    found, merged := LastRound([], lists, seq(|lists|, _ => false));
  }

  lemma {:induction false} LastRound<T>(list: seq<T>, lists: seq<seq<T>>, merged: seq<bool>)
      returns (found: seq<seq<T>>, merged': seq<bool>)
    requires |merged| == |lists| && RoundSound(Round(list, merged, 0, false), lists, 0)
    requires !MergeRounds(list, lists, merged).ok
    ensures FruitlessRound(found, merged', lists, 0) && found[|lists|] == MergeRounds(list, lists, merged).list
    ensures exists i :: 0 <= i < |lists| && !merged'[i]
    ensures forall i :: 0 <= i < |lists| && merged'[i] ==> IsSubsequence(lists[i], found[0])
    decreases Unmerged(merged)
  {
    hide IsSubsequence, Sound, RunRound, FruitlessRound;
    RunRoundKeeps(Round(list, merged, 0, false), lists, 0);
    var r := RunRound(Round(list, merged, 0, false), lists, 0);
    if r.changed {
      found, merged' := LastRound(r.list, lists, r.merged);
    } else {
      merged' := merged;
      found := UnchangedRound(Round(list, merged, 0, false), lists, 0);
    }
  }

  /** Whether a merge succeeds at all does depend on it: three statements with one combined order, which is
      found in one order of the statements and not in another. */
  lemma SuccessDependsOnStatementOrder()
    ensures !MergeAll([[0, 2], [0, 1], [1, 2]]).ok
    ensures MergeAll([[0, 1], [1, 2], [0, 2]]) == Outcome(true, [0, 1, 2])
  {
    StuckExample();
    MergedExample();
    ThreeInOneRound([[0, 1], [1, 2], [0, 2]], [0, 1], [0, 1, 2], [0, 1, 2]);
  }

  lemma ThreeInOneRound<T>(lists: seq<seq<T>>, s1: seq<T>, s2: seq<T>, s3: seq<T>)
    requires |lists| == 3
    requires Merge([], lists[0]) == Outcome(true, s1)
    requires Merge(s1, lists[1]) == Outcome(true, s2)
    requires Merge(s2, lists[2]) == Outcome(true, s3)
    ensures MergeAll(lists) == Outcome(true, s3)
  {
    var unmerged := seq(3, _ => false);
    var r0 := Round([], unmerged, 0, false);
    RoundOfThree(r0, lists);
    assert RunRound(r0, lists, 0) == Round(s3, unmerged[0 := true][1 := true][2 := true], 0, true);
  }

  lemma MergedExample()
    ensures Merge([], [0, 1]) == Outcome(true, [0, 1])
    ensures Merge([0, 1], [1, 2]) == Outcome(true, [0, 1, 2])
    ensures Merge([0, 1, 2], [0, 2]) == Outcome(true, [0, 1, 2])
  {
    assert InsertRun([0], 1, [1]) == InsertRun([0, 1], 2, []);
    assert InsertRun([0, 1], 2, [2]) == InsertRun([0, 1, 2], 3, []);
    assert [1, 2][1..] == [2];
    assert MergeOverlap([0, 1, 2], 1, [0, 2], 1) == MergeOverlap([0, 1, 2], 3, [0, 2], 2) by {
      assert Find([0, 2], 1, 2) == 2;
      assert Find([0, 1, 2], 2, 2) == 2;
    }
  }

  lemma RoundOfThree<T>(r: Round<T>, lists: seq<seq<T>>)
    requires |lists| == 3 == |r.merged|
    ensures RunRound(r, lists, 0) == Attempt(Attempt(Attempt(r, lists, 0), lists, 1), lists, 2)
  {
    var r1 := Attempt(r, lists, 0);
    var r2 := Attempt(r1, lists, 1);
    assert RunRound(r2, lists, 2) == Attempt(r2, lists, 2);
  }

  lemma StuckExample()
    ensures !MergeAll([[0, 2], [0, 1], [1, 2]]).ok
  {
    var lists := [[0, 2], [0, 1], [1, 2]];
    assert seq(3, _ => false) == [false, false, false];
    assert Merge([], [0, 2]) == Outcome(true, [0, 2]) by {
      assert InsertRun([], 0, [0, 2]).ok;
    }
    assert Merge([0, 2], [0, 1]) == Outcome(false, [0, 2]);
    assert Merge([0, 2], [1, 2]) == Outcome(false, [0, 2]);
    var merged := [true, false, false];
    var r0 := Round([], [false, false, false], 0, false);
    assert Attempt(r0, lists, 0) == Round([0, 2], merged, 0, true);
    assert Attempt(Round([0, 2], merged, 0, true), lists, 1) == Round([0, 2], merged, 1, true);
    assert Attempt(Round([0, 2], merged, 1, true), lists, 2) == Round([0, 2], merged, 2, true);
    RoundOfThree(r0, lists);
    var r1 := Round([0, 2], merged, 0, false);
    assert Attempt(r1, lists, 0) == r1;
    assert Attempt(r1, lists, 1) == Round([0, 2], merged, 1, false);
    assert Attempt(Round([0, 2], merged, 1, false), lists, 2) == Round([0, 2], merged, 2, false);
    RoundOfThree(r1, lists);
  }

  // ---- The code

  /** A sid, class, category or sensitivity: `ordered` says that it is in the combined list. */
  class OrderedDatum {
    var ordered: bool
    var value: int

    constructor ()
      ensures !ordered
    {
      ordered, value := false, 0;
    }
  }

  /** The items of one order statement, with the mark that says it is merged. */
  class Statement {
    const list: seq<OrderedDatum>
    var merged: bool

    constructor (list: seq<OrderedDatum>)
      ensures this.list == list && !merged
    {
      this.list, merged := list, false;
    }
  }

  /** The list that is being put together. */
  class CombinedList {
    var items: seq<OrderedDatum>

    constructor ()
      ensures items == []
    {
      items := [];
    }

    /** The marks of all data agree with membership in the list. */
    ghost predicate Valid(data: set<OrderedDatum>)
      reads this, data
    {
      && (forall d :: d in items ==> d in data)
      && (forall d :: d in data ==> (d.ordered <==> d in items))
    }

    /** Inserts `item` at position `pos` and marks it; refuses an item that is marked already. */
    method InsertItem(ghost data: set<OrderedDatum>, pos: nat, item: OrderedDatum) returns (ok: bool)
      requires Valid(data) && item in data && pos <= |items|
      modifies this, item`ordered
      ensures Valid(data)
      ensures ok == (item !in old(items))
      ensures items == if ok then old(items)[..pos] + [item] + old(items)[pos..] else old(items)
    {
      if item.ordered {
        return false;
      }
      item.ordered := true;
      items := items[..pos] + [item] + items[pos..];
      assert forall d :: d in items <==> d == item || d in old(items);
      return true;
    }

    /** Inserts the items of `run` up to the first that is taken. */
    method InsertList(ghost data: set<OrderedDatum>, pos: nat, run: seq<OrderedDatum>) returns (ok: bool)
      requires Valid(data) && (forall d :: d in run ==> d in data) && pos <= |items|
      modifies this, data`ordered
      ensures Valid(data)
      ensures var k := FirstTaken(old(items), run, 0);
              ok == (k == |run|) && items == old(items)[..pos] + run[..k] + old(items)[pos..]
      ensures Outcome(ok, items) == InsertRun(old(items), pos, run)
    {
      hide InsertRun, FirstTaken;
      InsertRunExactly(items, pos, run);
      var cursor, n := pos, 0;
      while n < |run|
        invariant 0 <= n <= |run| && 0 <= cursor <= |items| && Valid(data)
        invariant InsertRun(items, cursor, run[n..]) == InsertRun(old(items), pos, run)
      {
        NextInserted(items, cursor, run, n);
        var inserted := InsertItem(data, cursor, run[n]);
        if !inserted {
          return false;
        }
        cursor, n := cursor + 1, n + 1;
      }
      assert run[n..] == [];
      InsertedAll(items, cursor);
      return true;
    }

    /** One attempt to merge the items of a statement into the list. */
    method MergeList(ghost data: set<OrderedDatum>, newList: seq<OrderedDatum>) returns (ok: bool)
      requires Valid(data) && forall d :: d in newList ==> d in data
      modifies this, data`ordered
      ensures Valid(data)
      ensures Outcome(ok, items) == Merge(old(items), newList)
    {
      hide MergeOverlap, InsertRun;
      if newList == [] {
        return true;
      }
      if items == [] {
        ok := InsertList(data, 0, newList);
        return;
      }
      var n := FirstCommon(newList, items, 0);
      if n == |newList| {
        return false;
      }
      var o := Find(items, newList[n], 0);
      if n != 0 && o != 0 {
        return false;
      }
      if n != 0 {
        ok := InsertList(data, 0, newList[..n]);
        if !ok {
          return;
        }
      }
      ok := MergeRest(data, newList, o + n + 1, n + 1);
    }

    /** The overlapping part and the rest of the new items. */
    method MergeRest(ghost data: set<OrderedDatum>, newList: seq<OrderedDatum>, o0: nat, n0: nat) returns (ok: bool)
      requires Valid(data) && forall d :: d in newList ==> d in data
      requires o0 <= |items| && n0 <= |newList|
      modifies this, data`ordered
      ensures Valid(data)
      ensures Outcome(ok, items) == MergeOverlap(old(items), o0, newList, n0)
    {
      var o, n := o0, n0;
      while n < |newList| && o < |items|
        invariant n0 <= n <= |newList| && o0 <= o <= |items| && Valid(data)
        invariant MergeOverlap(items, o, newList, n) == MergeOverlap(old(items), o0, newList, n0)
        decreases |newList| - n
      {
        ok, o, n := MergeStep(data, newList, o, n);
        if !ok {
          return;
        }
      }
      if n < |newList| {
        ok := InsertList(data, |items|, newList[n..]);
        return;
      }
      return true;
    }

    /** One step of the overlapping part: the same item on both sides, a gap in the list, or a gap in the
        new items. */
    method MergeStep(ghost data: set<OrderedDatum>, newList: seq<OrderedDatum>, o0: nat, n0: nat)
        returns (ok: bool, o: nat, n: nat)
      requires Valid(data) && forall d :: d in newList ==> d in data
      requires o0 < |items| && n0 < |newList|
      modifies this, data`ordered
      ensures Valid(data)
      ensures OverlapStep(old(items), o0, newList, n0) == if ok then Go(items, o, n) else Stop(Outcome(false, items))
    {
      ok, o, n := true, o0 + 1, n0 + 1;
      if newList[n0] != items[o0] {
        var m := Find(newList, items[o0], n0 + 1);
        if m < |newList| {
          ok := InsertList(data, o0, newList[n0..m]);
          o, n := o0 + (m - n0) + 1, m + 1;
        } else {
          var p := Find(items, newList[n0], o0 + 1);
          ok, o := p < |items|, p + 1;
        }
      }
    }
  }

  ghost function ListsOf(statements: seq<Statement>): (r: seq<seq<OrderedDatum>>)
    ensures |r| == |statements|
    ensures forall k :: 0 <= k < |r| ==> r[k] == statements[k].list
  {
    seq(|statements|, k requires 0 <= k < |statements| => statements[k].list)
  }

  ghost function MarksOf(statements: seq<Statement>): (r: seq<bool>)
    reads statements
    ensures |r| == |statements|
    ensures forall k :: 0 <= k < |r| ==> r[k] == statements[k].merged
  {
    seq(|statements|, k requires 0 <= k < |statements| reads statements => statements[k].merged)
  }

  ghost predicate Prepared(statements: seq<Statement>, data: set<OrderedDatum>) {
    && NoDuplicates(statements)
    && forall s, d :: s in statements && d in s.list ==> d in data
  }

  /** Marks statement `i` as merged. */
  method MarkMerged(statements: seq<Statement>, i: nat)
    requires NoDuplicates(statements) && i < |statements|
    modifies statements[i]
    ensures MarksOf(statements) == old(MarksOf(statements))[i := true]
  {
    statements[i].merged := true;
  }

  /** The attempt at statement `i`: nothing if it is merged already. */
  method AttemptStatement(ghost data: set<OrderedDatum>, statements: seq<Statement>, combined: CombinedList,
                          i: nat, waiting0: nat, changed0: bool)
    returns (waiting: nat, changed: bool)
    requires Prepared(statements, data) && combined.Valid(data) && i < |statements|
    modifies statements, combined, data`ordered
    ensures combined.Valid(data)
    ensures Round(combined.items, MarksOf(statements), waiting, changed)
         == Attempt(Round(old(combined.items), old(MarksOf(statements)), waiting0, changed0), ListsOf(statements), i)
  {
    waiting, changed := waiting0, changed0;
    if !statements[i].merged {
      ghost var attempt := Merge(combined.items, statements[i].list);
      var merged := combined.MergeList(data, statements[i].list);
      assert attempt == Outcome(merged, combined.items);
      assert MarksOf(statements) == old(MarksOf(statements));
      if merged {
        MarkMerged(statements, i);
        changed := true;
      } else {
        waiting := waiting + 1;
      }
    }
  }

  /** One round: every statement that is not merged yet is attempted once. */
  method RoundOfAttempts(ghost data: set<OrderedDatum>, statements: seq<Statement>, combined: CombinedList)
    returns (waiting: nat, changed: bool)
    requires Prepared(statements, data) && combined.Valid(data)
    modifies statements, combined, data`ordered
    ensures combined.Valid(data)
    ensures Round(combined.items, MarksOf(statements), waiting, changed)
         == RunRound(Round(old(combined.items), old(MarksOf(statements)), 0, false), ListsOf(statements), 0)
  {
    ghost var lists := ListsOf(statements);
    ghost var start := Round(combined.items, MarksOf(statements), 0, false);
    changed, waiting := false, 0;
    var i := 0;
    while i < |statements|
      invariant 0 <= i <= |statements| && combined.Valid(data)
      invariant RunRound(Round(combined.items, MarksOf(statements), waiting, changed), lists, i) ==
          RunRound(start, lists, 0)
    {
      waiting, changed := AttemptStatement(data, statements, combined, i, waiting, changed);
      i := i + 1;
    }
  }

  /** Merges all statements, in rounds, into one list; `ok` is false for the failure. */
  method MergeStatements(ghost data: set<OrderedDatum>, statements: seq<Statement>)
      returns (ok: bool, combined: CombinedList)
    requires Prepared(statements, data)
    requires forall s :: s in statements ==> !s.merged
    requires forall d :: d in data ==> !d.ordered
    modifies statements, data`ordered
    ensures fresh(combined) && combined.Valid(data)
    ensures Outcome(ok, combined.items) == MergeAll(ListsOf(statements))
    ensures ok ==> CombinesAll(combined.items, ListsOf(statements))
  {
    combined := new CombinedList();
    ghost var lists := ListsOf(statements);
    var changed, waiting: nat := true, 1;
    assert MarksOf(statements) == seq(|lists|, _ => false);
    while waiting > 0 && changed
      invariant combined.Valid(data)
      invariant waiting > 0 ==> changed && MergeRounds(combined.items, lists, MarksOf(statements)) == MergeAll(lists)
      invariant waiting == 0 ==> Outcome(true, combined.items) == MergeAll(lists)
      decreases Unmerged(MarksOf(statements)), waiting
    {
      waiting, changed := RoundOfAttempts(data, statements, combined);
      if waiting > 0 && !changed {
        return false, combined;
      }
    }
    MergeAllCombines(lists);
    return true, combined;
  }

  /** Numbers the categories by their place in the combined order. */
  method SetValues(ordering: seq<OrderedDatum>) returns (count: nat)
    requires NoDuplicates(ordering)
    modifies ordering
    ensures count == |ordering|
    ensures forall i :: 0 <= i < |ordering| ==> ordering[i].value == i
    ensures forall i :: 0 <= i < |ordering| ==> ordering[i].ordered == old(ordering[i].ordered)
  {
    count := 0;
    while count < |ordering|
      invariant count <= |ordering|
      invariant forall i :: 0 <= i < count ==> ordering[i].value == i
      invariant forall i :: 0 <= i < |ordering| ==> ordering[i].ordered == old(ordering[i].ordered)
    {
      ordering[count].value := count;
      count := count + 1;
    }
  }
}
