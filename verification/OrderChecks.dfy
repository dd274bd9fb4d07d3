/** The step of resolution that merges the order statements and checks that all data are ordered. */
module OrderChecks {
  import opened Common
  import opened Subsequences
  import opened OrderedLists
  import opened MergeExactness
  import opened MergePlans

  /** The order statements of one kind, as lists, and the data of that kind that are declared. */
  datatype Statements = Statements(lists: seq<seq<nat>>, declared: seq<nat>)

  datatype Kinds = Kinds(sids: Statements, classes: Statements, cats: Statements, sens: Statements)

  /** The orders of the policy; an order is missing where the statements could not be merged. */
  datatype Orders = Orders(sids: Option<seq<nat>>, classes: Option<seq<nat>>, cats: Option<seq<nat>>,
      sens: Option<seq<nat>>)

  /** The data that are marked as ordered after the merge, also after one that failed. */
  function Marked(s: Statements): seq<nat> {
    MergeAll(s.lists).list
  }

  predicate AllMarked(s: Statements) {
    forall d :: d in s.declared ==> d in Marked(s)
  }

  /** What the merge of the statements of a kind returns. */
  function OrderOfKind(s: Statements): Option<seq<nat>> {
    var r := MergeAll(s.lists);
    if r.ok then Some(r.list) else None
  }

  function OrdersOf(i: Kinds): Orders {
    Orders(OrderOfKind(i.sids), OrderOfKind(i.classes), OrderOfKind(i.cats), OrderOfKind(i.sens))
  }

  /** The order is there exactly if the statements can be planned, and is then the only one that combines them. */
  ghost predicate OrderFor(order: Option<seq<nat>>, s: Statements) {
    && (order.Some? <==> PlanAll(s.lists))
    && (order.Some? ==> forall v :: CombinesAll(v, s.lists) <==> v == order.value)
  }

  lemma OrderIsFor(s: Statements)
    ensures OrderFor(OrderOfKind(s), s) && (OrderOfKind(s).Some? <==> PlanAll(s.lists))
  {
    MergeAllExactly(s.lists);
    if MergeAll(s.lists).ok {
      MergeAllCombines(s.lists);
      hide CombinesAll, MergeAll, PlanAll;
      forall v | CombinesAll(v, s.lists) ensures v == MergeAll(s.lists).list {
        MergeAllUnique(s.lists, v);
      }
    }
  }

  /** What the step asks of the statements: an order of the categories, and marks on all declared data. */
  ghost predicate Passes(i: Kinds) {
    PlanAll(i.cats.lists) && AllMarked(i.sids) && AllMarked(i.classes) && AllMarked(i.cats) && AllMarked(i.sens)
  }

  /** Looks for a declared datum without mark. */
  method VerifyOrdered(s: Statements) returns (ok: bool)
    ensures ok <==> AllMarked(s)
  {
    var k := 0;
    while k < |s.declared|
      invariant 0 <= k <= |s.declared| && forall j :: 0 <= j < k ==> s.declared[j] in Marked(s)
    {
      if s.declared[k] !in Marked(s) {
        return false;
      }
      k := k + 1;
    }
    return true;
  }

  /** Merges the statements of all kinds, numbers the categories and checks the marks. What the merges return is not
      looked at, but the numbering follows the list of categories. */
  method SetOrders(i: Kinds) returns (ending: Ending, orders: Orders)
    ensures ending == Followed <==> !PlanAll(i.cats.lists)
    ensures ending == Passed <==> Passes(i)
    ensures ending == Passed ==> orders == OrdersOf(i)
    ensures ending == Passed ==>
        && OrderFor(orders.sids, i.sids) && OrderFor(orders.classes, i.classes)
        && OrderFor(orders.cats, i.cats) && OrderFor(orders.sens, i.sens)
  {
    OrderIsFor(i.sids);
    OrderIsFor(i.classes);
    OrderIsFor(i.cats);
    OrderIsFor(i.sens);
    hide PlanAll, MergeAll, OrderFor, OrderOfKind, Marked;
    assert OrderOfKind(i.cats).Some? <==> PlanAll(i.cats.lists);
    orders := Orders(OrderOfKind(i.sids), OrderOfKind(i.classes), OrderOfKind(i.cats), None);
    if orders.cats == None {
      return Followed, orders;
    }
    orders := orders.(sens := OrderOfKind(i.sens));
    var ok := VerifyOrdered(i.sids);
    if !ok {
      return Refused, orders;
    }
    ok := VerifyOrdered(i.classes);
    if !ok {
      return Refused, orders;
    }
    ok := VerifyOrdered(i.cats);
    if !ok {
      return Refused, orders;
    }
    ok := VerifyOrdered(i.sens);
    if !ok {
      return Refused, orders;
    }
    ending := Passed;
  }

  /** The last check: there is an initial sid, and all that are ordered have a context. */
  method VerifyInitsids(sids: Option<seq<nat>>, contexts: set<nat>) returns (ending: Ending)
    ensures ending == Followed <==> sids == None
    ensures ending == Passed <==> sids.Some? && sids.value != [] && forall s :: s in sids.value ==> s in contexts
  {
    if sids == None {
      return Followed;
    }
    if sids.value == [] {
      return Refused;
    }
    ending := Passed;
    var k := 0;
    while k < |sids.value|
      invariant 0 <= k <= |sids.value| && ending != Followed
      invariant ending == Passed <==> forall j :: 0 <= j < k ==> sids.value[j] in contexts
    {
      if sids.value[k] !in contexts {
        ending := Refused;
      }
      k := k + 1;
    }
  }

  // ---- Passing without an order

  /** An order that is there is the only one that combines the statements, and has all declared data. */
  lemma OrderIsComplete(s: Statements)
    requires AllMarked(s) && PlanAll(s.lists)
    ensures OrderOfKind(s).Some? && CombinesAll(OrderOfKind(s).value, s.lists)
    ensures forall d :: d in s.declared ==> d in OrderOfKind(s).value
    ensures forall v :: CombinesAll(v, s.lists) ==> v == OrderOfKind(s).value
  {
    MergeAllExactly(s.lists);
    MergeAllCombines(s.lists);
    hide CombinesAll, MergeAll;
    forall v | CombinesAll(v, s.lists) ensures v == OrderOfKind(s).value {
      MergeAllUnique(s.lists, v);
    }
  }

  /** A kind passes the check without an order exactly if its statements cannot be planned and all its declared data
      were marked on the way; if the statements can be combined at all, these are the data in the beginnings that the
      plan has merged. */
  lemma PassesWithoutOrder(s: Statements)
    ensures OrderOfKind(s) == None <==> !PlanAll(s.lists)
    ensures (exists v :: CombinesAll(v, s.lists)) ==>
              (AllMarked(s) <==> forall d :: d in s.declared ==> Listed(PlanOf(s.lists).done, d))
  {
    MergeAllExactly(s.lists);
    if v :| CombinesAll(v, s.lists) {
      MarkedAsPlanned(s.lists, v);
    }
  }

  /** Two statements in opposite directions: they cannot be merged, and both data are marked. */
  lemma OppositeStatements<T>(a: T, b: T)
    requires a != b
    ensures MergeAll([[a, b], [b, a]]) == Outcome(false, [a, b])
  {
    var lists := [[a, b], [b, a]];
    assert seq(2, _ => false) == [false, false];
    assert Merge([], [a, b]) == Outcome(true, [a, b]) by {
      assert [][..0] + [a] + [][0..] == [a] && [a, b][1..] == [b];
      assert InsertRun([], 0, [a, b]) == InsertRun([a], 1, [b]);
      assert InsertRun([a], 1, [b]) == InsertRun([a, b], 2, []);
    }
    OppositeAttempt(a, b);
    var merged := [true, false];
    var r0 := Round([], [false, false], 0, false);
    assert Attempt(r0, lists, 0) == Round([a, b], merged, 0, true);
    assert Attempt(Round([a, b], merged, 0, true), lists, 1) == Round([a, b], merged, 1, true);
    RoundOfTwo(r0, lists);
    var r1 := Round([a, b], merged, 0, false);
    assert Attempt(r1, lists, 0) == r1;
    assert Attempt(r1, lists, 1) == Round([a, b], merged, 1, false);
    RoundOfTwo(r1, lists);
  }

  lemma OppositeAttempt<T>(a: T, b: T)
    requires a != b
    ensures Merge([a, b], [b, a]) == Outcome(false, [a, b])
  {
    assert FirstCommon([b, a], [a, b], 0) == 0;
    assert Find([a, b], b, 0) == 1;
    assert MergeOverlap([a, b], 2, [b, a], 1) == InsertRun([a, b], 2, [b, a][1..]);
    assert [b, a][1..] == [a];
  }

  lemma RoundOfTwo<T>(r: Round<T>, lists: seq<seq<T>>)
    requires |lists| == 2 == |r.merged|
    ensures RunRound(r, lists, 0) == Attempt(Attempt(r, lists, 0), lists, 1)
  {
    var r1 := Attempt(r, lists, 0);
    assert RunRound(r1, lists, 1) == Attempt(r1, lists, 1);
  }

  /** With classes in opposite directions, the class order is missing and the check passes. */
  lemma OppositeClassesPass(i: Kinds, a: nat, b: nat)
    requires a != b && i.classes == Statements([[a, b], [b, a]], [a, b])
    ensures AllMarked(i.classes) && OrderOfKind(i.classes) == None && !PlanAll(i.classes.lists)
  {
    OppositeStatements(a, b);
    PassesWithoutOrder(i.classes);
  }
}
