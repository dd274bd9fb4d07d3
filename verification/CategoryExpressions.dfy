/** Category expressions: evaluated in place into lists of categories in the order of their values. */
module CategoryExpressions {
  import opened Common
  import opened Expressions
  import opened SetMeaning

  type Entry = Datum<Cats>

  /** The categories of a level or of a category set. The value of a category is its place in the category
      order. */
  class Cats {
    // The expression, or the list that has taken its place; empty also stands for no list at all.
    var items: Expr<Entry>
    var evaluated: bool

    constructor (items: Expr<Entry>)
      ensures this.items == items && !evaluated
    {
      this.items, evaluated := items, false;
    }
  }

  // ---- Lists of categories

  /** A list of categories and aliases only. */
  predicate Plain(e: Expr<Entry>) {
    forall k :: 0 <= k < |e| ==> ValueOf(e[k]).Some?
  }

  /** A list of categories with strictly increasing values. */
  predicate Increasing(e: Expr<Entry>) {
    && (forall k :: 0 <= k < |e| ==> e[k].Operand? && e[k].value.Single?)
    && forall i, j :: 0 <= i < j < |e| ==> e[i].value.value < e[j].value.value
  }

  /** No range of the expression has a category set for an end. */
  predicate RangesFine(e: Expr<Entry>)
    decreases e, 1
  {
    && (e != [] && e[0] == Op(Range) ==> |e| == 3 && ValueOf(e[1]).Some? && ValueOf(e[2]).Some?)
    && forall k :: 0 <= k < |e| ==> RangesFineIn(e[k])
  }

  predicate RangesFineIn(i: Item<Entry>)
    decreases i, 2
  {
    match i
    case Sub(items) => RangesFine(items)
    case _ => true
  }

  lemma PlainMember(x: nat, e: Expr<Entry>, m: map<Cats, set<nat>>, max: nat)
    requires Plain(e)
    ensures Member(x, e, m, max) <==> exists k :: 0 <= k < |e| && ValueOf(e[k]) == Some(x)
  {
    if e != [] { assert ValueOf(e[0]).Some?; }
    assert forall k :: 0 <= k < |e| ==> (MemberOf(x, e[k], m, max) <==> ValueOf(e[k]) == Some(x));
  }

  lemma {:induction false} PlainNames(e: Expr<Entry>)
    requires Plain(e)
    ensures NamesIn(e) == {} && AllOperands(e, Cat)
  {
    if e != [] {
      assert ValueOf(e[0]).Some?;
      assert forall k :: 0 <= k < |e| - 1 ==> e[1..][k] == e[k + 1];
      PlainNames(e[1..]);
    }
  }

  // ---- The evaluation

  /** Every expression or list is well formed, names sets of lower rank in `s` only, and means what `m` says. The
      named sets are not empty and all categories are in the category order. */
  ghost predicate Faithful(s: set<Cats>, m: map<Cats, set<nat>>, max: nat, rank: map<Cats, nat>)
    reads s
  {
    && (forall c :: c in s ==>
          && c in m && c in rank && FaithfulTo(c.items, s, m, max, rank, rank[c])
          && Represents(m[c], c.items, m, max))
    && (forall c :: c in s && c.evaluated ==> Plain(c.items))
    && (forall c, x :: c in s && x in m[c] ==> x < max)
  }

  ghost predicate FaithfulTo(e: Expr<Entry>, s: set<Cats>, m: map<Cats, set<nat>>, max: nat, rank: map<Cats, nat>,
      bound: nat)
  {
    && (e == [] || WellFormed(e, Cat))
    && NamesIn(e) <= s && Below(NamesIn(e), rank, bound)
    && forall c :: c in NamesIn(e) ==> c in m && m[c] != {}
  }

  ghost predicate AllFine(s: set<Cats>)
    reads s
  {
    forall c :: c in s ==> RangesFine(c.items)
  }

  /** What an evaluation may change: an expression that is neither evaluated nor a plain list is replaced by an
      increasing list. */
  twostate predicate OnlySettles(s: set<Cats>)
    reads s
  {
    forall c :: c in s ==>
      (c.items == old(c.items) && c.evaluated == old(c.evaluated)) ||
      (!old(c.evaluated) && !Plain(old(c.items)) && c.evaluated && Increasing(c.items))
  }

  /** Evaluates an expression in place, unless it is evaluated already or a plain list of categories, which stays
      as it is. The list that takes its place has strictly increasing values and means the same. */
  method EvaluateCats(c: Cats, max: nat, s: set<Cats>, ghost m: map<Cats, set<nat>>, ghost rank: map<Cats, nat>)
      returns (ok: bool)
    requires c in s && Faithful(s, m, max, rank)
    modifies s
    ensures Faithful(s, m, max, rank) && OnlySettles(s)
    ensures ok ==> Plain(c.items)
    ensures ok ==> c.evaluated || Plain(old(c.items))
    ensures ok && !old(c.evaluated) && !Plain(old(c.items)) ==> RangesFine(old(c.items))
    ensures old(AllFine(s)) ==> ok && AllFine(s)
    decreases rank[c], 3
  {
    hide FaithfulTo, RangesFine, NamesIn, WellFormed, Represents, Below;
    if c.evaluated {
      return true;
    }
    var plain := IsList(c.items);
    if plain {
      return true;
    }
    var bitmap;
    ok, bitmap := ExprToBitmap(c.items, max, s, m, rank, rank[c]);
    if !ok {
      return;
    }
    SameMeaning(m[c], bitmap, old(c.items), m, max);
    var list := ListOf(bitmap, max);
    ListIsFaithful(list, bitmap, m, max);
    Replace(c, list, max, s, m, rank);
  }

  lemma SameMeaning(r1: set<nat>, r2: set<nat>, e: Expr<Entry>, m: map<Cats, set<nat>>, max: nat)
    requires Represents(r1, e, m, max) && Represents(r2, e, m, max)
    ensures r1 == r2
  {
    assert forall x: nat :: x in r1 <==> x in r2;
  }

  /** Puts a list in the place of an expression that means the same. */
  method Replace(c: Cats, list: Expr<Entry>, max: nat, s: set<Cats>, ghost m: map<Cats, set<nat>>,
      ghost rank: map<Cats, nat>)
    requires c in s && Faithful(s, m, max, rank) && Represents(m[c], list, m, max)
    requires Plain(list) && NamesIn(list) == {} && (list == [] || WellFormed(list, Cat)) && RangesFine(list)
    modifies c
    ensures Faithful(s, m, max, rank) && c.items == list && c.evaluated
    ensures old(AllFine(s)) ==> AllFine(s)
  {
    assert FaithfulTo(list, s, m, max, rank, rank[c]);
    hide FaithfulTo, RangesFine, NamesIn, WellFormed, Represents, Below, Plain;
    c.items := list;
    c.evaluated := true;
  }

  /** A list without operators, lists and category sets is plain. */
  method IsList(e: Expr<Entry>) returns (plain: bool)
    ensures plain == Plain(e)
  {
    var k := 0;
    while k < |e|
      invariant 0 <= k <= |e|
      invariant forall j :: 0 <= j < k ==> ValueOf(e[j]).Some?
    {
      match e[k]
      case Sub(_) => return false;
      case Op(_) => return false;
      case Operand(d) =>
        if d.Named? {
          return false;
        }
      k := k + 1;
    }
    return true;
  }

  /** Walks over the category order and takes the categories whose bit is set. */
  method ListOf(bitmap: set<nat>, max: nat) returns (list: Expr<Entry>)
    ensures Increasing(list)
    ensures forall x: nat :: x in bitmap && x < max <==> exists k :: 0 <= k < |list| && list[k] == Operand(Single(x))
  {
    list := [];
    var v := 0;
    while v < max
      invariant 0 <= v <= max && Increasing(list)
      invariant forall k :: 0 <= k < |list| ==> list[k].value.value < v
      invariant forall x: nat :: x in bitmap && x < v <==> exists k :: 0 <= k < |list| && list[k] == Operand(Single(x))
    {
      if v in bitmap {
        ghost var before := list;
        list := list + [Operand(Single(v))];
        assert list[|before|] == Operand(Single(v));
        assert forall k :: 0 <= k < |before| ==> list[k] == before[k];
      }
      v := v + 1;
    }
  }

  lemma ListIsFaithful(list: Expr<Entry>, bitmap: set<nat>, m: map<Cats, set<nat>>, max: nat)
    requires Increasing(list) && forall x :: x in bitmap ==> x < max
    requires forall x: nat :: x in bitmap && x < max <==> exists k :: 0 <= k < |list| && list[k] == Operand(Single(x))
    ensures Represents(bitmap, list, m, max)
    ensures Plain(list) && NamesIn(list) == {} && (list == [] || WellFormed(list, Cat)) && RangesFine(list)
  {
    assert Plain(list);
    PlainNames(list);
    forall x: nat
      ensures x in bitmap <==> Member(x, list, m, max)
    {
      PlainMember(x, list, m, max);
      assert forall k :: 0 <= k < |list| ==> (ValueOf(list[k]) == Some(x) <==> list[k] == Operand(Single(x)));
    }
  }

  /** The bitmap of an expression; it fails for a range with a category set. */
  method ExprToBitmap(e: Expr<Entry>, max: nat, s: set<Cats>, ghost m: map<Cats, set<nat>>, ghost rank: map<Cats, nat>,
      ghost bound: nat)
    returns (ok: bool, r: set<nat>)
    requires Faithful(s, m, max, rank) && FaithfulTo(e, s, m, max, rank, bound)
    modifies s
    ensures Faithful(s, m, max, rank) && OnlySettles(s)
    ensures ok ==> Represents(r, e, m, max) && RangesFine(e)
    ensures old(AllFine(s)) ==> AllFine(s) && (RangesFine(e) ==> ok)
    decreases bound, 1, e, 1
  {
    hide Faithful, AllFine, WellFormed, Plain, Increasing;
    if e == [] {
      return true, {};
    }
    if !e[0].Op? {
      ListForm(e, s, m, max, rank, bound);
      ok, r := ListToBitmap(e, max, s, m, rank, bound);
      return;
    }
    HeadForm(e, s, m, max, rank, bound);
    var op := e[0].op;
    if op == All {
      return true, Bits(max);
    }
    if op == Range {
      ok, r := RangeToBitmap(e[1], e[2]);
      return;
    }
    var b1;
    ok, b1 := ItemToBitmap(e[1], max, s, m, rank, bound);
    r := {};
    if !ok {
      return;
    }
    if op == Not {
      return true, Bits(max) - b1;
    }
    var b2;
    ok, b2 := ItemToBitmap(e[2], max, s, m, rank, bound);
    if !ok {
      return;
    }
    if op == Or {
      r := b1 + b2;
    } else if op == And {
      r := b1 * b2;
    } else {
      r := (b1 + b2) - (b1 * b2);
    }
  }

  /** A list without operator: the bitmaps of its items are joined one after the other. */
  method ListToBitmap(e: Expr<Entry>, max: nat, s: set<Cats>, ghost m: map<Cats, set<nat>>, ghost rank: map<Cats, nat>,
      ghost bound: nat)
    returns (ok: bool, r: set<nat>)
    requires Faithful(s, m, max, rank) && forall k :: 0 <= k < |e| ==> FaithfulItem(e[k], s, m, rank, bound)
    modifies s
    ensures Faithful(s, m, max, rank) && OnlySettles(s)
    ensures ok ==> forall x: nat :: x in r <==> exists j :: 0 <= j < |e| && MemberOf(x, e[j], m, max)
    ensures ok ==> forall k :: 0 <= k < |e| ==> RangesFineIn(e[k])
    ensures old(AllFine(s)) ==> AllFine(s) && ((forall k :: 0 <= k < |e| ==> RangesFineIn(e[k])) ==> ok)
    decreases bound, 1, e, 0
  {
    hide Faithful, AllFine, Plain, Increasing, FaithfulItem, RangesFineIn;
    r := {};
    var k := 0;
    while k < |e|
      invariant 0 <= k <= |e|
      invariant Faithful(s, m, max, rank) && OnlySettles(s)
      invariant old(AllFine(s)) ==> AllFine(s)
      invariant forall j :: 0 <= j < k ==> RangesFineIn(e[j])
      invariant forall x: nat :: x in r <==> exists j :: 0 <= j < k && MemberOf(x, e[j], m, max)
    {
      var b;
      ok, b := ItemToBitmap(e[k], max, s, m, rank, bound);
      if !ok {
        return;
      }
      r := r + b;
      k := k + 1;
    }
    return true, r;
  }

  /** The bitmap of an item. A category set is evaluated first if it is not yet, and then its list is walked. */
  method ItemToBitmap(i: Item<Entry>, max: nat, s: set<Cats>, ghost m: map<Cats, set<nat>>, ghost rank: map<Cats, nat>,
      ghost bound: nat)
    returns (ok: bool, r: set<nat>)
    requires Faithful(s, m, max, rank) && FaithfulItem(i, s, m, rank, bound)
    modifies s
    ensures Faithful(s, m, max, rank) && OnlySettles(s)
    ensures ok ==> RepresentsItem(r, i, m, max) && RangesFineIn(i)
    ensures old(AllFine(s)) ==> AllFine(s) && (RangesFineIn(i) ==> ok)
    decreases bound, 1, i, 2
  {
    match i
    case Operand(Single(v)) => return true, {v};
    case Operand(Alias(v)) => return true, {v};
    case Operand(Named(c)) =>
      r := {};
      ok := true;
      if !c.evaluated {
        ok := EvaluateCats(c, max, s, m, rank);
        if !ok {
          return;
        }
      }
      r := ValuesOf(c.items);
      ListMeans(c.items, r, m, max, m[c]);
    case Sub(items) => ok, r := ExprToBitmap(items, max, s, m, rank, bound);
  }

  /** The values of a plain list. */
  method ValuesOf(list: Expr<Entry>) returns (r: set<nat>)
    requires Plain(list)
    ensures forall x: nat :: x in r <==> exists k :: 0 <= k < |list| && ValueOf(list[k]) == Some(x)
  {
    r := {};
    var k := 0;
    while k < |list|
      invariant 0 <= k <= |list|
      invariant forall x: nat :: x in r <==> exists j :: 0 <= j < k && ValueOf(list[j]) == Some(x)
    {
      r := r + {ValueOf(list[k]).value};
      k := k + 1;
    }
  }

  lemma ListMeans(list: Expr<Entry>, r: set<nat>, m: map<Cats, set<nat>>, max: nat, meaning: set<nat>)
    requires Plain(list) && Represents(meaning, list, m, max)
    requires forall x: nat :: x in r <==> exists k :: 0 <= k < |list| && ValueOf(list[k]) == Some(x)
    ensures r == meaning
  {
    forall x: nat
      ensures x in r <==> x in meaning
    {
      PlainMember(x, list, m, max);
    }
  }

  /** Sets the bits from the value of the first end to the value of the second. */
  method RangeToBitmap(i1: Item<Entry>, i2: Item<Entry>) returns (ok: bool, r: set<nat>)
    requires i1.Operand? && i2.Operand?
    ensures ok <==> ValueOf(i1).Some? && ValueOf(i2).Some?
    ensures ok ==> forall x: nat :: x in r <==> ValueOf(i1).value <= x <= ValueOf(i2).value
  {
    r := {};
    if i1.value.Named? || i2.value.Named? {
      return false, r;
    }
    var lo, hi := ValueOf(i1).value, ValueOf(i2).value;
    var v := lo;
    while v <= hi
      invariant lo <= v && (v <= hi + 1 || v == lo)
      invariant forall x: nat :: x in r <==> lo <= x < v
      decreases hi + 1 - v
    {
      r := r + {v};
      v := v + 1;
    }
    return true, r;
  }

  ghost predicate FaithfulItem(i: Item<Entry>, s: set<Cats>, m: map<Cats, set<nat>>, rank: map<Cats, nat>, bound: nat) {
    && IsOperand(i, Cat)
    && NamesOf(i) <= s && Below(NamesOf(i), rank, bound)
    && forall c :: c in NamesOf(i) ==> c in m && m[c] != {}
  }

  lemma ItemForm(e: Expr<Entry>, k: nat, s: set<Cats>, m: map<Cats, set<nat>>, max: nat, rank: map<Cats, nat>,
      bound: nat)
    requires FaithfulTo(e, s, m, max, rank, bound) && k < |e| && IsOperand(e[k], Cat)
    ensures FaithfulItem(e[k], s, m, rank, bound)
  {
    NamedAt(e, k);
  }

  lemma ListForm(e: Expr<Entry>, s: set<Cats>, m: map<Cats, set<nat>>, max: nat, rank: map<Cats, nat>, bound: nat)
    requires FaithfulTo(e, s, m, max, rank, bound) && e != [] && !e[0].Op?
    ensures forall k :: 0 <= k < |e| ==> FaithfulItem(e[k], s, m, rank, bound)
  {
    hide FaithfulTo, FaithfulItem;
    forall k | 0 <= k < |e|
      ensures FaithfulItem(e[k], s, m, rank, bound)
    {
      ListOperand(e, k, s, m, max, rank, bound);
      ItemForm(e, k, s, m, max, rank, bound);
    }
  }

  lemma ListOperand(e: Expr<Entry>, k: nat, s: set<Cats>, m: map<Cats, set<nat>>, max: nat, rank: map<Cats, nat>,
      bound: nat)
    requires FaithfulTo(e, s, m, max, rank, bound) && k < |e| && !e[0].Op?
    ensures IsOperand(e[k], Cat)
  {
    OperandAt(e, Cat, k);
  }

  lemma HeadForm(e: Expr<Entry>, s: set<Cats>, m: map<Cats, set<nat>>, max: nat, rank: map<Cats, nat>, bound: nat)
    requires FaithfulTo(e, s, m, max, rank, bound) && e != [] && e[0].Op?
    ensures e[0].op in {All, Not, And, Or, Xor, Range} && |e| == 1 + Arity(e[0].op)
    ensures e[0].op == Range ==> e[1].Operand? && e[2].Operand?
    ensures forall k :: 1 <= k < |e| ==> FaithfulItem(e[k], s, m, rank, bound)
  {
    OperandsOf(e, Cat);
    forall k | 1 <= k < |e|
      ensures FaithfulItem(e[k], s, m, rank, bound)
    {
      OperandAt(e[1..], Cat, k - 1);
      ItemForm(e, k, s, m, max, rank, bound);
    }
  }
}
