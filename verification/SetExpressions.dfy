/** Type and role attributes: evaluation of their set expressions into bitmaps, with every attribute evaluated
    at most once. A bitmap is the set of the values of its bits. */
module SetExpressions {
  import opened Common
  import opened Expressions
  import opened SetMeaning

  type Entry = Datum<Attribute>

  class Attribute {
    const exprs: seq<Expr<Entry>>
    // The bitmap, absent until the evaluation of the attribute begins.
    var members: Option<set<nat>>

    constructor (exprs: seq<Expr<Entry>>)
      ensures this.exprs == exprs && members == None
    {
      this.exprs, members := exprs, None;
    }
  }

  ghost function GraphOf(s: set<Attribute>): Graph<Attribute> {
    map a | a in s :: a.exprs
  }

  ghost function Unevaluated(s: set<Attribute>): set<Attribute>
    reads s
  {
    set a | a in s && a.members == None
  }

  /** Every bitmap that exists below rank `bound` is the meaning of its attribute. */
  ghost predicate Agrees(s: set<Attribute>, m: map<Attribute, set<nat>>, rank: map<Attribute, nat>, bound: nat)
    reads s
  {
    forall a :: a in s && a in rank && rank[a] < bound && a.members.Some? ==> a in m && a.members.value == m[a]
  }

  /** What is known about an acyclic set of attributes. */
  ghost predicate Ranked(s: set<Attribute>, m: map<Attribute, set<nat>>, max: nat, rank: map<Attribute, nat>) {
    Meaning(m, GraphOf(s), max) && Acyclic(GraphOf(s), rank)
  }

  /** Bitmaps that exist are never touched again, and there are only more of them. */
  twostate predicate OnlyAdds(s: set<Attribute>)
    reads s
  {
    forall a :: a in s && old(a.members).Some? ==> a.members == old(a.members)
  }

  /** Nothing of rank `bound` or higher is touched, except possibly `a`. */
  twostate predicate Within(s: set<Attribute>, rank: map<Attribute, nat>, bound: nat, a: Attribute?)
    reads s
  {
    forall b :: b in s && b in rank && rank[b] >= bound && b != a ==> b.members == old(b.members)
  }

  /** The bitmap of an expression. On any attributes the evaluation ends; if the attributes named have ranks below
      `bound` and the bitmaps there agree with the meaning, so do the result and the bitmaps afterwards. */
  method ExprToBitmap(e: Expr<Entry>, max: nat, flavor: Flavor, s: set<Attribute>,
                      ghost m: map<Attribute, set<nat>>, ghost rank: map<Attribute, nat>, ghost bound: nat)
    returns (r: set<nat>)
    requires (flavor.Type? || flavor.Role?) && Closed(GraphOf(s), flavor)
    requires WellFormed(e, flavor) && NamesIn(e) <= s
    modifies s
    ensures OnlyAdds(s)
    ensures Ranked(s, m, max, rank) && Below(NamesIn(e), rank, bound) && old(Agrees(s, m, rank, bound)) ==>
              Agrees(s, m, rank, bound) && Within(s, rank, bound, null) && Represents(r, e, m, max)
    decreases Unevaluated(s), 1, e, 1
  {
    hide Ranked, Agrees, Closed;
    if e[0].Op? {
      OperandsOf(e, flavor);
      var op := e[0].op;
      if op == All {
        r := Bits(max);
      } else {
        var b1 := ItemToBitmap(e[1], max, flavor, s, m, rank, bound);
        if op == Not {
          r := Bits(max) - b1;
        } else {
          var b2 := ItemToBitmap(e[2], max, flavor, s, m, rank, bound);
          if op == Or {
            r := b1 + b2;
          } else if op == And {
            r := b1 * b2;
          } else {
            r := (b1 + b2) - (b1 * b2);
          }
        }
      }
    } else {
      r := ListToBitmap(e, max, flavor, s, m, rank, bound);
    }
  }

  /** A list without operator: the bitmaps of its items are joined one after the other. */
  method ListToBitmap(e: Expr<Entry>, max: nat, flavor: Flavor, s: set<Attribute>,
                      ghost m: map<Attribute, set<nat>>, ghost rank: map<Attribute, nat>, ghost bound: nat)
    returns (r: set<nat>)
    requires (flavor.Type? || flavor.Role?) && Closed(GraphOf(s), flavor)
    requires AllOperands(e, flavor) && NamesIn(e) <= s
    modifies s
    ensures OnlyAdds(s)
    ensures Ranked(s, m, max, rank) && Below(NamesIn(e), rank, bound) && old(Agrees(s, m, rank, bound)) ==>
              && Agrees(s, m, rank, bound) && Within(s, rank, bound, null)
              && forall x: nat :: x in r <==> exists j :: 0 <= j < |e| && MemberOf(x, e[j], m, max)
    decreases Unevaluated(s), 1, e, 0
  {
    hide Ranked, Agrees, Closed;
    r := {};
    var k := 0;
    while k < |e|
      invariant 0 <= k <= |e|
      invariant OnlyAdds(s)
      invariant Ranked(s, m, max, rank) && Below(NamesIn(e), rank, bound) && old(Agrees(s, m, rank, bound)) ==>
                  && Agrees(s, m, rank, bound) && Within(s, rank, bound, null)
                  && forall x: nat :: x in r <==> exists j :: 0 <= j < k && MemberOf(x, e[j], m, max)
    {
      OperandAt(e, flavor, k);
      NamedAt(e, k);
      var b := ItemToBitmap(e[k], max, flavor, s, m, rank, bound);
      r := r + b;
      k := k + 1;
    }
  }

  method ItemToBitmap(i: Item<Entry>, max: nat, flavor: Flavor, s: set<Attribute>,
                      ghost m: map<Attribute, set<nat>>, ghost rank: map<Attribute, nat>, ghost bound: nat)
    returns (r: set<nat>)
    requires (flavor.Type? || flavor.Role?) && Closed(GraphOf(s), flavor)
    requires IsOperand(i, flavor) && NamesOf(i) <= s
    modifies s
    ensures OnlyAdds(s)
    ensures Ranked(s, m, max, rank) && Below(NamesOf(i), rank, bound) && old(Agrees(s, m, rank, bound)) ==>
              Agrees(s, m, rank, bound) && Within(s, rank, bound, null) && RepresentsItem(r, i, m, max)
    decreases Unevaluated(s), 1, i, 2
  {
    match i
    case Operand(Single(v)) => r := {v};
    case Operand(Alias(v)) => r := {v};
    case Operand(Named(a)) =>
      if a.members == None {
        EvaluateAttribute(a, max, flavor, s, m, rank);
      }
      r := a.members.value;
    case Sub(items) => r := ExprToBitmap(items, max, flavor, s, m, rank, bound);
  }

  /** The bitmap of an attribute comes into being, empty, before its expressions are evaluated, and grows by the
      bitmap of each expression. */
  method EvaluateAttribute(a: Attribute, max: nat, flavor: Flavor, s: set<Attribute>,
                           ghost m: map<Attribute, set<nat>>, ghost rank: map<Attribute, nat>)
    requires (flavor.Type? || flavor.Role?) && Closed(GraphOf(s), flavor) && a in s && a.members == None
    modifies s
    ensures OnlyAdds(s) && a.members.Some?
    ensures Ranked(s, m, max, rank) && a in rank && old(Agrees(s, m, rank, rank[a])) ==>
              Agrees(s, m, rank, rank[a]) && Within(s, rank, rank[a], a) && a.members.value == m[a]
    decreases Unevaluated(s), 0
  {
    hide Closed, Meaning, Acyclic, WellFormed, NamesIn, Represents;
    a.members := Some({});
    ghost var bound := if a in rank then rank[a] else 0;
    var k := 0;
    while k < |a.exprs|
      invariant 0 <= k <= |a.exprs|
      invariant a.members.Some? && OnlyAdds(s)
      invariant Ranked(s, m, max, rank) && old(Agrees(s, m, rank, bound)) ==>
                  && Agrees(s, m, rank, bound) && Within(s, rank, bound, a)
                  && RepresentsSome(a.members.value, a.exprs[..k], m, max)
    {
      assert a in old(Unevaluated(s)) && a !in Unevaluated(s);
      ExpressionOf(s, flavor, a, k, rank);
      var b := ExprToBitmap(a.exprs[k], max, flavor, s, m, rank, bound);
      if Represents(b, a.exprs[k], m, max) && RepresentsSome(a.members.value, a.exprs[..k], m, max) {
        OneMore(a.members.value, b, a.exprs, k, m, max);
      }
      a.members := Some(a.members.value + b);
      k := k + 1;
    }
    assert a.exprs[..k] == a.exprs;
    if Ranked(s, m, max, rank) && a in rank && old(Agrees(s, m, rank, rank[a])) {
      IsMeaning(s, m, max, a, a.members.value);
    }
  }

  lemma ExpressionOf(s: set<Attribute>, flavor: Flavor, a: Attribute, k: nat, rank: map<Attribute, nat>)
    requires Closed(GraphOf(s), flavor) && a in s && k < |a.exprs|
    ensures WellFormed(a.exprs[k], flavor) && NamesIn(a.exprs[k]) <= s
    ensures Acyclic(GraphOf(s), rank) ==> a in rank && Below(NamesIn(a.exprs[k]), rank, rank[a])
  {
    assert GraphOf(s)[a] == a.exprs;
  }

  /** The set is that of all the expressions together. */
  ghost predicate RepresentsSome(r: set<nat>, exprs: seq<Expr<Entry>>, m: map<Attribute, set<nat>>, max: nat) {
    forall x: nat :: x in r <==> MemberOfSome(x, exprs, m, max)
  }

  lemma OneMore(r: set<nat>, b: set<nat>, exprs: seq<Expr<Entry>>, k: nat, m: map<Attribute, set<nat>>, max: nat)
    requires k < |exprs| && Represents(b, exprs[k], m, max) && RepresentsSome(r, exprs[..k], m, max)
    ensures RepresentsSome(r + b, exprs[..k + 1], m, max)
  {
    assert exprs[..k + 1] == exprs[..k] + [exprs[k]];
  }

  lemma IsMeaning(s: set<Attribute>, m: map<Attribute, set<nat>>, max: nat, a: Attribute, r: set<nat>)
    requires Meaning(m, GraphOf(s), max) && a in s
    requires RepresentsSome(r, a.exprs, m, max)
    ensures a in m && r == m[a]
  {
    assert GraphOf(s)[a] == a.exprs;
  }

  /** The pass over the attributes: evaluates those that have no bitmap yet. In whatever order they are met, and
      whichever have a bitmap already, every one of them ends up with its meaning. */
  method EvaluateAll(order: seq<Attribute>, max: nat, flavor: Flavor, s: set<Attribute>,
                     ghost m: map<Attribute, set<nat>>, ghost rank: map<Attribute, nat>, ghost bound: nat)
    requires (flavor.Type? || flavor.Role?) && Closed(GraphOf(s), flavor) && forall a :: a in order ==> a in s
    modifies s
    ensures OnlyAdds(s) && forall a :: a in order ==> a.members.Some?
    ensures Ranked(s, m, max, rank) && Below(s, rank, bound) && old(Agrees(s, m, rank, bound)) ==>
              Agrees(s, m, rank, bound) && forall a :: a in order ==> a.members == Some(m[a])
  {
    var k := 0;
    while k < |order|
      invariant 0 <= k <= |order| && OnlyAdds(s)
      invariant forall j :: 0 <= j < k ==> order[j].members.Some?
      invariant Ranked(s, m, max, rank) && Below(s, rank, bound) && old(Agrees(s, m, rank, bound)) ==>
          Agrees(s, m, rank, bound)
    {
      if order[k].members == None {
        EvaluateAttribute(order[k], max, flavor, s, m, rank);
      }
      k := k + 1;
    }
  }
}
