/** What set expressions mean: sets of the values of types, roles or categories. */
module SetMeaning {
  import opened Common
  import opened Expressions

  /** A type, role or category, an alias that stands for one, or the name of a set: an attribute or a category
      set. */
  datatype Datum<N> = Single(value: nat) | Alias(actual: nat) | Named(name: N)

  // ---- What a set expression means

  /** `x` belongs to the set that `e` describes, when attributes stand for the sets given by `m` and all values
      are below `max`. */
  ghost predicate Member<N>(x: nat, e: Expr<Datum<N>>, m: map<N, set<nat>>, max: nat)
    decreases e, 1
  {
    if e == [] then false
    else if e[0].Op? then
      && |e| == 1 + Arity(e[0].op)
      && match e[0].op
         case All => x < max
         case Not => x < max && !MemberOf(x, e[1], m, max)
         case And => MemberOf(x, e[1], m, max) && MemberOf(x, e[2], m, max)
         case Or => MemberOf(x, e[1], m, max) || MemberOf(x, e[2], m, max)
         case Xor => MemberOf(x, e[1], m, max) != MemberOf(x, e[2], m, max)
         case Range => ValueOf(e[1]).Some? && ValueOf(e[2]).Some? && ValueOf(e[1]).value <= x <= ValueOf(e[2]).value
         case Eq => false
         case Neq => false
    else exists k :: 0 <= k < |e| && MemberOf(x, e[k], m, max)
  }

  /** The value of a single datum or an alias; a named set has none. */
  function ValueOf<N>(i: Item<Datum<N>>): Option<nat> {
    match i
    case Operand(Single(v)) => Some(v)
    case Operand(Alias(v)) => Some(v)
    case _ => None
  }

  ghost predicate MemberOf<N>(x: nat, i: Item<Datum<N>>, m: map<N, set<nat>>, max: nat)
    decreases i, 2
  {
    match i
    case Op(_) => false
    case Operand(Single(v)) => x == v
    case Operand(Alias(v)) => x == v
    case Operand(Named(a)) => a in m && x in m[a]
    case Sub(items) => Member(x, items, m, max)
  }

  /** What is named stands for the union of its expressions. */
  ghost predicate MemberOfSome<N>(x: nat, exprs: seq<Expr<Datum<N>>>, m: map<N, set<nat>>, max: nat) {
    exists k :: 0 <= k < |exprs| && Member(x, exprs[k], m, max)
  }

  /** The named sets with their expressions. */
  type Graph<!N> = map<N, seq<Expr<Datum<N>>>>

  /** `m` gives everything named in the graph the set that its expressions describe. */
  ghost predicate Meaning<N>(m: map<N, set<nat>>, graph: Graph<N>, max: nat) {
    forall a :: a in graph ==> a in m && forall x: nat :: x in m[a] <==> MemberOfSome(x, graph[a], m, max)
  }

  /** What an expression names. */
  ghost function NamesIn<N>(e: Expr<Datum<N>>): set<N>
    decreases e, 1
  {
    if e == [] then {} else NamesOf(e[0]) + NamesIn(e[1..])
  }

  ghost function NamesOf<N>(i: Item<Datum<N>>): set<N>
    decreases i, 2
  {
    match i
    case Operand(Named(a)) => {a}
    case Sub(items) => NamesIn(items)
    case _ => {}
  }

  /** All expressions are well formed and name nothing outside the graph. */
  ghost predicate Closed<N>(graph: Graph<N>, flavor: Flavor) {
    forall a, k :: a in graph && 0 <= k < |graph[a]| ==>
        WellFormed(graph[a][k], flavor) && NamesIn(graph[a][k]) <= graph.Keys
  }

  ghost predicate Below<N>(named: set<N>, rank: map<N, nat>, bound: nat) {
    forall a :: a in named ==> a in rank && rank[a] < bound
  }

  /** The named sets can be ranked such that each names lower ones only. */
  ghost predicate Acyclic<N>(graph: Graph<N>, rank: map<N, nat>) {
    && (forall a :: a in graph ==> a in rank)
    && forall a, k :: a in graph && 0 <= k < |graph[a]| ==> Below(NamesIn(graph[a][k]), rank, rank[a])
  }

  // ---- Items of an expression

  lemma {:induction false} NamedAt<N>(e: Expr<Datum<N>>, k: nat)
    requires k < |e|
    ensures NamesOf(e[k]) <= NamesIn(e)
    decreases k
  {
    if k > 0 {
      NamedAt(e[1..], k - 1);
    }
  }

  /** What the operands of a leading operator are. */
  lemma OperandsOf<N>(e: Expr<Datum<N>>, flavor: Flavor)
    requires WellFormed(e, flavor) && e[0].Op? && (flavor.Type? || flavor.Role? || flavor.Cat?)
    ensures e[0].op in {All, Not, And, Or, Xor, Range}
    ensures e[0].op != All ==> 2 <= |e| && IsOperand(e[1], flavor) && NamesOf(e[1]) <= NamesIn(e)
    ensures e[0].op !in {All, Not} ==> |e| == 3 && IsOperand(e[2], flavor) && NamesOf(e[2]) <= NamesIn(e)
  {
    if e[0].op != All {
      OperandAt(e[1..], flavor, 0);
      NamedAt(e, 1);
      if e[0].op != Not {
        OperandAt(e[1..], flavor, 1);
        NamedAt(e, 2);
      }
    }
  }

  // ---- Existence and uniqueness of the meaning

  /** Membership depends only on the attributes that are named. */
  lemma {:induction false} MemberAgrees<N>(x: nat, e: Expr<Datum<N>>, m1: map<N, set<nat>>, m2: map<N, set<nat>>,
      max: nat)
    requires forall a :: a in NamesIn(e) ==> (a in m1 <==> a in m2) && (a in m1 ==> m1[a] == m2[a])
    ensures Member(x, e, m1, max) == Member(x, e, m2, max)
    decreases e, 1
  {
    forall k | 0 <= k < |e|
      ensures MemberOf(x, e[k], m1, max) == MemberOf(x, e[k], m2, max)
    {
      NamedAt(e, k);
      if e[k].Sub? {
        MemberAgrees(x, e[k].items, m1, m2, max);
      }
    }
  }

  /** On attributes that do not name themselves, directly or not, there is at most one meaning. */
  lemma {:induction false} MeaningIsUnique<N>(m1: map<N, set<nat>>, m2: map<N, set<nat>>, graph: Graph<N>, max: nat,
                                           rank: map<N, nat>, flavor: Flavor, a: N)
    requires Meaning(m1, graph, max) && Meaning(m2, graph, max) && a in graph
    requires Closed(graph, flavor) && Acyclic(graph, rank)
    ensures m1[a] == m2[a]
    decreases rank[a]
  {
    forall x: nat
      ensures x in m1[a] <==> x in m2[a]
    {
      forall k | 0 <= k < |graph[a]|
        ensures Member(x, graph[a][k], m1, max) == Member(x, graph[a][k], m2, max)
      {
        assert Below(NamesIn(graph[a][k]), rank, rank[a]);
        forall b | b in NamesIn(graph[a][k])
          ensures m1[b] == m2[b]
        {
          MeaningIsUnique(m1, m2, graph, max, rank, flavor, b);
        }
        MemberAgrees(x, graph[a][k], m1, m2, max);
      }
    }
  }

  ghost predicate Represents<N>(r: set<nat>, e: Expr<Datum<N>>, m: map<N, set<nat>>, max: nat) {
    forall x: nat :: x in r <==> Member(x, e, m, max)
  }

  ghost predicate RepresentsItem<N>(r: set<nat>, i: Item<Datum<N>>, m: map<N, set<nat>>, max: nat) {
    forall x: nat :: x in r <==> MemberOf(x, i, m, max)
  }

  function Bits(max: nat): (r: set<nat>)
    ensures forall x: nat :: x in r <==> x < max
  {
    if max == 0 then {} else {max - 1} + Bits(max - 1)
  }

  /** The set that an expression describes. */
  ghost function Denote<N>(e: Expr<Datum<N>>, m: map<N, set<nat>>, max: nat): (r: set<nat>)
    ensures Represents(r, e, m, max)
    decreases e, 1
  {
    if e == [] then {}
    else if e[0].Op? then
      if |e| != 1 + Arity(e[0].op) then {}
      else
        match e[0].op
        case All => Bits(max)
        case Not => Bits(max) - DenoteItem(e[1], m, max)
        case And => DenoteItem(e[1], m, max) * DenoteItem(e[2], m, max)
        case Or => DenoteItem(e[1], m, max) + DenoteItem(e[2], m, max)
        case Range =>
          if ValueOf(e[1]).Some? && ValueOf(e[2]).Some? then Interval(ValueOf(e[1]).value, ValueOf(e[2]).value) else {}
        case Xor =>
          var b1, b2 := DenoteItem(e[1], m, max), DenoteItem(e[2], m, max);
          (b1 + b2) - (b1 * b2)
        case _ => {}
    else DenoteSome(e, |e|, m, max)
  }

  ghost function DenoteItem<N>(i: Item<Datum<N>>, m: map<N, set<nat>>, max: nat): (r: set<nat>)
    ensures RepresentsItem(r, i, m, max)
    decreases i, 2
  {
    match i
    case Op(_) => {}
    case Operand(Single(v)) => {v}
    case Operand(Alias(v)) => {v}
    case Operand(Named(a)) => if a in m then m[a] else {}
    case Sub(items) => Denote(items, m, max)
  }

  ghost function DenoteSome<N>(e: Expr<Datum<N>>, k: nat, m: map<N, set<nat>>, max: nat): (r: set<nat>)
    requires k <= |e|
    ensures forall x: nat :: x in r <==> exists j :: 0 <= j < k && MemberOf(x, e[j], m, max)
    decreases e, 0, k
  {
    if k == 0 then {} else DenoteSome(e, k - 1, m, max) + DenoteItem(e[k - 1], m, max)
  }

  ghost function Union<N>(exprs: seq<Expr<Datum<N>>>, m: map<N, set<nat>>, max: nat): (r: set<nat>)
    ensures forall x: nat :: x in r <==> MemberOfSome(x, exprs, m, max)
  {
    if exprs == [] then {}
    else
      var n := |exprs| - 1;
      var r := Union(exprs[..n], m, max) + Denote(exprs[n], m, max);
      assert forall x: nat :: MemberOfSome(x, exprs, m, max) <==>
          MemberOfSome(x, exprs[..n], m, max) || Member(x, exprs[n], m, max) by {
        assert forall k :: 0 <= k < n ==> exprs[..n][k] == exprs[k];
      }
      r
  }

  /** There is a meaning for the attributes below every rank. */
  lemma {:induction false} MeaningBelow<N>(graph: Graph<N>, max: nat, rank: map<N, nat>, n: nat)
      returns (m: map<N, set<nat>>)
    requires Acyclic(graph, rank)
    ensures forall a :: a in graph && rank[a] < n ==>
        a in m && forall x: nat :: x in m[a] <==> MemberOfSome(x, graph[a], m, max)
    ensures forall a :: a in m ==> a in rank && rank[a] < n
    decreases n
  {
    if n == 0 {
      return map[];
    }
    var lower := MeaningBelow(graph, max, rank, n - 1);
    m := lower + map a | a in graph && rank[a] == n - 1 :: Union(graph[a], lower, max);
    forall a, x: nat | a in graph && rank[a] < n
      ensures MemberOfSome(x, graph[a], lower, max) == MemberOfSome(x, graph[a], m, max)
    {
      forall k | 0 <= k < |graph[a]|
        ensures Member(x, graph[a][k], lower, max) == Member(x, graph[a][k], m, max)
      {
        assert Below(NamesIn(graph[a][k]), rank, rank[a]);
        MemberSame(x, graph[a][k], lower, m, max, rank, n - 1);
      }
    }
  }

  lemma MemberSame<N>(x: nat, e: Expr<Datum<N>>, m1: map<N, set<nat>>, m2: map<N, set<nat>>, max: nat,
                   rank: map<N, nat>, n: nat)
    requires Below(NamesIn(e), rank, n)
    requires forall a :: a in m1 ==> a in m2 && m1[a] == m2[a]
    requires forall a :: a in m2 && a in rank && rank[a] < n ==> a in m1
    ensures Member(x, e, m1, max) == Member(x, e, m2, max)
  {
    MemberAgrees(x, e, m1, m2, max);
  }

  /** Attributes that do not name themselves, directly or not, have a meaning. */
  lemma MeaningExists<N>(graph: Graph<N>, max: nat, rank: map<N, nat>) returns (m: map<N, set<nat>>)
    requires Acyclic(graph, rank)
    ensures Meaning(m, graph, max)
  {
    var n := Ceiling(graph.Keys, rank);
    m := MeaningBelow(graph, max, rank, n);
  }

  lemma {:induction false} Ceiling<N>(s: set<N>, rank: map<N, nat>) returns (n: nat)
    requires forall a :: a in s ==> a in rank
    ensures forall a :: a in s ==> rank[a] < n
    decreases |s|
  {
    if s == {} {
      return 0;
    }
    var a :| a in s;
    n := Ceiling(s - {a}, rank);
    n := if n <= rank[a] then rank[a] + 1 else n;
  }

  /** Sets that name each other in a circle need not have a meaning at all: `a` is everything but `b`, and `b`
      is `a`. */
  lemma CircleWithoutMeaning<N>(graph: Graph<N>, a: N, b: N, m: map<N, set<nat>>, max: nat)
    requires a != b && a in graph && b in graph && max > 0
    requires graph[a] == [[Op(Not), Operand(Named(b))]] && graph[b] == [[Operand(Named(a))]]
    ensures !Meaning(m, graph, max)
  {
    if Meaning(m, graph, max) {
      assert 0 in m[a] <==> Member(0, graph[a][0], m, max);
      assert 0 in m[b] <==> Member(0, graph[b][0], m, max);
      assert MemberOf(0, graph[b][0][0], m, max) <==> 0 in m[a];
      assert false;
    }
  }
}
