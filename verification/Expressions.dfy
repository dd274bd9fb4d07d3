/** Boolean, tunable and set expressions, and the builder that makes them from the parse tree. */
module Expressions {
  import opened Common

  datatype Operator = And | Or | Xor | Not | Eq | Neq | All | Range

  /** An item of an expression list: an operator, an operand, or a list of its own. */
  datatype Item<D> = Op(op: Operator) | Operand(value: D) | Sub(items: seq<Item<D>>)

  type Expr<D> = seq<Item<D>>

  /** What an expression is about. */
  datatype Flavor = Bool | Tunable | Type | Role | Perm | Cat

  /** A node of the parse tree: a word, or a parenthesised list. */
  datatype ParseNode = Word(text: string) | Branch(children: seq<ParseNode>)

  // ---- Well-formed expressions

  /** How many operands an operator takes. */
  function Arity(op: Operator): nat {
    match op
    case All => 0
    case Not => 1
    case _ => 2
  }

  /** Which operators an expression of some flavor may use. */
  predicate Allowed(op: Operator, flavor: Flavor) {
    match op
    case Eq | Neq => flavor.Bool? || flavor.Tunable?
    case All => !flavor.Bool? && !flavor.Tunable?
    case Range => flavor.Cat?
    case _ => true
  }

  /** A list is an operator with exactly its operands, or a nonempty list of operands. The operands of a range
      are no lists. */
  predicate WellFormed<D>(e: Expr<D>, flavor: Flavor)
    decreases e, 1
  {
    && e != []
    && if e[0].Op? then
         && Allowed(e[0].op, flavor)
         && |e| == 1 + Arity(e[0].op)
         && (e[0].op.Range? ==> e[1].Operand? && e[2].Operand?)
         && AllOperands(e[1..], flavor)
       else AllOperands(e, flavor)
  }

  predicate AllOperands<D>(e: Expr<D>, flavor: Flavor)
    decreases e, 0
  {
    e == [] || (IsOperand(e[0], flavor) && AllOperands(e[1..], flavor))
  }

  predicate IsOperand<D>(i: Item<D>, flavor: Flavor)
    decreases i, 2
  {
    match i
    case Op(_) => false
    case Operand(_) => true
    case Sub(items) => WellFormed(items, flavor)
  }

  lemma {:induction false} OperandAt<D>(e: Expr<D>, flavor: Flavor, k: nat)
    requires AllOperands(e, flavor) && k < |e|
    ensures IsOperand(e[k], flavor)
    decreases k
  {
    if k > 0 {
      OperandAt(e[1..], flavor, k - 1);
    }
  }

  // ---- The syntax matcher

  datatype Syntax = String | List | EmptyList | Lists | Strings | End

  predicate IsWord(n: ParseNode) { n.Word? }

  predicate IsList(n: ParseNode) { n.Branch? && n.children != [] }

  /** The matcher advances over the nodes with `c` and over the syntax with `i`; `extras` counts the nodes that
      a repeated element has taken. */
  method VerifySyntax(nodes: seq<ParseNode>, s: seq<set<Syntax>>) returns (ok: bool)
    ensures ok == Matches(nodes, s, 0)
  {
    var c, i, extras := 0, 0, 0;
    while i < |s|
      invariant 0 <= i <= |s| && 0 <= c <= |nodes| && 0 <= extras
      invariant Matches(nodes[c..], s[i..], extras) == Matches(nodes, s, 0)
      decreases |s| - i + |nodes| - c
    {
      assert s[i..][0] == s[i] && s[i..][1..] == s[i + 1..];
      if End in s[i] && c == |nodes| {
        return true;
      }
      if Lists in s[i] || Strings in s[i] {
        if c == |nodes| {
          if extras > 0 {
            i := i + 1;
            continue;
          }
          return false;
        }
        assert nodes[c..][0] == nodes[c] && nodes[c..][1..] == nodes[c + 1..];
        if Lists in s[i] && IsList(nodes[c]) {
          c, extras := c + 1, extras + 1;
          continue;
        } else if Strings in s[i] && IsWord(nodes[c]) {
          c, extras := c + 1, extras + 1;
          continue;
        }
      }
      if c == |nodes| {
        return false;
      }
      assert nodes[c..][0] == nodes[c] && nodes[c..][1..] == nodes[c + 1..];
      if String in s[i] && IsWord(nodes[c]) {
        c, i := c + 1, i + 1;
        continue;
      }
      if List in s[i] && IsList(nodes[c]) {
        c, i := c + 1, i + 1;
        continue;
      }
      if EmptyList in s[i] && nodes[c] == Branch([]) {
        c, i := c + 1, i + 1;
        continue;
      }
      return false;
    }
    return true;
  }

  /** What the matcher computes. A match ends with the syntax, whether or not nodes are left. */
  predicate Matches(nodes: seq<ParseNode>, s: seq<set<Syntax>>, extras: nat)
    decreases |nodes| + |s|
  {
    if s == [] then true
    else if nodes == [] then
      End in s[0] || ((Lists in s[0] || Strings in s[0]) && extras > 0 && Matches(nodes, s[1..], extras))
    else if (Lists in s[0] && IsList(nodes[0])) || (Strings in s[0] && IsWord(nodes[0])) then
      Matches(nodes[1..], s, extras + 1)
    else
      Fits(nodes[0], s[0]) && Matches(nodes[1..], s[1..], extras)
  }

  /** A node fits one element of the syntax that is not repeated. */
  predicate Fits(n: ParseNode, s: set<Syntax>) {
    (String in s && IsWord(n)) || (List in s && IsList(n)) || (EmptyList in s && n == Branch([]))
  }

  predicate OneEach(s: seq<set<Syntax>>) {
    forall k :: 0 <= k < |s| ==> Lists !in s[k] && Strings !in s[k] && End !in s[k]
  }

  /** A syntax of single elements and an end is matched by exactly as many nodes, each fitting its element. */
  lemma {:induction false} FixedSyntax(nodes: seq<ParseNode>, s: seq<set<Syntax>>, extras: nat)
    requires OneEach(s)
    ensures Matches(nodes, s + [{End}], extras) <==>
            |nodes| == |s| && forall k :: 0 <= k < |s| ==> Fits(nodes[k], s[k])
    decreases |s|
  {
    if s == [] {
      assert s + [{End}] == [{End}];
    } else {
      assert (s + [{End}])[1..] == s[1..] + [{End}];
      if nodes != [] {
        FixedSyntax(nodes[1..], s[1..], extras);
        assert forall k :: 0 < k < |nodes| ==> nodes[k] == nodes[1..][k - 1];
        assert forall k :: 0 < k < |s| ==> s[k] == s[1..][k - 1];
      }
    }
  }

  /** The repeated element takes any number of words and nonempty lists, but at least one. */
  lemma {:induction false} RepeatedSyntax(nodes: seq<ParseNode>, extras: nat)
    ensures Matches(nodes, [{Strings, Lists}, {End}], extras) <==>
            (nodes != [] || extras > 0) && forall k :: 0 <= k < |nodes| ==> IsWord(nodes[k]) || IsList(nodes[k])
    decreases |nodes|
  {
    var s := [{Strings, Lists}, {End}];
    assert s[1..] == [{End}];
    if nodes == [] {
      assert Matches([], [{End}], extras);
    } else {
      assert Fits(nodes[0], s[0]) == false;
      RepeatedSyntax(nodes[1..], extras + 1);
      assert forall k :: 0 < k < |nodes| ==> nodes[k] == nodes[1..][k - 1];
    }
  }

  // ---- The builder

  function Keyword(op: Operator): string {
    match op
    case And => "and"
    case Or => "or"
    case Xor => "xor"
    case Not => "not"
    case Eq => "eq"
    case Neq => "neq"
    case All => "all"
    case Range => "range"
  }

  /** The operator of a word, by its text. */
  function OperatorOf(n: ParseNode): (r: Option<Operator>)
    ensures r.Some? <==> exists op :: n == Word(Keyword(op))
    ensures r.Some? ==> n == Word(Keyword(r.value))
    ensures r == Some(And) <==> n == Word("and")
    ensures r == Some(Or) <==> n == Word("or")
    ensures r == Some(Xor) <==> n == Word("xor")
    ensures r == Some(Not) <==> n == Word("not")
    ensures r == Some(Eq) <==> n == Word("eq")
    ensures r == Some(Neq) <==> n == Word("neq")
    ensures r == Some(All) <==> n == Word("all")
    ensures r == Some(Range) <==> n == Word("range")
  {
    WordsDiffer();
    if n.Branch? then None
    else if n.text == "and" then assert n == Word(Keyword(And)); Some(And)
    else if n.text == "or" then assert n == Word(Keyword(Or)); Some(Or)
    else if n.text == "not" then assert n == Word(Keyword(Not)); Some(Not)
    else if n.text == "eq" then assert n == Word(Keyword(Eq)); Some(Eq)
    else if n.text == "neq" then assert n == Word(Keyword(Neq)); Some(Neq)
    else if n.text == "xor" then assert n == Word(Keyword(Xor)); Some(Xor)
    else if n.text == "all" then assert n == Word(Keyword(All)); Some(All)
    else if n.text == "range" then assert n == Word(Keyword(Range)); Some(Range)
    else None
  }

  lemma WordsDiffer()
    ensures |"and"| == 3 && "and"[0] == 'a' && "and"[1] == 'n'
    ensures |"or"| == 2 && "or"[0] == 'o'
    ensures |"xor"| == 3 && "xor"[0] == 'x'
    ensures |"not"| == 3 && "not"[0] == 'n' && "not"[1] == 'o'
    ensures |"eq"| == 2 && "eq"[0] == 'e'
    ensures |"neq"| == 3 && "neq"[0] == 'n' && "neq"[1] == 'e'
    ensures |"all"| == 3 && "all"[0] == 'a' && "all"[1] == 'l'
    ensures |"range"| == 5
  {
  }

  /** An item of an expression is an operator exactly if the node that it comes from is its word. */
  predicate HeadOf(n: ParseNode, i: Item<string>) {
    && (i == Op(And) <==> n == Word("and"))
    && (i == Op(Or) <==> n == Word("or"))
    && (i == Op(Xor) <==> n == Word("xor"))
    && (i == Op(Not) <==> n == Word("not"))
    && (i == Op(Eq) <==> n == Word("eq"))
    && (i == Op(Neq) <==> n == Word("neq"))
    && (i == Op(All) <==> n == Word("all"))
    && (i == Op(Range) <==> n == Word("range"))
  }

  function ExprSyntax(op: Option<Operator>): seq<set<Syntax>> {
    match op
    case Some(Not) => [{String}, {String, List}, {End}]
    case Some(All) => [{String}, {End}]
    case Some(Range) => [{String}, {String}, {String}, {End}]
    case Some(_) => [{String}, {String, List}, {String, List}, {End}]
    case None => [{Strings, Lists}, {End}]
  }

  method VerifyExprSyntax(nodes: seq<ParseNode>, op: Option<Operator>, flavor: Flavor) returns (ok: bool)
    requires nodes != [] && op == OperatorOf(nodes[0])
    ensures ok == SyntaxOk(nodes, op, flavor)
  {
    match op {
      case Some(Not) =>
      case Some(And) =>
      case Some(Or) =>
      case Some(Xor) =>
      case Some(Eq) | Some(Neq) =>
        if flavor != Bool && flavor != Tunable {
          return false;
        }
      case Some(All) =>
        if flavor == Bool || flavor == Tunable {
          return false;
        }
      case Some(Range) =>
        if flavor != Cat {
          return false;
        }
      case None =>
    }
    ok := VerifySyntax(nodes, ExprSyntax(op));
    SyntaxMatches(nodes, op, flavor);
  }

  /** Words and nonempty lists can be operands; a range takes words only. */
  predicate OperandSyntax(n: ParseNode, op: Option<Operator>) {
    IsWord(n) || (IsList(n) && op != Some(Range))
  }

  /** An operator comes with exactly its operands; without an operator there is at least one operand. */
  predicate SyntaxOk(nodes: seq<ParseNode>, op: Option<Operator>, flavor: Flavor)
    requires nodes != [] && op == OperatorOf(nodes[0])
  {
    && (op.Some? ==> Allowed(op.value, flavor) && |nodes| == 1 + Arity(op.value))
    && forall k :: 0 <= k < |nodes| ==> OperandSyntax(nodes[k], op)
  }

  lemma SyntaxMatches(nodes: seq<ParseNode>, op: Option<Operator>, flavor: Flavor)
    requires nodes != [] && op == OperatorOf(nodes[0])
    requires op.Some? ==> Allowed(op.value, flavor)
    ensures Matches(nodes, ExprSyntax(op), 0) <==> SyntaxOk(nodes, op, flavor)
  {
    if op.Some? {
      OperatorMatches(nodes, op.value);
    } else {
      RepeatedSyntax(nodes, 0);
    }
  }

  lemma SyntaxIsFixed(o: Operator)
    ensures |ExprSyntax(Some(o))| == 2 + Arity(o)
    ensures var s := ExprSyntax(Some(o))[..1 + Arity(o)]; OneEach(s) && s + [{End}] == ExprSyntax(Some(o))
  {
    match o
    case Not =>
    case All =>
    case Range =>
    case _ =>
  }

  lemma OperatorMatches(nodes: seq<ParseNode>, o: Operator)
    requires nodes != [] && IsWord(nodes[0])
    ensures Matches(nodes, ExprSyntax(Some(o)), 0) <==>
        |nodes| == 1 + Arity(o) && forall k :: 0 <= k < |nodes| ==> OperandSyntax(nodes[k], Some(o))
  {
    var s := ExprSyntax(Some(o))[..|ExprSyntax(Some(o))| - 1];
    SyntaxIsFixed(o);
    FixedSyntax(nodes, s, 0);
    forall k | 0 <= k < |s| && k < |nodes|
      ensures Fits(nodes[k], s[k]) <==> OperandSyntax(nodes[k], Some(o))
    {
      OperandFits(nodes[k], o, k);
    }
  }

  /** The syntax of an operator says at each place what can be an operand. */
  lemma OperandFits(n: ParseNode, o: Operator, k: nat)
    requires k < 1 + Arity(o) && (k == 0 ==> IsWord(n))
    ensures k < |ExprSyntax(Some(o))|
    ensures Fits(n, ExprSyntax(Some(o))[k]) <==> OperandSyntax(n, Some(o))
  {
    match o
    case Not =>
    case All =>
    case Range =>
    case _ =>
  }

  /** The parse tree of an expression that the builder takes: the syntax of every list is right and operators
      stand only at the head of a list. */
  predicate Acceptable(nodes: seq<ParseNode>, flavor: Flavor)
    decreases nodes, 1
  {
    && nodes != []
    && SyntaxOk(nodes, OperatorOf(nodes[0]), flavor)
    && (if OperatorOf(nodes[0]).Some? then AllAcceptable(nodes[1..], flavor) else AllAcceptable(nodes, flavor))
  }

  predicate AllAcceptable(nodes: seq<ParseNode>, flavor: Flavor)
    decreases nodes, 0
  {
    nodes == [] || (AcceptableNode(nodes[0], flavor) && AllAcceptable(nodes[1..], flavor))
  }

  predicate AcceptableNode(n: ParseNode, flavor: Flavor)
    decreases n, 2
  {
    match n
    case Word(_) => OperatorOf(n).None?
    case Branch(children) => Acceptable(children, flavor)
  }

  /** The expression that a parse tree describes. */
  function Translate(nodes: seq<ParseNode>): Expr<string>
    decreases nodes, 1
  {
    if nodes != [] && OperatorOf(nodes[0]).Some? then [Op(OperatorOf(nodes[0]).value)] + TranslateAll(nodes[1..])
    else TranslateAll(nodes)
  }

  function TranslateAll(nodes: seq<ParseNode>): (r: Expr<string>)
    ensures |r| == |nodes|
    decreases nodes, 0
  {
    if nodes == [] then [] else [TranslateNode(nodes[0])] + TranslateAll(nodes[1..])
  }

  function TranslateNode(n: ParseNode): Item<string>
    decreases n, 2
  {
    match n
    case Word(text) => Operand(text)
    case Branch(children) => Sub(Translate(children))
  }

  /** The depth counter of the builder. It fails where the counter is over the limit at the start of a list; an
      operator other than `all` makes no list deeper, and every list gives back one level at its end. */
  function Depth(nodes: seq<ParseNode>, depth: int, limit: Option<int>): Option<int>
    requires nodes != []
    decreases nodes, 1
  {
    if limit.Some? && depth > limit.value then None
    else
      var op := OperatorOf(nodes[0]);
      var inner := if op.None? || op.value.All? then depth + 1 else depth;
      match (if op.Some? then DepthAll(nodes[1..], inner, limit) else DepthAll(nodes, inner, limit))
      case None => None
      case Some(d) => Some(d - 1)
  }

  function DepthAll(nodes: seq<ParseNode>, depth: int, limit: Option<int>): Option<int>
    decreases nodes, 0
  {
    if nodes == [] then Some(depth)
    else if nodes[0].Branch? && nodes[0].children != [] then
      match Depth(nodes[0].children, depth, limit)
      case None => None
      case Some(d) => DepthAll(nodes[1..], d, limit)
    else DepthAll(nodes[1..], depth, limit)
  }

  /** Only boolean expressions are limited in depth. `maxDepth` is the limit of the policy library. */
  function LimitFor(flavor: Flavor, maxDepth: int): Option<int> {
    if flavor.Bool? then Some(maxDepth) else None
  }

  /** The items of one list, the head operator first. */
  method FillList(nodes: seq<ParseNode>, flavor: Flavor, maxDepth: int, depth: int)
    returns (ok: bool, expr: Expr<string>, depth': int)
    requires nodes != []
    ensures ok <==> Acceptable(nodes, flavor) && Depth(nodes, depth, LimitFor(flavor, maxDepth)).Some?
    ensures ok ==> expr == Translate(nodes) && Some(depth') == Depth(nodes, depth, LimitFor(flavor, maxDepth))
    decreases nodes, 1
  {
    expr, depth' := [], depth;
    if flavor == Bool && depth > maxDepth {
      return false, expr, depth';
    }
    var op := OperatorOf(nodes[0]);
    ok := VerifyExprSyntax(nodes, op, flavor);
    if !ok {
      return;
    }
    var rest := nodes;
    if op.Some? {
      expr := [Op(op.value)];
      rest := nodes[1..];
    }
    if op == None || op == Some(All) {
      depth' := depth' + 1;
    }
    assert forall k :: 0 <= k < |rest| ==> OperandSyntax(rest[k], op);
    var items;
    ok, items, depth' := FillItems(rest, flavor, maxDepth, depth');
    expr, depth' := expr + items, depth' - 1;
  }

  /** The items after the operator, one sibling after the other. */
  method FillItems(nodes: seq<ParseNode>, flavor: Flavor, maxDepth: int, depth: int)
    returns (ok: bool, items: Expr<string>, depth': int)
    requires forall k :: 0 <= k < |nodes| ==> nodes[k] != Branch([])
    ensures ok <==> AllAcceptable(nodes, flavor) && DepthAll(nodes, depth, LimitFor(flavor, maxDepth)).Some?
    ensures ok ==> items == TranslateAll(nodes) && Some(depth') == DepthAll(nodes, depth, LimitFor(flavor, maxDepth))
    decreases nodes, 0
  {
    items, depth' := [], depth;
    var i := 0;
    while i < |nodes|
      invariant 0 <= i <= |nodes|
      invariant AllAcceptable(nodes[i..], flavor) <==> AllAcceptable(nodes, flavor)
      invariant DepthAll(nodes[i..], depth', LimitFor(flavor, maxDepth)) ==
          DepthAll(nodes, depth, LimitFor(flavor, maxDepth))
      invariant items + TranslateAll(nodes[i..]) == TranslateAll(nodes)
    {
      assert nodes[i..][0] == nodes[i] && nodes[i..][1..] == nodes[i + 1..];
      var item;
      ok, item, depth' := FillNode(nodes[i], flavor, maxDepth, depth');
      if !ok {
        return;
      }
      items := items + [item];
      i := i + 1;
    }
    assert nodes[i..] == [];
    return true, items, depth';
  }

  /** One item: a word, which must be no operator, or a list. */
  method FillNode(n: ParseNode, flavor: Flavor, maxDepth: int, depth: int)
      returns (ok: bool, item: Item<string>, depth': int)
    requires n != Branch([])
    ensures ok <==>
        AcceptableNode(n, flavor) && (n.Branch? ==> Depth(n.children, depth, LimitFor(flavor, maxDepth)).Some?)
    ensures ok ==> item == TranslateNode(n)
    ensures ok ==>
        Some(depth') == if n.Branch? then Depth(n.children, depth, LimitFor(flavor, maxDepth)) else Some(depth)
    decreases n, 2
  {
    if n.Word? {
      return OperatorOf(n) == None, Operand(n.text), depth;
    }
    var items;
    ok, items, depth' := FillList(n.children, flavor, maxDepth, depth);
    item := Sub(items);
  }

  /** The expression of a statement: a single word or a list. */
  method GenExpr(n: ParseNode, flavor: Flavor, maxDepth: int) returns (ok: bool, expr: Expr<string>)
    requires n != Branch([])
    ensures n.Word? ==> ok == OperatorOf(n).None? && (ok ==> expr == [Operand(n.text)])
    ensures n.Branch? ==>
        (ok <==> Acceptable(n.children, flavor) && Depth(n.children, 0, LimitFor(flavor, maxDepth)).Some?)
    ensures n.Branch? ==>
        (ok <==> Acceptable(n.children, flavor) && (flavor.Bool? ==> CountersFit(n.children, 0, maxDepth)))
    ensures n.Branch? && ok ==> expr == Translate(n.children) && HeadOf(n.children[0], expr[0])
    ensures ok ==> WellFormed(expr, flavor)
  {
    var depth;
    if n.Word? {
      var item;
      ok, item, depth := FillNode(n, flavor, maxDepth, 0);
      expr := [item];
    } else {
      ok, expr, depth := FillList(n.children, flavor, maxDepth, 0);
      DepthFits(n.children, 0, LimitFor(flavor, maxDepth));
      if ok {
        HeadIsTranslated(n.children);
        TranslateWellFormed(n.children, flavor);
      }
    }
  }

  // ---- The counter at the start of each list

  /** The path leads, by places in lists, to a nonempty list. */
  predicate ListAt(nodes: seq<ParseNode>, path: seq<nat>)
    decreases |path|
  {
    path == [] || (path[0] < |nodes| && IsList(nodes[path[0]]) && ListAt(nodes[path[0]].children, path[1..]))
  }

  /** A list without operator, or with the operator `all`, makes the lists inside it deeper. */
  function Deepens(nodes: seq<ParseNode>): nat
    requires nodes != []
  {
    if nodes[0] != Word("all") && OperatorOf(nodes[0]).Some? then 0 else 1
  }

  /** How many of the lists, and of those inside them, are headed by an operator other than `all`. Each of them
      lowers the counter for what comes after it. */
  function Lowering(nodes: seq<ParseNode>): nat
    requires nodes != []
    decreases nodes, 1
  {
    1 - Deepens(nodes) + LoweringIn(nodes)
  }

  function LoweringIn(nodes: seq<ParseNode>): nat
    decreases nodes, 0
  {
    if nodes == [] then 0
    else (if IsList(nodes[0]) then Lowering(nodes[0].children) else 0) + LoweringIn(nodes[1..])
  }

  /** The counter at the start of a list: one more for each deepening list around it, one less for each lowering
      list that ends before it. */
  function CounterAt(nodes: seq<ParseNode>, path: seq<nat>, depth: int): int
    requires nodes != [] && ListAt(nodes, path)
    decreases |path|
  {
    if path == [] then depth
    else CounterAt(nodes[path[0]].children, path[1..], depth + Deepens(nodes) - LoweringIn(nodes[..path[0]]))
  }

  /** At the start of no list is the counter over the limit. */
  ghost predicate CountersFit(nodes: seq<ParseNode>, depth: int, limit: int)
    requires nodes != []
  {
    forall path :: ListAt(nodes, path) ==> CounterAt(nodes, path, depth) <= limit
  }

  /** The same for the lists that are nodes or inside nodes. */
  ghost predicate InnerFit(nodes: seq<ParseNode>, depth: int, limit: int) {
    forall k :: 0 <= k < |nodes| ==> NodeFits(nodes, k, depth, limit)
  }

  ghost predicate NodeFits(nodes: seq<ParseNode>, k: nat, depth: int, limit: int)
    requires k < |nodes|
  {
    IsList(nodes[k]) ==> CountersFit(nodes[k].children, depth - LoweringIn(nodes[..k]), limit)
  }

  /** The counter is what the places of lists say, and it fails exactly if it is over the limit somewhere. */
  lemma {:induction false} DepthFits(nodes: seq<ParseNode>, depth: int, limit: Option<int>)
    requires nodes != []
    ensures Depth(nodes, depth, limit).Some? <==> (limit.Some? ==> CountersFit(nodes, depth, limit.value))
    ensures Depth(nodes, depth, limit).Some? ==> Depth(nodes, depth, limit).value == depth - Lowering(nodes)
    decreases nodes, 1
  {
    hide IsList, InnerFit, LoweringIn, DepthAll;
    var op := OperatorOf(nodes[0]);
    var inner := depth + Deepens(nodes);
    if limit.Some? {
      FitsInside(nodes, depth, limit.value);
    }
    if op.Some? {
      InnerDepthFits(nodes[1..], inner, limit);
      HeadIsNoList(nodes, inner, limit);
    } else {
      InnerDepthFits(nodes, inner, limit);
    }
  }

  lemma FitsInside(nodes: seq<ParseNode>, depth: int, limit: int)
    requires nodes != []
    ensures CountersFit(nodes, depth, limit) <==> depth <= limit && InnerFit(nodes, depth + Deepens(nodes), limit)
  {
    hide LoweringIn, Deepens;
    if CountersFit(nodes, depth, limit) {
      assert ListAt(nodes, []) && CounterAt(nodes, [], depth) == depth;
      var inner := depth + Deepens(nodes);
      forall k | 0 <= k < |nodes| ensures NodeFits(nodes, k, inner, limit) {
        if IsList(nodes[k]) {
          forall path | ListAt(nodes[k].children, path)
            ensures CounterAt(nodes[k].children, path, depth + Deepens(nodes) - LoweringIn(nodes[..k])) <= limit
          {
            assert ([k] + path)[1..] == path;
            assert ListAt(nodes, [k] + path);
          }
        }
      }
    }
    if depth <= limit && InnerFit(nodes, depth + Deepens(nodes), limit) {
      forall path | ListAt(nodes, path) ensures CounterAt(nodes, path, depth) <= limit {
        if path != [] {
          assert NodeFits(nodes, path[0], depth + Deepens(nodes), limit);
          assert ListAt(nodes[path[0]].children, path[1..]);
        }
      }
    }
  }

  lemma HeadIsNoList(nodes: seq<ParseNode>, depth: int, limit: Option<int>)
    requires nodes != [] && nodes[0].Word?
    ensures LoweringIn(nodes) == LoweringIn(nodes[1..])
    ensures limit.Some? ==> (InnerFit(nodes, depth, limit.value) <==> InnerFit(nodes[1..], depth, limit.value))
  {
    if limit.Some? {
      NextFits(nodes, depth, limit.value);
      FirstFits(nodes, depth, limit.value);
    }
  }

  /** The first node and the others. */
  lemma NextFits(nodes: seq<ParseNode>, depth: int, limit: int)
    requires nodes != []
    ensures var low := if IsList(nodes[0]) then Lowering(nodes[0].children) else 0;
            InnerFit(nodes, depth, limit) <==>
              NodeFits(nodes, 0, depth, limit) && InnerFit(nodes[1..], depth - low, limit)
  {
    hide NodeFits;
    var low := if IsList(nodes[0]) then Lowering(nodes[0].children) else 0;
    assert nodes == [nodes[0]] + nodes[1..];
    forall k | 0 < k < |nodes|
      ensures NodeFits(nodes, k, depth, limit) <==> NodeFits(nodes[1..], k - 1, depth - low, limit)
    {
      NodeLater(nodes, k, depth, limit);
    }
    if InnerFit(nodes, depth, limit) {
      var rest, lower := nodes[1..], depth - low;
      forall k | 0 <= k < |rest| ensures NodeFits(rest, k, lower, limit) {
        assert NodeFits(nodes, k + 1, depth, limit);
      }
    }
    if NodeFits(nodes, 0, depth, limit) && InnerFit(nodes[1..], depth - low, limit) {
      forall k | 0 <= k < |nodes| ensures NodeFits(nodes, k, depth, limit) {
        assert k > 0 ==> NodeFits(nodes[1..], k - 1, depth - low, limit);
      }
    }
  }

  lemma NodeLater(nodes: seq<ParseNode>, k: nat, depth: int, limit: int)
    requires 0 < k < |nodes|
    ensures var low := if IsList(nodes[0]) then Lowering(nodes[0].children) else 0;
            NodeFits(nodes, k, depth, limit) <==> NodeFits(nodes[1..], k - 1, depth - low, limit)
  {
    hide CountersFit, Lowering;
    assert nodes[..k][1..] == nodes[1..][..k - 1];
    assert nodes[k] == nodes[1..][k - 1];
  }

  lemma FirstFits(nodes: seq<ParseNode>, depth: int, limit: int)
    requires nodes != []
    ensures NodeFits(nodes, 0, depth, limit) <==> (IsList(nodes[0]) ==> CountersFit(nodes[0].children, depth, limit))
  {
    hide CountersFit;
    assert nodes[..0] == [];
  }

  lemma NothingInside(depth: int, limit: int)
    ensures InnerFit([], depth, limit)
  {
  }

  lemma {:induction false} InnerDepthFits(nodes: seq<ParseNode>, depth: int, limit: Option<int>)
    ensures DepthAll(nodes, depth, limit).Some? <==> (limit.Some? ==> InnerFit(nodes, depth, limit.value))
    ensures DepthAll(nodes, depth, limit).Some? ==> DepthAll(nodes, depth, limit).value == depth - LoweringIn(nodes)
    decreases nodes, 0
  {
    hide InnerFit, CountersFit, Lowering, Depth;
    if nodes == [] {
      if limit.Some? {
        NothingInside(depth, limit.value);
      }
    } else {
      if limit.Some? {
        NextFits(nodes, depth, limit.value);
        FirstFits(nodes, depth, limit.value);
      }
      if IsList(nodes[0]) {
        DepthFits(nodes[0].children, depth, limit);
        InnerDepthFits(nodes[1..], depth - Lowering(nodes[0].children), limit);
      } else {
        InnerDepthFits(nodes[1..], depth, limit);
      }
    }
  }

  // ---- What the builder makes

  lemma HeadIsTranslated(nodes: seq<ParseNode>)
    requires nodes != []
    ensures HeadOf(nodes[0], Translate(nodes)[0])
  {
    hide HeadOf;
    OperatorHead(nodes[0]);
    if OperatorOf(nodes[0]) == None {
      assert !TranslateNode(nodes[0]).Op?;
    }
  }

  lemma OperatorHead(n: ParseNode)
    ensures OperatorOf(n).Some? ==> HeadOf(n, Op(OperatorOf(n).value))
    ensures OperatorOf(n).None? ==> forall i: Item<string> :: !i.Op? ==> HeadOf(n, i)
  {
    var r := OperatorOf(n);
  }

  /** The parse tree that an expression came from. */
  function Source(e: Expr<string>): (r: seq<ParseNode>)
    ensures |r| == |e|
    decreases e, 1
  {
    if e == [] then [] else [SourceItem(e[0])] + Source(e[1..])
  }

  function SourceItem(i: Item<string>): ParseNode
    decreases i, 2
  {
    match i
    case Op(op) => Word(Keyword(op))
    case Operand(text) => Word(text)
    case Sub(items) => Branch(Source(items))
  }

  /** Every expression that the builder takes is well formed and stands for exactly its parse tree. */
  lemma {:induction false} TranslateWellFormed(nodes: seq<ParseNode>, flavor: Flavor)
    requires Acceptable(nodes, flavor)
    ensures WellFormed(Translate(nodes), flavor)
    ensures Source(Translate(nodes)) == nodes
    decreases nodes, 1
  {
    var op := OperatorOf(nodes[0]);
    if op.Some? {
      AllTranslated(nodes[1..], flavor);
      var e := Translate(nodes);
      assert e[1..] == TranslateAll(nodes[1..]);
      assert nodes == [nodes[0]] + nodes[1..];
      if op.value.Range? {
        assert OperandSyntax(nodes[1], op) && OperandSyntax(nodes[2], op);
        assert nodes[1..][0] == nodes[1] && nodes[1..][1..][0] == nodes[2];
        assert e[1] == TranslateNode(nodes[1]);
        assert e[2] == TranslateAll(nodes[1..][1..])[0] == TranslateNode(nodes[2]);
      }
    } else {
      AllTranslated(nodes, flavor);
    }
  }

  lemma {:induction false} AllTranslated(nodes: seq<ParseNode>, flavor: Flavor)
    requires AllAcceptable(nodes, flavor)
    ensures AllOperands(TranslateAll(nodes), flavor)
    ensures Source(TranslateAll(nodes)) == nodes
    ensures nodes != [] ==> !TranslateAll(nodes)[0].Op?
    decreases nodes, 0
  {
    if nodes != [] {
      if nodes[0].Branch? {
        TranslateWellFormed(nodes[0].children, flavor);
      }
      AllTranslated(nodes[1..], flavor);
      assert TranslateAll(nodes)[1..] == TranslateAll(nodes[1..]);
      assert nodes == [nodes[0]] + nodes[1..];
    }
  }

  /** No operand of the expression is spelled like an operator. */
  predicate PlainNames(e: Expr<string>)
    decreases e, 1
  {
    e == [] || (PlainItem(e[0]) && PlainNames(e[1..]))
  }

  predicate PlainItem(i: Item<string>)
    decreases i, 2
  {
    match i
    case Op(_) => true
    case Operand(text) => OperatorOf(Word(text)).None?
    case Sub(items) => PlainNames(items)
  }

  /** Conversely, every well-formed expression over plain names is built from its own source. */
  lemma {:induction false} WellFormedIsBuilt(e: Expr<string>, flavor: Flavor)
    requires WellFormed(e, flavor) && PlainNames(e)
    ensures Acceptable(Source(e), flavor)
    ensures Translate(Source(e)) == e
    decreases e, 1
  {
    var nodes := Source(e);
    assert nodes[0] == SourceItem(e[0]);
    if e[0].Op? {
      KeywordsDiffer(OperatorOf(nodes[0]).value, e[0].op);
      OperandsAreBuilt(e[1..], flavor);
      assert forall k :: 1 <= k < |e| ==> nodes[k] == Source(e[1..])[k - 1] && OperandNode(nodes[k]);
      assert nodes[1..] == Source(e[1..]);
      assert e == [e[0]] + e[1..];
      if e[0].op.Range? {
        assert nodes[1] == SourceItem(e[1]) && nodes[2] == SourceItem(e[2]) by {
          assert nodes[1..][1..] == Source(e[1..][1..]);
        }
      }
    } else {
      assert e[0].Operand? || e[0].Sub?;
      OperandsAreBuilt(e, flavor);
    }
  }

  lemma KeywordsDiffer(a: Operator, b: Operator)
    requires Keyword(a) == Keyword(b)
    ensures a == b
  {
    WordsDiffer();
  }

  /** A node that comes from an operand. */
  predicate OperandNode(n: ParseNode) {
    (IsWord(n) || IsList(n)) && OperatorOf(n).None?
  }

  lemma {:induction false} OperandIsBuilt(i: Item<string>, flavor: Flavor)
    requires IsOperand(i, flavor) && PlainItem(i)
    ensures AcceptableNode(SourceItem(i), flavor) && TranslateNode(SourceItem(i)) == i && OperandNode(SourceItem(i))
    decreases i, 2
  {
    if i.Sub? {
      WellFormedIsBuilt(i.items, flavor);
    }
  }

  lemma {:induction false} OperandsAreBuilt(e: Expr<string>, flavor: Flavor)
    requires AllOperands(e, flavor) && PlainNames(e)
    ensures AllAcceptable(Source(e), flavor)
    ensures TranslateAll(Source(e)) == e
    ensures forall k :: 0 <= k < |e| ==> OperandNode(Source(e)[k])
    decreases e, 0
  {
    hide AcceptableNode, OperandNode, SourceItem, TranslateNode, PlainItem, IsOperand;
    if e != [] {
      OperandIsBuilt(e[0], flavor);
      OperandsAreBuilt(e[1..], flavor);
      assert Source(e) == [SourceItem(e[0])] + Source(e[1..]);
      assert Source(e)[1..] == Source(e[1..]);
      assert e == [e[0]] + e[1..];
    }
  }
}
