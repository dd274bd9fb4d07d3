/** Building the parse tree of a file from its tokens. */
module Parser {
  import opened Common

  /** The tokens before the end of the file. A quoted string still has its quotes. */
  datatype Token = OParen | CParen | Symbol(value: string) | QString(value: string) | Comment | Unknown

  /** What a token says: a comment says nothing. */
  datatype Word = Open | Close | Item(text: string)

  class ParseNode {
    const parent: ParseNode?
    const data: Option<string>
    var children: seq<ParseNode>

    constructor (parent: ParseNode?, data: Option<string>)
      ensures this.parent == parent && this.data == data && children == []
    {
      this.parent := parent;
      this.data := data;
      children := [];
    }
  }

  // ---- Which token sequences are well formed

  predicate Quoted(tokens: seq<Token>) {
    forall t <- tokens :: t.QString? ==> |t.value| >= 2
  }

  /** Takes the first and the last character off. */
  function Unquoted(value: string): (text: string)
    ensures |value| >= 2 ==> value == [value[0]] + text + [value[|value| - 1]]
    ensures forall s :: value == "\"" + s + "\"" ==> text == s
  {
    assert forall s :: value == "\"" + s + "\"" ==> value[1..|value| - 1] == s;
    if |value| >= 2 then value[1..|value| - 1] else ""
  }

  function WordOf(t: Token): seq<Word> {
    match t
    case OParen => [Open]
    case CParen => [Close]
    case Symbol(value) => [Item(value)]
    case QString(value) => [Item(Unquoted(value))]
    case _ => []
  }

  function WordsOf(tokens: seq<Token>): seq<Word> {
    if tokens == [] then [] else WordOf(tokens[0]) + WordsOf(tokens[1..])
  }

  /** How many parentheses are open after the tokens. */
  function Depth(tokens: seq<Token>): int {
    if tokens == [] then 0 else Depth(tokens[..|tokens| - 1]) + Change(tokens[|tokens| - 1])
  }

  function Change(t: Token): int {
    if t.OParen? then 1 else if t.CParen? then -1 else 0
  }

  /** A token is allowed at a depth. */
  predicate Allowed(t: Token, depth: int) {
    match t
    case OParen => true
    case Comment => true
    case Unknown => false
    case _ => depth > 0
  }

  /** The first tokens are allowed where they stand. */
  predicate AllAllowed(tokens: seq<Token>, n: nat)
    requires n <= |tokens|
  {
    forall k :: 0 <= k < n ==> Allowed(tokens[k], Depth(tokens[..k]))
  }

  /** Parentheses balance and never close what is not open, nothing stands outside of them, and no token is
      unknown. */
  predicate Balanced(tokens: seq<Token>) {
    AllAllowed(tokens, |tokens|) && Depth(tokens) == 0
  }

  lemma {:induction false} NextToken(tokens: seq<Token>, i: nat)
    requires i < |tokens| && AllAllowed(tokens, i)
    ensures Depth(tokens[..i + 1]) == Depth(tokens[..i]) + Change(tokens[i])
    ensures AllAllowed(tokens, i + 1) <==> Allowed(tokens[i], Depth(tokens[..i]))
    ensures !Allowed(tokens[i], Depth(tokens[..i])) ==> !Balanced(tokens)
    ensures WordsOf(tokens[..i + 1]) == WordsOf(tokens[..i]) + WordOf(tokens[i])
  {
    assert tokens[..i + 1][..i] == tokens[..i] && tokens[..i + 1] == tokens[..i] + [tokens[i]];
    WordsOfAppend(tokens[..i], tokens[i]);
  }

  // ---- The tree

  /** A node and the shapes below it. */
  datatype Shape = Shape(node: ParseNode, children: seq<Shape>)

  ghost function Nodes(shapes: seq<Shape>): set<ParseNode>
    decreases shapes
  {
    if shapes == [] then {} else Nodes(shapes[0].children) + {shapes[0].node} + Nodes(shapes[1..])
  }

  ghost function Roots(shapes: seq<Shape>): (nodes: seq<ParseNode>)
    ensures |nodes| == |shapes|
  {
    seq(|shapes|, i requires 0 <= i < |shapes| => shapes[i].node)
  }

  /** The nodes have the children that the shapes say. */
  ghost predicate Built(shapes: seq<Shape>)
    reads Nodes(shapes)
    decreases shapes
  {
    if shapes == [] then true
    else
      && shapes[0].node.children == Roots(shapes[0].children)
      && Built(shapes[0].children)
      && Built(shapes[1..])
  }

  /** The nodes of the children of `parent` lead back to it. */
  ghost predicate Linked(shapes: seq<Shape>, parent: ParseNode)
    decreases shapes
  {
    shapes != [] ==>
      && shapes[0].node.parent == parent
      && Linked(shapes[0].children, shapes[0].node)
      && Linked(shapes[1..], parent)
  }

  ghost function Words(shapes: seq<Shape>): seq<Word>
    decreases shapes
  {
    if shapes == [] then [] else ShapeWords(shapes[0]) + Words(shapes[1..])
  }

  /** A node with data is a single word, a node without is a list. */
  ghost function ShapeWords(s: Shape): seq<Word>
    decreases s
  {
    match s.node.data
    case Some(text) => [Item(text)]
    case None => [Open] + Words(s.children) + [Close]
  }

  /** The lists that are open, from the innermost to the root, each with the children that are complete. */
  datatype Level = Root(node: ParseNode, closed: seq<Shape>) | Inside(node: ParseNode, closed: seq<Shape>, outer: Level)

  ghost function Footprint(level: Level): set<ParseNode> {
    {level.node} + Nodes(level.closed) + if level.Root? then {} else Footprint(level.outer)
  }

  /** No node occurs in two places. */
  ghost predicate Apart(level: Level) {
    && level.node !in Nodes(level.closed)
    && (level.Inside? ==> Footprint(level.outer) !! ({level.node} + Nodes(level.closed)) && Apart(level.outer))
  }

  /** The open lists are built so far, `last` being the list that is open inside the first. */
  ghost predicate Spine(level: Level, last: seq<ParseNode>)
    reads Footprint(level)
    decreases level
  {
    && level.node.children == Roots(level.closed) + last
    && Built(level.closed) && Linked(level.closed, level.node)
    && (level.Inside? ==>
          level.node.data == None && level.node.parent == level.outer.node && Spine(level.outer, [level.node]))
  }

  ghost function SpineWords(level: Level): seq<Word> {
    (if level.Root? then [] else SpineWords(level.outer) + [Open]) + Words(level.closed)
  }

  ghost function Count(level: Level): nat {
    if level.Root? then 0 else 1 + Count(level.outer)
  }

  ghost function Base(level: Level): Level {
    if level.Root? then level else Base(level.outer)
  }

  ghost predicate State(level: Level)
    reads Footprint(level)
  {
    Apart(level) && Spine(level, [])
  }

  // ---- Parsing

  /** Adds the lists of a file to a tree that may hold those of other files already. */
  method Parse(tokens: seq<Token>, root: ParseNode, ghost before: seq<Shape>)
      returns (ok: bool, ghost after: seq<Shape>)
    requires Quoted(tokens) && State(Root(root, before))
    modifies root
    ensures ok <==> Balanced(tokens)
    ensures ok ==> State(Root(root, after)) && before <= after && Words(after) == Words(before) + WordsOf(tokens)
  {
    hide State, SpineWords, Words, WordsOf, Depth, AllAllowed, Balanced;
    var parenCount := 0;
    var current := root;
    var i := 0;
    ghost var level := Root(root, before);
    Begin(root, before, tokens);
    assert tokens[..0] == [];
    while i < |tokens|
      invariant 0 <= i <= |tokens|
      invariant State(level) && current == level.node && parenCount == Count(level) == Depth(tokens[..i])
      invariant AllAllowed(tokens, i)
      invariant Base(level).node == root && before <= Base(level).closed
      invariant forall n <- OpenNodes(level) :: n == root || fresh(n)
      invariant SpineWords(level) == Words(before) + WordsOf(tokens[..i])
    {
      NextToken(tokens, i);
      OpenNodesAfter(level);
      assert current in OpenNodes(level);
      ghost var was := SpineWords(level);
      match tokens[i] {
        case OParen =>
          parenCount := parenCount + 1;
          var node := OpenList(current, level);
          current, level := node, Inside(node, [], level);
        case CParen =>
          parenCount := parenCount - 1;
          if parenCount < 0 {
            return false, [];
          }
          CloseList(level);
          current, level := current.parent, Closed(level);
        case Symbol(value) =>
          if parenCount == 0 {
            return false, [];
          }
          var item := AddItem(current, value, level);
          level := WithItem(level, item);
        case QString(value) =>
          if parenCount == 0 {
            return false, [];
          }
          var item := AddItem(current, value[1..|value| - 1], level);
          level := WithItem(level, item);
        case Comment =>
        case Unknown =>
          return false, [];
      }
      assert SpineWords(level) == was + WordOf(tokens[i]);
      i := i + 1;
    }
    assert tokens[..i] == tokens;
    BalancedAtEnd(tokens);
    if parenCount > 0 {
      return false, [];
    }
    Begin(root, level.closed, tokens);
    ok, after := true, level.closed;
  }

  /** Appends a node for a list to the innermost list. */
  method OpenList(current: ParseNode, ghost level: Level) returns (node: ParseNode)
    requires State(level) && current == level.node
    modifies current
    ensures fresh(node) && State(Inside(node, [], level))
    ensures SpineWords(Inside(node, [], level)) == SpineWords(level) + [Open]
  {
    Footprints(level);
    node := new ParseNode(current, None);
    current.children := current.children + [node];
  }

  /** Appends a node for a word to the innermost list. */
  method AddItem(current: ParseNode, text: string, ghost level: Level) returns (item: ParseNode)
    requires State(level) && current == level.node
    modifies current
    ensures fresh(item) && State(WithItem(level, item))
    ensures SpineWords(WithItem(level, item)) == SpineWords(level) + [Item(text)]
  {
    hide Words;
    Footprints(level);
    item := new ParseNode(current, Some(text));
    current.children := current.children + [item];
    assert Built(level.closed);
    ItemWords(level, item);
    NodesAppend(level.closed, Shape(item, []));
    BuiltAppend(level.closed, Shape(item, []), level.node);
  }

  lemma ItemWords(level: Level, item: ParseNode)
    requires item.data.Some?
    ensures SpineWords(WithItem(level, item)) == SpineWords(level) + [Item(item.data.value)]
  {
    var shape := Shape(item, []);
    WordsAppend(level.closed, shape);
    assert [shape][1..] == [];
    assert Words([shape]) == [Item(item.data.value)];
  }

  /** What stays as it is when the innermost list grows. */
  lemma Footprints(level: Level)
    requires State(level)
    ensures Built(level.closed) && level.node !in Nodes(level.closed) && allocated(Nodes(level.closed))
    ensures level.Inside? ==>
              && Spine(level.outer, [level.node]) && Apart(level.outer)
              && level.node !in Footprint(level.outer) && allocated(Footprint(level.outer))
  {
  }

  /** The innermost list is complete. */
  lemma CloseList(level: Level)
    requires level.Inside? && State(level)
    ensures level.node.parent == Closed(level).node && State(Closed(level))
    ensures SpineWords(Closed(level)) == SpineWords(level) + [Close]
  {
    CloseApart(level);
    CloseSpine(level);
    CloseWords(level);
  }

  lemma {:induction false} CloseApart(level: Level)
    requires level.Inside? && Apart(level)
    ensures Apart(Closed(level))
  {
    var outer, shape := level.outer, Shape(level.node, level.closed);
    NodesAppend(outer.closed, shape);
    assert outer.node in Footprint(outer) && Nodes(outer.closed) <= Footprint(outer);
    if outer.Inside? {
      assert Footprint(outer.outer) <= Footprint(outer);
    }
  }

  lemma {:induction false} CloseSpine(level: Level)
    requires level.Inside? && Spine(level, [])
    ensures Spine(Closed(level), [])
  {
    var outer, shape := level.outer, Shape(level.node, level.closed);
    assert Spine(outer, [level.node]) && Built(outer.closed);
    NodesAppend(outer.closed, shape);
    BuiltAppend(outer.closed, shape, outer.node);
  }

  lemma {:induction false} CloseWords(level: Level)
    requires level.Inside? && level.node.data == None
    ensures SpineWords(Closed(level)) == SpineWords(level) + [Close]
  {
    var outer, shape := level.outer, Shape(level.node, level.closed);
    WordsAppend(outer.closed, shape);
    assert [shape][1..] == [];
    assert Words([shape]) == ShapeWords(shape) == [Open] + Words(level.closed) + [Close];
    var front := if outer.Root? then [] else SpineWords(outer.outer) + [Open];
    assert front + (Words(outer.closed) + ([Open] + Words(level.closed) + [Close]))
        == ((front + Words(outer.closed)) + [Open]) + Words(level.closed) + [Close];
  }

  ghost function Closed(level: Level): Level
    requires level.Inside?
  {
    level.outer.(closed := level.outer.closed + [Shape(level.node, level.closed)])
  }

  ghost function WithItem(level: Level, item: ParseNode): Level {
    level.(closed := level.closed + [Shape(item, [])])
  }

  ghost function OpenNodes(level: Level): set<ParseNode> {
    {level.node} + if level.Root? then {} else OpenNodes(level.outer)
  }

  lemma {:induction false} OpenNodesAfter(level: Level)
    ensures level.Inside? ==> OpenNodes(Closed(level)) <= OpenNodes(level)
    ensures forall item: ParseNode :: OpenNodes(WithItem(level, item)) == OpenNodes(level)
  {
    if level.Inside? {
      assert level.outer.Inside? ==> OpenNodes(Closed(level)) == {level.outer.node} + OpenNodes(level.outer.outer);
    }
  }

  lemma BalancedAtEnd(tokens: seq<Token>)
    requires AllAllowed(tokens, |tokens|)
    ensures Balanced(tokens) <==> Depth(tokens) == 0
  {
  }

  lemma Begin(root: ParseNode, closed: seq<Shape>, tokens: seq<Token>)
    ensures SpineWords(Root(root, closed)) == Words(closed)
    ensures WordsOf([]) == [] && AllAllowed(tokens, 0) && Depth([]) == 0
  {
    assert [] + Words(closed) == Words(closed);
  }

  lemma {:induction false} WordsOfAppend(tokens: seq<Token>, t: Token)
    ensures WordsOf(tokens + [t]) == WordsOf(tokens) + WordOf(t)
  {
    hide WordOf;
    if tokens == [] {
      assert tokens + [t] == [t] && [t][1..] == [];
    } else {
      WordsOfAppend(tokens[1..], t);
      assert (tokens + [t])[1..] == tokens[1..] + [t];
    }
  }

  // ---- Appending a complete child

  lemma {:induction false} NodesAppend(shapes: seq<Shape>, s: Shape)
    ensures Nodes(shapes + [s]) == Nodes(shapes) + Nodes(s.children) + {s.node}
    ensures Roots(shapes + [s]) == Roots(shapes) + [s.node]
  {
    if shapes == [] {
      assert shapes + [s] == [s] && [s][1..] == [];
    } else {
      NodesAppend(shapes[1..], s);
      assert (shapes + [s])[1..] == shapes[1..] + [s];
    }
  }

  lemma {:induction false} WordsAppend(shapes: seq<Shape>, s: Shape)
    ensures Words(shapes + [s]) == Words(shapes) + Words([s])
  {
    hide ShapeWords;
    if shapes == [] {
      assert shapes + [s] == [s];
    } else {
      WordsAppend(shapes[1..], s);
      assert (shapes + [s])[1..] == shapes[1..] + [s];
    }
  }

  lemma {:induction false} BuiltAppend(shapes: seq<Shape>, s: Shape, parent: ParseNode)
    requires Built(shapes) && Linked(shapes, parent)
    requires s.node.parent == parent && s.node.children == Roots(s.children)
    requires Built(s.children) && Linked(s.children, s.node)
    ensures Built(shapes + [s]) && Linked(shapes + [s], parent)
  {
    if shapes == [] {
      assert shapes + [s] == [s] && [s][1..] == [];
    } else {
      BuiltAppend(shapes[1..], s, parent);
      assert (shapes + [s])[1..] == shapes[1..] + [s];
    }
  }
}
