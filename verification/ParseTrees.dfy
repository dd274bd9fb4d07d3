/** The parse tree of a file is determined by its words. */
module ParseTrees {
  import opened Common
  import opened Parser

  datatype Tree = Leaf(text: string) | List(items: seq<Tree>)

  function Flatten(trees: seq<Tree>): seq<Word> {
    if trees == [] then [] else FlattenTree(trees[0]) + Flatten(trees[1..])
  }

  function FlattenTree(t: Tree): seq<Word> {
    match t
    case Leaf(text) => [Item(text)]
    case List(items) => [Open] + Flatten(items) + [Close]
  }

  ghost function TreesOf(shapes: seq<Shape>): seq<Tree>
    decreases shapes
  {
    if shapes == [] then [] else [TreeOf(shapes[0])] + TreesOf(shapes[1..])
  }

  ghost function TreeOf(s: Shape): Tree
    decreases s
  {
    match s.node.data
    case Some(text) => Leaf(text)
    case None => List(TreesOf(s.children))
  }

  lemma {:induction false} FlattenTreesOf(shapes: seq<Shape>)
    ensures Flatten(TreesOf(shapes)) == Words(shapes)
    decreases shapes
  {
    if shapes != [] {
      FlattenTreesOf(shapes[1..]);
      FlattenTreeOf(shapes[0]);
    }
  }

  lemma {:induction false} FlattenTreeOf(s: Shape)
    ensures FlattenTree(TreeOf(s)) == ShapeWords(s)
    decreases s
  {
    if s.node.data.None? {
      FlattenTreesOf(s.children);
    }
  }

  // ---- No other trees have the same words

  predicate Ends(words: seq<Word>) {
    words == [] || words[0] == Close
  }

  lemma {:induction false} FlattenIsInjective(a: seq<Tree>, b: seq<Tree>, restA: seq<Word>, restB: seq<Word>)
    requires Flatten(a) + restA == Flatten(b) + restB && Ends(restA) && Ends(restB)
    ensures a == b && restA == restB
    decreases a
  {
    if a == [] || b == [] {
      FirstWord(a, restA);
      FirstWord(b, restB);
    } else {
      var words := Flatten(a) + restA;
      assert words == FlattenTree(a[0]) + (Flatten(a[1..]) + restA);
      assert words == FlattenTree(b[0]) + (Flatten(b[1..]) + restB);
      TreeIsInjective(a[0], b[0], Flatten(a[1..]) + restA, Flatten(b[1..]) + restB);
      FlattenIsInjective(a[1..], b[1..], restA, restB);
      assert a == [a[0]] + a[1..] && b == [b[0]] + b[1..];
    }
  }

  lemma {:induction false} TreeIsInjective(a: Tree, b: Tree, restA: seq<Word>, restB: seq<Word>)
    requires FlattenTree(a) + restA == FlattenTree(b) + restB
    ensures a == b && restA == restB
    decreases a
  {
    var words := FlattenTree(a) + restA;
    assert words[0] == FlattenTree(a)[0] == FlattenTree(b)[0];
    if a.Leaf? {
      assert restA == words[1..] == restB;
    } else {
      assert words[1..] == Flatten(a.items) + ([Close] + restA);
      assert words[1..] == Flatten(b.items) + ([Close] + restB);
      FlattenIsInjective(a.items, b.items, [Close] + restA, [Close] + restB);
      assert restA == ([Close] + restA)[1..] && restB == ([Close] + restB)[1..];
    }
  }

  lemma {:induction false} FirstWord(a: seq<Tree>, rest: seq<Word>)
    requires Ends(rest)
    ensures a != [] ==> Flatten(a) + rest != [] && (Flatten(a) + rest)[0] != Close
    ensures a == [] ==> Flatten(a) + rest == rest
  {
  }

  // ---- The words of every forest of lists are accepted

  predicate Accepts(words: seq<Word>, depth: nat) {
    if words == [] then depth == 0
    else
      match words[0]
      case Open => Accepts(words[1..], depth + 1)
      case Close => depth > 0 && Accepts(words[1..], depth - 1)
      case Item(_) => depth > 0 && Accepts(words[1..], depth)
  }

  predicate Known(tokens: seq<Token>) {
    Unknown !in tokens
  }

  lemma KnownStep(tokens: seq<Token>, i: nat)
    requires i <= |tokens|
    ensures i == |tokens| ==> Known(tokens[i..])
    ensures i < |tokens| ==> (Known(tokens[i..]) <==> tokens[i] != Unknown && Known(tokens[i + 1..]))
  {
    if i < |tokens| {
      assert tokens[i..] == [tokens[i]] + tokens[i + 1..];
    }
  }

  lemma {:induction false} AcceptsIsBalanced(tokens: seq<Token>, i: nat)
    requires i <= |tokens| && Depth(tokens[..i]) >= 0 && AllAllowed(tokens, i)
    ensures Balanced(tokens) <==> Known(tokens[i..]) && Accepts(WordsOf(tokens[i..]), Depth(tokens[..i]))
    decreases |tokens| - i
  {
    hide Depth, Known, AllAllowed, Balanced;
    if i == |tokens| {
      assert tokens[..i] == tokens && tokens[i..] == [];
      KnownStep(tokens, i);
      BalancedAtEnd(tokens);
    } else {
      var t, rest := tokens[i], WordsOf(tokens[i + 1..]);
      assert tokens[i..][0] == t && tokens[i..][1..] == tokens[i + 1..];
      KnownStep(tokens, i);
      NextToken(tokens, i);
      assert WordsOf(tokens[i..]) == WordOf(t) + rest;
      assert |WordOf(t)| == 1 ==> (WordOf(t) + rest)[0] == WordOf(t)[0] && (WordOf(t) + rest)[1..] == rest;
      if Allowed(t, Depth(tokens[..i])) {
        AcceptsIsBalanced(tokens, i + 1);
        assert t == Comment ==> WordOf(t) + rest == rest;
      }
    }
  }

  lemma {:induction false} AcceptsFlatten(trees: seq<Tree>, rest: seq<Word>, depth: nat)
    requires depth > 0 || forall k :: 0 <= k < |trees| ==> trees[k].List?
    ensures Accepts(Flatten(trees) + rest, depth) <==> Accepts(rest, depth)
    decreases trees
  {
    hide Accepts, FlattenTree;
    if trees == [] {
      assert Flatten(trees) + rest == rest;
    } else {
      var tail := Flatten(trees[1..]) + rest;
      AcceptsFlatten(trees[1..], rest, depth);
      assert Flatten(trees) + rest == FlattenTree(trees[0]) + tail;
      AcceptsTree(trees[0], tail, depth);
    }
  }

  lemma {:induction false} AcceptsTree(t: Tree, rest: seq<Word>, depth: nat)
    requires depth > 0 || t.List?
    ensures Accepts(FlattenTree(t) + rest, depth) <==> Accepts(rest, depth)
    decreases t
  {
    var words := FlattenTree(t) + rest;
    match t
    case Leaf(text) =>
      assert words[0] == Item(text) && words[1..] == rest;
    case List(items) =>
      var inner := [Close] + rest;
      assert words[0] == Open && words[1..] == Flatten(items) + inner;
      AcceptsFlatten(items, inner, depth + 1);
      assert inner[1..] == rest;
  }

  /** Tokens that spell lists are balanced, so that a file is parsed exactly if it consists of lists. */
  lemma ListsAreBalanced(tokens: seq<Token>, trees: seq<Tree>)
    requires Known(tokens) && WordsOf(tokens) == Flatten(trees) && forall k :: 0 <= k < |trees| ==> trees[k].List?
    ensures Balanced(tokens)
  {
    AcceptsFlatten(trees, [], 0);
    assert Flatten(trees) + [] == Flatten(trees);
    assert tokens[0..] == tokens && tokens[..0] == [];
    AcceptsIsBalanced(tokens, 0);
  }

  /** The tree that is built for a file is the only one with its words. */
  lemma TreeIsUnique(shapes: seq<Shape>, tokens: seq<Token>, trees: seq<Tree>)
    requires Words(shapes) == WordsOf(tokens) == Flatten(trees)
    ensures TreesOf(shapes) == trees
  {
    FlattenTreesOf(shapes);
    FlattenIsInjective(TreesOf(shapes), trees, [], []);
  }

  // ---- Only the words of forests of lists are accepted

  predicate AllLists(trees: seq<Tree>) {
    forall k :: 0 <= k < |trees| ==> trees[k].List?
  }

  /** Forests with the ends of lists between them. */
  function Spell(parts: seq<seq<Tree>>): seq<Word> {
    if parts == [] then []
    else if |parts| == 1 then Flatten(parts[0])
    else Flatten(parts[0]) + [Close] + Spell(parts[1..])
  }

  /** Words that are accepted inside some open lists are the rests of these lists, from the innermost to the
      outermost, and at last lists. */
  lemma {:induction false} AcceptedParts(words: seq<Word>, depth: nat) returns (parts: seq<seq<Tree>>)
    requires Accepts(words, depth)
    ensures |parts| == depth + 1 && AllLists(parts[depth]) && Spell(parts) == words
    decreases |words|
  {
    if words == [] {
      return [[]];
    }
    match words[0]
    case Open =>
      var rest := AcceptedParts(words[1..], depth + 1);
      parts := [[List(rest[0])] + rest[1]] + rest[2..];
      SpellList(rest);
    case Close =>
      var rest := AcceptedParts(words[1..], depth - 1);
      parts := [[]] + rest;
      assert parts[1..] == rest;
    case Item(text) =>
      var rest := AcceptedParts(words[1..], depth);
      parts := [[Leaf(text)] + rest[0]] + rest[1..];
      SpellLeaf(text, rest);
  }

  lemma {:induction false} SpellList(rest: seq<seq<Tree>>)
    requires |rest| > 1
    ensures Spell([[List(rest[0])] + rest[1]] + rest[2..]) == [Open] + Spell(rest)
  {
    var first := [List(rest[0])] + rest[1];
    assert first[1..] == rest[1];
    assert Flatten(first) == [Open] + Flatten(rest[0]) + [Close] + Flatten(rest[1]);
    assert rest[1..][1..] == rest[2..];
    assert ([first] + rest[2..])[1..] == rest[2..];
  }

  lemma {:induction false} SpellLeaf(text: string, rest: seq<seq<Tree>>)
    requires rest != []
    ensures Spell([[Leaf(text)] + rest[0]] + rest[1..]) == [Item(text)] + Spell(rest)
  {
    var first := [Leaf(text)] + rest[0];
    assert first[1..] == rest[0];
    assert Flatten(first) == [Item(text)] + Flatten(rest[0]);
    assert ([first] + rest[1..])[1..] == rest[1..];
  }

  /** What is accepted spells lists, and nothing outside of lists. */
  lemma BalancedIsLists(tokens: seq<Token>) returns (trees: seq<Tree>)
    requires Balanced(tokens)
    ensures Known(tokens) && AllLists(trees) && Flatten(trees) == WordsOf(tokens)
  {
    assert tokens[..0] == [] && tokens[0..] == tokens;
    AcceptsIsBalanced(tokens, 0);
    var parts := AcceptedParts(WordsOf(tokens), 0);
    trees := parts[0];
  }
}
