/** Destroying the nodes below a tree node without a stack: the links of the tree lead the way back. */
module TreeDestroy {
  import opened Subsequences

  class TreeNode {
    var parent: TreeNode?
    var clHead: TreeNode?
    var next: TreeNode?

    // No link of a freed node is read or written, and no node is freed twice.

    function Parent(ghost freed: seq<TreeNode>): TreeNode?
      requires this !in freed
      reads this
    {
      parent
    }

    function Head(ghost freed: seq<TreeNode>): TreeNode?
      requires this !in freed
      reads this
    {
      clHead
    }

    function Next(ghost freed: seq<TreeNode>): TreeNode?
      requires this !in freed
      reads this
    {
      next
    }

    method ClearHead(ghost freed: seq<TreeNode>)
      requires this !in freed
      modifies this`clHead
      ensures clHead == null
    {
      clHead := null;
    }

    ghost function Free(freed: seq<TreeNode>): seq<TreeNode>
      requires this !in freed
    {
      freed + [this]
    }
  }

  /** The shape of a tree, as it is before anything is freed. */
  datatype Tree = Tree(node: TreeNode, children: seq<Tree>)

  ghost function Root(trees: seq<Tree>): TreeNode? {
    if trees == [] then null else trees[0].node
  }

  /** All nodes of the trees, children before parents. */
  ghost function Postorder(trees: seq<Tree>): seq<TreeNode>
    decreases trees
  {
    if trees == [] then [] else Postorder(trees[0].children) + [trees[0].node] + Postorder(trees[1..])
  }

  ghost function Nodes(trees: seq<Tree>): set<TreeNode>
    decreases trees
  {
    if trees == [] then {} else Nodes(trees[0].children) + {trees[0].node} + Nodes(trees[1..])
  }

  /** The links of the nodes describe these trees, which are siblings below `parent`. */
  ghost predicate Shaped(trees: seq<Tree>, parent: TreeNode)
    reads Nodes(trees)
    decreases trees
  {
    if trees == [] then true
    else
      var node := trees[0].node;
      && node.parent == parent
      && node.next == Root(trees[1..])
      && node.clHead == Root(trees[0].children)
      && Shaped(trees[0].children, node)
      && Shaped(trees[1..], parent)
  }

  /** A tree and all trees inside it. */
  ghost predicate Within(t: Tree, trees: seq<Tree>)
    decreases trees
  {
    trees != [] && (t == trees[0] || Within(t, trees[0].children) || Within(t, trees[1..]))
  }

  /** The order of freeing: a node comes directly after everything below it. */
  lemma {:induction false} ChildrenFirst(t: Tree, trees: seq<Tree>)
      returns (before: seq<TreeNode>, after: seq<TreeNode>)
    requires Within(t, trees)
    ensures Postorder(trees) == before + (Postorder(t.children) + [t.node]) + after
    decreases trees
  {
    var first, rest := Postorder(trees[0].children), Postorder(trees[1..]);
    if t == trees[0] {
      before, after := [], rest;
    } else if Within(t, trees[0].children) {
      before, after := ChildrenFirst(t, trees[0].children);
      after := after + [trees[0].node] + rest;
    } else {
      before, after := ChildrenFirst(t, trees[1..]);
      before := first + [trees[0].node] + before;
    }
  }

  /** The ancestors of the place that is being visited, each with the siblings after it. */
  datatype Path = Below(start: TreeNode) | Up(node: TreeNode, after: seq<Tree>, rest: Path)

  ghost function Above(path: Path): TreeNode {
    match path
    case Below(start) => start
    case Up(node, _, _) => node
  }

  ghost function Bottom(path: Path): TreeNode {
    match path
    case Below(start) => start
    case Up(_, _, rest) => Bottom(rest)
  }

  /** What is left to free after the current siblings. */
  ghost function Later(path: Path): seq<TreeNode> {
    match path
    case Below(_) => []
    case Up(node, after, rest) => [node] + Postorder(after) + Later(rest)
  }

  ghost function PathNodes(path: Path): set<TreeNode> {
    match path
    case Below(_) => {}
    case Up(node, after, rest) => {node} + Nodes(after) + PathNodes(rest)
  }

  ghost predicate PathShaped(path: Path)
    reads PathNodes(path)
  {
    match path
    case Below(_) => true
    case Up(node, after, rest) =>
      node.parent == Above(rest) && node.next == Root(after) && Shaped(after, Above(rest)) && PathShaped(rest)
  }

  /** What is left to free: the current siblings, then the rest of the path. */
  ghost function Left(here: seq<Tree>, path: Path): seq<TreeNode> {
    Postorder(here) + Later(path)
  }

  /** The parent of the last sibling, now without children, and the siblings after it. */
  ghost function Back(path: Path): seq<Tree> {
    match path
    case Below(_) => []
    case Up(node, after, _) => [Tree(node, [])] + after
  }

  ghost function Outer(path: Path): Path {
    match path
    case Below(_) => path
    case Up(_, _, rest) => rest
  }

  /** Frees every node below `start`, once each and children before parents, and leaves `start` without a list of
      children. */
  method ChildrenDestroy(start: TreeNode?, ghost children: seq<Tree>) returns (ghost freed: seq<TreeNode>)
    requires start == null ==> children == []
    requires start != null ==> start.clHead == Root(children) && Shaped(children, start)
    requires NoDuplicates(Postorder(children)) && start !in Postorder(children)
    modifies Nodes(children), if start == null then {} else {start}
    ensures freed == Postorder(children)
    ensures start != null ==> start.clHead == null && start.parent == old(start.parent) && start.next == old(start.next)
  {
    hide NoDuplicates, Shaped, PathShaped, Left, Postorder, Later;
    freed := [];
    if start == null {
      NothingLeft();
      return;
    }
    var node: TreeNode := start;
    if node.Head(freed) != null {
      node := node.Head(freed);
    }
    ghost var here, path := children, Below(start);
    Begin(children, start);
    while node != start
      invariant here == [] ==> node == start && path == Below(start) && start.clHead == null
      invariant here != [] ==> node == here[0].node
      invariant Bottom(path) == start && start !in freed && start !in Left(here, path)
      invariant freed + Left(here, path) == Postorder(children)
      invariant Shaped(here, Above(path)) && PathShaped(path)
      invariant start.parent == old(start.parent) && start.next == old(start.next)
      decreases |Left(here, path)|, here
    {
      Facts(freed, here, path);
      var next: TreeNode;
      if node.Head(freed) != null {
        next := node.Head(freed);
        Descend(here, path);
        path, here := Up(node, here[1..], path), here[0].children;
      } else {
        Leave(freed, here, path);
        if node.Next(freed) == null {
          next := node.Parent(freed);
          InPostorder(children, start, freed, here, path);
          ClearParent(node, freed, path);
          here, path := Back(path), Outer(path);
        } else {
          next := node.Next(freed);
          here := here[1..];
        }
        freed := node.Free(freed);
      }
      node := next;
    }
    FirstIsLeft(here, path);
    assert freed + [] == freed;
  }

  /** The last of the siblings leaves its parent without a list of children. */
  method ClearParent(node: TreeNode, ghost freed: seq<TreeNode>, ghost path: Path)
    requires node !in freed && node.parent == Above(path) && Above(path) !in freed
    requires PathShaped(path) && NoDuplicates(Later(path))
    modifies Above(path)`clHead
    ensures Above(path).clHead == null && Shaped(Back(path), Above(Outer(path))) && PathShaped(Outer(path))
  {
    if path.Up? {
      ParentApart(path);
      assert Shaped(path.after, Above(path.rest)) && PathShaped(path.rest);
      assert allocated(Nodes(path.after)) && allocated(PathNodes(path.rest));
    }
    var parent := node.Parent(freed);
    if parent != null {
      parent.ClearHead(freed);
    }
    if path.Up? {
      assert Shaped(path.after, Above(path.rest)) && PathShaped(path.rest);
      assert Back(path)[1..] == path.after;
    }
  }

  // ---- One visit

  lemma NothingLeft()
    ensures Postorder([]) == []
  {
  }

  lemma FirstIsLeft(here: seq<Tree>, path: Path)
    ensures here != [] ==> here[0].node in Left(here, path)
    ensures here == [] && path.Below? ==> Left(here, path) == []
  {
  }

  lemma Begin(children: seq<Tree>, start: TreeNode)
    ensures [] + Left(children, Below(start)) == Postorder(children) && PathShaped(Below(start))
  {
  }

  lemma Facts(freed: seq<TreeNode>, here: seq<Tree>, path: Path)
    requires here != [] && Shaped(here, Above(path)) && NoDuplicates(freed + Left(here, path)) && Bottom(path) !in freed
    ensures var node := here[0].node;
            && node !in freed && Above(path) !in freed
            && node.parent == Above(path) && node.next == Root(here[1..]) && node.clHead == Root(here[0].children)
  {
    Apart(freed, Left(here, path));
    assert here[0].node in Left(here, path);
    assert path.Up? ==> path.node in Later(path);
  }

  lemma {:induction false} Descend(here: seq<Tree>, path: Path)
    requires here != [] && here[0].children != [] && Shaped(here, Above(path)) && PathShaped(path)
    ensures var inner := Up(here[0].node, here[1..], path);
            && Left(here[0].children, inner) == Left(here, path)
            && Shaped(here[0].children, here[0].node) && PathShaped(inner)
  {
    assert Shaped(here[0].children, here[0].node) && Shaped(here[1..], Above(path));
    hide Shaped;
    Regroup(Postorder(here[0].children), here[0].node, Postorder(here[1..]), Later(path));
  }

  lemma Regroup(a: seq<TreeNode>, n: TreeNode, b: seq<TreeNode>, c: seq<TreeNode>)
    ensures a + ([n] + b + c) == (a + [n] + b) + c
  {
  }

  /** What is left after the first of the siblings, or after the last. */
  lemma {:induction false} Leave(freed: seq<TreeNode>, here: seq<Tree>, path: Path)
    requires here != [] && here[0].children == [] && NoDuplicates(freed + Left(here, path)) && Shaped(here, Above(path))
    ensures NoDuplicates(Later(path)) && Shaped(here[1..], Above(path)) && Bottom(Outer(path)) == Bottom(path)
    ensures freed + Left(here, path) == (freed + [here[0].node]) + Left(here[1..], path)
    ensures |here| == 1 ==> freed + Left(here, path) == (freed + [here[0].node]) + Left(Back(path), Outer(path))
    ensures |Left(here[1..], path)| < |Left(here, path)|
    ensures |here| == 1 ==> |Left(Back(path), Outer(path))| < |Left(here, path)|
    ensures here[0].node in Left(here, path) && (forall n <- Left(here[1..], path) :: n in Left(here, path))
    ensures |here| == 1 ==> forall n <- Left(Back(path), Outer(path)) :: n in Left(here, path)
  {
    Apart(freed, Left(here, path));
    Apart(Postorder(here), Later(path));
    Leaf(here, path);
    hide Left, Postorder, Later, NoDuplicates;
    Shift(freed, here[0].node, Left(here, path), Left(here[1..], path));
    if |here| == 1 {
      LastLeaf(here, path);
      Shift(freed, here[0].node, Left(here, path), Left(Back(path), Outer(path)));
    }
  }

  lemma Shift(freed: seq<TreeNode>, n: TreeNode, left: seq<TreeNode>, rest: seq<TreeNode>)
    requires left == [n] + rest
    ensures freed + left == (freed + [n]) + rest && |rest| < |left| && n in left && forall x <- rest :: x in left
  {
  }

  lemma {:induction false} Leaf(here: seq<Tree>, path: Path)
    requires here != [] && here[0].children == []
    ensures Left(here, path) == [here[0].node] + Left(here[1..], path)
  {
    assert Postorder(here) == [here[0].node] + Postorder(here[1..]);
  }

  lemma {:induction false} LastLeaf(here: seq<Tree>, path: Path)
    requires |here| == 1 && here[0].children == []
    ensures Left(here, path) == [here[0].node] + Left(Back(path), Outer(path))
  {
    Leaf(here, path);
    assert here[1..] == [] && Left([], path) == Later(path);
    if path.Up? {
      var back := Back(path);
      Leaf(back, path.rest);
      assert back[1..] == path.after;
      hide Postorder;
      assert Later(path) == [path.node] + Left(path.after, path.rest);
    } else {
      assert Later(path) == [] == Left(Back(path), Outer(path));
    }
  }

  lemma Apart(a: seq<TreeNode>, b: seq<TreeNode>)
    requires NoDuplicates(a + b)
    ensures NoDuplicates(a) && NoDuplicates(b) && forall n <- a :: n !in b
  {
    var s := a + b;
    assert forall i :: 0 <= i < |a| ==> s[i] == a[i];
    assert forall i :: 0 <= i < |b| ==> s[|a| + i] == b[i];
  }

  lemma {:induction false} ParentApart(path: Path)
    requires path.Up? && NoDuplicates(Later(path))
    ensures path.node !in Nodes(path.after) && path.node !in PathNodes(path.rest)
  {
    var after, later := Postorder(path.after), Later(path.rest);
    assert [path.node] + after + later == [path.node] + (after + later);
    Apart([path.node], after + later);
    assert path.node in [path.node];
    assert path.node !in after && path.node !in later;
    NodesInPostorder(path.after, path.node);
    NodesInPath(path.rest, path.node);
  }

  lemma {:induction false} NodesInPostorder(trees: seq<Tree>, n: TreeNode)
    ensures n in Nodes(trees) <==> n in Postorder(trees)
    decreases trees
  {
    if trees != [] {
      NodesInPostorder(trees[0].children, n);
      NodesInPostorder(trees[1..], n);
    }
  }

  /** The parent whose list of children is cleared is one of the nodes, or the start. */
  lemma InPostorder(children: seq<Tree>, start: TreeNode, freed: seq<TreeNode>, here: seq<Tree>, path: Path)
    requires freed + Left(here, path) == Postorder(children) && Bottom(path) == start
    ensures Above(path) in Nodes(children) + {start}
  {
    if path.Up? {
      assert path.node in Later(path);
      assert path.node in Left(here, path);
      assert path.node in freed + Left(here, path);
      NodesInPostorder(children, path.node);
    }
  }

  lemma {:induction false} NodesInPath(path: Path, n: TreeNode)
    ensures n in PathNodes(path) <==> n in Later(path)
  {
    if path.Up? {
      NodesInPostorder(path.after, n);
      NodesInPath(path.rest, n);
    }
  }
}
