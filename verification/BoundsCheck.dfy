/** The check for circular bounds of types, roles and users. The three loops of the verifier are the same;
    `Bounded` stands for any of the three kinds of data. */
module BoundsCheck {
  import opened Common
  import opened Chains

  class Bounded {
    var bounds: Bounded?

    constructor (bounds: Bounded?)
      ensures this.bounds == bounds
    {
      this.bounds := bounds;
    }
  }

  ghost predicate ClosedUnderBounds(s: set<Bounded>)
    reads s
  {
    forall n :: n in s && n.bounds != null ==> n.bounds in s
  }

  ghost function BoundsOf(s: set<Bounded>): map<Bounded, Bounded>
    reads s
  {
    map n | n in s && n.bounds != null :: n.bounds
  }

  ghost predicate StandsFor(o: Option<Bounded>, n: Bounded?) {
    if n == null then o == None else o == Some(n)
  }

  /** Follows the bounds with a mark that stays behind, and that moves up to the current datum after twice as
      many steps each time. Accepts exactly when the bounds of the datum come to an end; a circle is found also
      when the datum leads to it without being part of it. */
  method VerifyBounds(node: Bounded, ghost s: set<Bounded>) returns (ok: bool)
    requires node in s && ClosedUnderBounds(s)
    ensures ok <==> Ends(BoundsOf(s), node)
    ensures ok <==> !Circles(BoundsOf(s), node)
  {
    ghost var next := BoundsOf(s);
    EndsOrCircles(next, s, node);
    var steps, limit := 0, 2;
    var mark, current: Bounded? := node, node.bounds;
    ghost var p: nat, q: nat := 0, 1;
    assert |s| > 0;
    FollowStep(next, node, 0);
    while current != null
      invariant Follow(next, node, p) == Some(mark)
      invariant StandsFor(Follow(next, node, q), current) && (current != null ==> current in s)
      invariant 0 <= steps <= limit <= 2 * |s| + 2
      invariant (p == 0 && limit == 2 && q == 1 + steps) || (p == limit - 1 && q == p + steps && q > p)
      invariant forall k: nat :: p < k < q ==> Follow(next, node, k) != Some(mark)
      decreases 4 * |s| + 5 - q
    {
      if mark == current {
        assert Circles(next, node);
        return false;
      }
      if steps == limit {
        assert limit <= |s| || limit == 2 by {
          if p >= |s| && limit > |s| {
            ComesBack(next, s, node, p, q);
            assert false;
          }
        }
        steps, limit := 0, limit * 2;
        mark, p := current, q;
      }
      FollowStep(next, node, q);
      current, q := current.bounds, q + 1;
      steps := steps + 1;
    }
    assert Follow(next, node, q) == None;
    return true;
  }

  /** Checks every datum in turn. When all pass, no datum is bounded by itself, directly or not. */
  method VerifyAllBounds(nodes: seq<Bounded>, ghost s: set<Bounded>) returns (ok: bool)
    requires ClosedUnderBounds(s) && forall n :: n in nodes <==> n in s
    ensures ok <==> forall n, k: nat :: n in s && k > 0 ==> Follow(BoundsOf(s), n, k) != Some(n)
  {
    ForestExactlyIfAllEnd(BoundsOf(s), s);
    var i := 0;
    while i < |nodes|
      invariant 0 <= i <= |nodes|
      invariant forall k :: 0 <= k < i ==> Ends(BoundsOf(s), nodes[k])
    {
      ok := VerifyBounds(nodes[i], s);
      if !ok {
        return;
      }
      i := i + 1;
    }
    return true;
  }
}
