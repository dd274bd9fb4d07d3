/** Resolution of type, sensitivity and category aliases to what they finally stand for. */
module AliasResolution {
  import opened Common
  import opened Chains

  /** A declared datum: an alias, or a datum of the kind that the aliases are for. */
  class Datum {
    const alias: bool
    var actual: Datum?

    constructor (alias: bool)
      ensures this.alias == alias && actual == null
    {
      this.alias, actual := alias, null;
    }
  }

  /** Chains of aliases stay among the given data, and only aliases refer to anything. */
  ghost predicate Chained(s: set<Datum>)
    reads s
  {
    forall n :: n in s && n.actual != null ==> n.actual in s && n.alias
  }

  ghost function Actuals(s: set<Datum>): map<Datum, Datum>
    reads s
  {
    map n | n in s && n.actual != null :: n.actual
  }

  /** In `now`, `a` refers directly to the end of its chain in `next`, which is no alias. */
  ghost predicate Resolved(next: map<Datum, Datum>, now: map<Datum, Datum>, a: Datum) {
    a in now && EndsAt(next, a, now[a]) && !now[a].alias
  }

  /** The chain of `a` leads to a datum that is no alias. */
  ghost predicate Good(next: map<Datum, Datum>, s: set<Datum>, a: Datum) {
    a in next && exists r :: r in s && EndsAt(next, a, r) && !r.alias
  }

  /** The chain of `a` leads to another alias that refers to nothing. */
  ghost predicate Dangles(next: map<Datum, Datum>, s: set<Datum>, a: Datum) {
    a in next && exists r :: r in s && EndsAt(next, a, r) && r.alias
  }

  /** Replaces what the alias refers to by the end of its chain. Refuses an alias that refers to nothing and one
      whose chain runs into a circle. A chain to another alias that refers to nothing is followed beyond its end.
      Nothing changes unless the alias is resolved. */
  method ResolveAlias(alias: Datum, ghost s: set<Datum>) returns (end: Ending)
    requires alias in s && alias.alias && Chained(s)
    modifies alias
    ensures end == Passed <==> Good(old(Actuals(s)), s, alias)
    ensures end == Refused <==> old(alias.actual) == null || Circles(old(Actuals(s)), alias)
    ensures end == Followed <==> Dangles(old(Actuals(s)), s, alias)
    ensures end == Passed ==> Resolved(old(Actuals(s)), Actuals(s), alias)
    ensures forall n :: n in s && n != alias ==> n.actual == old(n.actual)
    ensures end != Passed ==> Actuals(s) == old(Actuals(s))
    ensures Chained(s)
  {
    ghost var next := Actuals(s);
    if alias.actual == null {
      assert Follow(next, alias, 1) == None;
      EndsOrCircles(next, s, alias);
      return Refused;
    }
    CircleHasNoEnd(next, s, alias);
    var steps, limit := 0, 2;
    var current: Datum, mark: Datum := alias, alias;
    ghost var p: nat, q: nat := 0, 0;
    while current.alias
      invariant current in s && (q == 0 ==> current == alias)
      invariant Follow(next, alias, p) == Some(mark) && Follow(next, alias, q) == Some(current)
      invariant 0 <= steps < limit <= 2 * |s| + 4
      invariant p == limit - 2 && q == p + steps
      invariant forall k: nat :: p < k <= q ==> Follow(next, alias, k) != Some(mark)
      modifies {}
      decreases 4 * |s| + 8 - q
    {
      FollowStep(next, alias, q);
      if current.actual == null {
        IsEnd(next, alias, q, current);
        EndDecides(next, s, alias, current);
        return Followed;
      }
      current, q := current.actual, q + 1;
      steps := steps + 1;
      if current == mark {
        assert Circles(next, alias);
        return Refused;
      }
      if steps == limit {
        assert limit <= |s| + 1 by {
          if limit > |s| + 1 {
            ComesBack(next, s, alias, p, q);
            assert false;
          }
        }
        steps, limit := 0, limit * 2;
        mark, p := current, q;
      }
    }
    IsEnd(next, alias, q, current);
    EndDecides(next, s, alias, current);
    alias.actual := current;
    return Passed;
  }

  /** Both maps lead from every datum of `s` to the same end. */
  ghost predicate SameEnds(m1: map<Datum, Datum>, m2: map<Datum, Datum>, s: set<Datum>) {
    && m1.Keys == m2.Keys
    && forall n, r :: n in s && r in s ==> (EndsAt(m1, n, r) <==> EndsAt(m2, n, r))
  }

  /** The first alias, in the order of the visits, that does not lead to a datum leads to nothing. */
  ghost predicate FollowsNothing(next: map<Datum, Datum>, s: set<Datum>, aliases: seq<Datum>) {
    exists k :: 0 <= k < |aliases| && Dangles(next, s, aliases[k])
      && forall j :: 0 <= j < k ==> Good(next, s, aliases[j])
  }

  /** The alias pass: resolves the aliases one after the other, in the order in which they are met. When it
      succeeds every alias refers directly to the end of its original chain, and no end has changed. */
  method ResolveAliases(aliases: seq<Datum>, ghost s: set<Datum>) returns (end: Ending)
    requires Chained(s) && forall a :: a in aliases ==> a in s && a.alias
    modifies aliases
    ensures end == Passed <==> forall a :: a in aliases ==> Good(old(Actuals(s)), s, a)
    ensures end == Followed <==> FollowsNothing(old(Actuals(s)), s, aliases)
    ensures end == Passed ==> forall a :: a in aliases ==> Resolved(old(Actuals(s)), Actuals(s), a)
    ensures SameEnds(old(Actuals(s)), Actuals(s), s)
  {
    hide EndsAt, SameEnds, Resolved, Good, Dangles;
    ghost var next := Actuals(s);
    SameEndsReflexive(next, s);
    assert Closed(next, s);
    var i := 0;
    while i < |aliases|
      invariant 0 <= i <= |aliases| && Chained(s) && Closed(next, s)
      invariant SameEnds(next, Actuals(s), s)
      invariant forall k :: 0 <= k < i ==> Good(next, s, aliases[k]) && Resolved(next, Actuals(s), aliases[k])
    {
      GoodOrDangles(next, s, aliases[i]);
      end := ResolveNext(aliases[i], s, next);
      if end != Passed {
        forall k | 0 <= k < |aliases|
          ensures !(Good(next, s, aliases[k]) && Dangles(next, s, aliases[k]))
        {
          GoodOrDangles(next, s, aliases[k]);
        }
        return;
      }
      i := i + 1;
    }
    forall k | 0 <= k < |aliases|
      ensures !Dangles(next, s, aliases[k])
    {
      GoodOrDangles(next, s, aliases[k]);
    }
    return Passed;
  }

  /** Resolving one alias when others, or the same one, are resolved already. */
  method ResolveNext(alias: Datum, ghost s: set<Datum>, ghost next: map<Datum, Datum>) returns (end: Ending)
    requires alias in s && alias.alias && Chained(s) && Closed(next, s)
    requires SameEnds(next, Actuals(s), s)
    modifies alias
    ensures end == Passed <==> Good(next, s, alias)
    ensures end == Followed <==> Dangles(next, s, alias)
    ensures Chained(s) && SameEnds(next, Actuals(s), s)
    ensures end == Passed ==> Resolved(next, Actuals(s), alias)
    ensures forall a :: a in s && Resolved(next, old(Actuals(s)), a) ==> Resolved(next, Actuals(s), a)
  {
    hide EndsAt;
    ghost var before := Actuals(s);
    end := ResolveAlias(alias, s);
    if end == Passed {
      ghost var last := Actuals(s)[alias];
      assert before[alias := last] == Actuals(s);
      Shortened(next, before, s, alias, last);
    }
  }

  /** A policy in which an alias leads to an alias without an actual is never accepted. Whether it is refused or
      its missing reference followed depends on which of the two is visited first. */
  lemma VisitsDecide(next: map<Datum, Datum>, s: set<Datum>, a: Datum, r: Datum, rest: seq<Datum>)
    requires Closed(next, s) && a in s && a in next && EndsAt(next, a, r) && r.alias
    ensures FollowsNothing(next, s, [a] + rest) && !Good(next, s, a)
    ensures !FollowsNothing(next, s, [r] + rest) && !Good(next, s, r)
  {
    EndIsInSet(next, s, a, r);
    EndDecides(next, s, a, r);
    var visits := [a] + rest;
    assert Dangles(next, s, visits[0]);
    assert !Good(next, s, ([r] + rest)[0]);
  }

  /** The outcome does not depend on the order of the visits: what every alias refers to in the end is settled
      by the original chains alone. */
  lemma OutcomeIsUnique(next: map<Datum, Datum>, now1: map<Datum, Datum>, now2: map<Datum, Datum>)
    requires now1.Keys == next.Keys == now2.Keys
    requires forall a :: a in next ==> Resolved(next, now1, a) && Resolved(next, now2, a)
    ensures now1 == now2
  {
    forall a | a in next
      ensures now1[a] == now2[a]
    {
      assert Resolved(next, now1, a) && Resolved(next, now2, a);
      EndIsUnique(next, a, now1[a], now2[a]);
    }
  }

  lemma SameEndsReflexive(m: map<Datum, Datum>, s: set<Datum>)
    ensures SameEnds(m, m, s)
  {
  }

  lemma Shortened(next: map<Datum, Datum>, before: map<Datum, Datum>, s: set<Datum>, x: Datum, r: Datum)
    requires SameEnds(next, before, s) && x in s && x in before && r in s && EndsAt(before, x, r)
    ensures SameEnds(next, before[x := r], s)
    ensures EndsAt(next, x, r)
  {
    forall n, t | n in s && t in s
      ensures EndsAt(next, n, t) <==> EndsAt(before[x := r], n, t)
    {
      ShortcutKeepsEnds(before, x, r, n, t);
    }
  }

  /** An ending chain is good if it ends at a datum that is no alias, and dangles otherwise. */
  lemma EndDecides(next: map<Datum, Datum>, s: set<Datum>, a: Datum, r: Datum)
    requires r in s && a in next && EndsAt(next, a, r)
    ensures Good(next, s, a) <==> !r.alias
    ensures Dangles(next, s, a) <==> r.alias
  {
    if t :| t in s && EndsAt(next, a, t) && t.alias != r.alias {
      EndIsUnique(next, a, r, t);
      assert false;
    }
  }

  lemma GoodOrDangles(next: map<Datum, Datum>, s: set<Datum>, a: Datum)
    ensures !(Good(next, s, a) && Dangles(next, s, a))
  {
    if Good(next, s, a) {
      var r :| r in s && EndsAt(next, a, r) && !r.alias;
      EndDecides(next, s, a, r);
    }
  }

  lemma CircleHasNoEnd(next: map<Datum, Datum>, s: set<Datum>, a: Datum)
    requires Closed(next, s) && a in s
    ensures Circles(next, a) ==> !Good(next, s, a) && !Dangles(next, s, a)
  {
    EndsOrCircles(next, s, a);
    EndsExactlyAtSomeEnd(next, a);
  }

  lemma EndIsInSet(m: map<Datum, Datum>, s: set<Datum>, x: Datum, r: Datum)
    requires Closed(m, s) && x in s && EndsAt(m, x, r)
    ensures r in s
  {
    var k: nat :| Follow(m, x, k) == Some(r);
    FollowStays(m, s, x, k);
  }
}
