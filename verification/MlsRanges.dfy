/** The checks of level ranges, and of the ranges in contexts against those of their users. */
module MlsRanges {
  import opened Common
  import opened Subsequences

  class Cat {
    constructor () {
    }
  }

  /** The categories of a level or of a sensitivity. There is no list where the expression evaluated to nothing. */
  datatype Cats = Cats(list: Option<seq<Cat>>)

  class Sens {
    /** The categories that may be used with the sensitivity. */
    const catsList: Option<seq<Cats>>

    constructor (catsList: Option<seq<Cats>>)
      ensures this.catsList == catsList
    {
      this.catsList := catsList;
    }
  }

  datatype Level = Level(sens: Sens, cats: Option<Cats>)

  datatype Range = Range(low: Level, high: Level)

  // ---- What the checks are for

  /** In the sensitivity order, `a` comes before `b` or is `b`. */
  predicate UpTo(order: seq<Sens>, a: Sens, b: Sens) {
    exists i, j :: 0 <= i <= j < |order| && order[i] == a && order[j] == b
  }

  predicate HasCat(cats: Cats, c: Cat) {
    cats.list.Some? && c in cats.list.value
  }

  function CatSet(cats: Option<Cats>): set<Cat> {
    if cats.None? || cats.value.list.None? then {} else set c | c in cats.value.list.value
  }

  /** The dominance of multi-level security. */
  predicate Dominates(order: seq<Sens>, high: Level, low: Level) {
    UpTo(order, low.sens, high.sens) && CatSet(low.cats) <= CatSet(high.cats)
  }

  predicate Usable(c: Cat, lists: seq<Cats>) {
    exists k :: 0 <= k < |lists| && HasCat(lists[k], c)
  }

  /** The categories of a level may be used with its sensitivity. */
  predicate Associated(l: Level) {
    l.cats.Some? ==> l.sens.catsList.Some? && forall c :: c in CatSet(l.cats) ==> Usable(c, l.sens.catsList.value)
  }

  /** Categories that are an empty set against none at all: the check tells them apart. */
  predicate EmptyAgainstNone(low: Level, high: Level) {
    low.cats.Some? && CatSet(low.cats) == {} && high.cats == None
  }

  predicate ValidRange(order: seq<Sens>, r: Range) {
    && Dominates(order, r.high, r.low)
    && !EmptyAgainstNone(r.low, r.high)
    && Associated(r.low)
    && Associated(r.high)
  }

  // ---- Where a missing list is followed

  /** The search for a category comes to a missing list before it finds the category. */
  predicate SearchFollows(c: Cat, lists: seq<Cats>) {
    exists k :: 0 <= k < |lists| && lists[k].list == None && forall i :: 0 <= i < k ==> !HasCat(lists[i], c)
  }

  /** The check of a level follows its own missing list, or that of a sensitivity while it searches. */
  predicate AssociationFollows(l: Level) {
    && l.cats.Some? && l.sens.catsList.Some?
    && (l.cats.value.list == None || exists c :: c in CatSet(l.cats) && SearchFollows(c, l.sens.catsList.value))
  }

  /** The comparison follows the missing list of the low level, or of the high level if the low one has
      categories. */
  predicate CatsFollow(low: Option<Cats>, high: Option<Cats>) {
    && low.Some? && high.Some?
    && (low.value.list == None || (CatSet(low) != {} && high.value.list == None))
  }

  predicate RangeFollows(order: seq<Sens>, r: Range) {
    && UpTo(order, r.low.sens, r.high.sens)
    && (|| CatsFollow(r.low.cats, r.high.cats)
        || (CatSet(r.low.cats) <= CatSet(r.high.cats) && !EmptyAgainstNone(r.low, r.high)
            && (AssociationFollows(r.low) || (Associated(r.low) && AssociationFollows(r.high)))))
  }

  /** No list of the range is missing. */
  predicate ListsPresent(r: Range) {
    LevelPresent(r.low) && LevelPresent(r.high)
  }

  predicate LevelPresent(l: Level) {
    && (l.cats.Some? ==> l.cats.value.list.Some?)
    && (l.sens.catsList.Some? ==> forall k :: 0 <= k < |l.sens.catsList.value| ==> l.sens.catsList.value[k].list.Some?)
  }

  // ---- The checks of a range

  method IsCatInCats(cat: Cat, cats: Cats) returns (ending: Ending)
    ensures ending == Followed <==> cats.list == None
    ensures ending == Passed <==> HasCat(cats, cat)
  {
    if cats.list == None {
      return Followed;
    }
    var i := 0;
    while i < |cats.list.value|
      invariant 0 <= i <= |cats.list.value| && cat !in cats.list.value[..i]
    {
      if cats.list.value[i] == cat {
        return Passed;
      }
      i := i + 1;
    }
    return Refused;
  }

  /** Looks for a category in one list after the other. */
  method FindUsable(cat: Cat, lists: seq<Cats>) returns (ending: Ending)
    ensures ending == Followed <==> SearchFollows(cat, lists)
    ensures ending != Followed ==> (ending == Passed <==> Usable(cat, lists))
  {
    var j := 0;
    while j < |lists|
      invariant 0 <= j <= |lists|
      invariant forall k :: 0 <= k < j ==> lists[k].list.Some? && !HasCat(lists[k], cat)
    {
      ending := IsCatInCats(cat, lists[j]);
      if ending != Refused {
        return;
      }
      j := j + 1;
    }
    return Refused;
  }

  method VerifyCatsAssociatedWithSens(sens: Sens, cats: Option<Cats>) returns (ending: Ending)
    ensures ending == Followed <==> AssociationFollows(Level(sens, cats))
    ensures ending != Followed ==> (ending == Passed <==> Associated(Level(sens, cats)))
  {
    if cats.None? {
      return Passed;
    }
    if sens.catsList.None? {
      return Refused;
    }
    if cats.value.list.None? {
      return Followed;
    }
    var list, lists := cats.value.list.value, sens.catsList.value;
    ending := Passed;
    var i := 0;
    while i < |list|
      invariant 0 <= i <= |list| && ending != Followed
      invariant forall k :: 0 <= k < i ==> !SearchFollows(list[k], lists)
      invariant ending == Passed <==> forall k :: 0 <= k < i ==> Usable(list[k], lists)
    {
      var found := FindUsable(list[i], lists);
      if found == Followed {
        assert list[i] in CatSet(cats);
        return Followed;
      }
      if found == Refused {
        ending := Refused;
      }
      i := i + 1;
    }
    assert forall c :: c in CatSet(cats) <==> c in list;
    assert (forall c :: c in CatSet(cats) ==> Usable(c, lists)) <==>
        forall k :: 0 <= k < |list| ==> Usable(list[k], lists);
  }

  method VerifyLevelrangeSensitivity(order: seq<Sens>, low: Sens, high: Sens) returns (ok: bool)
    ensures ok <==> UpTo(order, low, high)
  {
    var found := false;
    var k := 0;
    while k < |order|
      invariant 0 <= k <= |order|
      invariant found <==> low in order[..k]
      invariant forall i, j :: 0 <= i <= j < k ==> !(order[i] == low && order[j] == high)
    {
      if order[k] == low {
        found := true;
      }
      if found && order[k] == high {
        return true;
      }
      k := k + 1;
    }
    return false;
  }

  method VerifyLevelrangeCats(low: Option<Cats>, high: Option<Cats>) returns (ending: Ending)
    ensures ending == Followed <==> CatsFollow(low, high)
    ensures ending != Followed ==>
              (ending == Passed <==> CatSet(low) <= CatSet(high) && !(low.Some? && CatSet(low) == {} && high == None))
  {
    if low.None? {
      return Passed;
    }
    if high.None? {
      assert CatSet(low) <= CatSet(high) ==> CatSet(low) == {};
      return Refused;
    }
    if low.value.list.None? {
      return Followed;
    }
    var list := low.value.list.value;
    var i := 0;
    while i < |list|
      invariant 0 <= i <= |list|
      invariant forall k :: 0 <= k < i ==> HasCat(high.value, list[k])
    {
      assert list[i] in CatSet(low);
      ending := IsCatInCats(list[i], high.value);
      if ending != Passed {
        return;
      }
      i := i + 1;
    }
    assert CatSet(low) != {} ==> list != [];
    return Passed;
  }

  /** Follows a missing list exactly where the predicate says so. Otherwise accepts exactly the ranges whose high
      level dominates the low one, with categories that belong to the sensitivities, except that an empty set of
      categories does not go with none. */
  method VerifyLevelrange(order: seq<Sens>, r: Range) returns (ending: Ending)
    ensures ending == Followed <==> RangeFollows(order, r)
    ensures ending != Followed ==> (ending == Passed <==> ValidRange(order, r))
  {
    var ok := VerifyLevelrangeSensitivity(order, r.low.sens, r.high.sens);
    if !ok {
      return Refused;
    }
    ending := VerifyLevelrangeCats(r.low.cats, r.high.cats);
    if ending != Passed {
      return;
    }
    ending := VerifyCatsAssociatedWithSens(r.low.sens, r.low.cats);
    if ending != Passed {
      return;
    }
    ending := VerifyCatsAssociatedWithSens(r.high.sens, r.high.cats);
  }

  /** Where all lists are present, none that is missing is followed. */
  lemma PresentListsAreSafe(order: seq<Sens>, r: Range)
    requires ListsPresent(r)
    ensures !RangeFollows(order, r)
  {
  }

  /** A low level whose categories evaluate to nothing: against a high level with categories of any kind the check
      follows the missing list, and against one without it refuses. */
  lemma LowNothingFollows(order: seq<Sens>, r: Range)
    requires UpTo(order, r.low.sens, r.high.sens) && r.low.cats == Some(Cats(None))
    ensures RangeFollows(order, r) <==> r.high.cats.Some?
    ensures r.high.cats == None ==> !ValidRange(order, r)
  {
  }

  /** A high level whose categories evaluate to nothing: the missing list is followed exactly if the low level has
      categories that are there, or passes without any and the sensitivity has lists. */
  lemma HighNothingFollows(order: seq<Sens>, r: Range)
    requires UpTo(order, r.low.sens, r.high.sens) && r.high.cats == Some(Cats(None))
    requires r.low.cats == None || CatSet(r.low.cats) != {}
    ensures RangeFollows(order, r) <==> r.low.cats.Some? || r.high.sens.catsList.Some?
  {
  }

  // ---- The order

  lemma UpToIsTransitive(order: seq<Sens>, a: Sens, b: Sens, c: Sens)
    requires NoDuplicates(order) && UpTo(order, a, b) && UpTo(order, b, c)
    ensures UpTo(order, a, c)
  {
    var i, j :| 0 <= i <= j < |order| && order[i] == a && order[j] == b;
    var j', k :| 0 <= j' <= k < |order| && order[j'] == b && order[k] == c;
    assert j == j';
  }

  /** Over a merged order dominance is a partial order on levels, up to the lists that stand for the same set. */
  lemma DominanceIsTransitive(order: seq<Sens>, a: Level, b: Level, c: Level)
    requires NoDuplicates(order) && Dominates(order, a, b) && Dominates(order, b, c)
    ensures Dominates(order, a, c)
  {
    UpToIsTransitive(order, c.sens, b.sens, a.sens);
  }

  // ---- The check of a context

  class Role {
    const types: Option<set<nat>>

    constructor (types: Option<set<nat>>)
      ensures this.types == types
    {
      this.types := types;
    }
  }

  datatype User = User(roles: Option<seq<Role>>, range: Range)

  /** A context; its range is verified with it unless the range has a name and is verified on its own. */
  datatype Context = Context(user: User, role: Role, typ: nat, range: Range, named: bool)

  predicate RoleAndType(ctx: Context) {
    && ctx.user.roles.Some? && ctx.role in ctx.user.roles.value
    && ctx.role.types.Some? && ctx.typ in ctx.role.types.value
  }

  /** The one walk through the order that compares both ends of the ranges. */
  predicate Scan(order: seq<Sens>, user: Range, range: Range, found: bool) {
    if order == [] then true
    else
      var sens := order[0];
      if !found && sens != user.low.sens && sens == range.low.sens then false
      else
        var now := found || sens == user.low.sens;
        if now && sens == range.high.sens then true
        else if now && sens == user.high.sens then false
        else Scan(order[1..], user, range, now)
  }

  /** The context is checked as far as its range, which is verified here only if it has no name. */
  method VerifyContext(order: seq<Sens>, ctx: Context) returns (ending: Ending)
    ensures ending == Followed <==> RoleAndType(ctx) && !ctx.named && RangeFollows(order, ctx.range)
    ensures ending != Followed ==>
              (ending == Passed <==> RoleAndType(ctx) && (ctx.named || ValidRange(order, ctx.range)) &&
                                     Scan(order, ctx.user.range, ctx.range, false))
    ensures ending != Followed ==>
              NoDuplicates(order) && ValidRange(order, ctx.user.range) && ValidRange(order, ctx.range) ==>
              (ending == Passed <==>
                && RoleAndType(ctx)
                && UpTo(order, ctx.user.range.low.sens, ctx.range.low.sens)
                && UpTo(order, ctx.range.high.sens, ctx.user.range.high.sens))
  {
    if NoDuplicates(order) && ValidRange(order, ctx.user.range) && ValidRange(order, ctx.range) {
      ContextAccepted(order, ctx);
    }
    if ctx.user.roles.None? {
      return Refused;
    }
    var r := 0;
    while r < |ctx.user.roles.value| && ctx.user.roles.value[r] != ctx.role
      invariant 0 <= r <= |ctx.user.roles.value| && ctx.role !in ctx.user.roles.value[..r]
    {
      r := r + 1;
    }
    if r == |ctx.user.roles.value| {
      return Refused;
    }
    if ctx.role.types.None? || ctx.typ !in ctx.role.types.value {
      return Refused;
    }
    if !ctx.named {
      ending := VerifyLevelrange(order, ctx.range);
      if ending != Passed {
        return;
      }
    }
    var found := false;
    var k := 0;
    while k < |order|
      invariant 0 <= k <= |order|
      invariant Scan(order, ctx.user.range, ctx.range, false) == Scan(order[k..], ctx.user.range, ctx.range, found)
    {
      var sens := order[k];
      assert order[k..][0] == sens && order[k..][1..] == order[k + 1..];
      if !found {
        if sens == ctx.user.range.low.sens {
          found := true;
        } else if sens == ctx.range.low.sens {
          return Refused;
        }
      }
      if found {
        if sens == ctx.range.high.sens {
          break;
        } else if sens == ctx.user.range.high.sens {
          return Refused;
        }
      }
      k := k + 1;
    }
    return Passed;
  }

  /** The walk passes exactly if the sensitivities of the range lie within those of the user. */
  lemma ScanCompares(order: seq<Sens>, user: Range, range: Range)
    requires NoDuplicates(order)
    requires UpTo(order, user.low.sens, user.high.sens) && UpTo(order, range.low.sens, range.high.sens)
    ensures Scan(order, user, range, false) <==>
            UpTo(order, user.low.sens, range.low.sens) && UpTo(order, range.high.sens, user.high.sens)
  {
    var a, b :| 0 <= a <= b < |order| && order[a] == user.low.sens && order[b] == user.high.sens;
    var c, d :| 0 <= c <= d < |order| && order[c] == range.low.sens && order[d] == range.high.sens;
    assert order[0..] == order;
    ScanBefore(order, user, range, 0, a, c);
    if a <= c {
      ScanAfter(order, user, range, a, b, d);
    }
    assert UpTo(order, user.low.sens, range.low.sens) <==> a <= c;
    assert UpTo(order, range.high.sens, user.high.sens) <==> d <= b;
  }

  lemma {:induction false} ScanBefore(order: seq<Sens>, user: Range, range: Range, k: nat, a: nat, c: nat)
    requires NoDuplicates(order) && a < |order| && c < |order| && k <= a && k <= c
    requires order[a] == user.low.sens && order[c] == range.low.sens
    ensures Scan(order[k..], user, range, false) == (a <= c && Scan(order[a..], user, range, true))
    decreases |order| - k
  {
    assert order[k..][0] == order[k] && order[k..][1..] == order[k + 1..];
    if k < a && k < c {
      ScanBefore(order, user, range, k + 1, a, c);
    }
  }

  lemma {:induction false} ScanAfter(order: seq<Sens>, user: Range, range: Range, k: nat, b: nat, d: nat)
    requires NoDuplicates(order) && b < |order| && d < |order| && k <= b && k <= d
    requires order[b] == user.high.sens && order[d] == range.high.sens
    ensures Scan(order[k..], user, range, true) <==> d <= b
    decreases |order| - k
  {
    assert order[k..][0] == order[k] && order[k..][1..] == order[k + 1..];
    if k < b && k < d {
      ScanAfter(order, user, range, k + 1, b, d);
    }
  }

  /** Once all ranges are verified, a context is accepted exactly if its role and type fit and its sensitivities
      lie within those of the user. */
  lemma ContextAccepted(order: seq<Sens>, ctx: Context)
    requires NoDuplicates(order) && ValidRange(order, ctx.user.range) && ValidRange(order, ctx.range)
    ensures Scan(order, ctx.user.range, ctx.range, false) <==>
            && UpTo(order, ctx.user.range.low.sens, ctx.range.low.sens)
            && UpTo(order, ctx.range.high.sens, ctx.user.range.high.sens)
  {
    ScanCompares(order, ctx.user.range, ctx.range);
  }

  /** The user's range contains the range, with categories: what the walk leaves open. */
  lemma WithinUserRange(order: seq<Sens>, user: Range, range: Range)
    requires NoDuplicates(order) && ValidRange(order, user) && ValidRange(order, range)
    ensures Dominates(order, range.low, user.low) && Dominates(order, user.high, range.high) <==>
            && Scan(order, user, range, false)
            && CatSet(user.low.cats) <= CatSet(range.low.cats) && CatSet(range.high.cats) <= CatSet(user.high.cats)
  {
    ScanCompares(order, user, range);
  }

  /** The categories of a context are not compared with those of the user. */
  lemma CategoriesAreNotCompared(s: Sens, c: Cat)
    requires s.catsList == Some([Cats(Some([c]))])
    ensures var user := Range(Level(s, None), Level(s, None));
            var range := Range(Level(s, None), Level(s, Some(Cats(Some([c])))));
            && ValidRange([s], user) && ValidRange([s], range)
            && !RangeFollows([s], user) && !RangeFollows([s], range)
            && Scan([s], user, range, false)
            && !Dominates([s], user.high, range.high)
  {
    var low, high := Level(s, None), Level(s, Some(Cats(Some([c]))));
    assert [s][0] == s;
    assert UpTo([s], s, s);
    assert c in CatSet(high.cats) && c !in CatSet(low.cats);
    assert HasCat(s.catsList.value[0], c);
  }
}
