/** Enforcement of neverallow rules while the access tables are built. Permission masks of 32 bits are the sets
    of the permission values 1 to 32. */
module Neverallow {
  import opened TypeMatch

  /** Permissions of a kernel class, permissions of a class map, which stand for class permissions of their own,
      or a named set of class permissions. */
  datatype ClassPerms =
    | Kernel(cls: nat, perms: seq<nat>)
    | Mapped(mapPerms: seq<MapPerm>)
    | Named(list: seq<ClassPerms>)

  datatype MapPerm = MapPerm(classperms: seq<ClassPerms>)

  datatype Kind = Allowed | AuditAllow | DontAudit | Neverallow

  datatype Target = Self | Other(datum: Datum)

  datatype AvRule = AvRule(kind: Kind, src: Datum, tgt: Target, perms: seq<ClassPerms>)

  /** A rule, or the rules in the blocks of a conditional. */
  datatype Stmt = Rule(rule: AvRule) | Conditional(rules: seq<AvRule>)

  datatype Db = Db(bitmaps: map<nat, Bitmap>, disableDontaudit: bool, disableNeverallow: bool, types: nat)

  datatype Key = Key(kind: Kind, src: Datum, tgt: Datum, cls: nat)

  datatype NvRule = NvRule(src: Datum, tgt: Datum, cls: nat, perms: set<nat>)

  // ---- What the rules mean

  /** The pairs of a class and a permission that class permissions stand for. */
  ghost function PermsOf(list: seq<ClassPerms>): set<(nat, nat)>
    decreases list, 1
  {
    if list == [] then {} else PermsOf(list[..|list| - 1]) + PermsIn(list[|list| - 1])
  }

  ghost function PermsIn(cp: ClassPerms): set<(nat, nat)>
    decreases cp, 2
  {
    match cp
    case Kernel(cls, perms) => set p | p in perms :: (cls, p)
    case Mapped(mapPerms) => PermsOfMap(mapPerms)
    case Named(list) => PermsOf(list)
  }

  ghost function PermsOfMap(mapPerms: seq<MapPerm>): set<(nat, nat)>
    decreases mapPerms, 1
  {
    if mapPerms == [] then {} else PermsOfMap(mapPerms[..|mapPerms| - 1]) + PermsOf(mapPerms[|mapPerms| - 1].classperms)
  }

  /** Everything that a rule names is known, and permissions have values from 1 to 32. */
  ghost predicate ValidRule(r: AvRule, db: Db) {
    && TypeMatch.Known(r.src, db.bitmaps)
    && (r.tgt.Other? ==> TypeMatch.Known(r.tgt.datum, db.bitmaps))
    && (forall x: nat :: Covers(r.src, x, db.bitmaps) ==> x < db.types)
    && InRange(PermsOf(r.perms))
  }

  /** The rule is about source type `s`, target type `t` and permission `p` of class `c`. */
  ghost predicate About(r: AvRule, db: Db, s: nat, t: nat, c: nat, p: nat)
    requires ValidRule(r, db)
  {
    && Covers(r.src, s, db.bitmaps)
    && (if r.tgt.Self? then t == s else Covers(r.tgt.datum, t, db.bitmaps))
    && (c, p) in PermsOf(r.perms)
  }

  function RulesOf(stmt: Stmt): seq<AvRule> {
    match stmt
    case Rule(r) => [r]
    case Conditional(rules) => rules
  }

  /** Some rule of the kind, conditional or not, is about the access. */
  ghost predicate SomeRule(stmts: seq<Stmt>, kind: Kind, db: Db, s: nat, t: nat, c: nat, p: nat)
    requires ValidStmts(stmts, db)
  {
    exists i, r :: 0 <= i < |stmts| && r in RulesOf(stmts[i]) && r.kind == kind && About(r, db, s, t, c, p)
  }

  /** All rules are valid; the verifier has refused neverallow rules in conditionals. */
  ghost predicate ValidStmts(stmts: seq<Stmt>, db: Db) {
    && ValidBitmaps(db.bitmaps)
    && (forall i, r :: 0 <= i < |stmts| && r in RulesOf(stmts[i]) ==> ValidRule(r, db))
    && (forall i, r :: 0 <= i < |stmts| && stmts[i].Conditional? && r in stmts[i].rules ==> !r.kind.Neverallow?)
  }

  /** Permissions have values from 1 to 32. */
  ghost predicate InRange(perms: set<(nat, nat)>) {
    forall cp :: cp in perms ==> 1 <= cp.1 <= 32
  }

  // ---- The tables

  /** Source, target, class and permission. */
  type Quad = (Datum, Datum, nat, nat)

  /** The pairs of data that a rule is split into: one for each type of the source if the target is "self", and
      otherwise one pair. */
  ghost function PairsOf(r: AvRule, db: Db): set<(Datum, Datum)>
    requires ValidRule(r, db)
  {
    if r.tgt.Self? then SelfPairs(r.src, db, db.types) else {(r.src, r.tgt.datum)}
  }

  ghost function SelfPairs(src: Datum, db: Db, n: nat): (ps: set<(Datum, Datum)>)
    requires TypeMatch.Known(src, db.bitmaps)
    ensures forall d :: d in ps <==> d.0 == d.1 && d.0.Type? && d.0.value < n && Covers(src, d.0.value, db.bitmaps)
  {
    if n == 0 then {}
    else SelfPairs(src, db, n - 1) + if Covers(src, n - 1, db.bitmaps) then {(Type(n - 1), Type(n - 1))} else {}
  }

  ghost function Cross(pairs: set<(Datum, Datum)>, perms: set<(nat, nat)>): set<Quad> {
    set d, cp | d in pairs && cp in perms :: (d.0, d.1, cp.0, cp.1)
  }

  /** What a rule adds to its table. */
  ghost function QuadsOf(r: AvRule, db: Db): set<Quad>
    requires ValidRule(r, db)
  {
    Cross(PairsOf(r, db), PermsOf(r.perms))
  }

  ghost function StoredRule(r: NvRule): set<Quad> {
    set p | p in r.perms :: (r.src, r.tgt, r.cls, p)
  }

  ghost function StoredRules(rules: seq<NvRule>): set<Quad> {
    if rules == [] then {} else StoredRules(rules[..|rules| - 1]) + StoredRule(rules[|rules| - 1])
  }

  ghost function StoredIn(nvs: seq<seq<NvRule>>): set<Quad> {
    if nvs == [] then {} else StoredRules(nvs[0]) + StoredIn(nvs[1..])
  }

  /** The permissions that a mask is about. Those of a dontaudit rule are the ones that are not set. */
  function Perms(kind: Kind, mask: set<nat>): set<nat> {
    if kind == DontAudit then AllPerms() - mask else mask
  }

  /** Something that a table says: of which kind, whether in a conditional, and of what. */
  type Saying = (Kind, bool, Quad)

  ghost function Tagged(kind: Kind, conditional: bool, quads: set<Quad>): set<Saying> {
    set q | q in quads :: (kind, conditional, q)
  }

  ghost function SaidBy(key: Key, mask: set<nat>, conditional: bool): set<Saying> {
    set p | p in Perms(key.kind, mask) :: (key.kind, conditional, (key.src, key.tgt, key.cls, p))
  }

  ghost function SaidAlways(avtab: map<Key, set<nat>>): set<Saying> {
    set key, p | key in avtab && p in Perms(key.kind, avtab[key]) :: (key.kind, false, (key.src, key.tgt, key.cls, p))
  }

  ghost function SaidSometimes(condAvtab: seq<(Key, set<nat>)>): set<Saying> {
    if condAvtab == [] then {}
    else
      var last := condAvtab[|condAvtab| - 1];
      SaidSometimes(condAvtab[..|condAvtab| - 1]) + SaidBy(last.0, last.1, true)
  }

  ghost function OfKind(said: set<Saying>, kind: Kind, conditional: bool): set<Quad> {
    set x | x in said && x.0 == kind && x.1 == conditional :: x.2
  }

  /** Masks have 32 bits, and there is no entry that says nothing. */
  ghost predicate MasksFine(avtab: map<Key, set<nat>>, condAvtab: seq<(Key, set<nat>)>) {
    && (forall key :: key in avtab ==> EntryFine(key, avtab[key]))
    && forall j :: 0 <= j < |condAvtab| ==> EntryFine(condAvtab[j].0, condAvtab[j].1)
  }

  ghost predicate EntryFine(key: Key, mask: set<nat>) {
    key.kind != Neverallow && mask <= AllPerms() && Perms(key.kind, mask) != {}
  }

  ghost predicate Matches(t1: Datum, t2: Datum, bitmaps: map<nat, Bitmap>) {
    t1 == t2 || (TypeMatch.Known(t1, bitmaps) && TypeMatch.Known(t2, bitmaps) && Overlap(t1, t2, bitmaps))
  }

  /** A stored quad forbids another one. */
  ghost predicate Hits(n: Quad, q: Quad, bitmaps: map<nat, Bitmap>) {
    n.2 == q.2 && n.3 == q.3 && Matches(q.0, n.0, bitmaps) && Matches(q.1, n.1, bitmaps)
  }

  ghost predicate Blocked(stored: set<Quad>, q: Quad, bitmaps: map<nat, Bitmap>) {
    exists n :: n in stored && Hits(n, q, bitmaps)
  }

  lemma {:induction false} StoredAt(nvs: seq<seq<NvRule>>, i: nat, k: nat)
    requires i < |nvs| && k < |nvs[i]|
    ensures StoredRule(nvs[i][k]) <= StoredIn(nvs)
    decreases i
  {
    if i == 0 {
      RuleAt(nvs[0], k);
    } else {
      StoredAt(nvs[1..], i - 1, k);
    }
  }

  lemma {:induction false} RuleAt(rules: seq<NvRule>, k: nat)
    requires k < |rules|
    ensures StoredRule(rules[k]) <= StoredRules(rules)
    decreases |rules|
  {
    if k < |rules| - 1 {
      RuleAt(rules[..|rules| - 1], k);
    }
  }

  class PolicyDb {
    var avtab: map<Key, set<nat>>
    var condAvtab: seq<(Key, set<nat>)>
    // One list of rules for each neverallow statement, the latest first.
    var neverallows: seq<seq<NvRule>>

    constructor ()
      ensures avtab == map[] && condAvtab == [] && neverallows == []
    {
      avtab, condAvtab, neverallows := map[], [], [];
    }

    /** What the access tables grant, always or under some condition. */
    ghost function Granted(): set<Quad>
      reads this
    {
      Says(Allowed, false) + Says(Allowed, true)
    }

    /** What the entries of a kind say, those outside of conditionals or those inside. */
    ghost function Says(kind: Kind, conditional: bool): set<Quad>
      reads this
    {
      OfKind(Said(), kind, conditional)
    }

    /** What the two tables say. */
    ghost function Said(): set<Saying>
      reads this
    {
      SaidAlways(avtab) + SaidSometimes(condAvtab)
    }

    /** The rules and the tables are in order. */
    ghost predicate Fit(bitmaps: map<nat, Bitmap>)
      reads this
    {
      RulesKnown(neverallows, bitmaps) && MasksFine(avtab, condAvtab)
    }

    /** What the collected neverallow rules forbid. */
    ghost function Stored(): set<Quad>
      reads this
    {
      StoredIn(neverallows)
    }

    /** Adds a rule to a table. Masks of the same key are joined; the masks of dontaudit rules are complements,
        so they are intersected. */
    method InsertAvrule(kind: Kind, src: Datum, tgt: Datum, cls: nat, data: set<nat>, conditional: bool)
      requires kind != Neverallow && EntryFine(Key(kind, src, tgt, cls), data)
      modifies this`avtab, this`condAvtab
      ensures var key := Key(kind, src, tgt, cls);
              if conditional then avtab == old(avtab) && condAvtab == old(condAvtab) + [(key, data)]
              else condAvtab == old(condAvtab) && avtab == old(avtab)[key :=
                if key !in old(avtab) then data
                else if kind == DontAudit then old(avtab)[key] * data else old(avtab)[key] + data]
      ensures Said() == old(Said()) + SaidBy(Key(kind, src, tgt, cls), data, conditional)
      ensures old(MasksFine(avtab, condAvtab)) ==> MasksFine(avtab, condAvtab)
    {
      var key := Key(kind, src, tgt, cls);
      if !conditional {
        if key !in avtab {
          avtab := avtab[key := data];
        } else if kind == DontAudit {
          avtab := avtab[key := avtab[key] * data];
        } else {
          avtab := avtab[key := avtab[key] + data];
        }
      } else {
        condAvtab := condAvtab + [(key, data)];
        assert condAvtab[..|condAvtab| - 1] == old(condAvtab);
      }
    }

    /** Adds a rule to the statement that is being collected. */
    method NeverallowHandle(src: Datum, tgt: Datum, cls: nat, perms: set<nat>)
      requires neverallows != []
      modifies this`neverallows
      ensures neverallows == old(neverallows)[0 := old(neverallows)[0] + [NvRule(src, tgt, cls, perms)]]
      ensures Stored() == old(Stored()) + StoredRule(NvRule(src, tgt, cls, perms))
    {
      var rules := neverallows[0] + [NvRule(src, tgt, cls, perms)];
      assert rules[..|rules| - 1] == neverallows[0];
      neverallows := neverallows[0 := rules];
      assert neverallows[1..] == old(neverallows)[1..];
    }

    /** Refuses permissions that some neverallow rule forbids. */
    method CheckNeverallows(src: Datum, tgt: Datum, cls: nat, perms: set<nat>, bitmaps: map<nat, Bitmap>)
        returns (ok: bool)
      requires ValidBitmaps(bitmaps) && RulesKnown(neverallows, bitmaps)
      requires TypeMatch.Known(src, bitmaps) && TypeMatch.Known(tgt, bitmaps)
      ensures ok <==> forall p :: p in perms ==> !Blocked(Stored(), (src, tgt, cls, p), bitmaps)
    {
      var i := 0;
      while i < |neverallows|
        invariant 0 <= i <= |neverallows|
        invariant forall p :: p in perms ==> (Blocked(Stored(), (src, tgt, cls, p), bitmaps) <==>
            Blocked(StoredIn(neverallows[i..]), (src, tgt, cls, p), bitmaps))
      {
        var rules := neverallows[i];
        ok := CheckStatement(rules, src, tgt, cls, perms, bitmaps);
        assert neverallows[i..][0] == rules && neverallows[i..][1..] == neverallows[i + 1..];
        BlockedSplit(StoredRules(rules), StoredIn(neverallows[i + 1..]), src, tgt, cls, perms, bitmaps);
        if !ok {
          return;
        }
        i := i + 1;
      }
      return true;
    }

    /** What a rule of some kind does to the tables. */
    twostate predicate Effect(kind: Kind, conditional: bool, new q: set<Quad>)
      reads this
    {
      if kind == Neverallow then
        avtab == old(avtab) && condAvtab == old(condAvtab) && Stored() == old(Stored()) + q
      else
        neverallows == old(neverallows) && Said() == old(Said()) + Tagged(kind, conditional, q)
    }

    ghost predicate Ready(kind: Kind, src: Datum, tgt: Datum, bitmaps: map<nat, Bitmap>)
      reads this
    {
      && ValidBitmaps(bitmaps) && Fit(bitmaps)
      && TypeMatch.Known(src, bitmaps) && TypeMatch.Known(tgt, bitmaps)
      && (kind == Neverallow ==> neverallows != [])
    }

    /** One pair and the permissions of one kernel class. */
    method ExpandHelper(kind: Kind, src: Datum, tgt: Datum, cls: nat, perms: seq<nat>, bitmaps: map<nat, Bitmap>,
        conditional: bool)
      returns (ok: bool)
      requires Ready(kind, src, tgt, bitmaps) && InRange(PermsIn(Kernel(cls, perms)))
      modifies this
      ensures Ready(kind, src, tgt, bitmaps) && |neverallows| == |old(neverallows)|
      ensures ok <==> Fine(kind, Cross({(src, tgt)}, PermsIn(Kernel(cls, perms))), old(Stored()), bitmaps)
      ensures ok ==> Effect(kind, conditional, Cross({(src, tgt)}, PermsIn(Kernel(cls, perms))))
    {
      hide Cross, Tagged, SaidBy, SaidAlways, SaidSometimes, StoredIn, StoredRule, PermsIn, Perms, AllPerms, EntryFine;
      var data := PermsToMask(perms);
      KernelQuads(kind, src, tgt, cls, perms, data);
      if data == {} {
        NothingTagged(kind, conditional);
        return true;
      }
      if kind == Neverallow {
        NeverallowHandle(src, tgt, cls, data);
        return true;
      }
      if kind == DontAudit {
        data := AllPerms() - data;
      } else if kind == Allowed {
        ok := CheckNeverallows(src, tgt, cls, data, bitmaps);
        if !ok {
          return;
        }
      }
      InsertAvrule(kind, src, tgt, cls, data, conditional);
      return true;
    }

    /** One pair and a list of class permissions; maps and named sets are followed to the kernel classes. */
    method Expand(kind: Kind, src: Datum, tgt: Datum, list: seq<ClassPerms>, bitmaps: map<nat, Bitmap>,
        conditional: bool)
      returns (ok: bool)
      requires Ready(kind, src, tgt, bitmaps) && InRange(PermsOf(list))
      modifies this
      ensures Ready(kind, src, tgt, bitmaps) && |neverallows| == |old(neverallows)|
      ensures ok <==> Fine(kind, Cross({(src, tgt)}, PermsOf(list)), old(Stored()), bitmaps)
      ensures ok ==> Effect(kind, conditional, Cross({(src, tgt)}, PermsOf(list)))
      decreases list, 1
    {
      hide PermsIn, Cross, Blocked, Ready, InRange, Tagged, SaidAlways, SaidSometimes;
      NothingTagged(kind, conditional);
      CrossNothing(src, tgt);
      var i := 0;
      while i < |list|
        invariant 0 <= i <= |list|
        invariant Ready(kind, src, tgt, bitmaps) && |neverallows| == |old(neverallows)|
        invariant Effect(kind, conditional, Cross({(src, tgt)}, PermsOf(list[..i])))
        invariant Fine(kind, Cross({(src, tgt)}, PermsOf(list[..i])), old(Stored()), bitmaps)
      {
        assert list[..i + 1][..i] == list[..i];
        CrossSplit(src, tgt, PermsOf(list[..i]), PermsIn(list[i]));
        PermsPrefix(list, i);
        TaggedUnion(kind, conditional, Cross({(src, tgt)}, PermsOf(list[..i])), Cross({(src, tgt)}, PermsIn(list[i])));
        ok := ExpandOne(kind, src, tgt, list[i], bitmaps, conditional);
        if !ok {
          PrefixNotFine(kind, src, tgt, list, i, old(Stored()), bitmaps);
          return;
        }
        i := i + 1;
      }
      assert list[..i] == list;
      return true;
    }

    method ExpandOne(kind: Kind, src: Datum, tgt: Datum, cp: ClassPerms, bitmaps: map<nat, Bitmap>, conditional: bool)
      returns (ok: bool)
      requires Ready(kind, src, tgt, bitmaps) && InRange(PermsIn(cp))
      modifies this
      ensures Ready(kind, src, tgt, bitmaps) && |neverallows| == |old(neverallows)|
      ensures ok <==> Fine(kind, Cross({(src, tgt)}, PermsIn(cp)), old(Stored()), bitmaps)
      ensures ok ==> Effect(kind, conditional, Cross({(src, tgt)}, PermsIn(cp)))
      decreases cp, 2
    {
      match cp
      case Kernel(cls, perms) => ok := ExpandHelper(kind, src, tgt, cls, perms, bitmaps, conditional);
      case Mapped(mapPerms) => ok := ExpandMap(kind, src, tgt, mapPerms, bitmaps, conditional);
      case Named(list) => ok := Expand(kind, src, tgt, list, bitmaps, conditional);
    }

    /** The class permissions of each permission of a class map. */
    method ExpandMap(kind: Kind, src: Datum, tgt: Datum, mapPerms: seq<MapPerm>, bitmaps: map<nat, Bitmap>,
        conditional: bool)
      returns (ok: bool)
      requires Ready(kind, src, tgt, bitmaps) && InRange(PermsOfMap(mapPerms))
      modifies this
      ensures Ready(kind, src, tgt, bitmaps) && |neverallows| == |old(neverallows)|
      ensures ok <==> Fine(kind, Cross({(src, tgt)}, PermsOfMap(mapPerms)), old(Stored()), bitmaps)
      ensures ok ==> Effect(kind, conditional, Cross({(src, tgt)}, PermsOfMap(mapPerms)))
      decreases mapPerms, 1
    {
      hide PermsOf, Cross, Blocked, Ready, InRange, Tagged, SaidAlways, SaidSometimes;
      NothingTagged(kind, conditional);
      CrossNothing(src, tgt);
      var i := 0;
      while i < |mapPerms|
        invariant 0 <= i <= |mapPerms|
        invariant Ready(kind, src, tgt, bitmaps) && |neverallows| == |old(neverallows)|
        invariant Effect(kind, conditional, Cross({(src, tgt)}, PermsOfMap(mapPerms[..i])))
        invariant Fine(kind, Cross({(src, tgt)}, PermsOfMap(mapPerms[..i])), old(Stored()), bitmaps)
      {
        assert mapPerms[..i + 1][..i] == mapPerms[..i];
        CrossSplit(src, tgt, PermsOfMap(mapPerms[..i]), PermsOf(mapPerms[i].classperms));
        MapPrefix(mapPerms, i);
        TaggedUnion(kind, conditional, Cross({(src, tgt)}, PermsOfMap(mapPerms[..i])),
          Cross({(src, tgt)}, PermsOf(mapPerms[i].classperms)));
        ok := Expand(kind, src, tgt, mapPerms[i].classperms, bitmaps, conditional);
        if !ok {
          MapPrefixNotFine(kind, src, tgt, mapPerms, i, old(Stored()), bitmaps);
          return;
        }
        i := i + 1;
      }
      assert mapPerms[..i] == mapPerms;
      return true;
    }

    /** A rule. A rule on "self" is expanded for each type of its source. */
    method AvruleToAvtab(r: AvRule, db: Db, conditional: bool) returns (ok: bool)
      requires ValidRule(r, db) && ValidBitmaps(db.bitmaps) && Fit(db.bitmaps)
      requires r.kind == Neverallow ==> neverallows != []
      modifies this
      ensures Fit(db.bitmaps) && |neverallows| == |old(neverallows)|
      ensures ok <==> Fine(r.kind, Added(r, db), old(Stored()), db.bitmaps)
      ensures ok ==> Effect(r.kind, conditional, Added(r, db))
    {
      if (r.kind == DontAudit && db.disableDontaudit) || (r.kind == Neverallow && db.disableNeverallow) {
        return true;
      }
      if r.tgt.Other? {
        ok := Expand(r.kind, r.src, r.tgt.datum, r.perms, db.bitmaps, conditional);
      } else {
        ok := ExpandSelf(r, db, conditional);
      }
    }

    method ExpandSelf(r: AvRule, db: Db, conditional: bool) returns (ok: bool)
      requires ValidRule(r, db) && r.tgt.Self? && ValidBitmaps(db.bitmaps) && Fit(db.bitmaps)
      requires r.kind == Neverallow ==> neverallows != []
      modifies this
      ensures Fit(db.bitmaps) && |neverallows| == |old(neverallows)|
      ensures ok <==> Fine(r.kind, Cross(SelfPairs(r.src, db, db.types), PermsOf(r.perms)), old(Stored()), db.bitmaps)
      ensures ok ==> Effect(r.kind, conditional, Cross(SelfPairs(r.src, db, db.types), PermsOf(r.perms)))
    {
      hide PermsOf, Cross, Blocked, InRange, Tagged, SaidAlways, SaidSometimes, MasksFine;
      NoPairs(PermsOf(r.perms));
      NothingTagged(r.kind, conditional);
      var x := 0;
      while x < db.types
        invariant 0 <= x <= db.types
        invariant Fit(db.bitmaps) && |neverallows| == |old(neverallows)|
        invariant Effect(r.kind, conditional, Cross(SelfPairs(r.src, db, x), PermsOf(r.perms)))
        invariant Fine(r.kind, Cross(SelfPairs(r.src, db, x), PermsOf(r.perms)), old(Stored()), db.bitmaps)
      {
        if Covers(r.src, x, db.bitmaps) {
          PairsSplit(SelfPairs(r.src, db, x), {(Type(x), Type(x))}, PermsOf(r.perms));
          TaggedUnion(r.kind, conditional, Cross(SelfPairs(r.src, db, x), PermsOf(r.perms)),
            Cross({(Type(x), Type(x))}, PermsOf(r.perms)));
          ok := Expand(r.kind, Type(x), Type(x), r.perms, db.bitmaps, conditional);
          if !ok {
            SelfNotFine(r, db, x, old(Stored()));
            return;
          }
        } else {
          assert SelfPairs(r.src, db, x + 1) == SelfPairs(r.src, db, x);
        }
        x := x + 1;
      }
      return true;
    }

    /** The second pass collects the neverallow rules of every statement. */
    method CollectNeverallows(stmts: seq<Stmt>, db: Db) returns (ok: bool)
      requires ValidStmts(stmts, db) && neverallows == [] && MasksFine(avtab, condAvtab)
      modifies this
      ensures ok && Fit(db.bitmaps) && avtab == old(avtab) && condAvtab == old(condAvtab)
      ensures Stored() == NeverallowQuads(stmts, db)
    {
      hide AddedBy, Added, RulesKnown, ValidRule;
      NothingAdded(Neverallow, db);
      EmptyKnown(db.bitmaps);
      var i := 0;
      while i < |stmts|
        invariant 0 <= i <= |stmts| && Fit(db.bitmaps) && avtab == old(avtab) && condAvtab == old(condAvtab)
        invariant Stored() == AddedBy(RulesBefore(stmts, i), Neverallow, db)
      {
        if stmts[i].Rule? && stmts[i].rule.kind == Neverallow {
          var r := stmts[i].rule;
          assert r in RulesOf(stmts[i]);
          NewStatement(neverallows, db.bitmaps);
          neverallows := [[]] + neverallows;
          ok := AvruleToAvtab(r, db, false);
          AddedNext(RulesBefore(stmts, i), r, Neverallow, db);
        } else {
          NoneAdded(stmts, i, db);
        }
        i := i + 1;
      }
      return true;
    }

    /** The third pass expands all other rules, those of conditionals too. */
    method ExpandRules(stmts: seq<Stmt>, db: Db) returns (ok: bool)
      requires ValidStmts(stmts, db) && Fit(db.bitmaps) && avtab == map[] && condAvtab == []
      modifies this
      ensures ok <==> Fine(Allowed, AllowedQuads(stmts, db), old(Stored()), db.bitmaps)
      ensures ok ==> Stored() == old(Stored()) && Fit(db.bitmaps) && Said() == AllSayings(stmts, db)
    {
      hide AddedBy, Fit, ValidRule, Blocked, Fine, SaidAlways, SaidSometimes, SayingsOf;
      NothingSaid(stmts, db, Stored());
      var i := 0;
      while i < |stmts|
        invariant 0 <= i <= |stmts| && Fit(db.bitmaps) && Stored() == old(Stored())
        invariant Said() == AllSayings(stmts[..i], db)
        invariant Fine(Allowed, AllowedQuads(stmts[..i], db), old(Stored()), db.bitmaps)
      {
        NextStatement(stmts, i, db, old(Stored()));
        ok := ExpandStatement(stmts[i], db);
        if !ok {
          return;
        }
        i := i + 1;
      }
      assert stmts[..i] == stmts;
      return true;
    }

    /** The rules of a statement. */
    method ExpandStatement(stmt: Stmt, db: Db) returns (ok: bool)
      requires ValidBitmaps(db.bitmaps) && ValidRules(RulesOf(stmt), db) && Fit(db.bitmaps)
      modifies this
      ensures ok <==> Fine(Allowed, AddedBy(RulesOf(stmt), Allowed, db), old(Stored()), db.bitmaps)
      ensures ok ==> Stored() == old(Stored()) && Fit(db.bitmaps)
      ensures ok ==> Said() == old(Said()) + SayingsOf(RulesOf(stmt), stmt.Conditional?, db)
    {
      var rules := RulesOf(stmt);
      hide AddedBy, Added, Fit, Fine, RulesOf, ValidRule, Tagged, SaidAlways, SaidSometimes, SayingsOf, StoredIn;
      NothingAddedBy(stmt.Conditional?, db, Stored());
      assert rules[..0] == [];
      var i := 0;
      while i < |rules|
        invariant 0 <= i <= |rules| && Fit(db.bitmaps) && neverallows == old(neverallows)
        invariant Said() == old(Said()) + SayingsOf(rules[..i], stmt.Conditional?, db)
        invariant Fine(Allowed, AddedBy(rules[..i], Allowed, db), old(Stored()), db.bitmaps)
      {
        var r := rules[i];
        assert rules[..i] + [r] == rules[..i + 1];
        FineNext(rules, i, old(Stored()), db);
        SayingsNext(rules[..i], r, stmt.Conditional?, db);
        ok := ExpandRule(r, db, stmt.Conditional?);
        if !ok {
          return;
        }
        i := i + 1;
      }
      assert rules[..i] == rules;
      return true;
    }

    /** A rule, unless it is a neverallow rule. */
    method ExpandRule(r: AvRule, db: Db, conditional: bool) returns (ok: bool)
      requires ValidRule(r, db) && ValidBitmaps(db.bitmaps) && Fit(db.bitmaps)
      modifies this
      ensures ok <==> (r.kind != Neverallow ==> Fine(r.kind, Added(r, db), old(Stored()), db.bitmaps))
      ensures ok ==> neverallows == old(neverallows) && Fit(db.bitmaps)
      ensures ok ==>
          Said() == old(Said()) + if r.kind != Neverallow then Tagged(r.kind, conditional, Added(r, db)) else {}
    {
      hide Added, Fit, Fine, ValidRule, Tagged, SaidAlways, SaidSometimes, StoredIn;
      ok := true;
      if r.kind != Neverallow {
        ok := AvruleToAvtab(r, db, conditional);
      }
    }

    /** The build as far as access rules go: neverallow rules are collected first, then all other rules are
        expanded and checked. */
    method Build(stmts: seq<Stmt>, db: Db) returns (ok: bool)
      requires ValidStmts(stmts, db) && neverallows == [] && avtab == map[] && condAvtab == []
      modifies this
      ensures ok ==> TableFrom(avtab, stmts, db) && EntriesFrom(condAvtab, stmts, db)
      ensures ok ==> forall s, t, c, p :: Accessible(Says(Allowed, false), db, s, t, c, p) <==>
                SomeRuleIn(stmts, false, Allowed, db, s, t, c, p)
      ensures ok ==> forall s, t, c, p :: Accessible(Says(Allowed, true), db, s, t, c, p) <==>
                SomeRuleIn(stmts, true, Allowed, db, s, t, c, p)
      ensures ok && !db.disableNeverallow ==> forall s, t, c, p :: Accessible(Granted(), db, s, t, c, p) ==>
                SomeRule(stmts, Allowed, db, s, t, c, p) && !SomeRule(stmts, Neverallow, db, s, t, c, p)
      ensures ok ==> forall s, t, c, p :: SomeRule(stmts, Allowed, db, s, t, c, p) ==>
          Accessible(Granted(), db, s, t, c, p)
      ensures !db.disableNeverallow ==> (ok <==> !Conflict(stmts, db) && !EmptyHit(stmts, db))
      ensures NoneEmpty(stmts, db) ==> !EmptyHit(stmts, db)
      ensures db.disableNeverallow ==> ok
    {
      hide Accessible, SomeRule, Blocked, NoneEmpty, ValidStmts, AddedBy, RulesBefore, Conflict, EmptyHit,
        TableFrom, EntriesFrom, SaidAlways, SaidSometimes, AllSayings;
      ok := CollectNeverallows(stmts, db);
      ok := ExpandRules(stmts, db);
      BuildOutcome(stmts, db, ok);
      SayingsTogether(stmts, db);
      SayingsAbout(stmts, false, db);
      SayingsAbout(stmts, true, db);
      if ok {
        TablesAreFrom(avtab, condAvtab, stmts, db);
      }
    }
  }

  /** Nothing of `q` is forbidden, where that matters. */
  ghost predicate Fine(kind: Kind, q: set<Quad>, stored: set<Quad>, bitmaps: map<nat, Bitmap>) {
    kind == Allowed ==> forall x :: x in q ==> !Blocked(stored, x, bitmaps)
  }

  lemma KernelQuads(kind: Kind, src: Datum, tgt: Datum, cls: nat, perms: seq<nat>, data: set<nat>)
    requires (forall p :: p in data <==> p in perms) && InRange(PermsIn(Kernel(cls, perms)))
    ensures data <= AllPerms() && (data == {} ==> Cross({(src, tgt)}, PermsIn(Kernel(cls, perms))) == {})
    ensures forall x :: x in Cross({(src, tgt)}, PermsIn(Kernel(cls, perms))) <==>
        x.0 == src && x.1 == tgt && x.2 == cls && x.3 in data
    ensures Cross({(src, tgt)}, PermsIn(Kernel(cls, perms))) == StoredRule(NvRule(src, tgt, cls, data))
    ensures forall c: bool ::
        Tagged(kind, c, Cross({(src, tgt)}, PermsIn(Kernel(cls, perms)))) ==
          SaidBy(Key(kind, src, tgt, cls), if kind == DontAudit then AllPerms() - data else data, c)
    ensures kind != Neverallow && data != {} ==>
        EntryFine(Key(kind, src, tgt, cls), if kind == DontAudit then AllPerms() - data else data)
  {
    forall p | p in data ensures p in AllPerms() {
      assert (cls, p) in PermsIn(Kernel(cls, perms));
    }
    forall x: Quad
      ensures x in Cross({(src, tgt)}, PermsIn(Kernel(cls, perms))) <==>
          x.0 == src && x.1 == tgt && x.2 == cls && x.3 in data
    {
      if x.0 == src && x.1 == tgt && x.2 == cls && x.3 in data {
        assert (cls, x.3) in PermsIn(Kernel(cls, perms)) && (src, tgt) in {(src, tgt)};
      }
    }
  }

  lemma CrossNothing(src: Datum, tgt: Datum)
    ensures Cross({(src, tgt)}, {}) == {}
  {
  }

  lemma CrossSplit(src: Datum, tgt: Datum, a: set<(nat, nat)>, b: set<(nat, nat)>)
    ensures Cross({(src, tgt)}, a + b) == Cross({(src, tgt)}, a) + Cross({(src, tgt)}, b)
  {
    forall x: Quad
      ensures x in Cross({(src, tgt)}, a + b) <==> x in Cross({(src, tgt)}, a) + Cross({(src, tgt)}, b)
    {
      var cp := (x.2, x.3);
      assert (src, tgt) in {(src, tgt)};
      assert x.0 == src && x.1 == tgt && cp in a ==> x in Cross({(src, tgt)}, a);
      assert x.0 == src && x.1 == tgt && cp in b ==> x in Cross({(src, tgt)}, b);
    }
  }

  lemma {:induction false} PermsPrefix(list: seq<ClassPerms>, i: nat)
    requires i < |list|
    ensures PermsIn(list[i]) <= PermsOf(list)
    ensures InRange(PermsOf(list)) ==> InRange(PermsIn(list[i]))
    decreases |list|
  {
    if i < |list| - 1 {
      PermsPrefix(list[..|list| - 1], i);
    }
  }

  /** Some place inside class permissions names the permission: a kernel class itself, or any class permissions of any
      permission of a map, or any of a named set. */
  ghost predicate NamesPerm(cp: ClassPerms, c: nat, p: nat) {
    match cp
    case Kernel(cls, perms) => c == cls && exists k :: 0 <= k < |perms| && perms[k] == p
    case Mapped(mapPerms) =>
      exists i, j :: 0 <= i < |mapPerms| && 0 <= j < |mapPerms[i].classperms|
        && NamesPerm(mapPerms[i].classperms[j], c, p)
    case Named(list) => exists j :: 0 <= j < |list| && NamesPerm(list[j], c, p)
  }

  lemma {:induction false} PermsAreNamed(list: seq<ClassPerms>, c: nat, p: nat)
    ensures (c, p) in PermsOf(list) <==> exists j :: 0 <= j < |list| && NamesPerm(list[j], c, p)
    decreases list, 1
  {
    hide NamesPerm, PermsIn;
    if list != [] {
      var n := |list| - 1;
      PermsAreNamed(list[..n], c, p);
      PermIsNamed(list[n], c, p);
      assert list == list[..n] + [list[n]];
    }
  }

  lemma {:induction false} PermIsNamed(cp: ClassPerms, c: nat, p: nat)
    ensures (c, p) in PermsIn(cp) <==> NamesPerm(cp, c, p)
    decreases cp, 2
  {
    match cp
    case Kernel(cls, perms) =>
    case Mapped(mapPerms) => MapPermsAreNamed(mapPerms, c, p);
    case Named(list) => PermsAreNamed(list, c, p);
  }

  lemma {:induction false} MapPermsAreNamed(mapPerms: seq<MapPerm>, c: nat, p: nat)
    ensures (c, p) in PermsOfMap(mapPerms) <==>
        exists i, j :: 0 <= i < |mapPerms| && 0 <= j < |mapPerms[i].classperms|
          && NamesPerm(mapPerms[i].classperms[j], c, p)
    decreases mapPerms, 1
  {
    hide NamesPerm, PermsOf;
    if mapPerms != [] {
      var n := |mapPerms| - 1;
      MapPermsAreNamed(mapPerms[..n], c, p);
      PermsAreNamed(mapPerms[n].classperms, c, p);
      assert mapPerms == mapPerms[..n] + [mapPerms[n]];
    }
  }

  lemma PrefixNotFine(kind: Kind, src: Datum, tgt: Datum, list: seq<ClassPerms>, i: nat, stored: set<Quad>,
      bitmaps: map<nat, Bitmap>)
    requires i < |list| && !Fine(kind, Cross({(src, tgt)}, PermsIn(list[i])), stored, bitmaps)
    ensures !Fine(kind, Cross({(src, tgt)}, PermsOf(list)), stored, bitmaps)
  {
    PermsPrefix(list, i);
    CrossSplit(src, tgt, PermsOf(list), PermsIn(list[i]));
    assert PermsOf(list) + PermsIn(list[i]) == PermsOf(list);
  }

  lemma {:induction false} MapPrefix(mapPerms: seq<MapPerm>, i: nat)
    requires i < |mapPerms|
    ensures PermsOf(mapPerms[i].classperms) <= PermsOfMap(mapPerms)
    ensures InRange(PermsOfMap(mapPerms)) ==> InRange(PermsOf(mapPerms[i].classperms))
    decreases |mapPerms|
  {
    if i < |mapPerms| - 1 {
      MapPrefix(mapPerms[..|mapPerms| - 1], i);
    }
  }

  lemma MapPrefixNotFine(kind: Kind, src: Datum, tgt: Datum, mapPerms: seq<MapPerm>, i: nat, stored: set<Quad>,
      bitmaps: map<nat, Bitmap>)
    requires i < |mapPerms| && !Fine(kind, Cross({(src, tgt)}, PermsOf(mapPerms[i].classperms)), stored, bitmaps)
    ensures !Fine(kind, Cross({(src, tgt)}, PermsOfMap(mapPerms)), stored, bitmaps)
  {
    MapPrefix(mapPerms, i);
    CrossSplit(src, tgt, PermsOfMap(mapPerms), PermsOf(mapPerms[i].classperms));
    assert PermsOfMap(mapPerms) + PermsOf(mapPerms[i].classperms) == PermsOfMap(mapPerms);
  }

  /** Collects the bits of the permissions. */
  method PermsToMask(perms: seq<nat>) returns (data: set<nat>)
    ensures forall p :: p in data <==> p in perms
  {
    data := {};
    var k := 0;
    while k < |perms|
      invariant 0 <= k <= |perms|
      invariant forall p :: p in data <==> p in perms[..k]
    {
      data := data + {perms[k]};
      k := k + 1;
    }
    assert perms[..k] == perms;
  }

  /** All 32 bits. */
  function AllPerms(): set<nat> {
    {1, 2, 3, 4, 5, 6, 7, 8, 9, 10, 11, 12, 13, 14, 15, 16,
     17, 18, 19, 20, 21, 22, 23, 24, 25, 26, 27, 28, 29, 30, 31, 32}
  }

  ghost predicate RulesKnown(nvs: seq<seq<NvRule>>, bitmaps: map<nat, Bitmap>) {
    forall i, r :: 0 <= i < |nvs| && r in nvs[i] ==> TypeMatch.Known(r.src, bitmaps) && TypeMatch.Known(r.tgt, bitmaps)
  }

  lemma BlockedSplit(a: set<Quad>, b: set<Quad>, src: Datum, tgt: Datum, cls: nat, perms: set<nat>,
      bitmaps: map<nat, Bitmap>)
    ensures forall p :: p in perms ==>
      (Blocked(a + b, (src, tgt, cls, p), bitmaps) <==>
          Blocked(a, (src, tgt, cls, p), bitmaps) || Blocked(b, (src, tgt, cls, p), bitmaps))
  {
  }

  /** The rules of one neverallow statement. */
  method CheckStatement(rules: seq<NvRule>, src: Datum, tgt: Datum, cls: nat, perms: set<nat>,
      bitmaps: map<nat, Bitmap>) returns (ok: bool)
    requires ValidBitmaps(bitmaps) && TypeMatch.Known(src, bitmaps) && TypeMatch.Known(tgt, bitmaps)
    requires forall r :: r in rules ==> TypeMatch.Known(r.src, bitmaps) && TypeMatch.Known(r.tgt, bitmaps)
    ensures ok <==> forall p :: p in perms ==> !Blocked(StoredRules(rules), (src, tgt, cls, p), bitmaps)
  {
    var k := 0;
    while k < |rules|
      invariant 0 <= k <= |rules|
      invariant forall p :: p in perms ==> !Blocked(StoredRules(rules[..k]), (src, tgt, cls, p), bitmaps)
    {
      var rule := rules[k];
      assert rules[..k + 1][..k] == rules[..k];
      BlockedSplit(StoredRules(rules[..k]), StoredRule(rule), src, tgt, cls, perms, bitmaps);
      if rule.perms * perms != {} && cls == rule.cls {
        var srcMatch := IsTypeMatch(src, rule.src, bitmaps);
        if srcMatch {
          var tgtMatch := IsTypeMatch(tgt, rule.tgt, bitmaps);
          if tgtMatch {
            ghost var p :| p in rule.perms * perms;
            RuleAt(rules, k);
            var n: Quad := (rule.src, rule.tgt, rule.cls, p);
            assert n in StoredRule(rule) && Hits(n, (src, tgt, cls, p), bitmaps);
            return false;
          }
        }
      }
      assert forall p :: p in rule.perms && p in perms ==> p in rule.perms * perms;
      k := k + 1;
    }
    assert rules[..k] == rules;
    return true;
  }

  // ---- What the passes add

  /** What a rule adds; rules that are switched off add nothing. */
  ghost function Added(r: AvRule, db: Db): set<Quad>
    requires ValidRule(r, db)
  {
    if SwitchedOff(r, db) then {} else QuadsOf(r, db)
  }

  function RulesBefore(stmts: seq<Stmt>, n: nat): seq<AvRule>
    requires n <= |stmts|
  {
    if n == 0 then [] else RulesBefore(stmts, n - 1) + RulesOf(stmts[n - 1])
  }

  /** What rules say in the tables; neverallow rules say nothing there. */
  ghost function SayingsOf(rules: seq<AvRule>, conditional: bool, db: Db): set<Saying> {
    if rules == [] then {}
    else
      var r := rules[|rules| - 1];
      SayingsOf(rules[..|rules| - 1], conditional, db) +
      if r.kind != Neverallow && ValidRule(r, db) then Tagged(r.kind, conditional, Added(r, db)) else {}
  }

  ghost function AllSayings(stmts: seq<Stmt>, db: Db): set<Saying> {
    if stmts == [] then {}
    else
      var last := stmts[|stmts| - 1];
      AllSayings(stmts[..|stmts| - 1], db) + SayingsOf(RulesOf(last), last.Conditional?, db)
  }

  lemma NothingAddedBy(conditional: bool, db: Db, stored: set<Quad>)
    ensures SayingsOf([], conditional, db) == {}
    ensures Fine(Allowed, AddedBy([], Allowed, db), stored, db.bitmaps)
  {
  }

  lemma SayingsNext(rules: seq<AvRule>, r: AvRule, conditional: bool, db: Db)
    requires ValidRule(r, db)
    ensures SayingsOf(rules + [r], conditional, db) ==
        SayingsOf(rules, conditional, db) +
        if r.kind != Neverallow then Tagged(r.kind, conditional, Added(r, db)) else {}
  {
    assert (rules + [r])[..|rules|] == rules;
  }

  /** Nothing that the next rule adds is forbidden, unless what all rules add is. */
  lemma FineNext(rules: seq<AvRule>, i: nat, stored: set<Quad>, db: Db)
    requires ValidRules(rules, db) && i < |rules|
    ensures var fine := rules[i].kind != Neverallow ==> Fine(rules[i].kind, Added(rules[i], db), stored, db.bitmaps);
            && (Fine(Allowed, AddedBy(rules[..i + 1], Allowed, db), stored, db.bitmaps) <==>
                Fine(Allowed, AddedBy(rules[..i], Allowed, db), stored, db.bitmaps) && fine)
            && (Fine(Allowed, AddedBy(rules, Allowed, db), stored, db.bitmaps) ==> fine)
  {
    hide AddedBy, Added, ValidRule, Blocked;
    assert rules[..i] + [rules[i]] == rules[..i + 1];
    AddedNext(rules[..i], rules[i], Allowed, db);
    if rules[i].kind == Allowed {
      AddedAt(rules, i, Allowed, db);
    }
  }

  lemma NothingTagged(kind: Kind, conditional: bool)
    ensures Tagged(kind, conditional, {}) == {}
  {
  }

  lemma TaggedUnion(kind: Kind, conditional: bool, a: set<Quad>, b: set<Quad>)
    ensures Tagged(kind, conditional, a + b) == Tagged(kind, conditional, a) + Tagged(kind, conditional, b)
  {
  }

  ghost predicate ValidRules(rules: seq<AvRule>, db: Db) {
    forall r :: r in rules ==> ValidRule(r, db)
  }

  /** What the rules of one kind add together. */
  ghost function AddedBy(rules: seq<AvRule>, kind: Kind, db: Db): set<Quad> {
    if rules == [] then {}
    else
      var r := rules[|rules| - 1];
      AddedBy(rules[..|rules| - 1], kind, db) + if r.kind == kind && ValidRule(r, db) then Added(r, db) else {}
  }

  lemma NothingAdded(kind: Kind, db: Db)
    ensures AddedBy([], kind, db) == {}
  {
  }

  lemma AddedNext(rules: seq<AvRule>, r: AvRule, kind: Kind, db: Db)
    requires ValidRule(r, db)
    ensures AddedBy(rules + [r], kind, db) == AddedBy(rules, kind, db) + if r.kind == kind then Added(r, db) else {}
  {
    assert (rules + [r])[..|rules|] == rules;
  }

  lemma NoPairs(perms: set<(nat, nat)>)
    ensures Cross({}, perms) == {}
  {
  }

  lemma PairsSplit(a: set<(Datum, Datum)>, b: set<(Datum, Datum)>, perms: set<(nat, nat)>)
    ensures Cross(a + b, perms) == Cross(a, perms) + Cross(b, perms)
  {
    forall x: Quad
      ensures x in Cross(a + b, perms) <==> x in Cross(a, perms) + Cross(b, perms)
    {
      var d, cp := (x.0, x.1), (x.2, x.3);
      assert d in a && cp in perms ==> x in Cross(a, perms);
      assert d in b && cp in perms ==> x in Cross(b, perms);
      assert d in a + b && cp in perms ==> x in Cross(a + b, perms);
    }
  }

  lemma SelfNotFine(r: AvRule, db: Db, x: nat, stored: set<Quad>)
    requires ValidRule(r, db) && x < db.types && Covers(r.src, x, db.bitmaps)
    requires !Fine(r.kind, Cross({(Type(x), Type(x))}, PermsOf(r.perms)), stored, db.bitmaps)
    ensures !Fine(r.kind, Cross(SelfPairs(r.src, db, db.types), PermsOf(r.perms)), stored, db.bitmaps)
  {
    var all := SelfPairs(r.src, db, db.types);
    assert (Type(x), Type(x)) in all;
    PairsSplit(all, {(Type(x), Type(x))}, PermsOf(r.perms));
    assert all + {(Type(x), Type(x))} == all;
  }

  lemma EmptyKnown(bitmaps: map<nat, Bitmap>)
    ensures RulesKnown([], bitmaps)
  {
  }

  lemma NewStatement(nvs: seq<seq<NvRule>>, bitmaps: map<nat, Bitmap>)
    requires RulesKnown(nvs, bitmaps)
    ensures RulesKnown([[]] + nvs, bitmaps) && StoredIn([[]] + nvs) == StoredIn(nvs)
  {
    assert ([[]] + nvs)[1..] == nvs;
  }

  lemma NoneAdded(stmts: seq<Stmt>, i: nat, db: Db)
    requires ValidStmts(stmts, db) && i < |stmts| && !(stmts[i].Rule? && stmts[i].rule.kind == Neverallow)
    ensures AddedBy(RulesBefore(stmts, i + 1), Neverallow, db) == AddedBy(RulesBefore(stmts, i), Neverallow, db)
  {
    var rules := RulesOf(stmts[i]);
    forall r | r in rules
      ensures r.kind != Neverallow
    {
    }
    NoneOfKind(RulesBefore(stmts, i), rules, Neverallow, db);
  }

  lemma {:induction false} NoneOfKind(before: seq<AvRule>, rules: seq<AvRule>, kind: Kind, db: Db)
    requires forall r :: r in rules ==> r.kind != kind
    ensures AddedBy(before + rules, kind, db) == AddedBy(before, kind, db)
    decreases |rules|
  {
    if rules == [] {
      assert before + rules == before;
    } else {
      var n := |rules| - 1;
      NoneOfKind(before, rules[..n], kind, db);
      assert (before + rules)[..|before + rules| - 1] == before + rules[..n];
    }
  }

  lemma {:induction false} AddedAt(rules: seq<AvRule>, k: nat, kind: Kind, db: Db)
    requires k < |rules| && ValidRule(rules[k], db) && rules[k].kind == kind
    ensures Added(rules[k], db) <= AddedBy(rules, kind, db)
    decreases |rules|
  {
    if k < |rules| - 1 {
      AddedAt(rules[..|rules| - 1], k, kind, db);
    }
  }

  // ---- What is granted and what is forbidden

  ghost function AllowedQuads(stmts: seq<Stmt>, db: Db): set<Quad> {
    AddedBy(RulesBefore(stmts, |stmts|), Allowed, db)
  }

  ghost function NeverallowQuads(stmts: seq<Stmt>, db: Db): set<Quad> {
    AddedBy(RulesBefore(stmts, |stmts|), Neverallow, db)
  }

  /** A rule of the statement adds an entry of a kind. */
  ghost predicate Adds(stmt: Stmt, kind: Kind, db: Db, q: Quad) {
    exists r :: r in RulesOf(stmt) && r.kind == kind && ValidRule(r, db) && q in Added(r, db)
  }

  lemma {:induction false} AddedByRule(rules: seq<AvRule>, kind: Kind, db: Db, q: Quad)
    ensures q in AddedBy(rules, kind, db) <==>
        exists r :: r in rules && r.kind == kind && ValidRule(r, db) && q in Added(r, db)
    decreases |rules|
  {
    hide ValidRule, Added;
    if rules != [] {
      AddedByRule(rules[..|rules| - 1], kind, db, q);
      assert rules == rules[..|rules| - 1] + [rules[|rules| - 1]];
    }
  }

  /** What statements allow, each of them allows. */
  lemma AddedByStatement(stmts: seq<Stmt>, db: Db, q: Quad)
    ensures q in AllowedQuads(stmts, db) <==> exists i :: 0 <= i < |stmts| && Adds(stmts[i], Allowed, db, q)
  {
    hide ValidRule, Added;
    var rules := RulesBefore(stmts, |stmts|);
    AddedByRule(rules, Allowed, db, q);
    if r :| r in rules && r.kind == Allowed && ValidRule(r, db) && q in Added(r, db) {
      RulesOfAll(stmts, |stmts|, r);
      var i :| 0 <= i < |stmts| && r in RulesOf(stmts[i]);
      assert Adds(stmts[i], Allowed, db, q);
    }
    if i :| 0 <= i < |stmts| && Adds(stmts[i], Allowed, db, q) {
      var r :| r in RulesOf(stmts[i]) && r.kind == Allowed && ValidRule(r, db) && q in Added(r, db);
      RulesOfAll(stmts, |stmts|, r);
    }
  }

  lemma NothingSaid(stmts: seq<Stmt>, db: Db, stored: set<Quad>)
    ensures SaidAlways(map[]) == {} == SaidSometimes([]) == AllSayings(stmts[..0], db)
    ensures Fine(Allowed, AllowedQuads(stmts[..0], db), stored, db.bitmaps)
  {
  }

  /** What the next statement adds. */
  lemma NextStatement(stmts: seq<Stmt>, i: nat, db: Db, stored: set<Quad>)
    requires ValidStmts(stmts, db) && i < |stmts|
    ensures ValidRules(RulesOf(stmts[i]), db)
    ensures AllSayings(stmts[..i + 1], db) ==
        AllSayings(stmts[..i], db) + SayingsOf(RulesOf(stmts[i]), stmts[i].Conditional?, db)
    ensures var added := AddedBy(RulesOf(stmts[i]), Allowed, db);
            && (Fine(Allowed, AllowedQuads(stmts[..i + 1], db), stored, db.bitmaps) <==>
                Fine(Allowed, AllowedQuads(stmts[..i], db), stored, db.bitmaps)
                && Fine(Allowed, added, stored, db.bitmaps))
            && (Fine(Allowed, AllowedQuads(stmts, db), stored, db.bitmaps) ==>
                Fine(Allowed, added, stored, db.bitmaps))
  {
    hide Adds, AddedBy, AllowedQuads, ValidRule, Blocked, SayingsOf;
    var next := stmts[..i + 1];
    assert next[..i] == stmts[..i] && next[i] == stmts[i];
    forall q: Quad
      ensures q in AllowedQuads(next, db) <==>
          q in AllowedQuads(stmts[..i], db) || q in AddedBy(RulesOf(stmts[i]), Allowed, db)
      ensures q in AddedBy(RulesOf(stmts[i]), Allowed, db) ==> q in AllowedQuads(stmts, db)
    {
      AddedByStatement(next, db, q);
      AddedByStatement(stmts[..i], db, q);
      AddedByStatement(stmts, db, q);
      AddedByOne(stmts[i], db, q);
    }
  }

  lemma AddedByOne(stmt: Stmt, db: Db, q: Quad)
    ensures q in AddedBy(RulesOf(stmt), Allowed, db) <==> Adds(stmt, Allowed, db, q)
  {
    AddedByRule(RulesOf(stmt), Allowed, db, q);
  }

  // ---- What the tables say

  lemma {:induction false} SaidByRule(rules: seq<AvRule>, conditional: bool, db: Db, x: Saying)
    ensures x in SayingsOf(rules, conditional, db) <==>
        x.1 == conditional && x.0 != Neverallow &&
        exists r :: r in rules && r.kind == x.0 && ValidRule(r, db) && x.2 in Added(r, db)
    decreases |rules|
  {
    hide ValidRule, Added;
    if rules != [] {
      SaidByRule(rules[..|rules| - 1], conditional, db, x);
      assert rules == rules[..|rules| - 1] + [rules[|rules| - 1]];
    }
  }

  /** Everything that the tables say comes from a rule of a statement. */
  lemma {:induction false} SaidByStatement(stmts: seq<Stmt>, db: Db, x: Saying)
    ensures x in AllSayings(stmts, db) <==>
        x.0 != Neverallow &&
        exists i :: 0 <= i < |stmts| && stmts[i].Conditional? == x.1 && Adds(stmts[i], x.0, db, x.2)
    decreases |stmts|
  {
    hide ValidRule, Added, SayingsOf;
    if stmts != [] {
      var n := |stmts| - 1;
      SaidByStatement(stmts[..n], db, x);
      SaidByRule(RulesOf(stmts[n]), stmts[n].Conditional?, db, x);
      assert stmts == stmts[..n] + [stmts[n]];
    }
  }

  /** What is granted always and what is granted sometimes are together what rules allow. */
  lemma SayingsTogether(stmts: seq<Stmt>, db: Db)
    ensures var said := AllSayings(stmts, db);
            OfKind(said, Allowed, false) + OfKind(said, Allowed, true) == AllowedQuads(stmts, db)
  {
    hide Adds, AllSayings, AllowedQuads;
    var said := AllSayings(stmts, db);
    forall q: Quad
      ensures q in AllowedQuads(stmts, db) <==> (Allowed, false, q) in said || (Allowed, true, q) in said
    {
      AddedByStatement(stmts, db, q);
      SaidByStatement(stmts, db, (Allowed, false, q));
      SaidByStatement(stmts, db, (Allowed, true, q));
    }
  }

  /** Some entry of the tables is about source type `s`, target type `t` and permission `p` of class `c`. */
  ghost predicate Accessible(quads: set<Quad>, db: Db, s: nat, t: nat, c: nat, p: nat) {
    exists q :: q in quads && PairCovers(db, q.0, q.1, s, t) && q.2 == c && q.3 == p
  }

  predicate PairCovers(db: Db, src: Datum, tgt: Datum, s: nat, t: nat) {
    && TypeMatch.Known(src, db.bitmaps) && TypeMatch.Known(tgt, db.bitmaps)
    && Covers(src, s, db.bitmaps) && Covers(tgt, t, db.bitmaps)
  }

  /** The pairs of a rule are about exactly what the rule is about. */
  lemma QuadsAbout(r: AvRule, db: Db, s: nat, t: nat, c: nat, p: nat)
    requires ValidRule(r, db)
    ensures Accessible(QuadsOf(r, db), db, s, t, c, p) <==> About(r, db, s, t, c, p)
  {
    if About(r, db, s, t, c, p) {
      var d := if r.tgt.Self? then (Type(s), Type(s)) else (r.src, r.tgt.datum);
      assert d in PairsOf(r, db) && (c, p) in PermsOf(r.perms);
      var q: Quad := (d.0, d.1, c, p);
      assert q in QuadsOf(r, db) && PairCovers(db, q.0, q.1, s, t);
    }
    if q :| q in QuadsOf(r, db) && PairCovers(db, q.0, q.1, s, t) && q.2 == c && q.3 == p {
      var d, cp :| d in PairsOf(r, db) && cp in PermsOf(r.perms) && q == (d.0, d.1, cp.0, cp.1);
      assert cp == (c, p);
    }
  }

  lemma AccessibleUnion(a: set<Quad>, b: set<Quad>, db: Db, s: nat, t: nat, c: nat, p: nat)
    ensures Accessible(a + b, db, s, t, c, p) <==> Accessible(a, db, s, t, c, p) || Accessible(b, db, s, t, c, p)
  {
    if q :| q in a && PairCovers(db, q.0, q.1, s, t) && q.2 == c && q.3 == p {
      assert q in a + b;
    }
    if q :| q in b && PairCovers(db, q.0, q.1, s, t) && q.2 == c && q.3 == p {
      assert q in a + b;
    }
  }

  ghost predicate SomeAbout(rules: seq<AvRule>, kind: Kind, db: Db, s: nat, t: nat, c: nat, p: nat)
    requires ValidRules(rules, db)
  {
    exists r :: r in rules && r.kind == kind && About(r, db, s, t, c, p)
  }

  lemma {:induction false} AddedAbout(rules: seq<AvRule>, kind: Kind, db: Db, s: nat, t: nat, c: nat, p: nat)
    requires ValidRules(rules, db)
    requires kind == Allowed || (kind == Neverallow && !db.disableNeverallow)
    ensures Accessible(AddedBy(rules, kind, db), db, s, t, c, p) <==> SomeAbout(rules, kind, db, s, t, c, p)
    decreases |rules|
  {
    hide Accessible, About, ValidRule, QuadsOf;
    if rules == [] {
      NothingAccessible(db, s, t, c, p);
    } else {
      var n := |rules| - 1;
      var r := rules[n];
      assert ValidRules(rules[..n], db);
      AddedAbout(rules[..n], kind, db, s, t, c, p);
      NothingAccessible(db, s, t, c, p);
      QuadsAbout(r, db, s, t, c, p);
      AccessibleUnion(AddedBy(rules[..n], kind, db), if r.kind == kind then Added(r, db) else {}, db, s, t, c, p);
      assert SomeAbout(rules, kind, db, s, t, c, p) <==>
             SomeAbout(rules[..n], kind, db, s, t, c, p) || (r.kind == kind && About(r, db, s, t, c, p));
    }
  }

  lemma NothingAccessible(db: Db, s: nat, t: nat, c: nat, p: nat)
    ensures !Accessible({}, db, s, t, c, p)
  {
  }

  lemma RulesOfAll(stmts: seq<Stmt>, n: nat, r: AvRule)
    requires n <= |stmts|
    ensures r in RulesBefore(stmts, n) <==> exists i :: 0 <= i < n && r in RulesOf(stmts[i])
  {
  }

  /** The tables hold exactly what some rule is about. */
  lemma TablesAbout(stmts: seq<Stmt>, kind: Kind, db: Db, s: nat, t: nat, c: nat, p: nat)
    requires ValidStmts(stmts, db)
    requires kind == Allowed || (kind == Neverallow && !db.disableNeverallow)
    ensures Accessible(AddedBy(RulesBefore(stmts, |stmts|), kind, db), db, s, t, c, p) <==>
        SomeRule(stmts, kind, db, s, t, c, p)
  {
    hide Accessible, About, ValidRule;
    var rules := RulesBefore(stmts, |stmts|);
    forall r
      ensures r in rules <==> exists i :: 0 <= i < |stmts| && r in RulesOf(stmts[i])
    {
      RulesOfAll(stmts, |stmts|, r);
    }
    AddedAbout(rules, kind, db, s, t, c, p);
  }

  /** Some rule of the kind, in a conditional or outside of conditionals, is about the access. */
  ghost predicate SomeRuleIn(stmts: seq<Stmt>, conditional: bool, kind: Kind, db: Db, s: nat, t: nat, c: nat, p: nat)
    requires ValidStmts(stmts, db)
  {
    exists i, r :: 0 <= i < |stmts| && stmts[i].Conditional? == conditional && r in RulesOf(stmts[i])
      && r.kind == kind && About(r, db, s, t, c, p)
  }

  /** What is granted in conditionals, or outside of them, is what the rules there are about. */
  lemma SayingsAbout(stmts: seq<Stmt>, conditional: bool, db: Db)
    requires ValidStmts(stmts, db)
    ensures forall s, t, c, p :: Accessible(OfKind(AllSayings(stmts, db), Allowed, conditional), db, s, t, c, p) <==>
        SomeRuleIn(stmts, conditional, Allowed, db, s, t, c, p)
  {
    hide About, ValidRule, AllSayings, PairCovers, QuadsOf;
    var quads := OfKind(AllSayings(stmts, db), Allowed, conditional);
    forall s, t, c, p
      ensures Accessible(quads, db, s, t, c, p) <==> SomeRuleIn(stmts, conditional, Allowed, db, s, t, c, p)
    {
      if q :| q in quads && PairCovers(db, q.0, q.1, s, t) && q.2 == c && q.3 == p {
        SaidByStatement(stmts, db, (Allowed, conditional, q));
        var i :| 0 <= i < |stmts| && stmts[i].Conditional? == conditional && Adds(stmts[i], Allowed, db, q);
        var r :| r in RulesOf(stmts[i]) && r.kind == Allowed && ValidRule(r, db) && q in Added(r, db);
        QuadsAbout(r, db, s, t, c, p);
      }
      if SomeRuleIn(stmts, conditional, Allowed, db, s, t, c, p) {
        var i, r :| 0 <= i < |stmts| && stmts[i].Conditional? == conditional && r in RulesOf(stmts[i])
          && r.kind == Allowed && About(r, db, s, t, c, p);
        QuadsAbout(r, db, s, t, c, p);
        var q :| q in QuadsOf(r, db) && PairCovers(db, q.0, q.1, s, t) && q.2 == c && q.3 == p;
        assert Adds(stmts[i], Allowed, db, q);
        SaidByStatement(stmts, db, (Allowed, conditional, q));
        assert (Allowed, conditional, q) in AllSayings(stmts, db);
      }
    }
  }

  // ---- The masks

  predicate SwitchedOff(r: AvRule, db: Db) {
    (r.kind == DontAudit && db.disableDontaudit) || (r.kind == Neverallow && db.disableNeverallow)
  }

  /** Some rule, in a conditional or outside of conditionals, is split into the pair of the key and names the
      permission. */
  ghost predicate Puts(stmts: seq<Stmt>, conditional: bool, db: Db, key: Key, p: nat)
    requires ValidStmts(stmts, db)
  {
    exists i, r :: 0 <= i < |stmts| && stmts[i].Conditional? == conditional && r in RulesOf(stmts[i])
      && r.kind == key.kind && !SwitchedOff(r, db)
      && (key.src, key.tgt) in PairsOf(r, db) && (key.cls, p) in PermsOf(r.perms)
  }

  ghost function PermsPut(stmts: seq<Stmt>, conditional: bool, db: Db, key: Key): set<nat>
    requires ValidStmts(stmts, db)
  {
    set p | p in AllPerms() && Puts(stmts, conditional, db, key, p)
  }

  /** The unconditional table has an entry exactly for each key that a rule outside of conditionals puts there. Its
      mask has the permissions of all those rules, or lacks exactly them if the rules are dontaudit rules. */
  ghost predicate TableFrom(avtab: map<Key, set<nat>>, stmts: seq<Stmt>, db: Db)
    requires ValidStmts(stmts, db)
  {
    forall key ::
      && (key in avtab <==> key.kind != Neverallow && PermsPut(stmts, false, db, key) != {})
      && (key in avtab ==> avtab[key] == if key.kind == DontAudit then AllPerms() - PermsPut(stmts, false, db, key)
                                         else PermsPut(stmts, false, db, key))
  }

  /** The entries of conditionals have exactly the permissions that rules in conditionals put there. */
  ghost predicate EntriesFrom(condAvtab: seq<(Key, set<nat>)>, stmts: seq<Stmt>, db: Db)
    requires ValidStmts(stmts, db)
  {
    && (forall j :: 0 <= j < |condAvtab| ==> EntryFine(condAvtab[j].0, condAvtab[j].1))
    && forall key: Key, p: nat :: key.kind != Neverallow ==>
         ((exists j :: 0 <= j < |condAvtab| && condAvtab[j].0 == key && p in Perms(key.kind, condAvtab[j].1)) <==>
          Puts(stmts, true, db, key, p))
  }

  lemma PutsAdded(stmts: seq<Stmt>, conditional: bool, db: Db, key: Key, p: nat)
    requires ValidStmts(stmts, db) && key.kind != Neverallow
    ensures Puts(stmts, conditional, db, key, p) <==>
        (key.kind, conditional, (key.src, key.tgt, key.cls, p)) in AllSayings(stmts, db)
    ensures Puts(stmts, conditional, db, key, p) ==> p in AllPerms()
  {
    hide ValidRule, AllSayings, PairsOf, PermsOf;
    var q: Quad := (key.src, key.tgt, key.cls, p);
    SaidByStatement(stmts, db, (key.kind, conditional, q));
    if Puts(stmts, conditional, db, key, p) {
      var i, r :| 0 <= i < |stmts| && stmts[i].Conditional? == conditional && r in RulesOf(stmts[i])
        && r.kind == key.kind && !SwitchedOff(r, db)
        && (key.src, key.tgt) in PairsOf(r, db) && (key.cls, p) in PermsOf(r.perms);
      PutsQuad(r, db, q);
      assert Adds(stmts[i], key.kind, db, q);
    }
    if i :| 0 <= i < |stmts| && stmts[i].Conditional? == conditional && Adds(stmts[i], key.kind, db, q) {
      var r :| r in RulesOf(stmts[i]) && r.kind == key.kind && ValidRule(r, db) && q in Added(r, db);
      PutsQuad(r, db, q);
    }
  }

  lemma PutsQuad(r: AvRule, db: Db, q: Quad)
    requires ValidRule(r, db)
    ensures q in Added(r, db) <==>
        !SwitchedOff(r, db) && (q.0, q.1) in PairsOf(r, db) && (q.2, q.3) in PermsOf(r.perms)
    ensures q in Added(r, db) ==> q.3 in AllPerms()
  {
    if (q.0, q.1) in PairsOf(r, db) && (q.2, q.3) in PermsOf(r.perms) {
      assert q in QuadsOf(r, db);
    }
    if q in QuadsOf(r, db) {
      var d, cp :| d in PairsOf(r, db) && cp in PermsOf(r.perms) && q == (d.0, d.1, cp.0, cp.1);
      assert d == (q.0, q.1) && cp == (q.2, q.3);
    }
  }

  lemma {:induction false} SometimesHas(condAvtab: seq<(Key, set<nat>)>, key: Key, p: nat)
    ensures (key.kind, true, (key.src, key.tgt, key.cls, p)) in SaidSometimes(condAvtab) <==>
        exists j :: 0 <= j < |condAvtab| && condAvtab[j].0 == key && p in Perms(key.kind, condAvtab[j].1)
    decreases |condAvtab|
  {
    if condAvtab != [] {
      var n := |condAvtab| - 1;
      SometimesHas(condAvtab[..n], key, p);
      assert condAvtab == condAvtab[..n] + [condAvtab[n]];
    }
  }

  /** Tables that say what the statements add have these entries and masks. */
  lemma TablesAreFrom(avtab: map<Key, set<nat>>, condAvtab: seq<(Key, set<nat>)>, stmts: seq<Stmt>, db: Db)
    requires ValidStmts(stmts, db) && MasksFine(avtab, condAvtab)
    requires SaidAlways(avtab) + SaidSometimes(condAvtab) == AllSayings(stmts, db)
    ensures TableFrom(avtab, stmts, db) && EntriesFrom(condAvtab, stmts, db)
  {
    hide ValidStmts, AllSayings, Puts;
    OnlySometimes(condAvtab);
    forall key: Key, p: nat | key.kind != Neverallow
      ensures (exists j :: 0 <= j < |condAvtab| && condAvtab[j].0 == key && p in Perms(key.kind, condAvtab[j].1)) <==>
          Puts(stmts, true, db, key, p)
    {
      SometimesHas(condAvtab, key, p);
      PutsAdded(stmts, true, db, key, p);
    }
    forall key
      ensures key in avtab <==> key.kind != Neverallow && PermsPut(stmts, false, db, key) != {}
      ensures key in avtab ==> Perms(key.kind, avtab[key]) == PermsPut(stmts, false, db, key)
    {
      KeyIsFrom(avtab, condAvtab, stmts, db, key);
    }
  }

  lemma {:induction false} OnlySometimes(condAvtab: seq<(Key, set<nat>)>)
    ensures forall x :: x in SaidSometimes(condAvtab) ==> x.1
    decreases |condAvtab|
  {
    if condAvtab != [] {
      OnlySometimes(condAvtab[..|condAvtab| - 1]);
    }
  }

  lemma KeyIsFrom(avtab: map<Key, set<nat>>, condAvtab: seq<(Key, set<nat>)>, stmts: seq<Stmt>, db: Db, key: Key)
    requires ValidStmts(stmts, db) && MasksFine(avtab, condAvtab)
    requires SaidAlways(avtab) + SaidSometimes(condAvtab) == AllSayings(stmts, db)
    ensures key in avtab <==> key.kind != Neverallow && PermsPut(stmts, false, db, key) != {}
    ensures key in avtab ==> Perms(key.kind, avtab[key]) == PermsPut(stmts, false, db, key)
  {
    hide ValidStmts, AllSayings, Puts, AllPerms, SaidSometimes;
    OnlySometimes(condAvtab);
    if key.kind != Neverallow {
      forall p
        ensures p in PermsPut(stmts, false, db, key) <==> key in avtab && p in Perms(key.kind, avtab[key])
      {
        PutsAdded(stmts, false, db, key, p);
        AlwaysHas(avtab, key, p);
      }
    }
    if key in avtab {
      assert EntryFine(key, avtab[key]);
      assert Perms(key.kind, avtab[key]) == PermsPut(stmts, false, db, key);
    }
  }

  lemma AlwaysHas(avtab: map<Key, set<nat>>, key: Key, p: nat)
    ensures (key.kind, false, (key.src, key.tgt, key.cls, p)) in SaidAlways(avtab) <==>
        key in avtab && p in Perms(key.kind, avtab[key])
  {
    hide Perms;
    var x: Saying := (key.kind, false, (key.src, key.tgt, key.cls, p));
    if x in SaidAlways(avtab) {
      var key', p' :| key' in avtab && p' in Perms(key'.kind, avtab[key'])
        && (key'.kind, false, (key'.src, key'.tgt, key'.cls, p')) == x;
      assert key' == key;
    }
  }

  // ---- Conflicts and empty attributes

  /** All attributes that rules name have types. */
  ghost predicate NoneEmpty(stmts: seq<Stmt>, db: Db)
    requires ValidStmts(stmts, db)
  {
    forall i, r :: 0 <= i < |stmts| && r in RulesOf(stmts[i]) ==>
        Inhabited(r.src, db) && (r.tgt.Other? ==> Inhabited(r.tgt.datum, db))
  }

  ghost predicate Inhabited(d: Datum, db: Db) {
    exists x: nat :: TypeMatch.Known(d, db.bitmaps) && Covers(d, x, db.bitmaps)
  }

  /** An access that a rule allows and a neverallow rule forbids is noticed. */
  lemma ConflictIsBlocked(stmts: seq<Stmt>, db: Db, s: nat, t: nat, c: nat, p: nat) returns (q: Quad)
    requires ValidStmts(stmts, db) && !db.disableNeverallow
    requires SomeRule(stmts, Allowed, db, s, t, c, p) && SomeRule(stmts, Neverallow, db, s, t, c, p)
    ensures q in AllowedQuads(stmts, db) && Blocked(NeverallowQuads(stmts, db), q, db.bitmaps)
  {
    hide ValidStmts, SomeRule, AddedBy;
    TablesAbout(stmts, Allowed, db, s, t, c, p);
    TablesAbout(stmts, Neverallow, db, s, t, c, p);
    q :| q in AllowedQuads(stmts, db) && PairCovers(db, q.0, q.1, s, t) && q.2 == c && q.3 == p;
    var n :| n in NeverallowQuads(stmts, db) && PairCovers(db, n.0, n.1, s, t) && n.2 == c && n.3 == p;
    CoveredBothHit(n, q, db, s, t);
  }

  lemma CoveredBothHit(n: Quad, q: Quad, db: Db, s: nat, t: nat)
    requires PairCovers(db, q.0, q.1, s, t) && PairCovers(db, n.0, n.1, s, t) && n.2 == q.2 && n.3 == q.3
    ensures Hits(n, q, db.bitmaps)
  {
    assert Overlap(q.0, n.0, db.bitmaps) && Overlap(q.1, n.1, db.bitmaps);
  }

  lemma {:induction false} QuadsInhabited(rules: seq<AvRule>, kind: Kind, db: Db)
    requires forall r :: r in rules && ValidRule(r, db) ==>
        Inhabited(r.src, db) && (r.tgt.Other? ==> Inhabited(r.tgt.datum, db))
    ensures forall q :: q in AddedBy(rules, kind, db) ==> Inhabited(q.0, db) && Inhabited(q.1, db)
    decreases |rules|
  {
    hide Inhabited, ValidRule;
    if rules != [] {
      var r := rules[|rules| - 1];
      QuadsInhabited(rules[..|rules| - 1], kind, db);
      if ValidRule(r, db) {
        RuleInhabited(r, db);
      }
    }
  }

  lemma RuleInhabited(r: AvRule, db: Db)
    requires ValidRule(r, db) && Inhabited(r.src, db) && (r.tgt.Other? ==> Inhabited(r.tgt.datum, db))
    ensures forall q :: q in QuadsOf(r, db) ==> Inhabited(q.0, db) && Inhabited(q.1, db)
  {
    forall q | q in QuadsOf(r, db)
      ensures Inhabited(q.0, db) && Inhabited(q.1, db)
    {
      if r.tgt.Self? {
        assert q.0.Type? && Covers(q.0, q.0.value, db.bitmaps);
      }
    }
  }

  /** An access is allowed by one rule and forbidden by another. */
  ghost predicate Conflict(stmts: seq<Stmt>, db: Db)
    requires ValidStmts(stmts, db)
  {
    exists s, t, c, p :: SomeRule(stmts, Allowed, db, s, t, c, p) && SomeRule(stmts, Neverallow, db, s, t, c, p)
  }

  /** The same attribute twice, without types. */
  ghost predicate SameEmpty(a: Datum, b: Datum, db: Db) {
    a == b && !Inhabited(a, db)
  }

  /** An entry of a neverallow rule hits an allowed one with an attribute without types as source or target of
      both. */
  ghost predicate HitsEmpty(n: Quad, q: Quad, db: Db) {
    Hits(n, q, db.bitmaps) && (SameEmpty(q.0, n.0, db) || SameEmpty(q.1, n.1, db))
  }

  ghost predicate EmptyHit(stmts: seq<Stmt>, db: Db) {
    exists n, q :: n in NeverallowQuads(stmts, db) && q in AllowedQuads(stmts, db) && HitsEmpty(n, q, db)
  }

  /** Data that match, not just as the same empty attribute, have a type in common. */
  lemma MatchSharesType(a: Datum, b: Datum, db: Db) returns (x: nat)
    requires Matches(a, b, db.bitmaps) && !SameEmpty(a, b, db)
    ensures TypeMatch.Known(a, db.bitmaps) && TypeMatch.Known(b, db.bitmaps)
    ensures Covers(a, x, db.bitmaps) && Covers(b, x, db.bitmaps)
  {
    if a == b {
      x :| TypeMatch.Known(a, db.bitmaps) && Covers(a, x, db.bitmaps);
    } else {
      x :| Covers(a, x, db.bitmaps) && Covers(b, x, db.bitmaps);
    }
  }

  /** Where no empty attribute is hit, only a real conflict is refused. */
  lemma BlockedIsConflict(stmts: seq<Stmt>, db: Db, q: Quad) returns (s: nat, t: nat)
    requires ValidStmts(stmts, db) && !EmptyHit(stmts, db) && !db.disableNeverallow
    requires q in AllowedQuads(stmts, db) && Blocked(NeverallowQuads(stmts, db), q, db.bitmaps)
    ensures SomeRule(stmts, Allowed, db, s, t, q.2, q.3) && SomeRule(stmts, Neverallow, db, s, t, q.2, q.3)
  {
    hide ValidStmts, NoneEmpty, SomeRule, AddedBy, Inhabited, Matches;
    var n :| n in NeverallowQuads(stmts, db) && Hits(n, q, db.bitmaps);
    assert !HitsEmpty(n, q, db);
    s := MatchSharesType(q.0, n.0, db);
    t := MatchSharesType(q.1, n.1, db);
    assert Accessible(AllowedQuads(stmts, db), db, s, t, q.2, q.3);
    assert Accessible(NeverallowQuads(stmts, db), db, s, t, q.2, q.3);
    TablesAbout(stmts, Allowed, db, s, t, q.2, q.3);
    TablesAbout(stmts, Neverallow, db, s, t, q.2, q.3);
  }

  /** Where the attributes of all rules have types, no empty attribute is hit. */
  lemma NoneEmptyIsNotHit(stmts: seq<Stmt>, db: Db)
    requires ValidStmts(stmts, db) && NoneEmpty(stmts, db)
    ensures !EmptyHit(stmts, db)
  {
    RulesInhabited(stmts, db);
  }

  lemma RulesInhabited(stmts: seq<Stmt>, db: Db)
    requires ValidStmts(stmts, db) && NoneEmpty(stmts, db)
    ensures forall q :: q in AllowedQuads(stmts, db) ==> Inhabited(q.0, db) && Inhabited(q.1, db)
    ensures forall q :: q in NeverallowQuads(stmts, db) ==> Inhabited(q.0, db) && Inhabited(q.1, db)
  {
    hide Inhabited, ValidRule;
    var rules := RulesBefore(stmts, |stmts|);
    forall r
      ensures r in rules <==> exists i :: 0 <= i < |stmts| && r in RulesOf(stmts[i])
    {
      RulesOfAll(stmts, |stmts|, r);
    }
    QuadsInhabited(rules, Allowed, db);
    QuadsInhabited(rules, Neverallow, db);
  }

  lemma {:induction false} NothingWhenOff(rules: seq<AvRule>, db: Db)
    requires db.disableNeverallow
    ensures AddedBy(rules, Neverallow, db) == {}
    decreases |rules|
  {
    if rules != [] {
      NothingWhenOff(rules[..|rules| - 1], db);
    }
  }

  /** What the outcome of the two passes says about the rules. */
  lemma BuildOutcome(stmts: seq<Stmt>, db: Db, ok: bool)
    requires ValidStmts(stmts, db)
    requires ok <==> Fine(Allowed, AllowedQuads(stmts, db), NeverallowQuads(stmts, db), db.bitmaps)
    ensures forall s, t, c, p :: Accessible(AllowedQuads(stmts, db), db, s, t, c, p) <==>
        SomeRule(stmts, Allowed, db, s, t, c, p)
    ensures ok && !db.disableNeverallow ==>
              forall s, t, c, p :: SomeRule(stmts, Allowed, db, s, t, c, p) ==>
                  !SomeRule(stmts, Neverallow, db, s, t, c, p)
    ensures !db.disableNeverallow ==> (ok <==> !Conflict(stmts, db) && !EmptyHit(stmts, db))
    ensures NoneEmpty(stmts, db) ==> !EmptyHit(stmts, db)
    ensures db.disableNeverallow ==> ok
  {
    forall s, t, c, p
      ensures Accessible(AllowedQuads(stmts, db), db, s, t, c, p) <==> SomeRule(stmts, Allowed, db, s, t, c, p)
    {
      TablesAbout(stmts, Allowed, db, s, t, c, p);
    }
    if NoneEmpty(stmts, db) {
      NoneEmptyIsNotHit(stmts, db);
    }
    if EmptyHit(stmts, db) {
      var n, q :| n in NeverallowQuads(stmts, db) && q in AllowedQuads(stmts, db) && HitsEmpty(n, q, db);
      assert Blocked(NeverallowQuads(stmts, db), q, db.bitmaps);
    }
    hide ValidStmts, SomeRule, Blocked, AllowedQuads, Accessible, NoneEmpty, EmptyHit;
    if db.disableNeverallow {
      NothingWhenOff(RulesBefore(stmts, |stmts|), db);
      NothingBlocked(AllowedQuads(stmts, db), db.bitmaps);
    } else if ok {
      forall s, t, c, p | SomeRule(stmts, Allowed, db, s, t, c, p)
        ensures !SomeRule(stmts, Neverallow, db, s, t, c, p)
      {
        if SomeRule(stmts, Neverallow, db, s, t, c, p) {
          var q := ConflictIsBlocked(stmts, db, s, t, c, p);
        }
      }
    } else if !EmptyHit(stmts, db) {
      var q :| q in AllowedQuads(stmts, db) && Blocked(NeverallowQuads(stmts, db), q, db.bitmaps);
      var s, t := BlockedIsConflict(stmts, db, q);
    }
  }

  lemma NothingBlocked(quads: set<Quad>, bitmaps: map<nat, Bitmap>)
    ensures forall q :: q in quads ==> !Blocked({}, q, bitmaps)
  {
  }

  /** A rule on an attribute for itself. */
  function OnItself(kind: Kind, a: nat, c: nat, p: nat): Stmt {
    Rule(AvRule(kind, Attribute(a), Other(Attribute(a)), [Kernel(c, [p])]))
  }

  /** Such a rule is valid, adds its entry, and is about no access if the attribute is empty. */
  lemma ItsEntry(kind: Kind, a: nat, c: nat, p: nat, db: Db)
    requires a in db.bitmaps && db.bitmaps[a] == [] && 1 <= p <= 32
    ensures ValidRule(OnItself(kind, a, c, p).rule, db)
    ensures (Attribute(a), Attribute(a), c, p) in QuadsOf(OnItself(kind, a, c, p).rule, db)
    ensures forall s, t, c', p' :: !About(OnItself(kind, a, c, p).rule, db, s, t, c', p')
  {
    var list := [Kernel(c, [p])];
    assert PermsOf(list) == PermsOf(list[..0]) + PermsIn(list[0]) && PermsOf(list[..0]) == {} && p in [p];
    assert (c, p) in PermsOf(list);
  }

  /** Two rules, each a statement, and what they add. */
  lemma TwoRules(allow: AvRule, never: AvRule, db: Db)
    requires ValidBitmaps(db.bitmaps) && ValidRule(allow, db) && ValidRule(never, db) && !db.disableNeverallow
    requires allow.kind == Allowed && never.kind == Neverallow
    ensures var stmts := [Rule(allow), Rule(never)];
            && ValidStmts(stmts, db)
            && QuadsOf(allow, db) <= AllowedQuads(stmts, db)
            && QuadsOf(never, db) <= NeverallowQuads(stmts, db)
  {
    var stmts := [Rule(allow), Rule(never)];
    TwoRulesBefore(allow, never);
    AddedAt([allow, never], 0, Allowed, db);
    AddedAt([allow, never], 1, Neverallow, db);
    hide ValidRule, QuadsOf, RulesBefore, AddedBy;
    assert AllowedQuads(stmts, db) == AddedBy([allow, never], Allowed, db);
    assert NeverallowQuads(stmts, db) == AddedBy([allow, never], Neverallow, db);
  }

  lemma TwoRulesBefore(r1: AvRule, r2: AvRule)
    ensures RulesBefore([Rule(r1), Rule(r2)], 2) == [r1, r2]
  {
    var stmts := [Rule(r1), Rule(r2)];
    assert RulesBefore(stmts, 0) == [] && RulesBefore(stmts, 1) == [r1];
  }

  /** An attribute without types, one rule that allows it something for itself and one that forbids it: no access is
      concerned, and the build is refused. */
  lemma EmptyAttributeIsRefused(a: nat, c: nat, p: nat, db: Db)
    requires ValidBitmaps(db.bitmaps) && a in db.bitmaps && db.bitmaps[a] == [] && 1 <= p <= 32
    requires !db.disableNeverallow
    ensures var stmts := [OnItself(Allowed, a, c, p), OnItself(Neverallow, a, c, p)];
            ValidStmts(stmts, db) && !Conflict(stmts, db) && EmptyHit(stmts, db)
  {
    var stmts := [OnItself(Allowed, a, c, p), OnItself(Neverallow, a, c, p)];
    var q: Quad := (Attribute(a), Attribute(a), c, p);
    ItsEntry(Allowed, a, c, p, db);
    ItsEntry(Neverallow, a, c, p, db);
    TwoRules(stmts[0].rule, stmts[1].rule, db);
    hide AllowedQuads, NeverallowQuads, QuadsOf, ValidRule, About, PermsOf;
    assert HitsEmpty(q, q, db);
  }
}
