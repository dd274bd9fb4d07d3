/** Full names of declarations in blocks, and finding declarations by them. */
module QualifiedNames {
  import opened Common

  const MAX_NAME_LENGTH := 2048

  // The tables of a block, one for each kind of symbol. Table 0 holds the blocks.
  const SYM_CLASSPERMSETS := 6
  const SYM_CONTEXTS := 12
  const SYM_LEVELRANGES := 14
  const SYM_POLICYCAPS := 15
  const SYM_IPADDRS := 16
  const SYM_NAMES := 17
  const SYM_NUM := 18

  /** Symbols of these kinds get full names: users, roles, types, commons, classes, booleans, tunables,
      sensitivities, categories, sids and levels. */
  predicate Qualifies(kind: int): (r: bool)
    ensures r <==> kind in {1, 2, 3, 4, 5, 7, 8, 9, 10, 11, 13}
  {
    && 1 <= kind < SYM_NUM
    && kind !in {SYM_CLASSPERMSETS, SYM_CONTEXTS, SYM_LEVELRANGES, SYM_POLICYCAPS, SYM_IPADDRS, SYM_NAMES}
  }

  class Datum {
    const name: string
    /** What an alias stands for. */
    const actual: Datum?
    var fqn: string

    constructor (name: string, actual: Datum?)
      ensures this.name == name && this.actual == actual && fqn == name
    {
      this.name, this.actual, fqn := name, actual, name;
    }
  }

  /** The symbol tables of the root or of a block; `tables[0]` is not used. */
  datatype Scope = Scope(tables: seq<seq<Datum>>, blocks: seq<Entry>)

  /** An entry of the table of blocks: a block, or something else that has its name there. */
  datatype Entry = Entry(name: string, isBlock: bool, scope: Scope)

  // ---- Names

  predicate Alpha(c: char) { 'a' <= c <= 'z' || 'A' <= c <= 'Z' }

  predicate NameChar(c: char) { Alpha(c) || '0' <= c <= '9' || c == '_' || c == '-' }

  predicate ValidName(name: string) {
    && 0 < |name| < MAX_NAME_LENGTH && Alpha(name[0])
    && forall k :: 1 <= k < |name| ==> NameChar(name[k])
  }

  method VerifyName(name: string) returns (ok: bool)
    ensures ok <==> ValidName(name)
  {
    if |name| >= MAX_NAME_LENGTH {
      return false;
    }
    if |name| == 0 || !Alpha(name[0]) {
      return false;
    }
    var i := 1;
    while i < |name|
      invariant 1 <= i <= |name| && forall k :: 1 <= k < i ==> NameChar(name[k])
    {
      if !NameChar(name[i]) {
        return false;
      }
      i := i + 1;
    }
    return true;
  }

  predicate Dotless(s: string) {
    s != "" && forall k :: 0 <= k < |s| ==> s[k] != '.'
  }

  lemma ValidNameIsDotless(name: string)
    requires ValidName(name)
    ensures Dotless(name)
  {
    assert forall k :: 0 <= k < |name| ==> NameChar(name[k]);
  }

  /** The prefix for the names in a block. */
  function Prefix(path: seq<string>): string {
    if path == [] then "" else path[0] + "." + Prefix(path[1..])
  }

  function FullName(path: seq<string>, name: string): string {
    Prefix(path) + name
  }

  predicate AllDotless(path: seq<string>) {
    forall k :: 0 <= k < |path| ==> Dotless(path[k])
  }

  /** The place of the first dot, if there is one. */
  function FirstDot(s: string): (n: nat)
    ensures n <= |s|
  {
    if s == "" || s[0] == '.' then 0 else 1 + FirstDot(s[1..])
  }

  lemma {:induction false} FirstDotAfter(s: string, rest: string)
    requires forall k :: 0 <= k < |s| ==> s[k] != '.'
    requires rest == "" || rest[0] == '.'
    ensures FirstDot(s + rest) == |s|
  {
    if s == "" {
      assert s + rest == rest;
    } else {
      FirstDotAfter(s[1..], rest);
      assert (s + rest)[1..] == s[1..] + rest;
    }
  }

  /** What the first component of a full name is. */
  lemma FullNameStart(path: seq<string>, name: string)
    requires AllDotless(path) && Dotless(name)
    ensures var s := FullName(path, name);
            var n := FirstDot(s);
            if path == [] then n == |s| && s == name
            else n < |s| && s[..n] == path[0] && s[n] == '.' && s[n + 1..] == FullName(path[1..], name)
  {
    var s := FullName(path, name);
    if path == [] {
      FirstDotAfter(name, "");
      assert name + "" == name;
      assert s == name;
    } else {
      var rest := FullName(path[1..], name);
      assert s == path[0] + ("." + rest);
      FirstDotAfter(path[0], "." + rest);
    }
  }

  /** Declarations in different blocks, or with different names, have different full names. */
  lemma {:induction false} FullNameIsInjective(path: seq<string>, name: string, path': seq<string>, name': string)
    requires AllDotless(path) && Dotless(name) && AllDotless(path') && Dotless(name')
    requires FullName(path, name) == FullName(path', name')
    ensures path == path' && name == name'
    decreases |path|
  {
    FullNameStart(path, name);
    FullNameStart(path', name');
    if path != [] {
      FullNameIsInjective(path[1..], name, path'[1..], name');
      assert path == [path[0]] + path[1..] && path' == [path'[0]] + path'[1..];
    }
  }

  /** The names that are accepted for blocks and declarations can be told apart in this way. */
  lemma ValidNamesDiffer(path: seq<string>, name: string, path': seq<string>, name': string)
    requires ValidName(name) && (forall k :: 0 <= k < |path| ==> ValidName(path[k]))
    requires ValidName(name') && (forall k :: 0 <= k < |path'| ==> ValidName(path'[k]))
    ensures FullName(path, name) == FullName(path', name') <==> path == path' && name == name'
  {
    forall s | s in path + [name] + path' + [name'] ensures Dotless(s) {
      ValidNameIsDotless(s);
    }
    assert forall k :: 0 <= k < |path| ==> path[k] in path + [name] + path' + [name'];
    assert forall k :: 0 <= k < |path'| ==> path'[k] in path + [name] + path' + [name'];
    assert name in path + [name] + path' + [name'] && name' in path + [name] + path' + [name'];
    if FullName(path, name) == FullName(path', name') {
      FullNameIsInjective(path, name, path', name');
    }
  }

  // ---- Giving the names

  ghost predicate WellFormed(blocks: seq<Entry>) {
    forall k :: 0 <= k < |blocks| ==> |blocks[k].scope.tables| == SYM_NUM && WellFormed(blocks[k].scope.blocks)
  }

  /** The declarations in the tables of a block that get full names. */
  ghost function TableDecls(scope: Scope): set<Datum> {
    set kind, d | 0 <= kind < |scope.tables| && Qualifies(kind) && d in scope.tables[kind] :: d
  }

  ghost function EntryDecls(e: Entry): set<Datum> {
    if e.isBlock then TableDecls(e.scope) + Decls(e.scope.blocks) else {}
  }

  ghost function Decls(blocks: seq<Entry>): set<Datum> {
    set k, d | 0 <= k < |blocks| && d in EntryDecls(blocks[k]) :: d
  }

  /** No declaration is in two tables of different blocks. */
  ghost predicate Apart(blocks: seq<Entry>) {
    && (forall k :: 0 <= k < |blocks| ==> EntryApart(blocks[k]))
    && (forall j, k :: 0 <= j < k < |blocks| ==> EntryDecls(blocks[j]) !! EntryDecls(blocks[k]))
  }

  ghost predicate EntryApart(e: Entry) {
    TableDecls(e.scope) !! Decls(e.scope.blocks) && Apart(e.scope.blocks)
  }

  /** All names in the tables fit in a buffer, behind a prefix of this length. */
  predicate TablesFit(scope: Scope, len: nat) {
    forall kind :: 0 <= kind < |scope.tables| && Qualifies(kind) ==> TableFits(scope.tables[kind], len)
  }

  predicate TableFits(table: seq<Datum>, len: nat) {
    forall i :: 0 <= i < |table| ==> len + |table[i].name| < MAX_NAME_LENGTH
  }

  predicate EntryFits(e: Entry, len: nat) {
    e.isBlock ==>
      var inner := len + |e.name| + 1;
      inner < MAX_NAME_LENGTH && TablesFit(e.scope, inner) && Fit(e.scope.blocks, inner)
  }

  predicate Fit(blocks: seq<Entry>, len: nat) {
    forall k :: 0 <= k < |blocks| ==> EntryFits(blocks[k], len)
  }

  ghost predicate TablesNamed(scope: Scope, prefix: string)
    reads TableDecls(scope)
  {
    forall d <- TableDecls(scope) :: d.fqn == prefix + d.name
  }

  ghost predicate EntryNamed(e: Entry, prefix: string)
    reads EntryDecls(e)
    decreases e
  {
    e.isBlock ==>
      TablesNamed(e.scope, prefix + e.name + ".") && Named(e.scope.blocks, prefix + e.name + ".")
  }

  ghost predicate Named(blocks: seq<Entry>, prefix: string)
    reads Decls(blocks)
    decreases blocks
  {
    forall k :: 0 <= k < |blocks| ==> EntryNamed(blocks[k], prefix)
  }

  /** Appends to a string in a buffer. The result and its terminator fit. */
  method Strcat(s: string, t: string) returns (r: string)
    requires |s| + |t| + 1 <= MAX_NAME_LENGTH
    ensures r == s + t
  {
    r := s + t;
  }

  /** Names the declarations of a table. */
  method QualifyDecls(table: seq<Datum>, prefix: string, len: nat) returns (ok: bool)
    requires len == |prefix|
    modifies set d | len > 0 && d in table
    ensures ok <==> len == 0 || TableFits(table, len)
    ensures ok && len > 0 ==> forall d <- table :: d.fqn == prefix + d.name
  {
    if len == 0 {
      return true;
    }
    var i := 0;
    while i < |table|
      invariant 0 <= i <= |table|
      invariant forall k :: 0 <= k < i ==> len + |table[k].name| < MAX_NAME_LENGTH
      invariant forall k :: 0 <= k < i ==> table[k].fqn == prefix + table[k].name
    {
      var newlen := len + |table[i].name|;
      if newlen >= MAX_NAME_LENGTH {
        return false;
      }
      table[i].fqn := Strcat(prefix, table[i].name);
      i := i + 1;
    }
    ok := true;
  }

  /** Names the declarations of a block and of the blocks inside it. */
  method QualifyBlock(e: Entry, prefix: string, len: nat) returns (ok: bool)
    requires len == |prefix| && |e.scope.tables| == SYM_NUM && WellFormed(e.scope.blocks) && EntryApart(e)
    modifies EntryDecls(e)
    ensures ok <==> EntryFits(e, len)
    ensures ok ==> EntryNamed(e, prefix)
    decreases e
  {
    if !e.isBlock {
      return true;
    }
    var newlen := len + |e.name| + 1;
    if newlen >= MAX_NAME_LENGTH {
      return false;
    }
    var inner := Strcat(prefix, e.name);
    inner := Strcat(inner, ".");
    ok := QualifyTables(e.scope, inner, newlen);
    if ok {
      ok := QualifyBlocks(e.scope.blocks, inner, newlen);
    }
  }

  /** Names the declarations of all tables of a block that hold symbols of the policy. */
  method QualifyTables(scope: Scope, prefix: string, len: nat) returns (ok: bool)
    requires len == |prefix| > 0 && |scope.tables| == SYM_NUM
    modifies TableDecls(scope)
    ensures ok <==> TablesFit(scope, len)
    ensures ok ==> TablesNamed(scope, prefix)
  {
    var i := 1;
    while i < SYM_NUM
      invariant 1 <= i <= SYM_NUM
      invariant forall kind :: 0 <= kind < i && Qualifies(kind) ==> TableFits(scope.tables[kind], len)
      invariant forall kind :: 0 <= kind < i && Qualifies(kind) ==>
                  forall d <- scope.tables[kind] :: d.fqn == prefix + d.name
    {
      if Qualifies(i) {
        ok := QualifyDecls(scope.tables[i], prefix, len);
        if !ok {
          return;
        }
      }
      i := i + 1;
    }
    ok := true;
  }

  method QualifyBlocks(blocks: seq<Entry>, prefix: string, len: nat) returns (ok: bool)
    requires len == |prefix| && WellFormed(blocks) && Apart(blocks)
    modifies Decls(blocks)
    ensures ok <==> Fit(blocks, len)
    ensures ok ==> Named(blocks, prefix)
    decreases blocks
  {
    hide EntryFits, EntryNamed;
    var k := 0;
    while k < |blocks|
      invariant 0 <= k <= |blocks|
      invariant forall j :: 0 <= j < k ==> EntryFits(blocks[j], len)
      invariant forall j :: 0 <= j < k ==> EntryNamed(blocks[j], prefix)
    {
      assert forall j :: 0 <= j < k ==>
          EntryDecls(blocks[j]) !! EntryDecls(blocks[k]) && allocated(EntryDecls(blocks[j]));
      ok := QualifyBlock(blocks[k], prefix, len);
      if !ok {
        return;
      }
      k := k + 1;
    }
    ok := true;
  }

  /** Names everything that is declared in blocks. What is declared outside of them keeps its name. */
  method Qualify(root: Scope) returns (ok: bool)
    requires WellFormed(root.blocks) && Apart(root.blocks)
    modifies Decls(root.blocks)
    ensures ok <==> Fit(root.blocks, 0)
    ensures ok <==> forall path :: BlockAt(root.blocks, path) ==> AllShort(root.blocks, path, 0)
    ensures ok ==> Named(root.blocks, "")
  {
    ok := QualifyBlocks(root.blocks, "", 0);
    FitMeansShort(root.blocks, 0);
  }

  /** The path leads, by places in the tables of blocks, to a block. */
  predicate BlockAt(blocks: seq<Entry>, path: seq<nat>)
    decreases |path|
  {
    && path != [] && path[0] < |blocks| && blocks[path[0]].isBlock
    && (|path| > 1 ==> BlockAt(blocks[path[0]].scope.blocks, path[1..]))
  }

  /** The names of the blocks along a path, and the tables at its end. */
  function NamesAlong(blocks: seq<Entry>, path: seq<nat>): seq<string>
    requires BlockAt(blocks, path)
    decreases |path|
  {
    [blocks[path[0]].name] + if |path| == 1 then [] else NamesAlong(blocks[path[0]].scope.blocks, path[1..])
  }

  function TablesAt(blocks: seq<Entry>, path: seq<nat>): seq<seq<Datum>>
    requires BlockAt(blocks, path)
    decreases |path|
  {
    if |path| == 1 then blocks[path[0]].scope.tables else TablesAt(blocks[path[0]].scope.blocks, path[1..])
  }

  /** The prefix of a block is shorter than the limit, and so are the full names of its declarations. */
  predicate AllShort(blocks: seq<Entry>, path: seq<nat>, len: nat)
    requires BlockAt(blocks, path)
  {
    var names, tables := NamesAlong(blocks, path), TablesAt(blocks, path);
    && len + |Prefix(names)| < MAX_NAME_LENGTH
    && forall kind, i :: 0 <= kind < |tables| && Qualifies(kind) && 0 <= i < |tables[kind]| ==>
         len + |FullName(names, tables[kind][i].name)| < MAX_NAME_LENGTH
  }

  /** Everything fits exactly if everything is short, in every block. */
  lemma {:induction false} FitMeansShort(blocks: seq<Entry>, len: nat)
    ensures Fit(blocks, len) <==> forall path :: BlockAt(blocks, path) ==> AllShort(blocks, path, len)
    decreases blocks
  {
    hide EntryFits, AllShort;
    forall k | 0 <= k < |blocks|
      ensures EntryFits(blocks[k], len) <==>
          forall path :: BlockAt(blocks, path) && path[0] == k ==> AllShort(blocks, path, len)
    {
      EntryFitsMeansShort(blocks, k, len);
    }
  }

  lemma {:induction false} EntryFitsMeansShort(blocks: seq<Entry>, k: nat, len: nat)
    requires k < |blocks|
    ensures EntryFits(blocks[k], len) <==>
        forall path :: BlockAt(blocks, path) && path[0] == k ==> AllShort(blocks, path, len)
    decreases blocks[k]
  {
    var e := blocks[k];
    if e.isBlock {
      var inner := len + |e.name| + 1;
      assert Prefix([e.name]) == e.name + "." by { assert [e.name][1..] == []; }
      assert BlockAt(blocks, [k]) && NamesAlong(blocks, [k]) == [e.name];
      assert AllShort(blocks, [k], len) <==> inner < MAX_NAME_LENGTH && TablesFit(e.scope, inner);
      FitMeansShort(e.scope.blocks, inner);
      forall path | BlockAt(e.scope.blocks, path)
        ensures BlockAt(blocks, [k] + path) && (AllShort(blocks, [k] + path, len) <==>
            AllShort(e.scope.blocks, path, inner))
      {
        LongerPath(blocks, k, path, len);
      }
      hide AllShort, TablesFit, TableFits;
      if EntryFits(e, len) {
        forall path | BlockAt(blocks, path) && path[0] == k ensures AllShort(blocks, path, len) {
          if |path| == 1 {
            assert path == [k];
          } else {
            assert path == [k] + path[1..];
          }
        }
      }
    }
  }

  lemma LongerPath(blocks: seq<Entry>, k: nat, path: seq<nat>, len: nat)
    requires k < |blocks| && blocks[k].isBlock && BlockAt(blocks[k].scope.blocks, path)
    ensures BlockAt(blocks, [k] + path)
    ensures AllShort(blocks, [k] + path, len) <==>
        AllShort(blocks[k].scope.blocks, path, len + |blocks[k].name| + 1)
  {
    assert ([k] + path)[1..] == path;
    var names := NamesAlong(blocks[k].scope.blocks, path);
    var longer := NamesAlong(blocks, [k] + path);
    assert longer == [blocks[k].name] + names && longer[1..] == names;
    assert |Prefix(longer)| == |blocks[k].name| + 1 + |Prefix(names)|;
    assert TablesAt(blocks, [k] + path) == TablesAt(blocks[k].scope.blocks, path);
    assert forall name :: |FullName(longer, name)| == |blocks[k].name| + 1 + |FullName(names, name)|;
    hide Prefix, FullName, Qualifies;
  }

  // ---- Finding declarations

  predicate DistinctNames(table: seq<Datum>) {
    forall j, k :: 0 <= j < k < |table| ==> table[j].name != table[k].name
  }

  function FindEntry(blocks: seq<Entry>, name: string): Option<Entry> {
    if blocks == [] then None else if blocks[0].name == name then Some(blocks[0]) else FindEntry(blocks[1..], name)
  }

  function FindDatum(table: seq<Datum>, name: string): Option<Datum> {
    if table == [] then None else if table[0].name == name then Some(table[0]) else FindDatum(table[1..], name)
  }

  lemma {:induction false} FindsDatum(table: seq<Datum>, d: Datum)
    requires DistinctNames(table) && d in table
    ensures FindDatum(table, d.name) == Some(d)
  {
    if table[0] == d {
    } else {
      FindsDatum(table[1..], d);
    }
  }

  /** The pieces between dots; empty ones are skipped. */
  function Tokens(s: string): seq<string> {
    if s == "" then []
    else if s[0] == '.' then Tokens(s[1..])
    else
      var n := FirstDot(s);
      [s[..n]] + Tokens(s[n..])
  }

  lemma {:induction false} TokensOfFullName(path: seq<string>, name: string)
    requires AllDotless(path) && Dotless(name)
    ensures Tokens(FullName(path, name)) == path + [name]
    decreases |path|
  {
    FullNameStart(path, name);
    var s := FullName(path, name);
    var n := FirstDot(s);
    if path == [] {
      assert s[..n] == name && Tokens(s[n..]) == [];
    } else {
      TokensOfFullName(path[1..], name);
      assert s[0] == path[0][0];
      assert s[n..][1..] == s[n + 1..];
      assert [path[0]] + (path[1..] + [name]) == path + [name];
    }
  }

  /** The declaration at a path of blocks. */
  function Lookup(scope: Scope, path: seq<string>, kind: int): Option<Datum>
    requires path != []
    decreases |path|
  {
    if |path| == 1 then
      if 0 <= kind < |scope.tables| then FindDatum(scope.tables[kind], path[0]) else None
    else
      match FindEntry(scope.blocks, path[0])
      case None => None
      case Some(e) => if e.isBlock then Lookup(e.scope, path[1..], kind) else None
  }

  /** Finds what a name with a leading dot stands for. An alias is replaced by what it stands for. */
  method ResolveFromRoot(root: Scope, name: string, kind: int) returns (out: Option<Datum>)
    requires name != "" && name[0] == '.' && Tokens(name) != []
    ensures var found := Lookup(root, Tokens(name), kind);
            && (found.None? ==> out == None)
            && (found.Some? && found.value.actual == null ==> out == found)
            && (found.Some? && found.value.actual != null ==> out == Some(found.value.actual))
  {
    var tokens := Tokens(name);
    var scope := root;
    var i := 0;
    while i + 1 < |tokens|
      invariant 0 <= i < |tokens|
      invariant Lookup(root, tokens, kind) == Lookup(scope, tokens[i..], kind)
    {
      assert tokens[i..][0] == tokens[i] && tokens[i..][1..] == tokens[i + 1..];
      match FindEntry(scope.blocks, tokens[i]) {
        case None =>
          return None;
        case Some(e) =>
          if !e.isBlock {
            return None;
          }
          scope := e.scope;
      }
      i := i + 1;
    }
    if 0 <= kind < |scope.tables| {
      out := FindDatum(scope.tables[kind], tokens[i]);
    } else {
      out := None;
    }
    if out.Some? && out.value.actual != null {
      out := Some(out.value.actual);
    }
  }

  /** The scope of the block at a path. */
  function ScopeAt(scope: Scope, path: seq<string>): Option<Scope>
    decreases |path|
  {
    if path == [] then Some(scope)
    else
      match FindEntry(scope.blocks, path[0])
      case None => None
      case Some(e) => if e.isBlock then ScopeAt(e.scope, path[1..]) else None
  }

  lemma {:induction false} LookupAt(scope: Scope, path: seq<string>, name: string, kind: int)
    requires ScopeAt(scope, path).Some?
    ensures Lookup(scope, path + [name], kind) == Lookup(ScopeAt(scope, path).value, [name], kind)
    decreases |path|
  {
    if path == [] {
      assert path + [name] == [name];
    } else {
      assert (path + [name])[1..] == path[1..] + [name];
      var e := FindEntry(scope.blocks, path[0]).value;
      LookupAt(e.scope, path[1..], name, kind);
    }
  }

  /** After the names have been given, every declaration has the name of its path. */
  lemma {:induction false} NamedAt(blocks: seq<Entry>, prefix: string, path: seq<string>, scope: Scope, d: Datum)
    requires Named(blocks, prefix) && path != [] && ScopeAt(Scope([], blocks), path) == Some(scope)
    requires d in TableDecls(scope)
    ensures d.fqn == prefix + FullName(path, d.name)
    decreases |path|
  {
    var e := FindEntry(blocks, path[0]).value;
    FoundIn(blocks, path[0]);
    var inner := prefix + e.name + ".";
    assert EntryNamed(e, prefix);
    if |path| == 1 {
      assert ScopeAt(e.scope, path[1..]) == Some(e.scope);
    } else {
      SameBlocks(e.scope, Scope([], e.scope.blocks), path[1..]);
      NamedAt(e.scope.blocks, inner, path[1..], scope, d);
    }
    assert inner + FullName(path[1..], d.name) == prefix + FullName(path, d.name);
  }

  lemma SameBlocks(a: Scope, b: Scope, path: seq<string>)
    requires a.blocks == b.blocks && path != []
    ensures ScopeAt(a, path) == ScopeAt(b, path)
  {
  }

  lemma {:induction false} FoundIn(blocks: seq<Entry>, name: string)
    requires FindEntry(blocks, name).Some?
    ensures FindEntry(blocks, name).value in blocks && FindEntry(blocks, name).value.name == name
  {
    if blocks[0].name != name {
      FoundIn(blocks[1..], name);
    }
  }

  /** A dot and its full name lead to a declaration from everywhere, or to what it stands for if it is an alias. */
  lemma FullNameFinds(root: Scope, path: seq<string>, scope: Scope, kind: int, d: Datum)
    requires Named(root.blocks, "") && AllDotless(path) && Dotless(d.name)
    requires ScopeAt(root, path) == Some(scope) && 0 <= kind < |scope.tables| && Qualifies(kind)
    requires d in scope.tables[kind] && DistinctNames(scope.tables[kind])
    requires path == [] ==> d.fqn == d.name
    ensures Tokens("." + d.fqn) != [] && Lookup(root, Tokens("." + d.fqn), kind) == Some(d)
  {
    if path != [] {
      SameBlocks(root, Scope([], root.blocks), path);
      NamedAt(root.blocks, "", path, scope, d);
    }
    assert d.fqn == FullName(path, d.name);
    TokensOfFullName(path, d.name);
    assert ("." + d.fqn)[1..] == d.fqn;
    LookupAt(root, path, d.name, kind);
    FindsDatum(scope.tables[kind], d);
  }
}
