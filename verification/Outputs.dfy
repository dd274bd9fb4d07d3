/** The text files that accompany a policy: user prefixes, login mappings and file contexts. Each is built in a
    buffer whose size a first pass over the same entries computes. */
module Outputs {
  import opened Common
  import opened LevelText
  import opened LevelBuffers

  datatype Range = Range(low: Level, high: Level)

  datatype UserPrefix = UserPrefix(user: string, prefix: string)

  datatype SelinuxUser = SelinuxUser(name: string, user: string, range: Range)

  datatype FileType = Any | File | Dir | Char | Block | Socket | Pipe | Symlink

  datatype Context = Context(user: string, role: string, typ: string, range: Range)

  datatype Filecon = Filecon(path: string, kind: FileType, context: Option<Context>)

  // ---- What the files say

  function PrefixRow(u: UserPrefix): (row: string)
    ensures |row| == |u.user| + |u.prefix| + 15
    ensures row[..5] == "user " && row[5..5 + |u.user|] == u.user && row[5 + |u.user|..13 + |u.user|] == " prefix "
    ensures row[13 + |u.user|..|row| - 2] == u.prefix && row[|row| - 2..] == ";\n"
  {
    "user " + u.user + " prefix " + u.prefix + ";\n"
  }

  function UserRow(mls: bool, u: SelinuxUser): (row: string)
    ensures var n := |u.name| + 1 + |u.user|;
            && n < |row| && row[..|u.name|] == u.name && row[|u.name|] == ':' && row[|u.name| + 1..n] == u.user
            && row[|row| - 1] == '\n'
            && row[n..|row| - 1] ==
               if mls then [':'] + LevelString(u.range.low) + ['-'] + LevelString(u.range.high) else []
  {
    u.name + ":" + u.user +
    (if mls then ":" + LevelString(u.range.low) + "-" + LevelString(u.range.high) else "") + "\n"
  }

  function KindText(kind: FileType): (text: string)
    ensures kind.Any? <==> text == ""
    ensures !kind.Any? ==> |text| == 3 && text[0] == '\t' && text[1] == '-'
    ensures kind.File? <==> |text| == 3 && text[2] == '-'
    ensures kind.Dir? <==> |text| == 3 && text[2] == 'd'
    ensures kind.Char? <==> |text| == 3 && text[2] == 'c'
    ensures kind.Block? <==> |text| == 3 && text[2] == 'b'
    ensures kind.Socket? <==> |text| == 3 && text[2] == 's'
    ensures kind.Pipe? <==> |text| == 3 && text[2] == 'p'
    ensures kind.Symlink? <==> |text| == 3 && text[2] == 'l'
  {
    match kind
    case Any => ""
    case File => "\t--"
    case Dir => "\t-d"
    case Char => "\t-c"
    case Block => "\t-b"
    case Socket => "\t-s"
    case Pipe => "\t-p"
    case Symlink => "\t-l"
  }

  /** The two levels have the same sensitivity and the same set of categories, in whatever order. */
  predicate LevelEquals(low: Level, high: Level) {
    low.sens == high.sens && CatSet(low) == CatSet(high)
  }

  function CatSet(level: Level): set<nat> {
    if level.cats.None? then {} else ValuesOf(level.cats.value)
  }

  /** The range of a context; one level if both are equal. */
  function RangeText(r: Range): (text: string)
    ensures var n := |LevelString(r.low)|;
            && n <= |text| && text[..n] == LevelString(r.low)
            && text[n..] == if LevelEquals(r.low, r.high) then [] else ['-'] + LevelString(r.high)
  {
    LevelString(r.low) + if LevelEquals(r.low, r.high) then "" else "-" + LevelString(r.high)
  }

  function ContextText(mls: bool, context: Option<Context>): string {
    match context
    case None => "\t<<none>>"
    case Some(c) => "\t" + c.user + ":" + c.role + ":" + c.typ + if mls then ":" + RangeText(c.range) else ""
  }

  /** What the text of a context consists of. */
  lemma ContextParts(mls: bool, c: Context)
    ensures ContextText(mls, None) == "\t<<none>>"
    ensures var text := ContextText(mls, Some(c));
            var n, m := 2 + |c.user|, 3 + |c.user| + |c.role|;
            && m + |c.typ| <= |text| && text[0] == '\t' && text[n - 1] == ':' && text[m - 1] == ':'
            && text[1..n - 1] == c.user && text[n..m - 1] == c.role && text[m..m + |c.typ|] == c.typ
            && text[m + |c.typ|..] == if mls then [':'] + RangeText(c.range) else []
  {
    var rest := if mls then ":" + RangeText(c.range) else "";
    ColonParts(c.user, c.role, c.typ, rest);
  }

  lemma ColonParts(a: string, b: string, c: string, rest: string)
    ensures var text := "\t" + a + ":" + b + ":" + c + rest;
            var n, m := 2 + |a|, 3 + |a| + |b|;
            && m + |c| <= |text| && text[0] == '\t' && text[n - 1] == ':' && text[m - 1] == ':'
            && text[1..n - 1] == a && text[n..m - 1] == b && text[m..m + |c|] == c && text[m + |c|..] == rest
  {
    var front := "\t" + a + ":";
    var text := front + b + ":" + c + rest;
    assert text[1..2 + |a| - 1] == front[1..|front| - 1] == a;
  }

  function FileRow(mls: bool, f: Filecon): string {
    f.path + KindText(f.kind) + ContextText(mls, f.context) + "\n"
  }

  /** What a row of file contexts consists of. */
  lemma FileRowParts(mls: bool, f: Filecon)
    ensures var row := FileRow(mls, f);
            var n, m := |f.path| + |KindText(f.kind)|, |ContextText(mls, f.context)|;
            && |row| == n + m + 1 && row[|row| - 1] == '\n'
            && row[..|f.path|] == f.path && row[|f.path|..n] == KindText(f.kind)
            && row[n..n + m] == ContextText(mls, f.context)
  {
    RowParts(f.path, KindText(f.kind), ContextText(mls, f.context));
  }

  lemma RowParts(a: string, b: string, c: string)
    ensures var row := a + b + c + "\n";
            && |row| == |a| + |b| + |c| + 1 && row[|row| - 1] == '\n'
            && row[..|a|] == a && row[|a|..|a| + |b|] == b && row[|a| + |b|..|a| + |b| + |c|] == c
  {
  }

  /** All rows, one after the other. */
  function Rows<T>(items: seq<T>, row: T -> string): string {
    if items == [] then "" else Rows(items[..|items| - 1], row) + row(items[|items| - 1])
  }

  lemma RowsStep<T>(items: seq<T>, row: T -> string, k: nat)
    requires k < |items|
    ensures Rows(items[..k + 1], row) == Rows(items[..k], row) + row(items[k])
  {
    assert items[..k + 1][..k] == items[..k];
  }

  lemma {:induction false} RowsFit<T>(items: seq<T>, row: T -> string, k: nat)
    requires k <= |items|
    ensures |Rows(items[..k], row)| <= |Rows(items, row)|
    decreases |items| - k
  {
    if k == |items| {
      assert items[..k] == items;
    } else {
      RowsStep(items, row, k);
      RowsFit(items, row, k + 1);
    }
  }

  /** The rows before the k-th, the k-th and the size of the whole. */
  lemma RowFits<T>(items: seq<T>, row: T -> string, k: nat)
    requires k < |items|
    ensures Rows(items[..k + 1], row) == Rows(items[..k], row) + row(items[k])
    ensures |Rows(items[..k], row)| + |row(items[k])| <= |Rows(items, row)|
  {
    RowsStep(items, row, k);
    RowsFit(items, row, k + 1);
  }

  // ---- Writing them

  /** Writes at most `limit` characters, the terminator among them, and returns the length of the whole string. */
  method Snprintf(out: array<char>, pos: nat, limit: nat, s: string, ghost before: string) returns (n: nat)
    requires 0 < limit <= out.Length - pos && Starts(out, before) && pos == |before|
    modifies out
    ensures n == |s|
    ensures |s| < limit ==> Holds(out, before + s)
    ensures |s| >= limit ==> Holds(out, before + s[..limit - 1])
  {
    var cut := if |s| < limit then s else s[..limit - 1];
    assert before + "" == before && "" + cut == cut;
    var m := Sprintf(out, pos, cut, before, "");
    n := |s|;
  }

  method UserPrefixesToString(items: seq<UserPrefix>) returns (out: array?<char>, size: nat)
    ensures size == |Rows(items, PrefixRow)|
    ensures items == [] <==> out == null
    ensures items != [] ==> fresh(out) && out.Length == size + 1 && Holds(out, Rows(items, PrefixRow))
  {
    hide PrefixRow, Holds, Starts;
    if |items| == 0 {
      return null, 0;
    }
    size := 0;
    for k := 0 to |items|
      invariant size == |Rows(items[..k], PrefixRow)|
    {
      RowsStep(items, PrefixRow, k);
      var n := PrefixLength(items[k]);
      size := size + n;
    }
    assert items[..|items|] == items;
    var strLen := size + 1;
    var buffer := new char[strLen];
    var pos: nat := 0;
    StartsEmpty(buffer);
    for k := 0 to |items|
      invariant pos == |Rows(items[..k], PrefixRow)| && strLen == size + 1 - pos
      invariant Starts(buffer, Rows(items[..k], PrefixRow)) && (k > 0 ==> Holds(buffer, Rows(items[..k], PrefixRow)))
    {
      RowFits(items, PrefixRow, k);
      var n := WritePrefix(items[k], buffer, pos, strLen, Rows(items[..k], PrefixRow));
      HoldsStarts(buffer, Rows(items[..k + 1], PrefixRow));
      strLen := strLen - n;
      pos := pos + n;
    }
    out := buffer;
  }

  method WritePrefix(u: UserPrefix, out: array<char>, pos: nat, limit: nat, ghost before: string) returns (n: nat)
    requires |PrefixRow(u)| < limit <= out.Length - pos && Starts(out, before) && pos == |before|
    modifies out
    ensures n == |PrefixRow(u)| && Holds(out, before + PrefixRow(u))
  {
    n := Snprintf(out, pos, limit, "user " + u.user + " prefix " + u.prefix + ";\n", before);
  }

  method PrefixLength(u: UserPrefix) returns (n: nat)
    ensures n == |PrefixRow(u)|
  {
    n := |"user "| + |u.user| + |" prefix "| + |u.prefix| + 2;
  }

  method SelinuxUsersToString(items: seq<SelinuxUser>, mls: bool) returns (out: array?<char>, size: nat)
    ensures size == |Rows(items, (u: SelinuxUser) => UserRow(mls, u))|
    ensures items == [] <==> out == null
    ensures items != [] ==>
              fresh(out) && out.Length == size + 1 && Holds(out, Rows(items, (u: SelinuxUser) => UserRow(mls, u)))
  {
    hide UserRow, Holds, Starts;
    var row := (u: SelinuxUser) => UserRow(mls, u);
    if |items| == 0 {
      return null, 0;
    }
    size := 0;
    for k := 0 to |items|
      invariant size == |Rows(items[..k], row)|
    {
      RowsStep(items, row, k);
      var n := UserLength(items[k], mls);
      size := size + n;
    }
    assert items[..|items|] == items;
    var buffer := new char[size + 1];
    var pos: nat := 0;
    StartsEmpty(buffer);
    for k := 0 to |items|
      invariant pos == |Rows(items[..k], row)|
      invariant Starts(buffer, Rows(items[..k], row)) && (k > 0 ==> Holds(buffer, Rows(items[..k], row)))
    {
      RowFits(items, row, k);
      var n := WriteUser(items[k], mls, buffer, pos, Rows(items[..k], row));
      HoldsStarts(buffer, Rows(items[..k + 1], row));
      pos := pos + n;
    }
    out := buffer;
  }

  lemma StartsEmpty(out: array<char>)
    ensures Starts(out, "")
  {
  }

  lemma HoldsStarts(out: array<char>, text: string)
    requires Holds(out, text)
    ensures Starts(out, text)
  {
  }

  method UserLength(u: SelinuxUser, mls: bool) returns (n: nat)
    ensures n == |UserRow(mls, u)|
  {
    n := |u.name| + |u.user| + 1;
    if mls {
      var low := LevelStrlen(u.range.low);
      var high := LevelStrlen(u.range.high);
      n := n + low + high + 2;
    }
    n := n + 1;
  }

  method WriteUser(u: SelinuxUser, mls: bool, out: array<char>, pos: nat, ghost before: string) returns (n: nat)
    requires Starts(out, before) && pos == |before| && pos + |UserRow(mls, u)| < out.Length
    modifies out
    ensures n == |UserRow(mls, u)| && Holds(out, before + UserRow(mls, u))
  {
    hide LevelString, Starts;
    assert before + "" == before && "" + (u.name + ":" + u.user) == u.name + ":" + u.user;
    n := Sprintf(out, pos, u.name + ":" + u.user, before, "");
    ghost var done := u.name + ":" + u.user;
    if mls {
      var b := WriteUserRange(u.range, out, pos + n, before, done);
      n, done := n + b, done + (":" + LevelString(u.range.low) + "-" + LevelString(u.range.high));
    }
    var b := Sprintf(out, pos + n, "\n", before, done);
    n := n + b;
    assert mls || done + "" + "\n" == done + "\n";
  }

  method WriteUserRange(r: Range, out: array<char>, pos: nat, ghost before: string, ghost done: string)
      returns (n: nat)
    requires Starts(out, before + done) && pos == |before + done|
    requires pos + |":" + LevelString(r.low) + "-" + LevelString(r.high)| < out.Length
    modifies out
    ensures var text := ":" + LevelString(r.low) + "-" + LevelString(r.high);
            n == |text| && Holds(out, before + (done + text))
  {
    hide LevelString, Starts;
    ghost var front := before + done;
    assert front + "" == front && "" + ":" == ":";
    n := Sprintf(out, pos, ":", front, "");
    var b := LevelToString(r.low, out, pos + n, front, ":");
    n := n + b;
    b := Sprintf(out, pos + n, "-", front, ":" + LevelString(r.low));
    n := n + b;
    b := LevelToString(r.high, out, pos + n, front, ":" + LevelString(r.low) + "-");
    n := n + b;
    Regroup(before, done, ":" + LevelString(r.low) + "-" + LevelString(r.high));
  }

  method FileconsToString(items: array<Filecon>, mls: bool) returns (out: array<char>, size: nat)
    ensures size == |Rows(items[..], (f: Filecon) => FileRow(mls, f))|
    ensures fresh(out) && out.Length == size + 1 && Starts(out, Rows(items[..], (f: Filecon) => FileRow(mls, f)))
    ensures items.Length > 0 ==> Holds(out, Rows(items[..], (f: Filecon) => FileRow(mls, f)))
  {
    hide FileRow, Holds, Starts;
    var row := (f: Filecon) => FileRow(mls, f);
    ghost var all := items[..];
    size := 0;
    for k := 0 to items.Length
      invariant size == |Rows(all[..k], row)|
    {
      RowsStep(all, row, k);
      var n := FileLength(items[k], mls);
      size := size + n;
    }
    assert all[..items.Length] == all;
    out := new char[size + 1];
    var pos: nat := 0;
    StartsEmpty(out);
    for k := 0 to items.Length
      invariant items[..] == all && pos == |Rows(all[..k], row)|
      invariant Starts(out, Rows(all[..k], row)) && (k > 0 ==> Holds(out, Rows(all[..k], row)))
    {
      RowFits(all, row, k);
      var n := WriteFile(items[k], mls, out, pos, Rows(all[..k], row));
      HoldsStarts(out, Rows(all[..k + 1], row));
      pos := pos + n;
    }
  }

  method FileLength(f: Filecon, mls: bool) returns (n: nat)
    ensures n == |FileRow(mls, f)|
  {
    hide LevelString, LevelEquals;
    n := |f.path|;
    if f.kind != Any {
      n := n + 3;
    }
    match f.context {
      case Some(c) =>
        n := n + |c.user| + |c.role| + |c.typ| + 3;
        if mls {
          var low := LevelStrlen(c.range.low);
          if LevelEquals(c.range.low, c.range.high) {
            n := n + low + 1;
          } else {
            var high := LevelStrlen(c.range.high);
            n := n + low + high + 2;
          }
        }
      case None =>
        n := n + |"\t<<none>>"|;
    }
    n := n + 1;
  }

  method WriteFile(f: Filecon, mls: bool, out: array<char>, pos: nat, ghost before: string) returns (n: nat)
    requires Starts(out, before) && pos == |before| && pos + |FileRow(mls, f)| < out.Length
    modifies out
    ensures n == |FileRow(mls, f)| && Holds(out, before + FileRow(mls, f))
  {
    hide ContextText, KindText, Starts;
    assert before + "" == before && "" + f.path == f.path;
    n := Sprintf(out, pos, f.path, before, "");
    var b := Sprintf(out, pos + n, KindText(f.kind), before, f.path);
    n := n + b;
    b := WriteContext(f.context, mls, out, pos + n, before, f.path + KindText(f.kind));
    n := n + b;
    b := Sprintf(out, pos + n, "\n", before, f.path + KindText(f.kind) + ContextText(mls, f.context));
    n := n + b;
  }

  method WriteContext(context: Option<Context>, mls: bool, out: array<char>, pos: nat,
                      ghost before: string, ghost done: string) returns (n: nat)
    requires Starts(out, before + done) && pos == |before + done| && pos + |ContextText(mls, context)| < out.Length
    modifies out
    ensures n == |ContextText(mls, context)| && Holds(out, before + (done + ContextText(mls, context)))
  {
    hide RangeText, Starts;
    match context {
      case Some(c) =>
        ghost var names := "\t" + c.user + ":" + c.role + ":" + c.typ;
        n := Sprintf(out, pos, "\t" + c.user + ":" + c.role + ":" + c.typ, before, done);
        if mls {
          var b := WriteRange(c.range, out, pos + n, before, done + names);
          n := n + b;
          Regroup(done, names, ":" + RangeText(c.range));
        } else {
          assert ContextText(mls, context) == names;
        }
      case None =>
        n := Sprintf(out, pos, "\t<<none>>", before, done);
    }
  }

  method WriteRange(r: Range, out: array<char>, pos: nat, ghost before: string, ghost done: string) returns (n: nat)
    requires Starts(out, before + done) && pos == |before + done| && pos + |":" + RangeText(r)| < out.Length
    modifies out
    ensures n == |":" + RangeText(r)| && Holds(out, before + (done + (":" + RangeText(r))))
  {
    hide LevelString, LevelEquals, Starts;
    ghost var front := before + done;
    assert front + "" == front && "" + ":" == ":";
    n := Sprintf(out, pos, ":", front, "");
    var b := LevelToString(r.low, out, pos + n, front, ":");
    n := n + b;
    if !LevelEquals(r.low, r.high) {
      ghost var low := ":" + LevelString(r.low);
      b := Sprintf(out, pos + n, "-", front, low);
      n := n + b;
      b := LevelToString(r.high, out, pos + n, front, low + "-");
      n := n + b;
      assert low + "-" + LevelString(r.high) == ":" + (LevelString(r.low) + ("-" + LevelString(r.high)));
    } else {
      assert RangeText(r) == LevelString(r.low);
    }
    Regroup(before, done, ":" + RangeText(r));
  }
}
