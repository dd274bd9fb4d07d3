/** The text of security levels, and how it is read. */
module LevelText {
  import opened Common

  /** A category with its full name and its place in the category order. */
  datatype Category = Category(name: string, value: nat)

  /** A sensitivity, and the list of categories if there is one. */
  datatype Level = Level(sens: string, cats: Option<seq<Category>>)

  // ---- The text

  /** The words and separators of a category list. */
  datatype Piece = Word(text: string) | Comma | Dot

  function PieceText(p: Piece): string {
    match p
    case Word(text) => text
    case Comma => ","
    case Dot => "."
  }

  function Text(pieces: seq<Piece>): string {
    if pieces == [] then "" else PieceText(pieces[0]) + Text(pieces[1..])
  }

  /** The categories that are being collected: `first` up to `end`, whose values are consecutive. */
  datatype Run = NoRun | Run(first: Category, end: Category)

  /** The pieces of a finished run: one name, two names, or a range. */
  function Flush(run: Run): seq<Piece> {
    match run
    case NoRun => []
    case Run(first, end) =>
      if end.value == first.value then [Word(first.name)]
      else if end.value == first.value + 1 then [Word(first.name), Comma, Word(end.name)]
      else [Word(first.name), Dot, Word(end.name)]
  }

  /** The pieces of the rest of the list. A category that ends a run is printed with the run and begins no new
      one. */
  function Pieces(run: Run, cats: seq<Category>): seq<Piece>
    decreases |cats|
  {
    if cats == [] then Flush(run)
    else if run.NoRun? then Pieces(Run(cats[0], cats[0]), cats[1..])
    else if cats[0].value == run.end.value + 1 then Pieces(Run(run.first, cats[0]), cats[1..])
    else
      Flush(run) + [Comma, Word(cats[0].name)] +
      (if cats[1..] == [] then [] else [Comma]) + Pieces(NoRun, cats[1..])
  }

  /** The sensitivity, and behind a colon the categories, unless the level has no list of them. */
  function LevelString(level: Level): (text: string)
    ensures |level.sens| <= |text| && text[..|level.sens|] == level.sens
    ensures level.cats.None? ==> |text| == |level.sens|
    ensures level.cats.Some? ==> |text| > |level.sens| && text[|level.sens|] == ':'
    ensures level.cats.Some? ==> text[|level.sens| + 1..] == Text(Pieces(NoRun, level.cats.value))
  {
    level.sens + if level.cats.None? then "" else ":" + Text(Pieces(NoRun, level.cats.value))
  }

  lemma {:induction false} TextConcat(a: seq<Piece>, b: seq<Piece>)
    ensures Text(a + b) == Text(a) + Text(b)
  {
    hide PieceText;
    if a == [] {
      assert a + b == b;
    } else {
      TextConcat(a[1..], b);
      assert (a + b)[1..] == a[1..] + b;
      assert Text(a + b) == PieceText(a[0]) + (Text(a[1..]) + Text(b));
    }
  }

  /** The values of the first `k` categories follow each other, and that of the next one does not. */
  predicate RunOfLength(cats: seq<Category>, k: nat) {
    && 0 < k <= |cats|
    && (forall j :: 0 < j < k ==> cats[j].value == cats[j - 1].value + 1)
    && (k < |cats| ==> cats[k].value != cats[k - 1].value + 1)
  }

  /** A run is written as one name, as two names or, from three categories on, as the first and the last name with a
      dot between them. The category that ends the run is written by itself, and the next run begins after it. */
  lemma {:induction false} RunIsWritten(cats: seq<Category>, k: nat)
    requires RunOfLength(cats, k)
    ensures var run := if k == 1 then [Word(cats[0].name)]
                       else [Word(cats[0].name), if k == 2 then Comma else Dot, Word(cats[k - 1].name)];
            Pieces(NoRun, cats) ==
              if k == |cats| then run
              else if k + 1 == |cats| then run + [Comma, Word(cats[k].name)]
              else run + [Comma, Word(cats[k].name), Comma] + Pieces(NoRun, cats[k + 1..])
  {
    assert Pieces(NoRun, cats) == Pieces(Run(cats[0], cats[0]), cats[1..]);
    RestOfRun(cats, 1, k);
    ValuesInRun(cats, k - 1);
    var run := Run(cats[0], cats[k - 1]);
    if k < |cats| {
      assert cats[k..][0] == cats[k] && cats[k..][1..] == cats[k + 1..];
      EndOfRun(run, cats[k..]);
    }
  }

  lemma {:induction false} EndOfRun(run: Run, cats: seq<Category>)
    requires run.Run? && cats != [] && cats[0].value != run.end.value + 1
    ensures Pieces(run, cats) ==
            if |cats| == 1 then Flush(run) + [Comma, Word(cats[0].name)]
            else Flush(run) + [Comma, Word(cats[0].name), Comma] + Pieces(NoRun, cats[1..])
  {
    assert Flush(NoRun) == [];
    hide Flush;
    if |cats| == 1 {
      assert cats[1..] == [];
      assert Pieces(NoRun, cats[1..]) == [];
    } else {
      assert [Comma, Word(cats[0].name)] + [Comma] == [Comma, Word(cats[0].name), Comma];
    }
  }

  lemma {:induction false} ValuesInRun(cats: seq<Category>, j: nat)
    requires j < |cats| && forall i :: 0 < i <= j ==> cats[i].value == cats[i - 1].value + 1
    ensures cats[j].value == cats[0].value + j
  {
    if j > 0 {
      ValuesInRun(cats, j - 1);
    }
  }

  lemma {:induction false} RestOfRun(cats: seq<Category>, j: nat, k: nat)
    requires RunOfLength(cats, k) && 0 < j <= k
    ensures Pieces(Run(cats[0], cats[j - 1]), cats[j..]) == Pieces(Run(cats[0], cats[k - 1]), cats[k..])
    decreases k - j
  {
    if j < k {
      assert cats[j..][0] == cats[j] && cats[j..][1..] == cats[j + 1..];
      RestOfRun(cats, j + 1, k);
    }
  }

  // ---- Reading the text back

  /** The values of a list of names and ranges, separated by single commas; nothing if the list is not one. */
  function Read(pieces: seq<Piece>, values: map<string, nat>): Option<set<nat>> {
    if pieces == [] || !pieces[0].Word? || pieces[0].text !in values then None
    else
      var lo := values[pieces[0].text];
      if |pieces| == 1 then Some({lo})
      else if pieces[1].Comma? then Join({lo}, Read(pieces[2..], values))
      else if pieces[1].Dot? && |pieces| >= 3 && pieces[2].Word? && pieces[2].text in values then
        var range := Interval(lo, values[pieces[2].text]);
        if |pieces| == 3 then Some(range)
        else if pieces[3].Comma? then Join(range, Read(pieces[4..], values))
        else None
      else None
  }

  function Join(a: set<nat>, b: Option<set<nat>>): Option<set<nat>> {
    match b
    case None => None
    case Some(s) => Some(a + s)
  }

  /** Every name has the value of its category. */
  predicate Named(cats: seq<Category>, values: map<string, nat>) {
    forall k :: 0 <= k < |cats| ==> IsNamed(cats[k], values)
  }

  predicate IsNamed(c: Category, values: map<string, nat>) {
    c.name in values && values[c.name] == c.value
  }

  function ValuesOf(cats: seq<Category>): set<nat> {
    set k | 0 <= k < |cats| :: cats[k].value
  }

  function RunValues(run: Run): set<nat> {
    match run
    case NoRun => {}
    case Run(first, end) => Interval(first.value, end.value)
  }

  predicate ValidRun(run: Run, values: map<string, nat>) {
    run.Run? ==> IsNamed(run.first, values) && IsNamed(run.end, values) && run.first.value <= run.end.value
  }

  lemma {:induction false} ReadConcat(a: seq<Piece>, b: seq<Piece>, values: map<string, nat>)
    requires Read(a, values).Some? && Read(b, values).Some?
    ensures Read(a + [Comma] + b, values) == Some(Read(a, values).value + Read(b, values).value)
    decreases |a|
  {
    var ab := a + [Comma] + b;
    if |a| == 1 {
      assert ab[2..] == b;
    } else if a[1].Comma? {
      ReadConcat(a[2..], b, values);
      assert ab[2..] == a[2..] + [Comma] + b;
      var lo := {values[a[0].text]};
      assert Read(ab, values) == Join(lo, Read(ab[2..], values));
      assert lo + (Read(a[2..], values).value + Read(b, values).value) ==
          (lo + Read(a[2..], values).value) + Read(b, values).value;
    } else if |a| == 3 {
      assert ab[4..] == b;
      assert Read(ab, values) == Join(Interval(values[a[0].text], values[a[2].text]), Read(b, values));
    } else {
      ReadConcat(a[4..], b, values);
      assert ab[4..] == a[4..] + [Comma] + b;
      var range := Interval(values[a[0].text], values[a[2].text]);
      assert Read(ab, values) == Join(range, Read(ab[4..], values));
      assert range + (Read(a[4..], values).value + Read(b, values).value) ==
          (range + Read(a[4..], values).value) + Read(b, values).value;
    }
  }

  lemma ReadFlush(run: Run, values: map<string, nat>)
    requires run.Run? && ValidRun(run, values)
    ensures Read(Flush(run), values) == Some(RunValues(run))
  {
    var f := Flush(run);
    if run.end.value == run.first.value + 1 {
      assert f[2..] == [Word(run.end.name)];
      assert Read(f[2..], values) == Some({run.end.value});
      assert {run.first.value} + {run.end.value} == RunValues(run);
    } else if run.end.value == run.first.value {
      assert RunValues(run) == {run.first.value};
    }
  }

  /** The pieces of a category list read back as exactly its values. */
  lemma {:induction false} ReadPieces(run: Run, cats: seq<Category>, values: map<string, nat>)
    requires Named(cats, values) && ValidRun(run, values) && (run.Run? || cats != [])
    ensures Read(Pieces(run, cats), values) == Some(RunValues(run) + ValuesOf(cats))
    decreases |cats|
  {
    hide Read;
    if cats == [] {
      ReadFlush(run, values);
      assert RunValues(run) + ValuesOf(cats) == RunValues(run);
    } else {
      var c := cats[0];
      assert IsNamed(c, values);
      assert ValuesOf(cats) == {c.value} + ValuesOf(cats[1..]) by { ValuesSplit(cats); }
      if run.NoRun? {
        ReadPieces(Run(c, c), cats[1..], values);
        assert RunValues(Run(c, c)) == {c.value};
        assert RunValues(run) + ValuesOf(cats) == {c.value} + ValuesOf(cats[1..]);
      } else if c.value == run.end.value + 1 {
        ReadPieces(Run(run.first, c), cats[1..], values);
        assert RunValues(Run(run.first, c)) == RunValues(run) + {c.value};
        assert RunValues(run) + ValuesOf(cats) == RunValues(Run(run.first, c)) + ValuesOf(cats[1..]);
      } else {
        var head := Flush(run) + [Comma, Word(c.name)];
        ReadBreak(run, c, values);
        var rest := cats[1..];
        if rest == [] {
          assert Pieces(NoRun, rest) == [] && Pieces(run, cats) == head;
          assert RunValues(run) + ValuesOf(cats) == RunValues(run) + {c.value};
        } else {
          ReadPieces(NoRun, rest, values);
          ReadConcat(head, Pieces(NoRun, rest), values);
          assert Pieces(run, cats) == head + [Comma] + Pieces(NoRun, rest);
          assert RunValues(run) + ValuesOf(cats) == (RunValues(run) + {c.value}) + (RunValues(NoRun) + ValuesOf(rest));
        }
      }
    }
  }

  /** A run and the category that ends it. */
  lemma ReadBreak(run: Run, c: Category, values: map<string, nat>)
    requires run.Run? && ValidRun(run, values) && IsNamed(c, values)
    ensures Read(Flush(run) + [Comma, Word(c.name)], values) == Some(RunValues(run) + {c.value})
  {
    ReadFlush(run, values);
    assert Read([Word(c.name)], values) == Some({c.value});
    ReadConcat(Flush(run), [Word(c.name)], values);
    assert Flush(run) + [Comma] + [Word(c.name)] == Flush(run) + [Comma, Word(c.name)];
  }

  lemma ValuesSplit(cats: seq<Category>)
    requires cats != []
    ensures ValuesOf(cats) == {cats[0].value} + ValuesOf(cats[1..])
  {
    assert forall k :: 0 < k < |cats| ==> cats[k] == cats[1..][k - 1];
  }

  // ---- Cutting the text into pieces

  predicate Separator(c: char) { c == ',' || c == '.' }

  /** A name that can be told from separators. A name with a dot, that of a category in a block, is none. */
  predicate Plain(name: string) {
    name != "" && forall k :: 0 <= k < |name| ==> !Separator(name[k])
  }

  /** The length of the word at the beginning of a text. */
  function WordLength(s: string): (n: nat)
    ensures n <= |s|
  {
    if s == "" || Separator(s[0]) then 0 else 1 + WordLength(s[1..])
  }

  function Cut(s: string): seq<Piece>
    decreases |s|
  {
    if s == "" then []
    else if s[0] == ',' then [Comma] + Cut(s[1..])
    else if s[0] == '.' then [Dot] + Cut(s[1..])
    else
      var n := WordLength(s);
      [Word(s[..n])] + Cut(s[n..])
  }

  lemma {:induction false} WordLengthOf(w: string, rest: string)
    requires forall k :: 0 <= k < |w| ==> !Separator(w[k])
    requires rest == "" || Separator(rest[0])
    ensures WordLength(w + rest) == |w|
  {
    if w == "" {
      assert w + rest == rest;
    } else {
      WordLengthOf(w[1..], rest);
      assert (w + rest)[1..] == w[1..] + rest;
    }
  }

  /** Words are plain, and no two of them stand side by side. */
  predicate Separated(pieces: seq<Piece>) {
    && (forall k :: 0 <= k < |pieces| && pieces[k].Word? ==> Plain(pieces[k].text))
    && forall k :: 0 < k < |pieces| ==> !(pieces[k - 1].Word? && pieces[k].Word?)
  }

  /** Separated pieces can be told from their text. */
  lemma {:induction false} CutText(pieces: seq<Piece>)
    requires Separated(pieces)
    ensures Cut(Text(pieces)) == pieces
    decreases |pieces|
  {
    if pieces != [] {
      var rest := pieces[1..];
      CutText(rest);
      match pieces[0]
      case Comma =>
        assert Text(pieces)[1..] == Text(rest);
      case Dot =>
        assert Text(pieces)[1..] == Text(rest);
      case Word(w) =>
        if rest != [] {
          assert !rest[0].Word?;
          assert Text(rest)[0] == PieceText(rest[0])[0];
        }
        WordLengthOf(w, Text(rest));
        assert Text(pieces)[..|w|] == w && Text(pieces)[|w|..] == Text(rest);
        assert !Separator(w[0]);
    }
  }

  lemma {:induction false} ReadableIsSeparated(pieces: seq<Piece>, values: map<string, nat>)
    requires Read(pieces, values).Some? && forall name :: name in values ==> Plain(name)
    ensures Separated(pieces)
    decreases |pieces|
  {
    if |pieces| > 1 {
      if pieces[1].Comma? {
        ReadableIsSeparated(pieces[2..], values);
        assert forall k :: 2 <= k < |pieces| ==> pieces[k] == pieces[2..][k - 2];
      } else if |pieces| > 3 {
        ReadableIsSeparated(pieces[4..], values);
        assert forall k :: 4 <= k < |pieces| ==> pieces[k] == pieces[4..][k - 4];
      }
    }
  }

  /** The characters after the colon of a level denote exactly the categories of its list, when the names hold
      neither dots nor commas. */
  lemma LevelReadsBack(level: Level, values: map<string, nat>)
    requires level.cats.Some? && level.cats.value != [] && Named(level.cats.value, values)
    requires forall name :: name in values ==> Plain(name)
    ensures |level.sens| < |LevelString(level)|
    ensures Read(Cut(LevelString(level)[|level.sens| + 1..]), values) == Some(ValuesOf(level.cats.value))
  {
    var cats := level.cats.value;
    var pieces := Pieces(NoRun, cats);
    ReadPieces(NoRun, cats, values);
    ReadableIsSeparated(pieces, values);
    CutText(pieces);
    assert LevelString(level)[|level.sens| + 1..] == Text(pieces);
    assert RunValues(NoRun) + ValuesOf(cats) == ValuesOf(cats);
  }

  // ---- Names with separators

  predicate Injective(values: map<string, nat>) {
    forall a, b :: a in values && b in values && values[a] == values[b] ==> a == b
  }

  lemma {:induction false} CutIntoPlainWords(s: string)
    ensures forall p :: p in Cut(s) && p.Word? ==> Plain(p.text)
    decreases |s|
  {
    if s != "" {
      if Separator(s[0]) {
        CutIntoPlainWords(s[1..]);
      } else {
        var n := WordLength(s);
        WordHasNoSeparator(s);
        CutIntoPlainWords(s[n..]);
      }
    }
  }

  lemma {:induction false} WordHasNoSeparator(s: string)
    ensures forall k :: 0 <= k < WordLength(s) ==> !Separator(s[k])
  {
    if s != "" && !Separator(s[0]) {
      WordHasNoSeparator(s[1..]);
    }
  }

  /** What is read from words that all have other values is not the set of one value alone. */
  lemma {:induction false} ReadsOtherSets(pieces: seq<Piece>, values: map<string, nat>, v: nat)
    requires forall p :: p in pieces && p.Word? && p.text in values ==> values[p.text] != v
    ensures Read(pieces, values) != Some({v})
    decreases |pieces|
  {
    if Read(pieces, values).Some? {
      var read, lo := Read(pieces, values).value, values[pieces[0].text];
      assert lo != v;
      if |pieces| == 1 || pieces[1].Comma? {
        assert lo in read;
      } else {
        var range := Interval(lo, values[pieces[2].text]);
        assert range <= read;
        if range != {} {
          assert lo in range;
        } else if |pieces| > 3 {
          ReadsOtherSets(pieces[4..], values, v);
          assert Read(pieces[4..], values).value == read;
        }
      }
    }
  }

  /** The text of a single category reads back exactly if its name has no separators. */
  lemma NameReadsBack(c: Category, values: map<string, nat>)
    requires Injective(values) && IsNamed(c, values)
    ensures Text(Pieces(NoRun, [c])) == c.name
    ensures Read(Cut(c.name), values) == Some({c.value}) <==> Plain(c.name)
  {
    assert Pieces(NoRun, [c]) == Flush(Run(c, c)) == [Word(c.name)];
    assert [Word(c.name)][1..] == [] && Text([Word(c.name)]) == c.name;
    if Plain(c.name) {
      CutText([Word(c.name)]);
    } else {
      CutIntoPlainWords(c.name);
      ReadsOtherSets(Cut(c.name), values, c.value);
    }
  }

  /** The text of a list reads back as its categories. */
  ghost predicate ReadsBack(cats: seq<Category>, values: map<string, nat>) {
    Read(Cut(Text(Pieces(NoRun, cats))), values) == Some(ValuesOf(cats))
  }

  /** All lists over the names read back exactly if no name has separators. */
  lemma AllReadBackIfPlain(values: map<string, nat>)
    requires Injective(values)
    ensures (forall cats: seq<Category> :: cats != [] && Named(cats, values) ==> ReadsBack(cats, values)) <==>
            forall name :: name in values ==> Plain(name)
  {
    if forall name :: name in values ==> Plain(name) {
      forall cats: seq<Category> | cats != [] && Named(cats, values) ensures ReadsBack(cats, values) {
        var level := Level("", Some(cats));
        LevelReadsBack(level, values);
        assert LevelString(level)[1..] == Text(Pieces(NoRun, cats));
      }
    }
    if forall cats: seq<Category> :: cats != [] && Named(cats, values) ==> ReadsBack(cats, values) {
      forall name | name in values ensures Plain(name) {
        var c := Category(name, values[name]);
        assert ReadsBack([c], values);
        assert ValuesOf([c]) == {c.value} by { assert [c][0] == c; }
        NameReadsBack(c, values);
      }
    }
  }

  /** A single list may read back although a name in it has separators: inside a range no name is written. */
  lemma InsideOfRangeIsNotWritten(a: Category, b: Category, b': Category, c: Category)
    requires b.value == b'.value == a.value + 1 && c.value == a.value + 2
    ensures Pieces(NoRun, [a, b, c]) == Pieces(NoRun, [a, b', c]) == [Word(a.name), Dot, Word(c.name)]
  {
    forall x | x in {b, b'} ensures Pieces(NoRun, [a, x, c]) == Flush(Run(a, c)) {
      assert [a, x, c][1..] == [x, c] && [x, c][1..] == [c] && [c][1..] == [];
      assert Pieces(Run(a, a), [x, c]) == Pieces(Run(a, x), [c]);
      assert Pieces(Run(a, x), [c]) == Pieces(Run(a, c), []);
    }
  }

  /** With a dot in a name the text can be misread. */
  lemma DottedNameMisread()
    ensures var cats := [Category("b.c", 7)];
            var values := map["b.c" := 7, "b" := 1, "c" := 2];
            Named(cats, values) && Read(Cut(Text(Pieces(NoRun, cats))), values) == Some({1, 2})
  {
    var cats := [Category("b.c", 7)];
    var values := map["b.c" := 7, "b" := 1, "c" := 2];
    assert Pieces(NoRun, cats) == Flush(Run(cats[0], cats[0])) == [Word("b.c")];
    assert Text([Word("b.c")]) == "b.c" by { assert [Word("b.c")][1..] == []; }
    var cut := [Word("b"), Dot, Word("c")];
    assert Cut("b.c") == cut by {
      assert WordLength("b.c") == 1;
      assert "b.c"[1..] == ".c" && ".c"[1..] == "c" && "b.c"[..1] == "b";
      assert WordLength("c") == 1 && "c"[1..] == "" && "c"[..1] == "c";
      assert Cut("c") == [Word("c")];
      assert Cut(".c") == [Dot, Word("c")];
    }
    assert Interval(1, 2) == {1, 2};
    assert Read(cut, values) == Some(Interval(1, 2));
  }
}
