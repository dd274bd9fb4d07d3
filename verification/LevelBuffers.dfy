/** Writing levels, and the outputs that contain them, into buffers of a size computed beforehand. */
module LevelBuffers {
  import opened Common
  import opened LevelText

  ghost predicate Starts(out: array<char>, text: string)
    reads out
  {
    |text| <= out.Length && out[..|text|] == text
  }

  /** The buffer holds `text` and a terminating NUL. */
  ghost predicate Holds(out: array<char>, text: string)
    reads out
  {
    |text| < out.Length && Starts(out, text) && out[|text|] == '\0'
  }

  /** Writes a string and a terminating NUL at `pos`, behind `before` and `done`, and returns the length of the
      string. */
  method Sprintf(out: array<char>, pos: nat, s: string, ghost before: string, ghost done: string) returns (n: nat)
    requires Starts(out, before + done) && pos == |before + done| && pos + |s| < out.Length
    modifies out
    ensures n == |s| && Holds(out, before + (done + s))
  {
    n := 0;
    while n < |s|
      invariant 0 <= n <= |s|
      invariant out[..pos] == before + done
      invariant forall k :: 0 <= k < n ==> out[pos + k] == s[k]
    {
      out[pos + n] := s[n];
      n := n + 1;
    }
    out[pos + n] := '\0';
    assert out[..pos + n] == out[..pos] + out[pos..pos + n];
    assert out[pos..pos + n] == s;
    assert (before + done) + s == before + (done + s);
  }

  /** The variables of the two loops, as the run that they stand for. */
  function RunOf(first: int, last: int, str1: string, str2: string): Run
    requires first == -1 || 0 <= first <= last
  {
    if first == -1 then NoRun
    else Run(Category(str1, first), Category(if first == last then str1 else str2, last))
  }

  /** The text of a finished run. */
  function RunText(run: Run): string {
    match run
    case NoRun => ""
    case Run(first, end) =>
      if end.value == first.value then first.name
      else if end.value == first.value + 1 then first.name + "," + end.name
      else first.name + "." + end.name
  }

  lemma {:induction false} FlushText(run: Run)
    ensures Text(Flush(run)) == RunText(run)
  {
    var f := Flush(run);
    assert Text([]) == "";
    if |f| == 1 {
      assert f[1..] == [];
    } else if |f| == 3 {
      assert f[1..][1..] == [f[2]] && f[2..][1..] == [];
      assert Text([f[2]]) == PieceText(f[2]);
      assert Text(f[1..]) == PieceText(f[1]) + Text([f[2]]);
    }
  }

  /** What the next category adds to the text. */
  lemma {:induction false} StepText(run: Run, cats: seq<Category>)
    requires cats != []
    ensures run.NoRun? ==> Pieces(run, cats) == Pieces(Run(cats[0], cats[0]), cats[1..])
    ensures run.Run? && cats[0].value == run.end.value + 1 ==>
              Pieces(run, cats) == Pieces(Run(run.first, cats[0]), cats[1..])
    ensures run.Run? && cats[0].value != run.end.value + 1 ==>
              Text(Pieces(run, cats)) ==
              RunText(run) + "," + cats[0].name + (if |cats| > 1 then "," else "") + Text(Pieces(NoRun, cats[1..]))
  {
    if run.Run? && cats[0].value != run.end.value + 1 {
      BreakText(run, cats[0].name, cats[1..] == [], Pieces(NoRun, cats[1..]));
    }
  }

  lemma LastText(run: Run)
    ensures Text(Pieces(run, [])) == RunText(run)
    ensures run.NoRun? ==> RunText(run) == ""
  {
    FlushText(run);
  }

  lemma {:induction false} BreakText(run: Run, name: string, isLast: bool, rest: seq<Piece>)
    ensures Text(Flush(run) + [Comma, Word(name)] + (if isLast then [] else [Comma]) + rest) ==
            RunText(run) + "," + name + (if isLast then "" else ",") + Text(rest)
  {
    hide Flush, RunText, Text;
    var mid := [Comma, Word(name)];
    var sep := if isLast then [] else [Comma];
    FlushText(run);
    TextConcat(Flush(run) + mid + sep, rest);
    TextConcat(Flush(run) + mid, sep);
    TextConcat(Flush(run), mid);
    MidText(name, isLast);
  }

  lemma {:induction false} MidText(name: string, isLast: bool)
    ensures Text([Comma, Word(name)]) == "," + name
    ensures Text(if isLast then [] else [Comma]) == if isLast then "" else ","
  {
    var mid := [Comma, Word(name)];
    assert mid[1..] == [Word(name)] && mid[1..][1..] == [] && [Comma][1..] == [];
    assert Text(mid[1..]) == name + Text([]);
    assert Text([Comma]) == "," + Text([]);
  }

  /** The length of a level's text. */
  method LevelStrlen(level: Level) returns (n: nat)
    ensures n == |LevelString(level)|
  {
    hide Text, Pieces;
    n := |level.sens|;
    if level.cats.Some? {
      var cats := level.cats.value;
      var first: int, last: int, str1: string, str2: string := -1, -1, "", "";
      n := n + 1;
      var k := 0;
      assert cats[0..] == cats;
      while k < |cats|
        invariant 0 <= k <= |cats|
        invariant (first == -1 && last == -1) || 0 <= first <= last
        invariant n + |Text(Pieces(RunOf(first, last, str1, str2), cats[k..]))| == |LevelString(level)|
      {
        var cat := cats[k];
        assert cats[k..][0] == cat && cats[k..][1..] == cats[k + 1..];
        StepText(RunOf(first, last, str1, str2), cats[k..]);
        if first == -1 {
          str1, first, last := cat.name, cat.value, cat.value;
        } else if cat.value == last + 1 {
          last, str2 := last + 1, cat.name;
        } else {
          if first == last {
            n := n + |str1| + |cat.name| + 1;
          } else if last == first + 1 {
            n := n + |str1| + |str2| + |cat.name| + 2;
          } else {
            n := n + |str1| + |str2| + |cat.name| + 2;
          }
          first, last := -1, -1;
          if k + 1 < |cats| {
            n := n + 1;
          }
        }
        k := k + 1;
      }
      assert cats[k..] == [];
      LastText(RunOf(first, last, str1, str2));
      if first != -1 {
        if first == last {
          n := n + |str1|;
        } else {
          n := n + |str1| + |str2| + 1;
        }
      }
    }
  }

  /** Writes the run that the category `name` ends, and that category. */
  method PrintBreak(out: array<char>, pos: nat, first: int, last: int, str1: string, str2: string, name: string,
                    ghost before: string, ghost done: string) returns (n: nat)
    requires 0 <= first <= last
    requires Starts(out, before + done) && pos == |before + done|
    requires pos + |RunText(RunOf(first, last, str1, str2)) + "," + name| < out.Length
    modifies out
    ensures n == |RunText(RunOf(first, last, str1, str2)) + "," + name|
    ensures Holds(out, before + (done + (RunText(RunOf(first, last, str1, str2)) + "," + name)))
  {
    hide Starts, Holds;
    if first == last {
      n := Sprintf(out, pos, str1 + "," + name, before, done);
    } else if last == first + 1 {
      n := Sprintf(out, pos, str1 + "," + str2 + "," + name, before, done);
    } else {
      n := Sprintf(out, pos, str1 + "." + str2 + "," + name, before, done);
    }
  }

  /** Writes the run that the list ends in. */
  method PrintRun(out: array<char>, pos: nat, first: int, last: int, str1: string, str2: string,
                  ghost before: string, ghost done: string) returns (n: nat)
    requires 0 <= first <= last
    requires Starts(out, before + done) && pos == |before + done|
    requires pos + |RunText(RunOf(first, last, str1, str2))| < out.Length
    modifies out
    ensures n == |RunText(RunOf(first, last, str1, str2))|
    ensures Holds(out, before + (done + RunText(RunOf(first, last, str1, str2))))
  {
    hide Starts, Holds;
    if first == last {
      n := Sprintf(out, pos, str1, before, done);
    } else if last == first + 1 {
      n := Sprintf(out, pos, str1 + "," + str2, before, done);
    } else {
      n := Sprintf(out, pos, str1 + "." + str2, before, done);
    }
  }

  lemma {:induction false} NextText(text: string, head: string, rest: string, whole: string)
    requires text + (head + rest) == whole
    ensures (text + head) + rest == whole && |text| + |head| <= |whole|
  {
  }

  lemma {:induction false} Regroup(before: string, done: string, s: string)
    ensures (before + done) + s == before + (done + s)
  {
  }

  /** Writes a level's text at `pos` and returns its length. */
  method LevelToString(level: Level, out: array<char>, pos: nat, ghost before: string, ghost done: string)
      returns (n: nat)
    requires Starts(out, before + done) && pos == |before + done| && pos + |LevelString(level)| < out.Length
    modifies out
    ensures n == |LevelString(level)| && Holds(out, before + (done + LevelString(level)))
  {
    hide Starts;
    ghost var front := before + done;
    assert front + "" == front;
    assert "" + level.sens == level.sens;
    n := Sprintf(out, pos, level.sens, front, "");
    if level.cats.Some? {
      var b := CatsToString(level.cats.value, out, pos + n, front, level.sens);
      n := n + b;
    } else {
      assert LevelString(level) == level.sens;
    }
    Regroup(before, done, LevelString(level));
  }

  /** Writes the colon and the categories of a level. */
  method CatsToString(cats: seq<Category>, out: array<char>, pos: nat, ghost before: string, ghost sens: string)
      returns (n: nat)
    requires Starts(out, before + sens) && pos == |before + sens|
    requires pos + |":" + Text(Pieces(NoRun, cats))| < out.Length
    modifies out
    ensures n == |":" + Text(Pieces(NoRun, cats))|
    ensures Holds(out, before + (sens + (":" + Text(Pieces(NoRun, cats)))))
  {
    hide Text, Pieces, RunText, Starts;
    ghost var whole := sens + (":" + Text(Pieces(NoRun, cats)));
    ghost var done := sens + ":";
    var first: int, last: int, str1: string, str2: string := -1, -1, "", "";
    NextText(sens, ":", Text(Pieces(NoRun, cats)), whole);
    var b: nat := Sprintf(out, pos, ":", before, sens);
    var cur: nat := pos + b;
    var k := 0;
    assert cats[0..] == cats;
    while k < |cats|
      invariant 0 <= k <= |cats|
      invariant (first == -1 && last == -1) || 0 <= first <= last
      invariant done + Text(Pieces(RunOf(first, last, str1, str2), cats[k..])) == whole
      invariant Holds(out, before + done) && cur == |before + done|
    {
      var cat := cats[k];
      assert cats[k..][0] == cat && cats[k..][1..] == cats[k + 1..];
      ghost var run := RunOf(first, last, str1, str2);
      StepText(run, cats[k..]);
      if first == -1 {
        str1, first, last := cat.name, cat.value, cat.value;
      } else if cat.value == last + 1 {
        last, str2 := last + 1, cat.name;
      } else {
        ghost var comma := if k + 1 < |cats| then "," else "";
        ghost var head, rest := RunText(run) + "," + cat.name, Text(Pieces(NoRun, cats[k + 1..]));
        Regroup(head, comma, rest);
        NextText(done, head, comma + rest, whole);
        b := PrintBreak(out, cur, first, last, str1, str2, cat.name, before, done);
        cur, done := cur + b, done + head;
        NextText(done, comma, rest, whole);
        first, last := -1, -1;
        if k + 1 < |cats| {
          b := Sprintf(out, cur, ",", before, done);
          cur := cur + b;
        } else {
          assert done + comma == done;
        }
        done := done + comma;
      }
      k := k + 1;
    }
    assert cats[k..] == [];
    LastText(RunOf(first, last, str1, str2));
    if first != -1 {
      b := PrintRun(out, cur, first, last, str1, str2, before, done);
      cur := cur + b;
    } else {
      assert done == whole;
    }
    n := cur - pos;
  }
}
