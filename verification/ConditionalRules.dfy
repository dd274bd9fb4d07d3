/** The rules of conditional blocks: where they are put in the kernel policy and which are enabled. */
module ConditionalRules {
  import opened Common
  import opened Expressions
  import opened Conditionals

  datatype BlockKind = CondTrue | CondFalse

  datatype Block<R> = Block(kind: BlockKind, rules: seq<R>)

  datatype BooleanIf<D, R> = BooleanIf(expr: Expr<D>, blocks: seq<Block<R>>)

  datatype CondRule<R> = CondRule(rule: R, enabled: bool)

  /** A conditional of the kernel policy. `state` is 1, 0 or, when undefined, -1. */
  datatype CondNode<R> = CondNode(expr: Code, trueList: seq<CondRule<R>>, falseList: seq<CondRule<R>>, state: int)

  // ---- The policy library, by its contract

  /** The program leaves exactly one value. */
  predicate OneValue(code: Code, on: set<nat>) {
    var r := Run(code, on, []);
    r.Some? && |r.value| == 1
  }

  predicate Value(code: Code, on: set<nat>) {
    OneValue(code, on) && Run(code, on, []).value[0]
  }

  /** The program leaves exactly one value whatever booleans are on. */
  ghost predicate Proper(code: Code) {
    forall on: set<nat> :: OneValue(code, on)
  }

  /** `code'` has the value of `code`, or the opposite one if the branches are to be swapped. */
  ghost predicate SameUpToSwap(code: Code, code': Code, swapped: bool) {
    Proper(code') && forall on: set<nat> :: Value(code', on) == (Value(code, on) != swapped)
  }

  /** What the library offers: bringing a program into normal form, and finding a conditional whose program
      has the same values. */
  datatype Library = Library(normalize: Code -> (Code, bool), find: (Code, seq<Code>) -> Option<nat>)

  ghost predicate Contract(lib: Library) {
    && (forall code :: Proper(code) ==> SameUpToSwap(code, lib.normalize(code).0, lib.normalize(code).1))
    && (forall code, codes :: lib.find(code, codes).Some? ==>
          lib.find(code, codes).value < |codes| && SameUpToSwap(code, codes[lib.find(code, codes).value], false))
  }

  /** Normalisation as a program with a trailing "not" is brought into normal form: the "not" goes away and the
      branches are swapped. */
  function StripNot(code: Code): (Code, bool) {
    if code != [] && code[|code| - 1] == NotI then (code[..|code| - 1], true) else (code, false)
  }

  /** It meets the contract. */
  lemma StripNotNormalizes(code: Code)
    requires Proper(code)
    ensures SameUpToSwap(code, StripNot(code).0, StripNot(code).1)
  {
    forall on: set<nat>
      ensures OneValue(StripNot(code).0, on)
      ensures Value(StripNot(code).0, on) == (Value(code, on) != StripNot(code).1)
    {
      assert OneValue(code, on);
      if StripNot(code).1 {
        WithoutNot(StripNot(code).0, code, on);
      }
    }
  }

  lemma WithoutNot(code': Code, code: Code, on: set<nat>)
    requires code == code' + [NotI] && OneValue(code, on)
    ensures OneValue(code', on) && Value(code', on) == !Value(code, on)
  {
    RunConcat(code', [NotI], on, []);
    var s := Run(code', on, []).value;
    RunOne(NotI, on, s);
    assert |[!s[0]] + s[1..]| == 1;
  }

  // ---- What is granted

  /** `rules` are those of the block of a kind that no other of the kind follows; there are none without any. */
  ghost predicate LastOfKind<R>(blocks: seq<Block<R>>, kind: BlockKind, rules: seq<R>) {
    || (exists k :: 0 <= k < |blocks| && blocks[k] == Block(kind, rules)
          && forall j :: k < j < |blocks| ==> blocks[j].kind != kind)
    || (rules == [] && forall j :: 0 <= j < |blocks| ==> blocks[j].kind != kind)
  }

  lemma LastIsUnique<R>(blocks: seq<Block<R>>, kind: BlockKind, r1: seq<R>, r2: seq<R>)
    requires LastOfKind(blocks, kind, r1) && LastOfKind(blocks, kind, r2)
    ensures r1 == r2
  {
  }

  /** The rules of the last block of a kind; a later block of the same kind replaces an earlier one. */
  function RulesOf<R>(blocks: seq<Block<R>>, kind: BlockKind): (rules: seq<R>)
    ensures LastOfKind(blocks, kind, rules)
  {
    if blocks == [] then []
    else
      var last := blocks[|blocks| - 1];
      if last.kind == kind then last.rules else RulesOf(blocks[..|blocks| - 1], kind)
  }

  /** The rules of the branch that the source expression selects. */
  ghost function Selected<D, R>(stmt: BooleanIf<D, R>, bools: map<D, nat>, on: set<nat>): multiset<R> {
    multiset(RulesOf(stmt.blocks, if Truth(stmt.expr, DataOn(bools, on)) then CondTrue else CondFalse))
  }

  lemma SelectedIs<D, R>(stmt: BooleanIf<D, R>, bools: map<D, nat>, on: set<nat>, t: seq<R>, f: seq<R>)
    requires LastOfKind(stmt.blocks, CondTrue, t) && LastOfKind(stmt.blocks, CondFalse, f)
    ensures Selected(stmt, bools, on) == multiset(if Truth(stmt.expr, DataOn(bools, on)) then t else f)
  {
    hide Truth;
    LastIsUnique(stmt.blocks, CondTrue, t, RulesOf(stmt.blocks, CondTrue));
    LastIsUnique(stmt.blocks, CondFalse, f, RulesOf(stmt.blocks, CondFalse));
  }

  /** What all statements select, when `branches` are the blocks that the truth of each condition picks: a rule as
      often as it occurs in all of these together. */
  lemma {:induction false} AllSelectedIs<D, R>(stmts: seq<BooleanIf<D, R>>, bools: map<D, nat>, on: set<nat>,
      branches: seq<seq<R>>)
    requires |branches| == |stmts|
    requires forall k :: 0 <= k < |stmts| ==>
        var kind := if Truth(stmts[k].expr, DataOn(bools, on)) then CondTrue else CondFalse;
        LastOfKind(stmts[k].blocks, kind, branches[k])
    ensures SelectedByAll(stmts, bools, on) == multiset(Joined(branches))
    decreases |stmts|
  {
    hide Truth, LastOfKind;
    if stmts != [] {
      var n := |stmts| - 1;
      AllSelectedIs(stmts[..n], bools, on, branches[..n]);
      var kind := if Truth(stmts[n].expr, DataOn(bools, on)) then CondTrue else CondFalse;
      LastIsUnique(stmts[n].blocks, kind, branches[n], RulesOf(stmts[n].blocks, kind));
    }
  }

  function Joined<R>(lists: seq<seq<R>>): seq<R> {
    if lists == [] then [] else Joined(lists[..|lists| - 1]) + lists[|lists| - 1]
  }

  ghost function SelectedByAll<D, R>(stmts: seq<BooleanIf<D, R>>, bools: map<D, nat>, on: set<nat>): multiset<R> {
    if stmts == [] then multiset{}
    else SelectedByAll(stmts[..|stmts| - 1], bools, on) + Selected(stmts[|stmts| - 1], bools, on)
  }

  ghost function RulesIn<R>(list: seq<CondRule<R>>): multiset<R> {
    if list == [] then multiset{} else multiset{list[0].rule} + RulesIn(list[1..])
  }

  ghost function EnabledIn<R>(list: seq<CondRule<R>>): multiset<R> {
    if list == [] then multiset{}
    else (if list[0].enabled then multiset{list[0].rule} else multiset{}) + EnabledIn(list[1..])
  }

  /** The rules of the lists that the programs of the conditionals select. */
  ghost function Granted<R>(nodes: seq<CondNode<R>>, on: set<nat>): multiset<R> {
    if nodes == [] then multiset{}
    else RulesIn(if Value(nodes[0].expr, on) then nodes[0].trueList else nodes[0].falseList) + Granted(nodes[1..], on)
  }

  /** The rules that are marked as enabled. */
  ghost function Enabled<R>(nodes: seq<CondNode<R>>): multiset<R> {
    if nodes == [] then multiset{}
    else EnabledIn(nodes[0].trueList) + EnabledIn(nodes[0].falseList) + Enabled(nodes[1..])
  }

  /** What the library says of a program: 1, 0 or, where it underflows or leaves nothing, -1. */
  function StateOf(code: Code, on: set<nat>): int {
    match Run(code, on, [])
    case None => -1
    case Some(s) => if s == [] then -1 else if s[|s| - 1] then 1 else 0
  }

  /** The rules that the state of a conditional enables; an undefined one enables none. */
  ghost function EnabledBy<R>(node: CondNode<R>, on: set<nat>): multiset<R> {
    var state := StateOf(node.expr, on);
    if state == 1 then RulesIn(node.trueList) else if state == 0 then RulesIn(node.falseList) else multiset{}
  }

  ghost function EnabledByAll<R>(nodes: seq<CondNode<R>>, on: set<nat>): multiset<R> {
    if nodes == [] then multiset{} else EnabledBy(nodes[0], on) + EnabledByAll(nodes[1..], on)
  }

  /** Where every program leaves one value, states enable what the programs select. */
  lemma {:induction false} StatesSelect<R>(nodes: seq<CondNode<R>>, on: set<nat>)
    requires forall k :: 0 <= k < |nodes| ==> OneValue(nodes[k].expr, on)
    ensures EnabledByAll(nodes, on) == Granted(nodes, on)
  {
    if nodes != [] {
      StatesSelect(nodes[1..], on);
      assert OneValue(nodes[0].expr, on);
    }
  }

  lemma {:induction false} GrantedUpdate<R>(nodes: seq<CondNode<R>>, i: nat, node: CondNode<R>, on: set<nat>,
      more: multiset<R>)
    requires i < |nodes| && node.expr == nodes[i].expr
    requires RulesIn(if Value(node.expr, on) then node.trueList else node.falseList)
          == RulesIn(if Value(node.expr, on) then nodes[i].trueList else nodes[i].falseList) + more
    ensures Granted(nodes[i := node], on) == Granted(nodes, on) + more
  {
    if i == 0 {
      assert nodes[0 := node][1..] == nodes[1..];
    } else {
      GrantedUpdate(nodes[1..], i - 1, node, on, more);
      assert nodes[i := node][1..] == nodes[1..][i - 1 := node];
    }
  }

  // ---- The code

  function WithRule<R>(nodes: seq<CondNode<R>>, i: nat, kind: BlockKind, rule: R): seq<CondNode<R>>
    requires i < |nodes|
  {
    var node := nodes[i];
    nodes[i := if kind == CondTrue then node.(trueList := [CondRule(rule, false)] + node.trueList)
               else node.(falseList := [CondRule(rule, false)] + node.falseList)]
  }

  function WithRules<R>(nodes: seq<CondNode<R>>, i: nat, kind: BlockKind, rules: seq<R>): (r: seq<CondNode<R>>)
    requires i < |nodes|
    ensures |r| == |nodes| && forall k :: 0 <= k < |r| ==> r[k].expr == nodes[k].expr
  {
    if rules == [] then nodes
    else WithRule(WithRules(nodes, i, kind, rules[..|rules| - 1]), i, kind, rules[|rules| - 1])
  }

  /** The rules go to one branch of the conditional. */
  lemma {:induction false} WithRulesGrants<R>(nodes: seq<CondNode<R>>, i: nat, kind: BlockKind, rules: seq<R>,
      on: set<nat>)
    requires i < |nodes|
    ensures Granted(WithRules(nodes, i, kind, rules), on) ==
            Granted(nodes, on) + if Value(nodes[i].expr, on) == (kind == CondTrue) then multiset(rules) else multiset{}
    decreases |rules|
  {
    hide Granted, Value;
    if rules != [] {
      var n := |rules| - 1;
      WithRulesGrants(nodes, i, kind, rules[..n], on);
      assert rules == rules[..n] + [rules[n]];
      WithRuleGrants(WithRules(nodes, i, kind, rules[..n]), i, kind, rules[n], on);
    }
  }

  lemma WithRuleGrants<R>(nodes: seq<CondNode<R>>, i: nat, kind: BlockKind, rule: R, on: set<nat>)
    requires i < |nodes|
    ensures Granted(WithRule(nodes, i, kind, rule), on) ==
            Granted(nodes, on) + if Value(nodes[i].expr, on) == (kind == CondTrue) then multiset{rule} else multiset{}
  {
    var more := if Value(nodes[i].expr, on) == (kind == CondTrue) then multiset{rule} else multiset{};
    GrantedUpdate(nodes, i, WithRule(nodes, i, kind, rule)[i], on, more);
  }

  /** Both branches of a conditional whose program has the value of a condition, or the opposite one if the branches
      are swapped. */
  lemma BranchesGrant<D, R>(nodes: seq<CondNode<R>>, i: nat, stmt: BooleanIf<D, R>, swapped: bool, bools: map<D, nat>,
                            on: set<nat>)
    requires i < |nodes| && Value(nodes[i].expr, on) == (Truth(stmt.expr, DataOn(bools, on)) != swapped)
    ensures var t, f := RulesOf(stmt.blocks, CondTrue), RulesOf(stmt.blocks, CondFalse);
            var with := WithRules(nodes, i, CondTrue, if swapped then f else t);
            Granted(WithRules(with, i, CondFalse, if swapped then t else f), on) ==
            Granted(nodes, on) + Selected(stmt, bools, on)
  {
    hide Granted, Value, Truth, RulesOf, WithRules;
    var t, f := RulesOf(stmt.blocks, CondTrue), RulesOf(stmt.blocks, CondFalse);
    var with := WithRules(nodes, i, CondTrue, if swapped then f else t);
    WithRulesGrants(nodes, i, CondTrue, if swapped then f else t, on);
    WithRulesGrants(with, i, CondFalse, if swapped then t else f, on);
  }

  /** The programs of the conditionals. */
  function Codes<R>(nodes: seq<CondNode<R>>): (codes: seq<Code>)
    ensures |codes| == |nodes| && forall k :: 0 <= k < |nodes| ==> codes[k] == nodes[k].expr
  {
    seq(|nodes|, k requires 0 <= k < |nodes| => nodes[k].expr)
  }

  /** The conditional list of a kernel policy. */
  class Policy<R> {
    var condList: seq<CondNode<R>>

    constructor ()
      ensures condList == []
    {
      condList := [];
    }

    ghost predicate Valid()
      reads this
    {
      forall k :: 0 <= k < |condList| ==> Proper(condList[k].expr)
    }

    /** Puts a rule at the front of a list of conditional `i`. */
    method InsertRule(i: nat, kind: BlockKind, rule: R)
      requires i < |condList| && Valid()
      modifies this
      ensures Valid() && condList == WithRule(old(condList), i, kind, rule)
      ensures |condList| == |old(condList)|
      ensures forall k :: 0 <= k < |condList| && k != i ==> condList[k] == old(condList)[k]
      ensures var node, was := condList[i], old(condList)[i];
              && node.expr == was.expr && node.state == was.state
              && node.trueList == (if kind == CondTrue then [CondRule(rule, false)] else []) + was.trueList
              && node.falseList == (if kind == CondFalse then [CondRule(rule, false)] else []) + was.falseList
    {
      var node := condList[i];
      if kind == CondTrue {
        condList := condList[i := node.(trueList := [CondRule(rule, false)] + node.trueList)];
      } else {
        condList := condList[i := node.(falseList := [CondRule(rule, false)] + node.falseList)];
      }
    }

    /** Inserts the rules of a block one after the other. */
    method InsertRules(i: nat, kind: BlockKind, rules: seq<R>)
      requires i < |condList| && Valid()
      modifies this
      ensures Valid() && condList == WithRules(old(condList), i, kind, rules)
    {
      var k := 0;
      while k < |rules|
        invariant 0 <= k <= |rules| && Valid() && condList == WithRules(old(condList), i, kind, rules[..k])
      {
        assert rules[..k + 1][..k] == rules[..k];
        InsertRule(i, kind, rules[k]);
        k := k + 1;
      }
      assert rules[..k] == rules;
    }

    /** The conditional of a program: the one that the library finds, or a new one at the front. */
    method FindOrCreate(lib: Library, code: Code) returns (i: nat)
      requires Contract(lib) && Valid() && Proper(code)
      modifies this
      ensures Valid() && i < |condList|
      ensures match lib.find(code, Codes(old(condList)))
              case Some(found) => i == found && condList == old(condList)
              case None => i == 0 && condList == [CondNode(code, [], [], 0)] + old(condList)
      ensures forall on: set<nat> :: Value(condList[i].expr, on) == Value(code, on)
      ensures forall on: set<nat> :: Granted(condList, on) == Granted(old(condList), on)
    {
      var codes := Codes(condList);
      match lib.find(code, codes)
      case Some(found) =>
        assert SameUpToSwap(code, codes[found], false);
        i := found;
      case None =>
        condList := [CondNode(code, [], [], 0)] + condList;
        i := 0;
        assert condList[1..] == old(condList);
    }

    /** A conditional block: its condition is compiled and normalised, and the rules of its branches go to the
        lists of its conditional, the other way round if normalisation swapped the branches. */
    method AddBooleanIf<D>(stmt: BooleanIf<D, R>, bools: map<D, nat>, lib: Library) returns (ok: bool)
      requires Contract(lib) && Valid() && WellFormed(stmt.expr, Bool)
      modifies this
      ensures Valid()
      ensures ok <==> Known(stmt.expr, bools)
      ensures ok ==> forall on: set<nat> ::
          Granted(condList, on) == Granted(old(condList), on) + Selected(stmt, bools, on)
      ensures ok ==> forall on: set<nat>, t, f ::
          LastOfKind(stmt.blocks, CondTrue, t) && LastOfKind(stmt.blocks, CondFalse, f) ==>
            Granted(condList, on) ==
              Granted(old(condList), on) + multiset(if Truth(stmt.expr, DataOn(bools, on)) then t else f)
      ensures !ok ==> condList == old(condList)
    {
      hide Granted, Run, Truth, Compile, Known, RulesOf, WithRules, Selected, LastOfKind;
      var code;
      ok, code := CompileExpr(stmt.expr, bools);
      CompilesExactlyIfKnown(stmt.expr, bools);
      if !ok {
        return;
      }
      ProgramIsProper(stmt.expr, bools);
      var (normal, swapped) := lib.normalize(code);
      assert SameUpToSwap(code, normal, swapped);
      var i := FindOrCreate(lib, normal);
      ghost var found := condList;
      var trueRules, falseRules := PickBlocks(stmt.blocks);
      if swapped {
        trueRules, falseRules := falseRules, trueRules;
      }
      InsertRules(i, CondTrue, trueRules);
      InsertRules(i, CondFalse, falseRules);
      forall on: set<nat>
        ensures Granted(condList, on) == Granted(old(condList), on) + Selected(stmt, bools, on)
      {
        ProgramValue(stmt.expr, bools, on);
        BranchesGrant(found, i, stmt, swapped, bools, on);
      }
      forall on: set<nat>, t, f
        | LastOfKind(stmt.blocks, CondTrue, t) && LastOfKind(stmt.blocks, CondFalse, f)
        ensures Selected(stmt, bools, on) == multiset(if Truth(stmt.expr, DataOn(bools, on)) then t else f)
      {
        SelectedIs(stmt, bools, on, t, f);
      }
    }

    /** Sets the state of every conditional from the booleans that are on, and marks the rules. The rules themselves
        stay what they are. */
    method SetConditionalState(on: set<nat>)
      modifies this
      ensures SameRules(condList, old(condList))
      ensures Enabled(condList) == EnabledByAll(condList, on) == EnabledByAll(old(condList), on)
    {
      SameRulesReflexive(condList);
      NoneEnabled<R>(on);
      hide SameRules, Enabled, EnabledByAll, EnabledBy, EnabledIn;
      var i := 0;
      while i < |condList|
        invariant 0 <= i <= |condList| && SameRules(condList, old(condList))
        invariant Enabled(condList[..i]) == EnabledByAll(condList[..i], on)
      {
        ghost var before := condList;
        var node := SetState(condList[i], on);
        SameRulesUpdate(before, old(condList), i, node);
        condList := condList[i := node];
        SetOne(before, i, node, on);
        i := i + 1;
      }
      assert condList[..i] == condList;
      SameRulesEnabled(condList, old(condList), on);
    }

    /** Builds the conditionals of all blocks and sets their state. For every assignment the rules that the programs
        select are exactly those of the branches that the source expressions select, and these are enabled for the
        booleans that are on. */
    method Build<D>(stmts: seq<BooleanIf<D, R>>, bools: map<D, nat>, lib: Library, on: set<nat>) returns (ok: bool)
      requires Contract(lib) && forall s :: s in stmts ==> WellFormed(s.expr, Bool)
      requires condList == []
      modifies this
      ensures ok <==> forall s :: s in stmts ==> Known(s.expr, bools)
      ensures ok ==> forall o: set<nat> :: Granted(condList, o) == SelectedByAll(stmts, bools, o)
      ensures ok ==> Enabled(condList) == SelectedByAll(stmts, bools, on)
    {
      hide Granted, Enabled, Contract, Selected, Known, SelectedByAll, WellFormed, SameRules;
      NothingSelected<D, R>(bools);
      var i := 0;
      while i < |stmts|
        invariant 0 <= i <= |stmts| && Valid()
        invariant forall k :: 0 <= k < i ==> Known(stmts[k].expr, bools)
        invariant forall o: set<nat> :: Granted(condList, o) == SelectedByAll(stmts[..i], bools, o)
      {
        SelectedNext(stmts, i, bools);
        ok := AddBooleanIf(stmts[i], bools, lib);
        if !ok {
          return;
        }
        i := i + 1;
      }
      assert stmts[..i] == stmts;
      ghost var built := condList;
      StatesSelect(condList, on);
      SetConditionalState(on);
      forall o: set<nat> ensures Granted(condList, o) == SelectedByAll(stmts, bools, o) {
        SameRulesGranted(condList, built, o);
      }
      return true;
    }
  }

  /** The same conditionals with the same rules, whatever is marked. */
  ghost predicate SameRules<R>(nodes: seq<CondNode<R>>, nodes': seq<CondNode<R>>) {
    |nodes| == |nodes'| && forall k :: 0 <= k < |nodes| ==> SameRulesIn(nodes[k], nodes'[k])
  }

  ghost predicate SameRulesIn<R>(n: CondNode<R>, n': CondNode<R>) {
    && n.expr == n'.expr
    && RulesIn(n.trueList) == RulesIn(n'.trueList)
    && RulesIn(n.falseList) == RulesIn(n'.falseList)
  }

  lemma SameRulesReflexive<R>(nodes: seq<CondNode<R>>)
    ensures SameRules(nodes, nodes)
  {
  }

  lemma SameRulesUpdate<R>(nodes: seq<CondNode<R>>, nodes': seq<CondNode<R>>, i: nat, node: CondNode<R>)
    requires SameRules(nodes, nodes') && i < |nodes| && SameRulesIn(node, nodes[i])
    ensures SameRules(nodes[i := node], nodes')
  {
    hide RulesIn;
    assert SameRulesIn(nodes[i], nodes'[i]);
    forall k | 0 <= k < |nodes| ensures SameRulesIn(nodes[i := node][k], nodes'[k]) {
      assert SameRulesIn(nodes[k], nodes'[k]);
    }
  }

  lemma NoneEnabled<R>(on: set<nat>)
    ensures Enabled<R>([]) == EnabledByAll<R>([], on)
  {
  }

  lemma {:induction false} SameRulesGranted<R>(nodes: seq<CondNode<R>>, nodes': seq<CondNode<R>>, on: set<nat>)
    requires SameRules(nodes, nodes')
    ensures Granted(nodes, on) == Granted(nodes', on)
  {
    hide Value;
    if nodes != [] {
      assert SameRulesIn(nodes[0], nodes'[0]);
      SameRulesGranted(nodes[1..], nodes'[1..], on);
    }
  }

  lemma {:induction false} SameRulesEnabled<R>(nodes: seq<CondNode<R>>, nodes': seq<CondNode<R>>, on: set<nat>)
    requires SameRules(nodes, nodes')
    ensures EnabledByAll(nodes, on) == EnabledByAll(nodes', on)
  {
    hide StateOf;
    if nodes != [] {
      assert SameRulesIn(nodes[0], nodes'[0]);
      SameRulesEnabled(nodes[1..], nodes'[1..], on);
    }
  }

  lemma NothingSelected<D, R>(bools: map<D, nat>)
    ensures forall on: set<nat> :: Granted<R>([], on) == SelectedByAll<D, R>([], bools, on)
  {
  }

  lemma SelectedNext<D, R>(stmts: seq<BooleanIf<D, R>>, i: nat, bools: map<D, nat>)
    requires i < |stmts|
    ensures forall on: set<nat> ::
              SelectedByAll(stmts[..i + 1], bools, on) ==
                  SelectedByAll(stmts[..i], bools, on) + Selected(stmts[i], bools, on)
  {
    assert stmts[..i + 1][..i] == stmts[..i];
  }

  /** The last true and the last false block among the children. */
  method PickBlocks<R>(blocks: seq<Block<R>>) returns (trueRules: seq<R>, falseRules: seq<R>)
    ensures trueRules == RulesOf(blocks, CondTrue) && LastOfKind(blocks, CondTrue, trueRules)
    ensures falseRules == RulesOf(blocks, CondFalse) && LastOfKind(blocks, CondFalse, falseRules)
  {
    hide LastOfKind;
    trueRules, falseRules := [], [];
    var i := 0;
    while i < |blocks|
      invariant 0 <= i <= |blocks|
      invariant trueRules == RulesOf(blocks[..i], CondTrue) && falseRules == RulesOf(blocks[..i], CondFalse)
    {
      assert blocks[..i + 1][..i] == blocks[..i];
      if blocks[i].kind == CondTrue {
        trueRules := blocks[i].rules;
      } else {
        falseRules := blocks[i].rules;
      }
      i := i + 1;
    }
    assert blocks[..i] == blocks;
  }

  /** The value at the bottom of the stack, or -1 when the program underflows or leaves nothing. */
  method Evaluate(code: Code, on: set<nat>) returns (state: int)
    ensures state == StateOf(code, on)
    ensures state == -1 <==> Run(code, on, []) in {None, Some([])}
    ensures state != -1 ==> var s := Run(code, on, []).value; state == if s[|s| - 1] then 1 else 0
    ensures OneValue(code, on) ==> state == if Value(code, on) then 1 else 0
  {
    match Run(code, on, [])
    case None => return -1;
    case Some(s) =>
      if s == [] {
        return -1;
      }
      return if s[|s| - 1] then 1 else 0;
  }

  /** Sets the state of a conditional and marks its rules. */
  method SetState<R>(node: CondNode<R>, on: set<nat>) returns (node': CondNode<R>)
    ensures SameRulesIn(node', node) && node'.state == StateOf(node.expr, on)
    ensures EnabledIn(node'.trueList) + EnabledIn(node'.falseList) == EnabledBy(node', on)
  {
    hide Run;
    var state := Evaluate(node.expr, on);
    var trueList := MarkAll(node.trueList, state > 0);
    var falseList := MarkAll(node.falseList, state == 0);
    node' := CondNode(node.expr, trueList, falseList, state);
  }

  /** Marks every rule of a list as enabled or not. */
  method MarkAll<R>(list: seq<CondRule<R>>, enabled: bool) returns (list': seq<CondRule<R>>)
    ensures RulesIn(list') == RulesIn(list)
    ensures EnabledIn(list') == if enabled then RulesIn(list) else multiset{}
  {
    list' := list;
    var k := 0;
    while k < |list|
      invariant 0 <= k <= |list| == |list'|
      invariant forall i :: 0 <= i < |list| ==> list'[i].rule == list[i].rule
      invariant forall i :: 0 <= i < k ==> list'[i].enabled == enabled
    {
      list' := list'[k := list'[k].(enabled := enabled)];
      k := k + 1;
    }
    MarkedRules(list, list', enabled);
  }

  lemma {:induction false} MarkedRules<R>(list: seq<CondRule<R>>, list': seq<CondRule<R>>, enabled: bool)
    requires |list| == |list'|
    requires forall i :: 0 <= i < |list| ==> list'[i].rule == list[i].rule && list'[i].enabled == enabled
    ensures RulesIn(list') == RulesIn(list)
    ensures EnabledIn(list') == if enabled then RulesIn(list) else multiset{}
  {
    if list != [] {
      MarkedRules(list[1..], list'[1..], enabled);
    }
  }

  lemma SetOne<R>(before: seq<CondNode<R>>, i: nat, node: CondNode<R>, on: set<nat>)
    requires i < |before| && Enabled(before[..i]) == EnabledByAll(before[..i], on)
    requires EnabledIn(node.trueList) + EnabledIn(node.falseList) == EnabledBy(node, on)
    ensures Enabled(before[i := node][..i + 1]) == EnabledByAll(before[i := node][..i + 1], on)
  {
    hide EnabledBy;
    assert before[i := node][..i + 1] == before[..i] + [node];
    AppendEnabled(before[..i], node);
    AppendEnabledBy(before[..i], node, on);
  }

  lemma {:induction false} AppendEnabled<R>(nodes: seq<CondNode<R>>, node: CondNode<R>)
    ensures Enabled(nodes + [node]) == Enabled(nodes) + (EnabledIn(node.trueList) + EnabledIn(node.falseList))
  {
    hide EnabledIn;
    if nodes == [] {
      assert [node][1..] == [] && [] + [node] == [node];
      assert Enabled<R>([]) == multiset{};
    } else {
      AppendEnabled(nodes[1..], node);
      assert (nodes + [node])[1..] == nodes[1..] + [node];
    }
  }

  lemma {:induction false} AppendEnabledBy<R>(nodes: seq<CondNode<R>>, node: CondNode<R>, on: set<nat>)
    ensures EnabledByAll(nodes + [node], on) == EnabledByAll(nodes, on) + EnabledBy(node, on)
  {
    hide EnabledBy;
    if nodes == [] {
      assert [node][1..] == [] && [] + [node] == [node];
      assert EnabledByAll<R>([], on) == multiset{};
    } else {
      AppendEnabledBy(nodes[1..], node, on);
      assert (nodes + [node])[1..] == nodes[1..] + [node];
    }
  }

  /** The value of a compiled condition is its truth value. */
  lemma ProgramValue<D>(e: Expr<D>, bools: map<D, nat>, on: set<nat>)
    requires WellFormed(e, Bool) && Compile(e, bools).Some?
    ensures Value(Compile(e, bools).value, on) == Truth(e, DataOn(bools, on))
  {
    CompileCorrect(e, bools, on, []);
  }

  lemma ProgramIsProper<D>(e: Expr<D>, bools: map<D, nat>)
    requires WellFormed(e, Bool) && Compile(e, bools).Some?
    ensures Proper(Compile(e, bools).value)
  {
    forall on: set<nat>
      ensures OneValue(Compile(e, bools).value, on)
    {
      CompileCorrect(e, bools, on, []);
    }
  }
}
