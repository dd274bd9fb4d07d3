/** Boolean conditionals: the direct interpreter of tunables, the postfix programs of booleans, and the rules
    that a conditional enables. */
module Conditionals {
  import opened Common
  import opened Expressions

  // ---- The meaning of a boolean or tunable expression

  /** The truth value when exactly the data in `on` are true. A list without operator is true when one of its
      items is. */
  ghost predicate Truth<D>(e: Expr<D>, on: set<D>)
    decreases e, 1
  {
    if e == [] then false
    else if e[0].Op? then
      && |e| == 1 + Arity(e[0].op)
      && match e[0].op
         case Not => !TruthOf(e[1], on)
         case And => TruthOf(e[1], on) && TruthOf(e[2], on)
         case Or => TruthOf(e[1], on) || TruthOf(e[2], on)
         case Xor => TruthOf(e[1], on) != TruthOf(e[2], on)
         case Eq => TruthOf(e[1], on) == TruthOf(e[2], on)
         case Neq => TruthOf(e[1], on) != TruthOf(e[2], on)
         case All => false
         case Range => false
    else exists k :: 0 <= k < |e| && TruthOf(e[k], on)
  }

  ghost predicate TruthOf<D>(i: Item<D>, on: set<D>)
    decreases i, 2
  {
    match i
    case Op(_) => false
    case Operand(d) => d in on
    case Sub(items) => Truth(items, on)
  }

  /** The truth of an operator in terms of the bits of its operands, and of a list in terms of their sum. */
  lemma TruthIsArithmetic<D>(a: Item<D>, b: Item<D>, on: set<D>)
    ensures var x, y := ToBit(TruthOf(a, on)), ToBit(TruthOf(b, on));
            && ToBit(Truth([Op(Not), a], on)) == 1 - x
            && ToBit(Truth([Op(And), a, b], on)) == x * y
            && ToBit(Truth([Op(Or), a, b], on)) == x + y - x * y
            && ToBit(Truth([Op(Xor), a, b], on)) == (x + y) % 2
            && ToBit(Truth([Op(Eq), a, b], on)) == (x + y + 1) % 2
            && ToBit(Truth([Op(Neq), a, b], on)) == (x + y) % 2
  {
    var one, two := [Op(Not), a], [Op(And), a, b];
    assert |one| == 1 + Arity(Not) && one[1] == a && |two| == 1 + Arity(And) && two[1] == a && two[2] == b;
  }

  /** A list of operands is true exactly if the bits of its items do not all vanish. */
  lemma {:induction false} ListTruthIsSum<D>(e: Expr<D>, on: set<D>)
    requires forall k :: 0 <= k < |e| ==> !e[k].Op?
    ensures Truth(e, on) <==> BitSum(e, on) > 0
  {
    if e != [] {
      ListTruthIsSum(e[1..], on);
      assert forall k :: 0 < k < |e| ==> e[k] == e[1..][k - 1];
      if Truth(e, on) && !TruthOf(e[0], on) {
        var k :| 0 <= k < |e| && TruthOf(e[k], on);
        assert TruthOf(e[1..][k - 1], on);
      }
    }
  }

  ghost function BitSum<D>(e: Expr<D>, on: set<D>): nat {
    if e == [] then 0 else ToBit(TruthOf(e[0], on)) + BitSum(e[1..], on)
  }

  // ---- Resolution of names

  /** The expression with every name replaced by the datum it stands for; the shape stays. */
  function Resolve<D>(e: Expr<string>, names: map<string, D>): (r: Option<Expr<D>>)
    ensures r.Some? ==> |r.value| == |e|
    decreases e, 1
  {
    if e == [] then Some([])
    else
      match (ResolveItem(e[0], names), Resolve(e[1..], names))
      case (Some(i), Some(rest)) => Some([i] + rest)
      case _ => None
  }

  function ResolveItem<D>(i: Item<string>, names: map<string, D>): Option<Item<D>>
    decreases i, 2
  {
    match i
    case Op(op) => Some(Op(op))
    case Operand(name) => if name in names then Some(Operand(names[name])) else None
    case Sub(items) =>
      match Resolve(items, names)
      case Some(r) => Some(Sub(r))
      case None => None
  }

  lemma {:induction false} ResolveKeepsOperands<D>(e: Expr<string>, names: map<string, D>, flavor: Flavor)
    requires AllOperands(e, flavor) && Resolve(e, names).Some?
    ensures AllOperands(Resolve(e, names).value, flavor)
    ensures e != [] ==> !Resolve(e, names).value[0].Op?
    ensures forall k :: 0 <= k < |e| ==> (e[k].Operand? <==> Resolve(e, names).value[k].Operand?)
    decreases e, 0
  {
    if e != [] {
      if e[0].Sub? {
        ResolveKeepsForm(e[0].items, names, flavor);
      }
      ResolveKeepsOperands(e[1..], names, flavor);
      assert Resolve(e, names).value[1..] == Resolve(e[1..], names).value;
    }
  }

  /** Resolution keeps an expression well formed. */
  lemma {:induction false} ResolveKeepsForm<D>(e: Expr<string>, names: map<string, D>, flavor: Flavor)
    requires WellFormed(e, flavor) && Resolve(e, names).Some?
    ensures WellFormed(Resolve(e, names).value, flavor)
    decreases e, 1
  {
    var r := Resolve(e, names).value;
    if e[0].Op? {
      ResolveKeepsOperands(e[1..], names, flavor);
      assert r[1..] == Resolve(e[1..], names).value;
    } else {
      ResolveKeepsOperands(e, names, flavor);
    }
  }

  /** The names of those data that are true. */
  ghost function NamesOn<D>(names: map<string, D>, on: set<D>): set<string> {
    set name | name in names && names[name] in on
  }

  /** Resolution keeps the truth: every name stands for its datum. */
  lemma {:induction false} ResolveKeepsTruth<D>(e: Expr<string>, names: map<string, D>, on: set<D>)
    requires Resolve(e, names).Some?
    ensures Truth(Resolve(e, names).value, on) <==> Truth(e, NamesOn(names, on))
    decreases e, 1
  {
    hide TruthOf;
    var r := Resolve(e, names).value;
    forall k | 0 <= k < |e|
      ensures TruthOf(r[k], on) <==> TruthOf(e[k], NamesOn(names, on))
      ensures r[k].Op? <==> e[k].Op?
      ensures r[k].Op? ==> r[k] == Op(e[k].op)
    {
      ItemKeepsTruth(e, names, on, k);
    }
  }

  lemma {:induction false} ItemKeepsTruth<D>(e: Expr<string>, names: map<string, D>, on: set<D>, k: nat)
    requires Resolve(e, names).Some? && k < |e|
    ensures var i := Resolve(e, names).value[k];
            && (TruthOf(i, on) <==> TruthOf(e[k], NamesOn(names, on)))
            && (i.Op? <==> e[k].Op?) && (i.Op? ==> i == Op(e[k].op))
    decreases e, 0
  {
    if k > 0 {
      assert e[1..][k - 1] == e[k];
      ItemKeepsTruth(e[1..], names, on, k - 1);
    } else if e[0].Sub? {
      ResolveKeepsTruth(e[0].items, names, on);
    }
  }

  // ---- The tunable interpreter

  /** The values that the C code computes with. */
  type Bit = x: nat | x <= 1

  function ToBit(b: bool): Bit {
    if b then 1 else 0
  }

  /** The truth value of a list of items, computed in place from the values of the tunables. */
  method EvaluateTunable<D(==)>(e: Expr<D>, value: map<D, Bit>, ghost on: set<D>) returns (v: Bit)
    requires WellFormed(e, Tunable) && ValuesOf(e, value, on)
    ensures v == ToBit(Truth(e, on))
    decreases e, 1
  {
    if e[0].Op? {
      var op := e[0].op;
      HeadOperands(e, value, on);
      var v1 := EvaluateTunableItem(e[1], value, on);
      if op == Not {
        return ToBit(v1 == 0);
      }
      var v2 := EvaluateTunableItem(e[2], value, on);
      if op == And {
        return ToBit(v1 != 0 && v2 != 0);
      } else if op == Or {
        return ToBit(v1 != 0 || v2 != 0);
      } else if op == Xor {
        return if v1 == v2 then 0 else 1;
      } else if op == Eq {
        return ToBit(v1 == v2);
      } else {
        return ToBit(v1 != v2);
      }
    } else {
      var i := 0;
      while i < |e|
        invariant 0 <= i <= |e|
        invariant forall k :: 0 <= k < i ==> !TruthOf(e[k], on)
      {
        OperandAt(e, Tunable, i);
        ValuesAt(e, value, on, i);
        v := EvaluateTunableItem(e[i], value, on);
        if v != 0 {
          return;
        }
        i := i + 1;
      }
      return 0;
    }
  }

  method EvaluateTunableItem<D(==)>(i: Item<D>, value: map<D, Bit>, ghost on: set<D>) returns (v: Bit)
    requires IsOperand(i, Tunable) && ValuesOfItem(i, value, on)
    ensures v == ToBit(TruthOf(i, on))
    decreases i, 2
  {
    match i
    case Operand(d) => v := value[d];
    case Sub(items) => v := EvaluateTunable(items, value, on);
  }

  /** `value` holds 1 for the data of the expression that are in `on`, and 0 for the others. */
  ghost predicate ValuesOf<D>(e: Expr<D>, value: map<D, Bit>, on: set<D>)
    decreases e, 1
  {
    e == [] || (ValuesOfItem(e[0], value, on) && ValuesOf(e[1..], value, on))
  }

  ghost predicate ValuesOfItem<D>(i: Item<D>, value: map<D, Bit>, on: set<D>)
    decreases i, 2
  {
    match i
    case Op(_) => true
    case Operand(d) => d in value && value[d] == ToBit(d in on)
    case Sub(items) => ValuesOf(items, value, on)
  }

  lemma {:induction false} ValuesAt<D>(e: Expr<D>, value: map<D, Bit>, on: set<D>, k: nat)
    requires ValuesOf(e, value, on) && k < |e|
    ensures ValuesOfItem(e[k], value, on)
    decreases k
  {
    if k > 0 {
      ValuesAt(e[1..], value, on, k - 1);
    }
  }

  lemma HeadOperands<D>(e: Expr<D>, value: map<D, Bit>, on: set<D>)
    requires WellFormed(e, Tunable) && ValuesOf(e, value, on) && e[0].Op?
    ensures 2 <= |e| && e[0].op !in {All, Range} && IsOperand(e[1], Tunable) && ValuesOfItem(e[1], value, on)
    ensures e[0].op != Not ==> |e| == 3 && IsOperand(e[2], Tunable) && ValuesOfItem(e[2], value, on)
  {
    OperandAt(e[1..], Tunable, 0);
    ValuesAt(e, value, on, 1);
    if e[0].op != Not {
      OperandAt(e[1..], Tunable, 1);
      ValuesAt(e, value, on, 2);
    }
  }

  // ---- The postfix programs

  datatype Instr = Push(bool_: nat) | NotI | OrI | AndI | XorI | EqI | NeqI

  type Code = seq<Instr>

  /** The instruction of an operator, where there is one. */
  function InstrOf(op: Operator): Option<Instr> {
    match op
    case Not => Some(NotI)
    case Or => Some(OrI)
    case And => Some(AndI)
    case Xor => Some(XorI)
    case Eq => Some(EqI)
    case Neq => Some(NeqI)
    case _ => None
  }

  /** The program of a list; it fails where an operand is missing or unknown, or the operator has no
      instruction. */
  function Compile<D>(e: Expr<D>, bools: map<D, nat>): Option<Code>
    decreases e, 1
  {
    if e == [] then None
    else if e[0].Op? then
      if InstrOf(e[0].op).None? || |e| < 2 then None
      else
        match CompileItem(e[1], bools)
        case None => None
        case Some(c1) =>
          if e[0].op == Not then Some(c1 + [NotI])
          else if |e| < 3 then None
          else
            match CompileItem(e[2], bools)
            case None => None
            case Some(c2) => Some(c1 + c2 + [InstrOf(e[0].op).value])
    else
      match CompileItem(e[0], bools)
      case None => None
      case Some(c) => CompileOr(c, e[1..], bools)
  }

  /** The rest of a list without operator, each item joined with "or". */
  function CompileOr<D>(code: Code, e: Expr<D>, bools: map<D, nat>): Option<Code>
    decreases e, 0
  {
    if e == [] then Some(code)
    else
      match CompileItem(e[0], bools)
      case None => None
      case Some(c) => CompileOr(code + c + [OrI], e[1..], bools)
  }

  function CompileItem<D>(i: Item<D>, bools: map<D, nat>): Option<Code>
    decreases i, 2
  {
    match i
    case Op(_) => None
    case Operand(d) => if d in bools then Some([Push(bools[d])]) else None
    case Sub(items) => Compile(items, bools)
  }

  /** Puts the program together: operands first, then the operator at the tail. */
  method CompileExpr<D>(e: Expr<D>, bools: map<D, nat>) returns (ok: bool, code: Code)
    ensures Compile(e, bools) == if ok then Some(code) else None
    decreases e, 1
  {
    code := [];
    if e == [] {
      return false, code;
    }
    if e[0].Op? {
      var op := e[0].op;
      if InstrOf(op) == None || |e| < 2 {
        return false, code;
      }
      ok, code := CompileOperand(e[1], bools);
      if !ok {
        return;
      }
      if op != Not {
        if |e| < 3 {
          return false, code;
        }
        var second;
        ok, second := CompileOperand(e[2], bools);
        if !ok {
          return;
        }
        code := code + second;
      }
      code := code + [InstrOf(op).value];
    } else {
      ok, code := CompileOperand(e[0], bools);
      if !ok {
        return;
      }
      var i := 1;
      while i < |e|
        invariant 1 <= i <= |e|
        invariant CompileOr(code, e[i..], bools) == Compile(e, bools)
      {
        assert e[i..][0] == e[i] && e[i..][1..] == e[i + 1..];
        var next;
        ok, next := CompileOperand(e[i], bools);
        if !ok {
          return;
        }
        code := code + next + [OrI];
        i := i + 1;
      }
      return true, code;
    }
  }

  method CompileOperand<D>(i: Item<D>, bools: map<D, nat>) returns (ok: bool, code: Code)
    ensures CompileItem(i, bools) == if ok then Some(code) else None
    decreases i, 2
  {
    match i
    case Op(_) => return false, [];
    case Operand(d) =>
      if d in bools {
        return true, [Push(bools[d])];
      }
      return false, [];
    case Sub(items) => ok, code := CompileExpr(items, bools);
  }

  /** The stack machine of the kernel policy; the top of the stack comes first. `None` is an underflow. */
  function Run(code: Code, on: set<nat>, stack: seq<bool>): Option<seq<bool>> {
    if code == [] then Some(stack)
    else
      match Execute(code[0], on, stack)
      case None => None
      case Some(next) => Run(code[1..], on, next)
  }

  function Execute(i: Instr, on: set<nat>, s: seq<bool>): Option<seq<bool>> {
    match i
    case Push(b) => Some([b in on] + s)
    case NotI => if |s| < 1 then None else Some([!s[0]] + s[1..])
    case _ => if |s| < 2 then None else Some([Combine(i, s[1], s[0])] + s[2..])
  }

  /** What a binary instruction makes of its operands. */
  function Combine(i: Instr, a: bool, b: bool): bool {
    match i
    case OrI => a || b
    case AndI => a && b
    case XorI => a != b
    case EqI => a == b
    case NeqI => a != b
    case Push(_) => false
    case NotI => false
  }

  lemma {:induction false} RunConcat(c1: Code, c2: Code, on: set<nat>, stack: seq<bool>)
    ensures Run(c1 + c2, on, stack) ==
            match Run(c1, on, stack) { case None => None case Some(s) => Run(c2, on, s) }
    decreases |c1|
  {
    if c1 == [] {
      assert c1 + c2 == c2;
    } else {
      assert (c1 + c2)[1..] == c1[1..] + c2;
      match Execute(c1[0], on, stack)
      case None =>
      case Some(s) => RunConcat(c1[1..], c2, on, s);
    }
  }

  /** The data whose booleans are on. */
  ghost function DataOn<D>(bools: map<D, nat>, on: set<nat>): set<D> {
    set d | d in bools && bools[d] in on
  }

  /** A program does what its expression means: it leaves exactly the truth value on top of the stack. */
  lemma {:induction false} CompileCorrect<D>(e: Expr<D>, bools: map<D, nat>, on: set<nat>, stack: seq<bool>)
    requires WellFormed(e, Bool) && Compile(e, bools).Some?
    ensures Run(Compile(e, bools).value, on, stack) == Some([Truth(e, DataOn(bools, on))] + stack)
    decreases e, 1
  {
    var data := DataOn(bools, on);
    if e[0].Op? {
      OperandAt(e[1..], Bool, 0);
      var c1 := CompileItem(e[1], bools).value;
      ItemCorrect(e[1], bools, on, stack);
      var instr := InstrOf(e[0].op).value;
      if e[0].op == Not {
        RunConcat(c1, [NotI], on, stack);
        RunOne(NotI, on, [TruthOf(e[1], data)] + stack);
      } else {
        OperandAt(e[1..], Bool, 1);
        var c2 := CompileItem(e[2], bools).value;
        var s1 := [TruthOf(e[1], data)] + stack;
        ItemCorrect(e[2], bools, on, s1);
        RunConcat(c1, c2, on, stack);
        RunConcat(c1 + c2, [instr], on, stack);
        RunBinary(instr, on, TruthOf(e[1], data), TruthOf(e[2], data), stack);
      }
    } else {
      ItemCorrect(e[0], bools, on, stack);
      OrCorrect(CompileItem(e[0], bools).value, e, 1, bools, on, stack);
    }
  }

  lemma RunOne(i: Instr, on: set<nat>, s: seq<bool>)
    ensures Run([i], on, s) == Execute(i, on, s)
  {
    match Execute(i, on, s)
    case None =>
    case Some(t) => assert Run([], on, t) == Some(t);
  }

  lemma RunBinary(i: Instr, on: set<nat>, a: bool, b: bool, stack: seq<bool>)
    requires !i.Push? && !i.NotI?
    ensures Run([i], on, [b] + ([a] + stack)) == Some([Combine(i, a, b)] + stack)
  {
    RunOne(i, on, [b] + ([a] + stack));
    assert ([b] + ([a] + stack))[2..] == stack;
  }

  lemma {:induction false} ItemCorrect<D>(i: Item<D>, bools: map<D, nat>, on: set<nat>, stack: seq<bool>)
    requires IsOperand(i, Bool) && CompileItem(i, bools).Some?
    ensures Run(CompileItem(i, bools).value, on, stack) == Some([TruthOf(i, DataOn(bools, on))] + stack)
    decreases i, 2
  {
    match i
    case Operand(d) => RunOne(Push(bools[d]), on, stack);
    case Sub(items) => CompileCorrect(items, bools, on, stack);
  }

  /** One of the first `k` items is true. */
  ghost predicate SomeTrue<D>(e: Expr<D>, k: nat, on: set<D>)
    requires k <= |e|
  {
    exists j :: 0 <= j < k && TruthOf(e[j], on)
  }

  /** A list without operator: after `k` items, the top of the stack says whether one of them is true. */
  lemma {:induction false} OrCorrect<D>(code: Code, e: Expr<D>, k: nat, bools: map<D, nat>, on: set<nat>,
      stack: seq<bool>)
    requires 0 < k <= |e| && AllOperands(e, Bool) && !e[0].Op?
    requires CompileOr(code, e[k..], bools).Some?
    requires Run(code, on, stack) == Some([SomeTrue(e, k, DataOn(bools, on))] + stack)
    ensures Run(CompileOr(code, e[k..], bools).value, on, stack) == Some([Truth(e, DataOn(bools, on))] + stack)
    decreases e, 0, |e| - k
  {
    if k < |e| {
      var data := DataOn(bools, on);
      var before := SomeTrue(e, k, data);
      assert e[k..][0] == e[k] && e[k..][1..] == e[k + 1..];
      OperandAt(e, Bool, k);
      var c := CompileItem(e[k], bools).value;
      ItemCorrect(e[k], bools, on, [before] + stack);
      RunConcat(code, c, on, stack);
      RunConcat(code + c, [OrI], on, stack);
      RunBinary(OrI, on, before, TruthOf(e[k], data), stack);
      assert SomeTrue(e, k + 1, data) <==> before || TruthOf(e[k], data);
      OrCorrect(code + c + [OrI], e, k + 1, bools, on, stack);
    }
  }

  /** Every datum of the expression is a known boolean. */
  predicate Known<D>(e: Expr<D>, bools: map<D, nat>)
    decreases e, 1
  {
    e == [] || (KnownItem(e[0], bools) && Known(e[1..], bools))
  }

  predicate KnownItem<D>(i: Item<D>, bools: map<D, nat>)
    decreases i, 2
  {
    match i
    case Op(_) => true
    case Operand(d) => d in bools
    case Sub(items) => Known(items, bools)
  }

  lemma KnownOperands<D>(e: Expr<D>, bools: map<D, nat>)
    requires 2 <= |e| <= 3 && e[0].Op?
    ensures Known(e, bools) <==> KnownItem(e[1], bools) && (|e| == 3 ==> KnownItem(e[2], bools))
  {
    var rest := e[1..];
    assert rest[0] == e[1] && rest[1..] == e[2..];
    assert Known(rest, bools) <==> KnownItem(rest[0], bools) && Known(rest[1..], bools);
    if |e| == 3 {
      assert e[2..] == [e[2]] && e[2..][1..] == [];
      assert Known([], bools);
    }
  }

  /** A well-formed expression compiles exactly when all its booleans are known: the compiler never meets a
      missing or unexpected operand. */
  lemma {:induction false} CompilesExactlyIfKnown<D>(e: Expr<D>, bools: map<D, nat>)
    requires WellFormed(e, Bool)
    ensures Compile(e, bools).Some? <==> Known(e, bools)
    decreases e, 1
  {
    if e[0].Op? {
      OperandAt(e[1..], Bool, 0);
      ItemCompilesIfKnown(e[1], bools);
      KnownOperands(e, bools);
      if e[0].op != Not {
        OperandAt(e[1..], Bool, 1);
        ItemCompilesIfKnown(e[2], bools);
      }
    } else {
      ItemCompilesIfKnown(e[0], bools);
      if CompileItem(e[0], bools).Some? {
        RestCompilesIfKnown(CompileItem(e[0], bools).value, e[1..], bools);
      }
    }
  }

  lemma {:induction false} ItemCompilesIfKnown<D>(i: Item<D>, bools: map<D, nat>)
    requires IsOperand(i, Bool)
    ensures CompileItem(i, bools).Some? <==> KnownItem(i, bools)
    decreases i, 2
  {
    if i.Sub? {
      CompilesExactlyIfKnown(i.items, bools);
    }
  }

  lemma {:induction false} RestCompilesIfKnown<D>(code: Code, e: Expr<D>, bools: map<D, nat>)
    requires AllOperands(e, Bool)
    ensures CompileOr(code, e, bools).Some? <==> Known(e, bools)
    decreases e, 0
  {
    if e != [] {
      ItemCompilesIfKnown(e[0], bools);
      if CompileItem(e[0], bools).Some? {
        RestCompilesIfKnown(code + CompileItem(e[0], bools).value + [OrI], e[1..], bools);
      }
    }
  }

  /** Tunables and booleans allow the same expressions, so a tunable that is kept as a boolean has the same
      condition: `EvaluateTunable` and the program both compute `Truth`. */
  lemma {:induction false} TunableFormIsBooleanForm<D>(e: Expr<D>)
    ensures WellFormed(e, Tunable) <==> WellFormed(e, Bool)
    decreases e, 1
  {
    if e != [] {
      OperandsSameForm(e[1..]);
      OperandsSameForm(e);
    }
  }

  lemma {:induction false} OperandsSameForm<D>(e: Expr<D>)
    ensures AllOperands(e, Tunable) <==> AllOperands(e, Bool)
    decreases e, 0
  {
    if e != [] {
      if e[0].Sub? {
        TunableFormIsBooleanForm(e[0].items);
      }
      OperandsSameForm(e[1..]);
    }
  }
}
