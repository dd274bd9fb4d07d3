/** The passes of name resolution. When a pass disables an optional, the passes that depend on its declarations
    are run again. */
module PassDriver {
  import opened Common
  import opened MergePlans
  import opened OrderChecks

  const TIF := 1
  const IN := 2
  const BLKIN_LINK := 3
  const BLKIN_COPY := 4
  const BLKABS := 5
  const MACRO := 6
  const CALL1 := 7
  const CALL2 := 8
  const ALIAS1 := 9
  const ALIAS2 := 10
  const MISC1 := 11
  const MLS := 12
  const MISC2 := 13
  const MISC3 := 14
  const NUM := 15

  /** A statement of the policy and those inside it. */
  datatype Node = Node(id: nat, optional: bool, children: seq<Node>)

  datatype Rc = Ok | Missing | Failed

  /** What resolving a statement, or another step of a pass, leads to. */
  datatype Answer = Answer(rc: Rc, skipHead: bool)

  function Optionals(nodes: seq<Node>): set<nat> {
    if nodes == [] then {}
    else
      (if nodes[0].optional then {nodes[0].id} else {}) + Optionals(nodes[0].children) + Optionals(nodes[1..])
  }

  // ---- Which passes may follow each other

  /** What a pass has come by: the statements that it resolved, and those among them whose insides it was told to
      skip. */
  datatype Trace = Trace(visited: set<nat>, skipped: set<nat>)

  /** All statements are resolved, inside others too, except inside emptied optionals and what is skipped. */
  ghost predicate Covered(nodes: seq<Node>, t: Trace, emptied: set<nat>) {
    forall k :: 0 <= k < |nodes| ==> CoveredNode(nodes[k], t, emptied)
  }

  ghost predicate CoveredNode(node: Node, t: Trace, emptied: set<nat>) {
    && node.id in t.visited
    && (node.id in t.skipped || (node.optional && node.id in emptied) || Covered(node.children, t, emptied))
  }

  ghost predicate More(t: Trace, t': Trace) {
    t.visited <= t'.visited && t.skipped <= t'.skipped
  }

  lemma {:induction false} StillCovered(node: Node, t: Trace, emptied: set<nat>, t': Trace, emptied': set<nat>)
    requires CoveredNode(node, t, emptied) && More(t, t') && emptied <= emptied'
    ensures CoveredNode(node, t', emptied')
  {
    if Covered(node.children, t, emptied) {
      forall k | 0 <= k < |node.children|
        ensures CoveredNode(node.children[k], t', emptied')
      {
        StillCovered(node.children[k], t, emptied, t', emptied');
      }
    }
  }

  /** A pass that has been run to its end, the optionals that are disabled since, the numbers of the first
      statement that was resolved in it and of the first after it, and what it came by. */
  datatype Run = Run(pass: int, disabled: set<nat>, first: nat, end: nat, trace: Trace)

  ghost predicate Changed(log: seq<Run>, i: nat)
    requires i < |log|
  {
    log[i].disabled != if i == 0 then {} else log[i - 1].disabled
  }

  ghost function Next(log: seq<Run>, i: nat): int
    requires i < |log|
  {
    if Changed(log, i) && log[i].pass > CALL1 then CALL2 else log[i].pass + 1
  }

  /** All passes are run in order, except that those from CALL2 on start again after one in which an optional was
      disabled. */
  ghost predicate Orderly(log: seq<Run>) {
    && (log != [] ==> log[0].pass == TIF)
    && (forall i :: 0 <= i < |log| ==> TIF <= log[i].pass <= MISC3)
    && (forall i :: 0 < i < |log| ==> log[i].pass == Next(log, i - 1) && log[i - 1].disabled <= log[i].disabled)
  }

  /** The pass after the last one. */
  ghost function NextPass(log: seq<Run>): int {
    if log == [] then TIF else Next(log, |log| - 1)
  }

  /** The optionals that are disabled. */
  ghost function Disabled(log: seq<Run>): set<nat> {
    if log == [] then {} else log[|log| - 1].disabled
  }

  ghost predicate Complete(log: seq<Run>) {
    Orderly(log) && NextPass(log) == NUM
  }

  /** At the end every pass from CALL2 on has been run, in order, with the same optionals disabled throughout: those
      that were disabled before. */
  lemma CompleteIsClean(log: seq<Run>)
    requires Complete(log)
    ensures |log| >= MISC3
    ensures forall i :: |log| - NUM + CALL2 <= i < |log| ==>
              log[i].pass == i - |log| + NUM && log[i].disabled == Disabled(log) && !Changed(log, i)
  {
    var n := |log|;
    assert log[n - 1].pass == MISC3;
    PassesBefore(log, n - 1);
    CleanFrom(log, n - NUM + CALL1);
  }

  /** The same, from the end of the run down to `i`. */
  lemma {:induction false} CleanFrom(log: seq<Run>, i: nat)
    requires Complete(log) && |log| - NUM + CALL1 <= i < |log|
    ensures forall k :: i < k < |log| ==>
        log[k].pass == k - |log| + NUM && log[k].disabled == Disabled(log) && !Changed(log, k)
    ensures log[i].pass == i - |log| + NUM || i == |log| - NUM + CALL1
    ensures log[i].disabled == Disabled(log)
    decreases |log| - i
  {
    if i < |log| - 1 {
      CleanFrom(log, i + 1);
      assert log[i + 1].pass == Next(log, i);
    }
  }

  lemma {:induction false} PassesBefore(log: seq<Run>, i: nat)
    requires Orderly(log) && i < |log|
    ensures i + 1 >= log[i].pass
  {
    if i > 0 {
      PassesBefore(log, i - 1);
      assert log[i].pass == Next(log, i - 1);
    }
  }

  /** A bound on the number of passes. */
  lemma {:induction false} FewPasses(log: seq<Run>, i: nat)
    requires Orderly(log) && i < |log|
    ensures i + 1 <= log[i].pass + 7 * if i == 0 then 0 else |log[i - 1].disabled|
  {
    if i > 0 {
      FewPasses(log, i - 1);
      assert log[i].pass == Next(log, i - 1);
      var before: set<nat> := if i == 1 then {} else log[i - 2].disabled;
      assert before <= log[i - 1].disabled;
      SmallerSet(before, log[i - 1].disabled);
    }
  }

  /** The number of passes grows with the number of disabled optionals, and with nothing else. */
  lemma CompleteIsShort(log: seq<Run>)
    requires Complete(log)
    ensures |log| <= MISC3 + 7 * |Disabled(log)|
  {
    FewPasses(log, |log| - 1);
    CompleteIsClean(log);
  }

  lemma OrderlyAppend(log: seq<Run>, run: Run)
    requires Orderly(log) && TIF <= run.pass <= MISC3
    requires run.pass == NextPass(log) && Disabled(log) <= run.disabled
    ensures Orderly(log + [run]) && Disabled(log + [run]) == run.disabled
    ensures NextPass(log + [run]) == if run.disabled != Disabled(log) && run.pass > CALL1 then CALL2 else run.pass + 1
  {
    AppendFollows(log, run);
    assert log != [] ==> (log + [run])[|log| - 1] == log[|log| - 1];
  }

  lemma AppendFollows(log: seq<Run>, run: Run)
    requires Orderly(log) && TIF <= run.pass <= MISC3
    requires run.pass == NextPass(log) && Disabled(log) <= run.disabled
    ensures Orderly(log + [run])
  {
    hide Next;
    var next := log + [run];
    forall i | 0 < i < |next| ensures next[i].pass == Next(next, i - 1) && next[i - 1].disabled <= next[i].disabled {
      NextKept(log, run, i - 1);
      assert next[i - 1] == log[i - 1];
      assert i < |log| ==> next[i] == log[i];
    }
  }

  lemma NextKept(log: seq<Run>, run: Run, i: nat)
    requires i < |log|
    ensures Next(log + [run], i) == Next(log, i)
  {
    var next := log + [run];
    assert next[i] == log[i];
    assert i > 0 ==> next[i - 1] == log[i - 1];
  }

  // ---- What is asked

  /** The other steps: putting the contents of "in" statements where they belong, and resetting the tree. */
  datatype Step = InLists | Reset

  /** What an answer is asked for: a statement, inside these optionals, the innermost first, or another step. */
  datatype Question = AtStatement(id: nat, around: seq<nat>) | AtStep(step: Step)

  /** The answer makes resolution fail. */
  predicate Stops(answer: Answer, q: Question) {
    match q
    case AtStatement(_, around) => answer.rc == Failed || (answer.rc == Missing && around == [])
    case AtStep(_) => answer.rc != Ok
  }

  predicate NoneStops(answers: nat -> Answer, questions: seq<Question>, first: nat) {
    forall k :: first <= k < |questions| ==> !Stops(answers(k), questions[k])
  }

  /** The question is about one of the statements, or one inside them, and names the optionals around it. */
  ghost predicate Placed(q: Question, nodes: seq<Node>, around: seq<nat>) {
    exists k :: 0 <= k < |nodes| && PlacedIn(q, nodes[k], around)
  }

  ghost predicate PlacedIn(q: Question, node: Node, around: seq<nat>) {
    q == AtStatement(node.id, around) || Placed(q, node.children, Around(node, around))
  }

  function Around(node: Node, around: seq<nat>): seq<nat> {
    if node.optional then [node.id] + around else around
  }

  ghost predicate AllPlaced(questions: seq<Question>, first: nat, nodes: seq<Node>, around: seq<nat>) {
    forall k :: first <= k < |questions| ==> Placed(questions[k], nodes, around)
  }

  ghost predicate AllPlacedIn(questions: seq<Question>, first: nat, node: Node, around: seq<nat>) {
    forall k :: first <= k < |questions| ==> PlacedIn(questions[k], node, around)
  }

  /** All statements that were asked about are in the trees of the passes. */
  ghost predicate FromTrees(questions: seq<Question>, trees: int -> seq<Node>) {
    forall k :: 0 <= k < |questions| && questions[k].AtStatement? ==>
      exists pass :: TIF <= pass < NUM && Placed(questions[k], TreeAt(trees, pass), [])
  }

  /** The innermost optionals around the statements with missing names. */
  ghost function Dropped(answers: nat -> Answer, questions: seq<Question>, first: nat): set<nat> {
    set k | first <= k < |questions| && questions[k].AtStatement? && questions[k].around != []
      && answers(k).rc == Missing :: questions[k].around[0]
  }

  lemma NothingDropped(answers: nat -> Answer, questions: seq<Question>)
    ensures Dropped(answers, questions, |questions|) == {}
  {
  }

  lemma PassesPlans(kinds: nat -> Kinds)
    ensures forall n: nat :: Passes(kinds(n)) ==> PlanAll(kinds(n).cats.lists)
  {
  }

  lemma StopsLater(answers: nat -> Answer, questions: seq<Question>, more: seq<Question>)
    requires NoneStops(answers, questions, 0) && questions <= more
    ensures NoneStops(answers, more, 0) <==> NoneStops(answers, more, |questions|)
  {
    hide Stops;
    assert forall k :: 0 <= k < |questions| ==> more[k] == questions[k];
  }

  lemma PlacedInTree(questions: seq<Question>, more: seq<Question>, trees: int -> seq<Node>, pass: int)
    requires FromTrees(questions, trees) && questions <= more && TIF <= pass < NUM
    requires AllPlaced(more, |questions|, TreeAt(trees, pass), [])
    ensures FromTrees(more, trees)
  {
    hide Placed, TreeAt;
    forall k | 0 <= k < |more| && more[k].AtStatement?
      ensures exists pass :: TIF <= pass < NUM && Placed(more[k], TreeAt(trees, pass), [])
    {
      assert k < |questions| ==> more[k] == questions[k];
    }
  }

  lemma AskedStep(questions: seq<Question>, step: Step, trees: int -> seq<Node>)
    requires FromTrees(questions, trees)
    ensures FromTrees(questions + [AtStep(step)], trees)
    ensures forall s :: Steps(questions + [AtStep(step)], s) == Steps(questions, s) + if s == step then 1 else 0
  {
    hide Placed, TreeAt;
    assert (questions + [AtStep(step)])[..|questions|] == questions;
  }

  /** How often a step was made. */
  function Steps(questions: seq<Question>, step: Step): nat {
    if questions == [] then 0
    else
      Steps(questions[..|questions| - 1], step) + if questions[|questions| - 1] == AtStep(step) then 1 else 0
  }

  /** How often a step is due: once after the pass for "in" statements, and whenever passes start again. */
  ghost function StepsDue(log: seq<Run>, step: Step): nat {
    if log == [] then 0
    else
      var i := |log| - 1;
      StepsDue(log[..i], step) + if StepDue(log[i].pass, Changed(log, i), step) then 1 else 0
  }

  predicate StepDue(pass: int, changed: bool, step: Step) {
    match step
    case InLists => pass == IN
    case Reset => changed && pass > CALL1
  }

  ghost predicate AllStepsMade(questions: seq<Question>, log: seq<Run>) {
    forall step: Step :: Steps(questions, step) == StepsDue(log, step)
  }

  lemma NextStepsDue(log: seq<Run>, run: Run)
    ensures forall step: Step ::
        StepsDue(log + [run], step) ==
          StepsDue(log, step) + if StepDue(run.pass, run.disabled != Disabled(log), step) then 1 else 0
  {
    assert (log + [run])[..|log|] == log;
  }

  lemma {:induction false} PlacedIsStatement(q: Question, nodes: seq<Node>, around: seq<nat>)
    requires Placed(q, nodes, around)
    ensures q.AtStatement?
    decreases nodes
  {
    var k :| 0 <= k < |nodes| && PlacedIn(q, nodes[k], around);
    if q != AtStatement(nodes[k].id, around) {
      PlacedIsStatement(q, nodes[k].children, Around(nodes[k], around));
    }
  }

  /** Statements are no steps. */
  lemma {:induction false} NoSteps(questions: seq<Question>, first: nat, nodes: seq<Node>, around: seq<nat>)
    requires first <= |questions| && AllPlaced(questions, first, nodes, around)
    ensures forall step: Step :: Steps(questions, step) == Steps(questions[..first], step)
    decreases |questions|
  {
    hide Placed;
    var n := |questions| - 1;
    if first == |questions| {
      assert questions[..first] == questions;
    } else {
      PlacedIsStatement(questions[n], nodes, around);
      NoSteps(questions[..n], first, nodes, around);
      assert questions[..n][..first] == questions[..first];
    }
  }

  lemma DroppedSplit(answers: nat -> Answer, questions: seq<Question>, more: seq<Question>, first: nat)
    requires first <= |questions| && questions <= more
    ensures Dropped(answers, more, first) == Dropped(answers, questions, first) + Dropped(answers, more, |questions|)
  {
  }

  /** All these statements were resolved. */
  predicate AllResolved(answers: nat -> Answer, first: nat, end: nat) {
    forall k :: first <= k < end ==> answers(k).rc == Ok
  }

  /** In a pass that disabled no optional every statement was resolved. */
  ghost predicate CleanRunsResolve(log: seq<Run>, answers: nat -> Answer) {
    forall i :: 0 <= i < |log| && !Changed(log, i) ==> AllResolved(answers, log[i].first, log[i].end)
  }

  function TreeAt(trees: int -> seq<Node>, pass: int): seq<Node> {
    trees(if pass < CALL2 then pass else CALL2)
  }

  /** Every pass came by all statements. */
  ghost predicate AllCovered(log: seq<Run>, trees: int -> seq<Node>) {
    forall i :: 0 <= i < |log| ==> Covered(TreeAt(trees, log[i].pass), log[i].trace, log[i].disabled)
  }

  lemma CoveredAppend(log: seq<Run>, run: Run, trees: int -> seq<Node>)
    requires AllCovered(log, trees) && Covered(TreeAt(trees, run.pass), run.trace, run.disabled)
    ensures AllCovered(log + [run], trees)
  {
    hide Covered;
  }

  lemma CleanRunsAppend(log: seq<Run>, run: Run, answers: nat -> Answer)
    requires CleanRunsResolve(log, answers)
    requires run.disabled == Disabled(log) ==> AllResolved(answers, run.first, run.end)
    ensures CleanRunsResolve(log + [run], answers)
  {
    hide AllResolved;
    var next := log + [run];
    forall i | 0 <= i < |next| && !Changed(next, i) ensures AllResolved(answers, next[i].first, next[i].end) {
      assert i < |log| ==> next[i] == log[i];
      assert i > 0 ==> next[i - 1] == log[i - 1];
      assert i < |log| ==> !Changed(log, i);
    }
  }

  lemma SmallerSet(a: set<nat>, b: set<nat>)
    requires a <= b
    ensures |a| <= |b| && (a != b ==> |a| < |b|)
  {
    assert |b| == |a| + |b - a| by {
      assert b == a + (b - a);
    }
    assert a != b ==> b - a != {};
  }

  lemma FewerLeft(all: set<nat>, before: set<nat>, after: set<nat>)
    requires before <= after
    ensures |all - after| <= |all - before|
    ensures before != after && after <= before + all ==> |all - after| < |all - before|
  {
    SmallerSet(all - after, all - before);
    if x :| x in after && x !in before && after <= before + all {
      assert x in all - before && x !in all - after;
    }
  }

  // ---- The driver

  class Resolution {
    /** The statements as the walk of a pass finds them. No statements are added after CALL1. */
    const trees: int -> seq<Node>
    const answers: nat -> Answer
    var asked: nat
    /** The optionals around the current statement, the innermost first. */
    var optstack: seq<nat>
    var disabled: set<nat>
    /** The optionals whose children have been destroyed. */
    var emptied: set<nat>
    var changed: bool
    /** The order statements and declarations that each run of MISC1 finds, and the sids that get a context. */
    const kinds: nat -> Kinds
    const contexts: set<nat>
    /** How often MISC1 has been run. */
    var merges: nat
    /** The orders that the last run of MISC1 has left, unless they have been destroyed since. */
    var orders: Option<Orders>
    ghost var log: seq<Run>
    ghost var trace: Trace
    /** What the answers so far were asked for. */
    ghost var questions: seq<Question>

    constructor (trees: int -> seq<Node>, answers: nat -> Answer, kinds: nat -> Kinds, contexts: set<nat>)
      ensures Between(TIF) && log == [] && merges == 0
    {
      this.trees, this.answers, this.kinds, this.contexts := trees, answers, kinds, contexts;
      asked, optstack, disabled, emptied, changed, log := 0, [], {}, {}, false, [];
      merges, orders, questions := 0, None, [];
      trace := Trace({}, {});
    }

    function Tree(pass: int): seq<Node> {
      TreeAt(trees, pass)
    }

    method Ask(ghost q: Question) returns (answer: Answer)
      modifies this`asked, this`questions
      ensures asked == old(asked) + 1 && answer == answers(old(asked)) && questions == old(questions) + [q]
    {
      answer := answers(asked);
      asked, questions := asked + 1, questions + [q];
    }

    /** Every disabled optional has been emptied, or encloses the current statement. */
    ghost predicate Settled()
      reads this
    {
      emptied <= disabled <= emptied + set o | o in optstack
    }

    /** Resolves a statement. When a name is missing inside an optional, the innermost optional is disabled. */
    method ResolveNode(node: Node) returns (ok: bool, skipHead: bool)
      requires Settled() && |questions| == asked
      modifies this`asked, this`questions, this`disabled, this`trace
      ensures Settled() && old(disabled) <= disabled && skipHead == answers(old(asked)).skipHead
      ensures trace == Trace(old(trace).visited + {node.id}, old(trace).skipped + if skipHead then {node.id} else {})
      ensures |questions| == asked == old(asked) + 1 && questions == old(questions) + [AtStatement(node.id, optstack)]
      ensures ok <==> NoneStops(answers, questions, old(asked))
      ensures disabled == old(disabled) + Dropped(answers, questions, old(asked))
      ensures var rc := answers(old(asked)).rc;
              && (ok <==> rc == Ok || (rc == Missing && optstack != []))
              && disabled == if rc == Missing && optstack != [] then old(disabled) + {optstack[0]} else old(disabled)
    {
      var answer := Ask(AtStatement(node.id, optstack));
      skipHead := answer.skipHead;
      trace := Trace(trace.visited + {node.id}, trace.skipped + if skipHead then {node.id} else {});
      if answer.rc == Missing && optstack != [] {
        disabled := disabled + {optstack[0]};
        ok := true;
      } else {
        ok := answer.rc == Ok;
      }
    }

    /** Walks over a list of siblings. None of the optionals in `gone` is left around them, so a missing name
        disables another one. */
    method WalkCore(nodes: seq<Node>, ghost gone: set<nat>) returns (ok: bool)
      requires Settled() && |questions| == asked && gone <= emptied && forall o <- optstack :: o !in gone
      modifies this`asked, this`questions, this`disabled, this`emptied, this`optstack, this`changed, this`trace
      ensures old(disabled) <= disabled && old(emptied) <= emptied <= old(emptied) + Optionals(nodes)
      ensures ok ==> Settled() && optstack == old(optstack)
      ensures changed <==> old(changed) || emptied != old(emptied)
      ensures old(asked) <= asked && (ok && disabled == gone ==> AllResolved(answers, old(asked), asked))
      ensures |questions| == asked && old(questions) <= questions
      ensures AllPlaced(questions, old(asked), nodes, old(optstack))
      ensures ok <==> NoneStops(answers, questions, old(asked))
      ensures disabled == old(disabled) + Dropped(answers, questions, old(asked))
      ensures More(old(trace), trace) && (ok ==> Covered(nodes, trace, emptied))
      decreases nodes, 0
    {
      hide CoveredNode, Optionals, PlacedIn, Dropped, Stops;
      NothingDropped(answers, questions);
      var i := 0;
      while i < |nodes|
        invariant 0 <= i <= |nodes| && Settled() && optstack == old(optstack)
        invariant old(disabled) <= disabled && old(emptied) <= emptied <= old(emptied) + Optionals(nodes)
        invariant changed <==> old(changed) || emptied != old(emptied)
        invariant old(asked) <= asked && (disabled == gone ==> AllResolved(answers, old(asked), asked))
        invariant |questions| == asked && old(questions) <= questions
        invariant AllPlaced(questions, old(asked), nodes, old(optstack))
        invariant NoneStops(answers, questions, old(asked))
        invariant disabled == old(disabled) + Dropped(answers, questions, old(asked))
        invariant More(old(trace), trace) && forall k :: 0 <= k < i ==> CoveredNode(nodes[k], trace, emptied)
      {
        ghost var was, before, heard := trace, emptied, questions;
        OptionalsOf(nodes, i);
        ok := VisitNode(nodes[i], gone);
        DroppedSplit(answers, heard, questions, old(asked));
        if !ok {
          return;
        }
        forall k | 0 <= k < i ensures CoveredNode(nodes[k], trace, emptied) {
          StillCovered(nodes[k], was, before, trace, emptied);
        }
        i := i + 1;
      }
      ok := true;
    }

    /** Resolves a statement and walks over its children, unless it is skipped or emptied. */
    method VisitNode(node: Node, ghost gone: set<nat>) returns (ok: bool)
      requires Settled() && |questions| == asked && gone <= emptied && forall o <- optstack :: o !in gone
      modifies this`asked, this`questions, this`disabled, this`emptied, this`optstack, this`changed, this`trace
      ensures old(disabled) <= disabled && old(emptied) <= emptied <= old(emptied) + Optionals([node])
      ensures ok ==> Settled() && optstack == old(optstack)
      ensures changed <==> old(changed) || emptied != old(emptied)
      ensures old(asked) < asked && (ok && disabled == gone ==> AllResolved(answers, old(asked), asked))
      ensures |questions| == asked && old(questions) <= questions
      ensures AllPlacedIn(questions, old(asked), node, old(optstack))
      ensures ok <==> NoneStops(answers, questions, old(asked))
      ensures disabled == old(disabled) + Dropped(answers, questions, old(asked))
      ensures More(old(trace), trace) && (ok ==> CoveredNode(node, trace, emptied))
      ensures answers(old(asked)).skipHead || (node.optional && node.id in old(emptied)) ==> asked == old(asked) + 1
      decreases node, 2
    {
      var skipHead;
      ok, skipHead := ResolveNode(node);
      if !ok {
        return;
      }
      if node.children != [] && !(node.optional && node.id in emptied) && !skipHead {
        ghost var heard := questions;
        ok := Walk(node, gone);
        DroppedSplit(answers, heard, questions, old(asked));
      }
    }

    /** Walks over the children of a node. An optional that is disabled by then is emptied. */
    method Walk(node: Node, ghost gone: set<nat>) returns (ok: bool)
      requires Settled() && |questions| == asked && (node.optional ==> node.id !in emptied)
      requires gone <= emptied && forall o <- optstack :: o !in gone
      modifies this`asked, this`questions, this`disabled, this`emptied, this`optstack, this`changed, this`trace
      ensures old(disabled) <= disabled
      ensures old(emptied) <= emptied <= old(emptied) + Optionals([node])
      ensures ok ==> Settled() && optstack == old(optstack)
      ensures changed <==> old(changed) || emptied != old(emptied)
      ensures old(asked) <= asked && (ok && disabled == gone ==> AllResolved(answers, old(asked), asked))
      ensures |questions| == asked && old(questions) <= questions
      ensures AllPlacedIn(questions, old(asked), node, old(optstack))
      ensures ok <==> NoneStops(answers, questions, old(asked))
      ensures disabled == old(disabled) + Dropped(answers, questions, old(asked))
      ensures More(old(trace), trace)
      ensures ok ==> Covered(node.children, trace, emptied) || (node.optional && node.id in emptied)
      decreases node, 1
    {
      assert Optionals([node]) == (if node.optional then {node.id} else {}) + Optionals(node.children) by {
        assert [node][1..] == [];
      }
      if node.optional {
        optstack := [node.id] + optstack;
      }
      ok := WalkCore(node.children, gone);
      if !ok {
        return;
      }
      if node.optional {
        if node.id in disabled {
          changed := true;
          emptied := emptied + {node.id};
        }
        optstack := optstack[1..];
      }
    }

    lemma {:induction false} OptionalsOf(nodes: seq<Node>, i: nat)
      requires i < |nodes|
      ensures Optionals([nodes[i]]) <= Optionals(nodes)
    {
      assert [nodes[i]][1..] == [];
      if i > 0 {
        OptionalsOf(nodes[1..], i - 1);
      }
    }

    /** The orders are those of the statements that the last run of MISC1 has found. */
    ghost predicate InPlace()
      reads this
    {
      && MergePassed()
      && (orders.Some? ==> merges > 0 && orders.value == OrdersOf(kinds(merges - 1)))
    }

    /** The last merge, if there was one, has passed its checks. */
    ghost predicate MergePassed()
      reads this
    {
      merges > 0 ==> Passes(kinds(merges - 1))
    }

    /** No answer so far makes resolution fail, and the questions are about statements of the trees or about steps. */
    ghost predicate Heard()
      reads this
    {
      |questions| == asked && NoneStops(answers, questions, 0) && FromTrees(questions, trees)
    }

    /** What holds between two passes. */
    ghost predicate Between(pass: int)
      reads this
    {
      && TIF <= pass <= NUM
      && Orderly(log) && CleanRunsResolve(log, answers) && AllCovered(log, trees) && pass == NextPass(log)
      && optstack == [] && !changed && emptied == disabled
      && disabled == Disabled(log)
      && (orders.Some? <==> pass > MISC1) && InPlace() && Heard() && AllStepsMade(questions, log)
    }

    /** The optionals that may still be emptied by a pass after CALL1. */
    ghost function Full(): set<nat>
      reads this
    {
      Optionals(Tree(CALL2)) - emptied
    }

    /** Runs the passes. On success they form a complete run, and the orders are those that the merges of the last
        MISC1 returned. A missing list is followed only where categories or sids cannot be merged. */
    method ResolveAst() returns (ending: Ending)
      requires Between(TIF) && log == []
      modifies this
      ensures Orderly(log) && CleanRunsResolve(log, answers) && AllCovered(log, trees)
      ensures ending == Passed ==> Complete(log) && disabled == emptied == Disabled(log) && AllStepsMade(questions, log)
      ensures ending == Passed ==>
                && merges > 0 && Passes(kinds(merges - 1)) && orders == Some(OrdersOf(kinds(merges - 1)))
                && orders.value.sids.Some? && orders.value.sids.value != []
                && forall s :: s in orders.value.sids.value ==> s in contexts
      ensures ending == Refused <==> !NoneStops(answers, questions, 0) || Unmarked() || (Complete(log) && SidsLack())
      ensures ending == Followed <==> NoCats() || (NoneStops(answers, questions, 0) && Complete(log) && NoSids())
      ensures |questions| == asked && FromTrees(questions, trees)
    {
      hide Orderly, NextPass, Complete, CleanRunsResolve, AllCovered, AllStepsMade, Passes, PlanAll, OrdersOf;
      hide NoneStops, Stops, FromTrees, MergePassed, Unmarked, NoCats, NoSids, SidsLack;
      var pass := TIF;
      while pass < NUM
        invariant Between(pass)
        decreases |Full()|, NUM - pass
      {
        ending, pass := RunPass(pass);
        if ending != Passed {
          OneOutcome();
          return;
        }
        pass := pass + 1;
      }
      ending := CheckSids();
    }

    lemma OneOutcome()
      ensures MergePassed() ==> !NoCats() && !Unmarked()
      ensures Unmarked() ==> !NoCats() && !NoSids()
    {
      hide PlanAll, AllMarked;
    }

    /** After the last merge the categories have an order, but some declared datum is not marked. */
    ghost predicate Unmarked()
      reads this
    {
      merges > 0 && PlanAll(kinds(merges - 1).cats.lists) && !Passes(kinds(merges - 1))
    }

    ghost predicate NoCats()
      reads this
    {
      merges > 0 && !PlanAll(kinds(merges - 1).cats.lists)
    }

    ghost predicate NoSids()
      reads this
    {
      merges > 0 && Passes(kinds(merges - 1)) && !PlanAll(kinds(merges - 1).sids.lists)
    }

    /** There is an order of the sids, but it is empty or one of them lacks a context. */
    ghost predicate SidsLack()
      reads this
    {
      && orders.Some? && orders.value.sids.Some?
      && (orders.value.sids.value == [] || exists s :: s in orders.value.sids.value && s !in contexts)
    }

    /** The check of the sids after the last pass. */
    method CheckSids() returns (ending: Ending)
      requires Between(NUM)
      ensures Complete(log) && !Unmarked() && !NoCats()
      ensures ending == Refused <==> SidsLack()
      ensures ending == Followed <==> NoSids()
      ensures ending == Passed ==>
                && merges > 0 && Passes(kinds(merges - 1)) && orders == Some(OrdersOf(kinds(merges - 1)))
                && orders.value.sids.Some? && orders.value.sids.value != []
                && forall s :: s in orders.value.sids.value ==> s in contexts
    {
      hide Orderly, CleanRunsResolve, AllCovered, AllStepsMade, Passes, PlanAll, OrderOfKind, NoneStops, FromTrees;
      PassesPlans(kinds);
      ending := VerifyInitsids(orders.value.sids, contexts);
      PassesWithoutOrder(kinds(merges - 1).sids);
    }

    /** Walks over all statements. */
    method WalkTree(pass: int) returns (ok: bool)
      requires TIF <= pass < NUM && optstack == [] && !changed && emptied == disabled && Heard()
      modifies this`asked, this`questions, this`disabled, this`emptied, this`optstack, this`changed, this`trace
      ensures |questions| == asked && FromTrees(questions, trees) && (ok <==> NoneStops(answers, questions, 0))
      ensures forall step: Step :: Steps(questions, step) == old(Steps(questions, step))
      ensures old(disabled) <= disabled && |Full()| <= old(|Full()|)
      ensures ok ==> optstack == [] && emptied == disabled && (changed <==> disabled != old(disabled))
      ensures ok && changed && pass > CALL1 ==> |Full()| < old(|Full()|)
      ensures old(asked) <= asked && (ok && !changed ==> AllResolved(answers, old(asked), asked))
      ensures ok ==> Covered(Tree(pass), trace, emptied)
    {
      hide Optionals, AllResolved, Covered, NoneStops, Stops, FromTrees, AllPlaced, Placed, Dropped;
      ghost var before, heard := emptied, questions;
      trace := Trace({}, {});
      ok := WalkCore(Tree(pass), disabled);
      PlacedInTree(heard, questions, trees, pass);
      StopsLater(answers, heard, questions);
      NoSteps(questions, |heard|, Tree(pass), []);
      assert questions[..|heard|] == heard;
      FewerLeft(Optionals(Tree(CALL2)), before, emptied);
    }

    /** Walks over all statements and records the pass. */
    method WalkPass(pass: int) returns (ok: bool)
      requires Between(pass) && pass < NUM
      modifies this`asked, this`questions, this`disabled, this`emptied, this`optstack, this`changed
      modifies this`log, this`trace
      ensures Orderly(log) && CleanRunsResolve(log, answers) && AllCovered(log, trees) && (!ok ==> log == old(log))
      ensures |questions| == asked && FromTrees(questions, trees) && (ok <==> NoneStops(answers, questions, 0))
      ensures ok ==> forall step: Step ::
          StepsDue(log, step) == Steps(questions, step) + if StepDue(pass, changed, step) then 1 else 0
      ensures ok ==> optstack == [] && emptied == disabled == Disabled(log)
      ensures ok ==> NextPass(log) == if changed && pass > CALL1 then CALL2 else pass + 1
      ensures ok ==> |Full()| <= old(|Full()|) && (changed && pass > CALL1 ==> |Full()| < old(|Full()|))
    {
      hide Orderly, NextPass, Disabled, Optionals, CleanRunsResolve, AllResolved, AllCovered, Covered;
      hide NoneStops, FromTrees, TreeAt, InPlace;
      ghost var first := asked;
      ok := WalkTree(pass);
      if ok {
        ghost var run := Run(pass, disabled, first, asked, trace);
        OrderlyAppend(log, run);
        NextStepsDue(log, run);
        CleanRunsAppend(log, run, answers);
        CoveredAppend(log, run, trees);
        log := log + [run];
      }
    }

    /** Runs a pass. If it disabled an optional, the passes after CALL1 are next. */
    method RunPass(pass: int) returns (ending: Ending, last: int)
      requires Between(pass) && pass < NUM
      modifies this
      ensures Orderly(log) && CleanRunsResolve(log, answers) && AllCovered(log, trees)
      ensures ending == Passed ==> Between(last + 1)
      ensures ending == Passed ==> |Full()| <= old(|Full()|) && (|Full()| < old(|Full()|) || last == pass)
      ensures |questions| == asked && FromTrees(questions, trees)
      ensures ending == Refused ==> if NoneStops(answers, questions, 0) then Unmarked() else MergePassed()
      ensures ending == Followed ==> NoneStops(answers, questions, 0) && !Complete(log) && NoCats()
    {
      hide Orderly, NextPass, Disabled, Optionals, CleanRunsResolve, AllResolved, AllCovered, Covered, Passes, PlanAll,
        OrdersOf, NoneStops, Stops, FromTrees, Placed;
      last := pass;
      var ok := WalkPass(pass);
      if !ok {
        return Refused, last;
      }
      ending := AfterWalk(pass);
      if ending != Passed {
        return;
      }
      ok, last := EndPass(pass);
      ending := if ok then Passed else Refused;
    }

    /** What two of the passes do after the walk: "in" statements are put where they belong, or the orders merged. */
    method AfterWalk(pass: int) returns (ending: Ending)
      requires Heard() && InPlace() && (orders.Some? <==> pass > MISC1)
      modifies this`asked, this`questions, this`merges, this`orders
      ensures |questions| == asked && FromTrees(questions, trees)
      ensures ending == Passed ==> Heard() && InPlace() && (orders.Some? <==> pass >= MISC1)
      ensures ending == Passed ==> forall s: Step ::
          Steps(questions, s) == old(Steps(questions, s)) + if s == InLists && pass == IN then 1 else 0
      ensures ending == Refused ==> if NoneStops(answers, questions, 0) then Unmarked() else MergePassed()
      ensures ending == Followed ==> NoneStops(answers, questions, 0) && NoCats() && pass == MISC1
    {
      hide Passes, PlanAll, OrdersOf, NoneStops, Stops, FromTrees;
      ending := Passed;
      if pass == IN {
        var ok := Make(InLists);
        ending := if ok then Passed else Refused;
      }
      if pass == MISC1 {
        ending := MergeOrders();
      }
    }

    /** Starts again after CALL1 if an optional was disabled: destroys the orders, if there are any, and resets the
        tree. */
    method EndPass(pass: int) returns (ok: bool, last: int)
      requires (pass >= MISC1 ==> orders.Some?) && Heard()
      modifies this`asked, this`questions, this`orders, this`changed
      ensures last == if old(changed) && pass > CALL1 then CALL1 else pass
      ensures orders == if last == pass || pass < MISC1 then old(orders) else None
      ensures |questions| == asked && FromTrees(questions, trees) && (ok <==> NoneStops(answers, questions, 0))
      ensures ok ==> !changed
      ensures forall s: Step ::
          Steps(questions, s) == old(Steps(questions, s)) + if s == Reset && last != pass then 1 else 0
    {
      last, ok := pass, true;
      if changed && pass > CALL1 {
        if pass >= MISC1 {
          DestroyOrders();
        }
        last := CALL1;
        ok := Make(Reset);
        if !ok {
          return;
        }
      }
      changed := false;
    }

    /** Makes another step. */
    method Make(step: Step) returns (ok: bool)
      requires Heard()
      modifies this`asked, this`questions
      ensures |questions| == asked && FromTrees(questions, trees) && (ok <==> NoneStops(answers, questions, 0))
      ensures forall s: Step :: Steps(questions, s) == old(Steps(questions, s)) + if s == step then 1 else 0
    {
      AskedStep(questions, step, trees);
      var answer := Ask(AtStep(step));
      ok := answer.rc == Ok;
    }

    /** Merges the order statements and checks the marks. */
    method MergeOrders() returns (ending: Ending)
      requires orders == None
      modifies this`merges, this`orders
      ensures merges == old(merges) + 1
      ensures ending == Followed <==> !PlanAll(kinds(old(merges)).cats.lists)
      ensures ending == Passed <==> Passes(kinds(old(merges)))
      ensures ending == Passed ==> orders == Some(OrdersOf(kinds(old(merges))))
    {
      hide PlanAll, Passes, OrdersOf;
      var found;
      ending, found := SetOrders(kinds(merges));
      orders := Some(found);
      merges := merges + 1;
    }

    method DestroyOrders()
      requires orders.Some?
      modifies this`orders
      ensures orders == None
    {
      orders := None;
    }
  }
}
