# A verified model of the CIL compiler

CIL is compiled in stages: a file is parsed into a tree, an abstract syntax tree is built and checked, names are
resolved in fourteen passes, sets are evaluated into bitmaps, ranges and bounds are verified, and the kernel policy is
written. This project models the stages that are algorithms in their own right, each in a module of its own, and
proves what they are for. `dafny verify dfyconfig.toml` checks all of it.

- `Common`: what several modules share.
- `Subsequences`, `OrderedLists`, `MergeExactness`, `MergePlans`: merging the partial orders of `classorder`,
  `categoryorder`, `sensitivityorder` and `sidorder` statements into one list, in rounds, and numbering the result. A
  merge that succeeds yields the *only* order that combines all statements. One attempt succeeds exactly if such a single
  order of the list and the statement exists. Which statements are merged, how far a failed attempt gets and whether all
  are merged in the end is planned without looking at any list: by asking which beginnings of statements have a single
  combined order. The merge succeeds exactly if the plan does.
- `OrderChecks`: the step of resolution that merges the statements of all four kinds and checks that all declared data are
  ordered, and when it passes without an order.
- `Chains`, `BoundsCheck`, `AliasResolution`: circle detection with doubling limits, exact on every finite relation, and
  the alias pass that shortens chains as it goes, and when it follows a reference that is missing.
- `Expressions`: the parse trees that are accepted as expressions, and the expressions that are built from them.
- `Conditionals`, `ConditionalRules`: truth values of boolean expressions, the direct interpreter of tunables, the
  compiler to postfix programs, and which rules of conditional blocks end up enabled.
- `SetMeaning`, `SetExpressions`, `CategoryExpressions`: set expressions of types, roles and categories over sets that
  name each other, evaluated at most once each.
- `TypeMatch`, `Neverallow`: the comparison of sparse bitmaps, and the enforcement of neverallow rules in the build.
- `LevelText`, `LevelBuffers`, `Outputs`: the text of levels, and the text outputs whose buffers are measured in advance.
- `MlsRanges`: level ranges, the ranges of contexts, and when their checks follow a list that is missing.
- `PassDriver`: the passes of resolution and their repetition after an optional was disabled.
- `QualifiedNames`: full names of declarations and lookups by them.
- `ComplexSymtab`: the chained hash table with four-part keys.
- `Parser`, `ParseTrees`: the parser over tokens.
- `TreeDestroy`: freeing a tree without a stack.

Objects that the compiler updates in place (data with marks, attributes with bitmaps, category sets, the policy being
built, tree and chain nodes, buffers) are classes and arrays here, and loops are loops; each such method is proved
against a function or predicate, and the lemmas are about those. Bitmaps are sets of bit numbers, except in `TypeMatch`
and `Neverallow`, where attributes have sorted lists of nodes. Errors are results, and where the compiler follows a null
pointer that is a result of its own, `Followed`.

What only proofs need, such as the shape of a tree or the rank of an attribute, is passed in ghost parameters.

Where the compiler and its guide, or what one would expect of it, part ways, the model follows the compiler:

- The reference guide says that several order statements form an ordered list
  (docs/cil_class_and_permission_statements.xml:164). The compiler may fail to find that list in one order of the
  statements and find it in another (`OrderedLists.SuccessDependsOnStatementOrder`). It finds it exactly if the plan merges
  all statements (`MergePlans.MergeAllExactly`), and without a second round exactly if the statements up to each one have a
  single combined order (`MergePlans.FirstRoundExactly`).
- Resolution does not look at what the merges return. Statements of classes or sensitivities that cannot be merged pass as
  long as all declared data were marked on the way (`OrderChecks.PassesWithoutOrder`, `OrderChecks.OppositeClassesPass`);
  where those of categories cannot be merged, or those of sids in a run that passes all other checks, the missing list is
  followed.
- Categories that evaluate to nothing leave no list (src/cil_post.c:694-701), which the range checks may follow
  (`MlsRanges.LowNothingFollows`, `MlsRanges.HighNothingFollows`).
- An alias of an alias without an actual is refused, or its missing reference followed, depending on the order of the
  visits (`AliasResolution.VisitsDecide`).
- A neverallow rule about an attribute without types can refuse a policy that grants nothing that is forbidden
  (`Neverallow.EmptyAttributeIsRefused`).
- The text of a level cannot be read back if the name of a category holds a dot, as names of declarations in blocks do
  (`LevelText.NameReadsBack`).

## Model

| member | source | states |
|---|---|---|
| OrderedLists.CombinedList.InsertItem | src/cil_resolve_ast.c:1097-1130 | one item is inserted and marked; an item that is marked already is refused and nothing changes; marks keep agreeing with membership |
| OrderedLists.CombinedList.InsertList | src/cil_resolve_ast.c:1132-1143 | exactly the items before the first that is in the list already, or repeated in the run, are inserted at the place, also when the insertion fails; marks agree with membership on both outcomes |
| OrderedLists.InsertRunExactly | src/cil_resolve_ast.c:1132-1143 | the same of the function that attempts are described by |
| OrderedLists.CombinedList.MergeList | src/cil_resolve_ast.c:1156-1248 | one attempt has the outcome of the merge function, with what a failed attempt leaves in the list, and marks agree with membership |
| OrderedLists.CombinedList.MergeStep | src/cil_resolve_ast.c:1207-1237 | one step of the overlapping part: a common item, items that only the list has, or items that only the statement has |
| OrderedLists.RoundOfAttempts | src/cil_resolve_ast.c:1260-1275 | one round tries every waiting statement once and reports how many still wait and whether anything changed |
| OrderedLists.MergeStatements | src/cil_resolve_ast.c:1250-1294 | merging ends for every collection of statements; success yields a list without repetition over exactly the items of all statements, in which every statement is a subsequence |
| OrderedLists.MergeKeeps | src/cil_resolve_ast.c:1156-1248 | an attempt, failed or not, keeps the old list as a subsequence and keeps every neighbourhood demanded by some statement; after a successful one the statement is a subsequence |
| OrderedLists.MergeAllCombines | src/cil_resolve_ast.c:1250-1294 | a successful merge combines all statements, and each pair of neighbours is demanded by one of them |
| OrderedLists.MergeAllUnique | src/cil_resolve_ast.c:1250-1294 | any other list that combines all statements is the result of a successful merge itself |
| OrderedLists.MergeAllIgnoresStatementOrder | src/cil_resolve_ast.c:1250-1294 | two successful merges of the same statements in different orders yield the same list |
| OrderedLists.GivesUpAfterFruitlessRound | src/cil_resolve_ast.c:1256-1290 | the merge gives up only after a whole round in which every statement still waiting was tried and failed, each on the list that the one before left, and the last list is the result |
| OrderedLists.SuccessDependsOnStatementOrder | src/cil_resolve_ast.c:1250-1294 | an instance: three statements that merge in one order of the statements and not in another |
| OrderedLists.SetValues | src/cil_resolve_ast.c:1362-1374 | every category is numbered by its place in the combined order |
| MergeExactness.MergeSucceedsExactly | src/cil_resolve_ast.c:1156-1248 | an attempt succeeds if and only if exactly one order combines the list and the statement, and then yields it |
| MergeExactness.UniqueIsLinked | src/cil_resolve_ast.c:1156-1248 | in a unique combined order any two neighbours stand together in the list or in the statement |
| MergeExactness.MergeOverlapSucceeds | src/cil_resolve_ast.c:1203-1245 | the overlapping part goes through wherever a combined order with linked neighbours is left |
| MergePlans.MergeAllExactly | src/cil_resolve_ast.c:1250-1294 | the merge of all statements succeeds if and only if the plan of beginnings with a single combined order merges them all, later rounds and what failed attempts leave behind included |
| MergePlans.FirstRoundExactly | src/cil_resolve_ast.c:1260-1275 | the first round leaves no statement waiting if and only if the statements up to each one have exactly one combined order, and then the merge succeeds |
| MergePlans.LongestBeginning | src/cil_resolve_ast.c:1156-1248 | a failed attempt leaves the list as if its longest beginning that can be merged had been merged |
| MergePlans.FailureLeaves | src/cil_resolve_ast.c:1156-1248 | a failed attempt at any list and statement, contradictory ones too, leaves the merge of a beginning of the statement with the next items up to the first that is taken inserted behind it |
| MergePlans.AttemptExactly | src/cil_resolve_ast.c:1156-1248 | over a list that is the only order of what was merged before, an attempt succeeds if and only if that and the statement have exactly one combined order |
| MergePlans.LeavesAsPlanned | src/cil_resolve_ast.c:1250-1294 | if the statements can be combined at all, the merge leaves the only order of the beginnings that the plan has merged, also when it fails |
| OrderChecks.SetOrders | src/cil_resolve_ast.c:3439-3465 | follows the missing list exactly if the categories cannot be planned; otherwise passes exactly if all declared data of all kinds are marked, and then each of the four orders is the only order of the statements of its own kind, or missing if those cannot be planned |
| OrderChecks.VerifyOrdered | src/cil_verify.c:370-416 | accepts exactly if every declared datum was marked by the merge, whether or not the merge succeeded |
| OrderChecks.VerifyInitsids | src/cil_verify.c:418-437 | follows the missing list of sids, and otherwise passes exactly if there is a sid and all sids of the list have contexts |
| OrderChecks.OrderIsComplete | src/cil_resolve_ast.c:3439-3465 | where the plan succeeds and the marks are checked, the order has all declared data and is the only one that combines the statements |
| OrderChecks.PassesWithoutOrder | src/cil_resolve_ast.c:3439-3465 | the order of a kind is missing exactly if its statements cannot be planned; statements that can be combined are then passed exactly if every declared datum is in a beginning that the plan has merged |
| OrderChecks.OppositeClassesPass | src/cil_resolve_ast.c:3439-3465 | classes ordered in both directions pass the check, and there is no class order |
| BoundsCheck.VerifyBounds | src/cil_verify.c:683-712 | accepts exactly if following the bounds comes to an end, that is, if they do not circle, also when the start is not on the circle |
| BoundsCheck.VerifyAllBounds | src/cil_verify.c:652-681 | all data pass exactly if none is bounded by itself over any number of steps |
| Chains.ForestExactlyIfAllEnd | src/cil_verify.c:683-712 | every chain ends exactly if no element is its own proper descendant |
| Chains.EndsOrCircles | src/cil_verify.c:683-712 | on a finite set a chain ends or circles, and an ending one does so within the size of the set |
| AliasResolution.ResolveAlias | src/cil_resolve_ast.c:455-497 | refuses exactly an alias without actual or with a circular chain, follows nothing exactly if the chain leads to another alias without actual, and otherwise stores the end of the chain; no other alias changes |
| AliasResolution.ResolveAliases | src/cil_resolve_ast.c:3022-3036 | the pass succeeds exactly if all aliases lead to data; then every alias refers directly to its original end. It follows nothing exactly if the first alias visited that does not lead to a datum leads to an alias without actual. No end changes on any outcome |
| AliasResolution.OutcomeIsUnique | src/cil_resolve_ast.c:3022-3036 | what the aliases refer to after the pass does not depend on the order of the visits |
| AliasResolution.VisitsDecide | src/cil_resolve_ast.c:470-473 | where an alias leads to an alias without actual the pass never succeeds: it follows nothing if the first is visited first and refuses if the second is |
| Chains.ShortcutKeepsEnds | src/cil_resolve_ast.c:455-497 | pointing an element at the end of its chain changes the end of no other element |
| Expressions.VerifySyntax | src/cil_verify.c:80-144 | the matcher accepts exactly the node sequences that the syntax describes |
| Expressions.VerifyExprSyntax | src/cil_verify.c:146-208 | accepts exactly an operator allowed for the flavor with its number of operands of the right kind, or a nonempty list of operands |
| Expressions.GenExpr | src/cil_build_ast.c:2296-2315 | what is built is well formed, and its head is the operator whose text the first word is; a list is accepted exactly if its parse tree is acceptable and, in boolean expressions, the counter is within the limit at the start of every list |
| Expressions.OperatorOf | src/cil_build_ast.c:2211-2223 | a node is "and", "or", "xor", "not", "eq", "neq", "all" or "range" exactly if it is a word of that text |
| Expressions.HeadIsTranslated | src/cil_build_ast.c:2268-2294 | the head of every list is the operator whose text its first word is, and no operator otherwise |
| Expressions.DepthFits | src/cil_build_ast.c:2227-2294 | the counter fails exactly if it is over the limit at the start of some list, where it counts the lists without operator or with "all" around that list, less those with other operators that end before it |
| Expressions.FillList | src/cil_build_ast.c:2268-2294 | a list is filled with the translation of its nodes, and the depth counter ends where the counting function says |
| Expressions.FillNode | src/cil_build_ast.c:2227-2266 | a node becomes a word that is no operator or a filled list |
| Expressions.TranslateWellFormed | src/cil_build_ast.c:2211-2315 | every acceptable parse tree translates to an expression with operators at list heads only, exactly their operands and no empty list, from which the parse tree can be read back |
| Expressions.WellFormedIsBuilt | src/cil_build_ast.c:2211-2315 | every well-formed expression over names that are no operators is built from its own source |
| Conditionals.EvaluateTunable | src/cil_resolve_ast.c:2853-2883 | the direct interpreter yields the truth value of every well-formed expression |
| Conditionals.EvaluateTunableItem | src/cil_resolve_ast.c:2838-2851 | an item yields its truth value |
| Conditionals.TruthIsArithmetic | src/cil_resolve_ast.c:2853-2883 | the truth of each operator in terms of the bits of its operands, such as their product for "and" |
| Conditionals.ListTruthIsSum | src/cil_resolve_ast.c:2872-2883 | a list of operands is true exactly if the sum of their bits is positive |
| Conditionals.CompileExpr | src/cil_binary.c:1651-1749 | the linked program is the one of the compile function, and the compiler fails exactly where that function does |
| Conditionals.CompileCorrect | src/cil_binary.c:1617-1763 | run on the stack machine, the program of a well-formed expression leaves exactly its truth value on top of the stack, for every assignment of the booleans |
| Conditionals.CompilesExactlyIfKnown | src/cil_binary.c:1619-1749 | a well-formed expression compiles if and only if all its booleans are known; no operand is ever missing |
| Conditionals.TunableFormIsBooleanForm | src/cil_verify.c:146-208 | tunables and booleans have the same well-formed expressions, so that a tunable kept as a boolean keeps its condition |
| Conditionals.ResolveKeepsForm | src/cil_resolve_ast.c:2752-2818 | resolving the names of a well-formed expression keeps it well formed |
| Conditionals.ResolveKeepsTruth | src/cil_resolve_ast.c:2752-2818 | a resolved expression is true exactly if the expression of names is, when those names are true whose data are |
| ConditionalRules.Policy.InsertRule | src/cil_binary.c:951-984 | a rule goes, not yet enabled, to the front of the true or the false list of one conditional, and nothing else changes |
| ConditionalRules.Policy.FindOrCreate | src/cil_binary.c:1806-1815 | the conditional that the library finds is used, and otherwise an empty one is put at the front; nothing is granted by that |
| ConditionalRules.PickBlocks | src/cil_binary.c:1822-1831 | the rules of each kind are those of the block of that kind which no other of the kind follows, and none without such a block |
| ConditionalRules.Policy.AddBooleanIf | src/cil_binary.c:1765-1865 | a block adds exactly the rules of its last true block if its source expression is true, and of its last false block if not, whatever booleans are on, also when normalisation swaps the branches; it fails exactly on an unknown boolean |
| ConditionalRules.Policy.SetConditionalState | src/cil_binary.c:3519-3551 | the rules marked as enabled are exactly those of the lists that the programs select, none where a program has no value; nothing else changes, whatever was marked before |
| ConditionalRules.Policy.Build | src/cil_binary.c:1765-1865 | for every assignment the rules that the built policy selects are those of the branches that the source expressions select, and for the booleans that are on these are enabled; it fails exactly on an unknown boolean |
| ConditionalRules.AllSelectedIs | src/cil_binary.c:1822-1831 | what all blocks select are the rules, each as often as it occurs, of the last true block of every block whose condition is true and the last false block of every other |
| ConditionalRules.StripNotNormalizes | src/cil_binary.c:1794-1804 | the contract asked of the normalisation in the library can be met: removing a trailing "not" and swapping the branches does |
| SetMeaning.MeaningExists | src/cil_post.c:829-968 | sets that do not name themselves have a meaning |
| SetMeaning.MeaningIsUnique | src/cil_post.c:829-968 | and only one |
| SetMeaning.CircleWithoutMeaning | src/cil_post.c:550-600 | no sets at all satisfy two attributes that name each other, one of them under "not"; what evaluation leaves there is not stated |
| SetExpressions.ExprToBitmap | src/cil_post.c:829-937 | evaluation ends on all attribute graphs, cyclic ones too; over a meaning that the existing bitmaps agree with, the result is the set that the expression describes |
| SetExpressions.EvaluateAttribute | src/cil_post.c:550-600 | the attribute gets its meaning, no existing bitmap is touched and no attribute of its rank or above other than itself |
| SetExpressions.EvaluateAll | src/cil_post.c:970-1011 | in whatever order the attributes are met and however many are evaluated already, each ends with its meaning |
| CategoryExpressions.EvaluateCats | src/cil_post.c:661-709 | evaluation changes nothing once done; it replaces an expression by a list with strictly increasing values and the same meaning, and fails only on a range that names a category set |
| CategoryExpressions.ExprToBitmap | src/cil_post.c:829-937 | the bitmap of a category expression is its meaning, and it exists for all expressions whose ranges name categories |
| CategoryExpressions.RangeToBitmap | src/cil_post.c:756-794 | a range denotes exactly the values from its first to its second end, aliases replaced; it fails exactly on category sets |
| CategoryExpressions.ListOf | src/cil_post.c:684-691 | walking over the category order gives the categories of the bitmap with strictly increasing values |
| CategoryExpressions.IsList | src/cil_post.c:53-77 | true exactly for lists of categories and aliases |
| TypeMatch.MergeWalk | src/cil_binary.c:1359-1376 | the walk over two sparse bitmaps is true if and only if they have a bit in common |
| TypeMatch.IsTypeMatch | src/cil_binary.c:1342-1379 | two data match exactly if they are the same or their types overlap |
| Neverallow.PolicyDb.InsertAvrule | src/cil_binary.c:1280-1325 | masks of one key are joined, those of dontaudit rules intersected, conditional entries kept apart; what is granted grows by the rule |
| Neverallow.PolicyDb.NeverallowHandle | src/cil_binary.c:1327-1340 | a rule is stored with the statement that is being collected |
| Neverallow.PolicyDb.CheckNeverallows | src/cil_binary.c:1381-1407 | refuses exactly permissions that a stored rule forbids for matching data |
| Neverallow.PolicyDb.Expand | src/cil_binary.c:1459-1496 | the permissions of classes, class maps and named sets are stored, or granted and checked, all of them or up to the first that is refused |
| Neverallow.PolicyDb.AvruleToAvtab | src/cil_binary.c:1498-1549 | a rule is expanded once, or for each type of its source if its target is "self"; disabled kinds add nothing |
| Neverallow.PolicyDb.Build | src/cil_binary.c:3179-3248 | after a successful build the unconditional table grants exactly what allow rules outside of conditionals say, the entries of conditionals exactly what those inside say, and none of it is forbidden by any neverallow rule, wherever it stands; keys and masks of all kinds are those of the rules, complemented for dontaudit; with neverallow rules enabled the build fails if and only if there is a real conflict or an allow and a neverallow entry of one class and permission that match only because source or target is the same attribute without types |
| Neverallow.TablesAreFrom | src/cil_binary.c:1305-1320 | the unconditional table has an entry exactly for each key that rules outside of conditionals put there, its mask being the union of their permissions, or for dontaudit rules its complement; the entries of conditionals have exactly the permissions of the rules there |
| Neverallow.SayingsAbout | src/cil_binary.c:1555-1605 | what is granted in conditionals, or outside, is what the allow rules there are about |
| Neverallow.PermsAreNamed | src/cil_binary.c:1459-1496 | class permissions stand for exactly the permissions that are named at some place inside them, through maps and named sets |
| Neverallow.ConflictIsBlocked | src/cil_binary.c:1381-1457 | an access that one rule allows and another forbids is noticed |
| Neverallow.BlockedIsConflict | src/cil_binary.c:1342-1407 | where no two entries match over the same empty attribute only, whatever is refused is a conflict over some pair of types |
| Neverallow.EmptyAttributeIsRefused | src/cil_binary.c:1344-1345 | an attribute without types, allowed and forbidden something for itself: no access conflicts, and the condition of refusal holds |
| Neverallow.TablesAbout | src/cil_binary.c:1409-1549 | the pairs of data in the tables cover exactly the pairs of types that the rules are about |
| LevelText.ReadPieces | src/cil.c:1191-1234 | the pieces written for a category list read back, as singles and ranges, as exactly its categories |
| LevelText.RunIsWritten | src/cil.c:1195-1234 | a run of one, two or more categories is written as one name, two names, or the first and the last with a dot; the category that ends it stands by itself, and the next run begins after it |
| LevelText.LevelString | src/cil.c:1187-1193 | the sensitivity alone, or the sensitivity, a colon and the categories |
| LevelText.LevelReadsBack | src/cil.c:1176-1237 | the characters after the colon denote exactly the categories of the list, for names without dots and commas |
| LevelText.NameReadsBack | src/cil.c:1191-1234 | the text of a single category reads back as that category if and only if its name has neither dots nor commas |
| LevelText.AllReadBackIfPlain | src/cil.c:1191-1234 | all nonempty lists over the names read back if and only if no name has dots or commas |
| LevelText.InsideOfRangeIsNotWritten | src/cil.c:1213-1226 | the name of a category inside a range is not written, so a single list may read back whatever that name is |
| LevelText.DottedNameMisread | src/cil.c:1191-1234 | an instance: the name of a category declared in a block, read as a range |
| LevelBuffers.LevelStrlen | src/cil.c:1124-1174 | the precomputed length is the length of the text of the level |
| LevelBuffers.LevelToString | src/cil.c:1176-1237 | the text is written behind what the buffer holds, with its terminator, within the measured length |
| Outputs.UserPrefixesToString | src/cil.c:1062-1105 | the size is exact and the buffer holds the rows and a terminator; without rows there is no buffer; nothing is ever cut off |
| Outputs.SelinuxUsersToString | src/cil.c:1239-1294 | the size is exact and the buffer holds the rows, with ranges if the policy has levels |
| Outputs.FileconsToString | src/cil.c:1296-1412 | the size is exact and the buffer holds the rows, with one level where both ends are equal; with no row the one byte allocated is not written |
| Outputs.PrefixRow | src/cil.c:1094-1095 | the characters of a row of user prefixes, place by place |
| Outputs.UserRow | src/cil.c:1274-1291 | the characters of a row of login mappings, place by place |
| Outputs.KindText | src/cil.c:1350-1378 | the mark of each type of file |
| Outputs.ContextParts | src/cil.c:1384-1405 | where the parts of a context stand in its text |
| Outputs.FileRowParts | src/cil.c:1347-1409 | where path, mark and context stand in a row of file contexts |
| MlsRanges.VerifyCatsAssociatedWithSens | src/cil_verify.c:465-497 | follows a missing list exactly if the level has none, or a search comes to a missing list of the sensitivity before it finds its category; otherwise accepts exactly if each category is in some list of the sensitivity |
| MlsRanges.VerifyLevelrangeSensitivity | src/cil_verify.c:499-526 | accepts exactly if the low sensitivity comes up to the high one in the order |
| MlsRanges.VerifyLevelrangeCats | src/cil_verify.c:528-554 | follows a missing list exactly if the low level has none, or has categories and the high level has none; otherwise accepts exactly a subset, except for an empty list against none |
| MlsRanges.VerifyLevelrange | src/cil_verify.c:556-586 | follows a missing list exactly where the predicate over the range says so; otherwise accepts exactly if the high level dominates the low one, their categories belong to their sensitivities, and not an empty list stands against none |
| MlsRanges.PresentListsAreSafe | src/cil_verify.c:465-586 | where no list of levels and sensitivities is missing, none is followed, so that acceptance is as stated for the whole range |
| MlsRanges.LowNothingFollows | src/cil_post.c:694-701 | a low level whose categories evaluate to nothing: the list is followed exactly if the high level has categories, and the range is refused if not |
| MlsRanges.HighNothingFollows | src/cil_post.c:694-701 | a high level whose categories evaluate to nothing: the list is followed exactly if the low level has categories, or the sensitivity has lists |
| MlsRanges.VerifyContext | src/cil_verify.c:714-798 | with verified ranges accepts exactly if the role is the user's, the type is the role's, and the sensitivities lie within the user's; follows a missing list exactly if the check of its own range does |
| MlsRanges.ScanCompares | src/cil_verify.c:768-792 | the single walk through the order passes exactly if user.low is up to ctx.low and ctx.high up to user.high |
| MlsRanges.WithinUserRange | src/cil_verify.c:714-798 | a range lies within the user's, categories included, exactly if the walk passes and the category sets are nested |
| MlsRanges.CategoriesAreNotCompared | src/cil_verify.c:768-792 | a context that passes with a category that its user does not have |
| MlsRanges.DominanceIsTransitive | src/cil_verify.c:499-554 | over a merged order dominance is transitive |
| PassDriver.Resolution.ResolveNode | src/cil_resolve_ast.c:3216-3284 | a missing name disables the innermost optional and is an error outside of optionals |
| PassDriver.Resolution.WalkCore | src/cil_tree.c:173-207 | the walk comes by every statement that is neither inside an emptied optional nor skipped, notes a change exactly if it emptied an optional, disables exactly the innermost optionals around missing names, and fails exactly if a statement failed or a name was missing outside of all optionals that the tree has around it |
| PassDriver.Resolution.VisitNode | src/cil_tree.c:185-199 | the same of one statement; nothing inside a skipped statement or an emptied optional is asked for |
| PassDriver.Resolution.Walk | src/cil_resolve_ast.c:3347-3392 | an optional that is disabled when its children have been visited is emptied, and the stack of optionals is restored |
| PassDriver.Resolution.ResolveAst | src/cil_resolve_ast.c:3394-3521 | ends for all outcomes of statements; success leaves an orderly complete run in which each pass came by all statements, every disabled optional emptied, every step made that was due, the orders that the last statements merge to and a list of sids that all have contexts; it refuses if and only if a statement failed, a name was missing outside of optionals, a step failed, the last merge left a declared datum unmarked, or sids are none or lack a context; a missing list is followed if and only if the categories of the last merge, or after a complete run its sids, cannot be planned |
| PassDriver.CompleteIsClean | src/cil_resolve_ast.c:3423-3511 | a complete run ends with the passes from CALL2 to MISC3, in order, with no optional disabled in any of them |
| PassDriver.CompleteIsShort | src/cil_resolve_ast.c:3466-3511 | a complete run has at most 14 passes and seven more for each disabled optional |
| QualifiedNames.VerifyName | src/cil_verify.c:49-78 | accepts exactly names of a letter followed by letters, digits, "_" and "-", shorter than 2048 |
| QualifiedNames.QualifyDecls | src/cil_fqn.c:45-69 | the names of a table get the prefix, and it fails exactly if one does not fit in the buffer |
| QualifiedNames.QualifyBlock | src/cil_fqn.c:71-127 | the tracked length is that of the prefix, every string and its terminator fit, and all declarations inside get their names or some name is too long |
| QualifiedNames.Qualify | src/cil_fqn.c:129-139 | succeeds exactly if in every block the prefix and all full names are shorter than 2048, and then all declarations in blocks have theirs |
| QualifiedNames.FitMeansShort | src/cil_fqn.c:45-127 | the lengths that the code tracks are within the limit exactly if the full names at all places in the tree of blocks are |
| QualifiedNames.Qualifies | src/cil_fqn.c:98-110 | users, roles, types, commons, classes, booleans, tunables, sensitivities, categories, sids and levels get full names, and nothing else |
| QualifiedNames.FullNameIsInjective | src/cil_fqn.c:45-127 | declarations in different blocks or with different names have different full names |
| QualifiedNames.ValidNamesDiffer | src/cil_fqn.c:45-127 | declarations whose names and blocks pass the check of names have the same full name only if they are the same |
| QualifiedNames.ResolveFromRoot | src/cil_resolve_ast.c:3615-3668 | a name with a leading dot leads along blocks to a declaration, and through an alias to what it stands for |
| QualifiedNames.FullNameFinds | src/cil_resolve_ast.c:3615-3668 | a dot and its full name lead to each declaration |
| ComplexSymtab.ComplexSymtab.Insert | src/cil_symtab.c:165-221 | adds an entry to the map that the table stands for, and refuses exactly a key that is there |
| ComplexSymtab.ComplexSymtab.Search | src/cil_symtab.c:223-260 | yields the datum of the map, or none |
| ComplexSymtab.ComplexSymtab.constructor | src/cil_symtab.c:156-163 | a new table stands for the empty map |
| ComplexSymtab.Walk | src/cil_symtab.c:182-209 | the walk along a chain stops at the key, at a later key of the same group or at the end |
| ComplexSymtab.StopFinds | src/cil_symtab.c:231-257 | on an ordered chain the early stop misses no key |
| ComplexSymtab.StopKeepsGrouped | src/cil_symtab.c:211-217 | a key inserted where the walk stopped leaves each group of the chain strictly ordered |
| Parser.Parse | src/cil_parser.c:43-135 | succeeds exactly if parentheses balance without closing what is not open, nothing stands outside and no token is unknown; then the lists of the file are added to the tree, and its words are the old ones and those of the tokens |
| Parser.Unquoted | src/cil_parser.c:95-97 | the quotes of a quoted string are taken off, and nothing else |
| Parser.OpenList | src/cil_parser.c:64-78 | a list node becomes the last child of the current node and is open from then on |
| Parser.AddItem | src/cil_parser.c:87-110 | a word becomes the last child of the current node |
| Parser.CloseList | src/cil_parser.c:79-86 | going back to the parent completes the innermost list |
| ParseTrees.TreeIsUnique | src/cil_parser.c:43-135 | no other tree has the words of the tokens |
| ParseTrees.ListsAreBalanced | src/cil_parser.c:43-135 | tokens that spell any sequence of lists are accepted |
| ParseTrees.BalancedIsLists | src/cil_parser.c:43-135 | conversely, accepted tokens spell a sequence of lists |
| TreeDestroy.ChildrenDestroy | src/cil_tree.c:89-119 | frees each proper descendant once in postorder, reads no link of a freed node, leaves the start without children and ends on every tree |
| TreeDestroy.ChildrenFirst | src/cil_tree.c:89-119 | in that order a node comes directly after everything below it |

## Left out

- The policy library: tables are maps and sets; normalisation and search of conditionals are given by a contract that one
  normalisation is shown to meet; evaluation is a stack machine without the library's limit on the stack.
- Logging, also the printing of the members of a circle, file access, the lexer, interned strings (equal strings are equal
  values), running out of memory, and the error paths of bitmap operations.
- The statements themselves: building, copying, resetting, resolving and writing each kind of statement. In `PassDriver`
  what a statement leads to is a parameter, and so are the other steps that may fail.
- Expressions.GenExpr: the depth limit is the constant of the policy library, which is a parameter; the counter does not
  bound the real depth, so no such bound is claimed.
- ConditionalRules.StripNotNormalizes: it shows that the contract of normalisation can be met; what the library does beyond
  a trailing "not" is not modelled.
- SetMeaning.CircleWithoutMeaning: it speaks of meanings; which bitmaps evaluation leaves on a circle is not stated.
- SetExpressions.ExprToBitmap: on cyclic attributes it is proved to end, not to have any particular result, because there
  may be no meaning.
- CategoryExpressions.EvaluateCats: it takes sets that do not name themselves and are not empty, and categories that are in
  the category order; on cyclic sets the compiler need not come to an end. A list of categories only is left in the order
  of the statement, as in the compiler.
- Neverallow.PolicyDb.Build: classes have at most 32 permissions, as masks have; type rules and extended permissions are
  not modelled; neverallow rules in conditionals are refused before (src/cil_verify.c:874-885).
- OrderChecks.PassesWithoutOrder: for statements that no list combines, which data are marked is given by the merge itself,
  not by the plan.
- MlsRanges.VerifyContext: the values of types are sets of numbers; what follows from unverified ranges is stated by the walk
  itself.
- LevelText.LevelReadsBack: values of categories are unbounded numbers, as for all integers of the model unless a width is
  mentioned. The text of an empty list, a colon and nothing after it, is not a list of categories.
- Outputs.FileconsToString: two levels are equal if their sensitivities and sets of categories are; the conversion to
  levels of the policy is not modelled.
- PassDriver.Resolution.ResolveAst: copying by macros, calls and block inheritance is represented by the statements that each
  of the first passes finds. The stack of calls and the statements that optionals and booleans do not allow are among the
  outcomes of statements. The check for recursive macros is not modelled.
- QualifiedNames.ResolveFromRoot: names without a leading dot, lookups in enclosing blocks, call arguments and "in" statements;
  a name of dots only.
- ComplexSymtab.ComplexSymtab.Insert: keys are values and their sum does not overflow. The compiler keeps the address of the key,
  and the callers that it had pass a local variable (src/cil_verify.c:822, src/cil_verify.c:846); they are commented out
  (src/cil_verify.c:1335-1340). The element counter does not wrap.
- Parser.Parse: lines and paths of nodes; the children of a node are a sequence instead of a linked list with head and tail.
- TreeDestroy.ChildrenDestroy: the data of the nodes. The tail link of the start is not reset, so nothing is said about it.
- BoundsCheck.VerifyBounds: the three loops for users, roles and types are the same and are modelled once; the other checks
  of users are not modelled.
- Constraints, class permission sets, the sorting of labelling statements, and the text output of policies.
