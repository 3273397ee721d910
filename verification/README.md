# Verified model of the CRM backend's algorithmic cores

Dafny model of the parts of the backend that decide something by an algorithm of their own:

- **Groups** (`Groups.dfy`): nested user groups, possibly cyclic, searched upwards and downwards by
  recursions that share a mutable visited set.
- **Filter logic** (`FilterGrammar.dfy`, `FilterParser.dfy`, `FilterValidator.dfy`): the language of
  `1 AND (2 OR NOT 3)`. The grammar is given by derivations; the tree builder and the validator are
  classes that pop a token list, each proved against its own specification and then against the grammar.
- **Filter splitting** (`FilterSplit.dfy`): separating conditions on computed fields from the tree SQL runs.
- **Computed fields** (`FormulaTable.dfy`, `FormulaFixpoint.dfy`, `FormulaApply.dfy`, `FormulaFetch.dfy`,
  `FormulaReport.dfy`): which columns a report fetches for its formulas, the record its query returns, and what is
  computed on it: rollups, the five-round fixpoint, and a last evaluation of every requested field.
- **Rollups** (`Rollup.dfy`, `RollupPushdown.dfy`, over `Totals.dfy`): single and batch evaluation, and the replacement of a rollup
  filter by a foreign-key filter.
- **Pivot export** (`PivotGrid.dfy`, `PivotWriter.dfy`, `PivotLaws.dfy`, `PivotCells.dfy`): the one-pass writer with
  its total and subtotal buckets produces a sheet described without buckets; the laws are proved about that sheet, and
  each of its cells is told from the records and from the cells above it.
- **Formula text** (`FormulaScan.dfy`, `FormulaSyntax.dfy`): finding and splitting calls, the syntax check, and
  the recursion of the evaluator.
- **Smaller pieces**: the folder forest (`FolderForest.dfy`), month arithmetic (`Calendar.dfy`), the formula cache
  (`FormulaCache.dfy`).

Database tables are sequences and sets held in memory, a WHERE clause on user-chosen criteria is an arbitrary
predicate, a formula's arithmetic an arbitrary function of the fields it reads, and rounding an arbitrary
function. Numbers are exact. Where the code updates in place, the model does: visited sets, token lists, records,
buckets, nodes and dictionaries are fields of classes, and each method is proved to compute a specification
function about which the laws are then proved.

Seven laws one might expect fail, and the code is modelled as it is. For each there is a lemma with a failing input and
one with the exact condition under which the law holds:

- Splitting a filter keeps its meaning: not if a computed condition is an alternative of an OR
  (`FilterSplit.SplitLosesAlternatives`, `FilterSplit.SplitExactlyWhen`).
- Every acyclic formula gets its value: the fixpoint stops after five rounds, and a requested field is evaluated once
  more, which a long chain listed against its dependencies exceeds (`FormulaApply.StairsTooHigh`,
  `FormulaFixpoint.RoundsExactly`, `FormulaFixpoint.ChainNeedsItsLength`, `FormulaApply.AppliedExactly`).
- A requested rollup shows its own value: not where it has none and its alias is the name of another computed field,
  whose value it then shows (`FormulaApply.RollupShowsFormula`, `FormulaApply.RollupShownExactlyWhen`).
- A report fetches what its formulas need: not a column that was requested under an alias, or described without one,
  which the query then names itself, that bears the name of another object's computed field, or whose name an alias
  takes, whether the alias of a computed field or, since the permission check moves described fields behind bare names,
  of a column requested before it; nor a requested column that the profile may not read, which is not asked for again
  (`FormulaReport.AliasHidesColumn`, `FormulaReport.GeneratedNameHidesColumn`, `FormulaReport.OtherObjectHidesColumn`,
  `FormulaReport.OutputKeyHidesColumn`, `FormulaReport.AliasOverridesColumn`, `FormulaReport.UnreadableColumnIsDropped`,
  `FormulaReport.FetchedColumnsSuffice`); and an alias can also overwrite what a later field reads
  (`FormulaReport.AliasOverwritesInput`, `FormulaApply.LastEvaluationReads`).
- A rollup filter pushed down to SQL keeps its meaning: not for a parent without children while another one matches,
  not with filter criteria, which SQL ignores, and not where rounding moves a formula's total over the limit
  (`RollupPushdown.ChildlessParentLost`, `RollupPushdown.InlinedFormulaLosesChildless`,
  `RollupPushdown.PushdownIgnoresCriteria`, `RollupPushdown.InlinedFormulaIsNotRounded`,
  `RollupPushdown.DottedFilterExactlyWhen`, `RollupPushdown.VerdictRightWhen`,
  `RollupPushdown.VerdictDespiteCriteria`, `RollupPushdown.HavingIsRollupWhen`).
- Subtotals add up to the grand total: not in the column of a repeated value alias (`PivotLaws.RepeatedAliasExample`,
  `PivotLaws.RepeatedAliasLosesSubtotals`).
- The formula cache evicts the least recently used entry, as its comment says: the code evicts the least frequently
  used one, and on a tie the one inserted first (`FormulaCache.EvictionIgnoresRecency`,
  `FormulaCache.SettingAgainKeepsPlace`, `FormulaCache.EvictsLeastRecentExactlyWhen`).

## Model

| member | source | states |
|---|---|---|
| `Groups.GroupHasAncestor` | api/BL/task.py:99-122 | Terminates on cyclic graphs; called without a visited set it is true iff the target is reached by zero or more parent edges; a shared-set call that fails leaves every newly visited group's parents visited and never visited the target. |
| `Groups.UserBelongsToGroup` | api/BL/task.py:125-166 | True iff some group reached by child edges lists the user, or the given profile, directly; same closure guarantee for shared-set calls. |
| `Groups.UserCanMakeCall` | api/BL/task.py:169-204 | The upward search from the user's groups allows a call iff both ids are truthy, the target exists, and the downward membership search without a profile would succeed. |
| `Groups.UpwardAgreesWithDownward` | api/BL/task.py:125-204 | Some group of the user has the target as ancestor iff the user is listed in some group below the target. |
| `Groups.AncestorIsDescendantReversed` | api/BL/task.py:108-114 | Reachability by parent edges is reachability by child edges read backwards. |
| `Groups.ExploredUpMissesTarget` | api/BL/task.py:102-122 | A closed visited set without the target proves the target unreachable. |
| `Groups.ExploredDownMissesMembers` | api/BL/task.py:133-166 | A closed visited set without direct members proves that nobody below the group is a member. |
| `FilterParser.Builder.Expr` | utils/filter_logic_parser.py:55-66 | Pops exactly the tokens, and returns the tree with real filters or raises the error, that the list-threading specification gives. |
| `FilterParser.Builder.Term` | utils/filter_logic_parser.py:68-79 | Same for AND chains. |
| `FilterParser.Builder.Factor` | utils/filter_logic_parser.py:81-86 | Same for NOT. |
| `FilterParser.Builder.Atom` | utils/filter_logic_parser.py:88-109 | Same for numbers and parentheses, with the errors for end of input, missing parenthesis, unknown id and unexpected token. |
| `FilterParser.BuildExpressionTree` | utils/filter_logic_parser.py:43-111 | Result or error of the whole builder. |
| `FilterParser.BuilderCharacterised` | utils/filter_logic_parser.py:43-111 | It succeeds iff the tokens begin with a derivable expression over existing filters not continued by AND or OR, and yields that expression's tree and the tokens after it. |
| `FilterParser.RaisedErrorOccurs` | utils/filter_logic_parser.py:88-109 | Whatever it raises is the case at some position: the end or an unexpected token where an operand was due, an id out of range, or an operand with neither an operator nor the missing parenthesis after it. |
| `FilterParser.SentenceConsumed` | utils/filter_logic_parser.py:43-111 | Succeeding with no token left is the same as being a sentence of the grammar with ids in 1..n. |
| `FilterParser.ParseExprComplete` | utils/filter_logic_parser.py:47-66 | Every derivation, whatever follows it, is parsed to the tree it denotes. |
| `FilterParser.ParseExprSound` | utils/filter_logic_parser.py:47-66 | Whatever is parsed has a derivation with that tree. |
| `FilterParser.Unambiguous` | utils/filter_logic_parser.py:47-51 | One token list has one derivation, whatever its numbers, so it denotes one tree. |
| `FilterParser.PrintThenParse` | utils/filter_logic_parser.py:55-111 | Printing any tree of the emitted shape with needed parentheses and parsing it gives the same tree: AND binds tighter than OR, NOT tightest. |
| `FilterParser.ConvertToQueryFormat` | utils/filter_logic_parser.py:114-132 | Without logic the conjunction of all filters, the single filter or nothing; with logic the built tree or its error. |
| `FilterParser.DefaultIsConjunction` | utils/filter_logic_parser.py:125-127 | The default equals what parsing `1 AND ... AND n` gives. |
| `FilterGrammar.DenotedExprEmitted` | utils/filter_logic_parser.py:64-79 | Every denoted tree has and/or nodes with at least two members. |
| `FilterGrammar.PrintedExpr` | utils/filter_logic_parser.py:47-51 | The printed form of every emitted tree has a derivation denoting that tree. |
| `FilterValidator.Validator.Validate` | utils/filter_logic_validator.py:75-106 | Valid iff the tokens are a sentence with ids in 1..n; then the report lists exactly the referenced and unreferenced ids and the warnings; otherwise the one issue of the first stage that finds any. |
| `FilterValidator.Validator.ValidateTokens` | utils/filter_logic_validator.py:143-168 | Passes iff neither end is a binary operator, records the double negations, and on failure the issue at that end. |
| `FilterValidator.Validator.CheckParenthesesBalance` | utils/filter_logic_validator.py:170-187 | Passes iff the running balance never drops below zero and ends at zero; else records the unmatched closing, or how many opening ones are unmatched. |
| `FilterValidator.Validator.ValidateFilterIds` | utils/filter_logic_validator.py:193-204 | Passes iff all ids are valid ones, and else records those that are not. |
| `FilterValidator.Validator.ValidateExpressionStructure` | utils/filter_logic_validator.py:206-222 | Passes iff the descent succeeds and consumes everything; else records what it raised, or the tokens left. |
| `FilterValidator.StagesAcceptSentences` | utils/filter_logic_validator.py:143-268 | All stages together accept exactly the grammar's sentences over 1..n. |
| `FilterValidator.RaisedIssueOccurs` | utils/filter_logic_validator.py:224-268 | Whatever the descent raises is the case at some position: the operator without an operand after it, the end, the missing parenthesis or the token that is no operand. |
| `FilterValidator.BalanceCounts` | utils/filter_logic_validator.py:170-187 | The balance is the number of opening less closing parentheses, and there is none iff some prefix closes more than it opens. |
| `FilterValidator.DoubleNegationsCounted` | utils/filter_logic_validator.py:164-166 | As many warnings as there are NOTs directly followed by a NOT. |
| `FilterValidator.ExprAgrees` | utils/filter_logic_validator.py:224-268 | The validator's descent with its lookahead tests fails or succeeds, and leaves the same tokens, exactly as the tree builder does. |
| `FilterValidator.PreChecksAreRedundant` | utils/filter_logic_validator.py:108-187 | The operator-position, consecutive-operator and balance checks reject no sentence. |
| `FilterValidator.ValidatedLogicBuilds` | utils/filter_logic_validator.py:39-106 | On every validated logic the tree builder raises nothing and consumes every token. |
| `FilterValidator.BuilderAcceptsMore` | utils/filter_logic_parser.py:111 | The converse fails: the builder alone accepts `1 2`, which is no sentence. |
| `FilterSplit.Splitter.Process` | api/BL/computed_fields.py:825-858 | Returns the physical tree and appends the computed conditions in reading order. |
| `FilterSplit.SeparateComputedFilters` | api/BL/computed_fields.py:784-863 | Both results for a tree or a list, with the early returns for nothing to filter and no computed names. |
| `FilterSplit.SplitSound` | api/BL/computed_fields.py:825-858 | Physical part plus computed conditions imply the original filter, for every row, NOT nodes included. |
| `FilterSplit.SplitComplete` | api/BL/computed_fields.py:825-858 | The original implies both parts when no computed condition is an alternative of an OR. |
| `FilterSplit.SplitExactlyWhen` | api/BL/computed_fields.py:825-858 | For filters of distinct conditions without empty nodes, NOT included: equivalent on all rows iff no computed condition outside NOT lies under an OR with an alternative. |
| `FilterSplit.RepeatedConditionAbsorbs` | api/BL/computed_fields.py:836-844 | With a repeated condition the halves can agree by absorption, so distinctness is needed. |
| `FilterSplit.EmptyNodeAbsorbs` | api/BL/computed_fields.py:836-855 | So can they with an empty node. |
| `FilterSplit.SplitConserves` | api/BL/computed_fields.py:825-858 | The original conditions are, as a multiset, those kept plus those routed to Python. |
| `FilterSplit.SplitSeparates` | api/BL/computed_fields.py:809-849 | Python gets computed conditions only, and SQL none of them if the tree has no NOT. |
| `FilterSplit.SplitInOrder` | api/BL/computed_fields.py:809-858 | Outside NOT, Python gets exactly the conditions whose base name is among all computed names, or whose bare name is among the report's own too, and SQL exactly the others, each in reading order. |
| `FilterSplit.PhysicalBranches` | api/BL/computed_fields.py:836-855 | The tree left for SQL has no node with fewer than two members outside NOT. |
| `FilterSplit.SeparateMeaning` | api/BL/computed_fields.py:784-863 | Soundness and conditional equivalence for the function as a whole. |
| `FilterSplit.SplitLosesAlternatives` | api/BL/computed_fields.py:836-844 | Concrete filter and row for which splitting rejects what the filter accepts. |
| `FormulaFixpoint.ResolveFormulaDeps` | api/BL/computed_fields.py:1836-1865 | The in-place rounds with early stop leave the record of five full rounds: stopping loses nothing. |
| `FormulaFixpoint.RoundsExactly` | api/BL/computed_fields.py:1838-1865 | For strict formulas, after k rounds exactly the fields with acyclic reads that are within k rounds and have a value are set, each to that value; a field is within k rounds when its reads are, those later in the dictionary within k-1. The rest of the table may be circular. |
| `FormulaFixpoint.FiveRoundsSuffice` | api/BL/computed_fields.py:1838 | Dependency rank at most five always gets its value, whatever the dictionary order. |
| `FormulaFixpoint.RankSuffices` | api/BL/computed_fields.py:1838-1865 | A field of rank k is within k rounds for every dictionary order. |
| `FormulaFixpoint.ChainNeedsItsLength` | api/BL/computed_fields.py:1838-1840 | In a chain of n formulas listed against the dependencies, k rounds set the i-th iff k is at least n-i; otherwise it stays unset though it has a value. |
| `FormulaFixpoint.SolutionUnique` | api/BL/computed_fields.py:1840-1861 | All records satisfying all formulas agree on the fields with acyclic reads. |
| `FormulaFixpoint.SolutionExists` | api/BL/computed_fields.py:1840-1861 | An acyclic table has such a record. |
| `FormulaFixpoint.RoundsKeep` | api/BL/computed_fields.py:1841-1842 | No value present is ever overwritten. |
| `FormulaFixpoint.CircularStaysUnset` | api/BL/computed_fields.py:1836-1865 | Fields defined through each other are never set. |
| `FormulaTable.Table.EvaluateMeans` | api/BL/computed_fields.py:1843-1857 | A formula is applied to the record's values of its identifiers, one by one, and fails if one is missing; a rollup aggregates for the record's id. |
| `FormulaTable.Table.IdentifiersInOrder` | api/BL/computed_fields.py:645-648 | The identifiers of a formula are the tokens that are no function names, in text order, repetitions included. |
| `FormulaApply.ApplyComputedFields` | api/BL/computed_fields.py:1867-2080 | In place: requested and other rollups prefilled, the fixpoint, then each requested field evaluated once more in order, a formula overwriting or clearing its key. |
| `FormulaApply.AppliedExactly` | api/BL/computed_fields.py:1867-2080 | Unless an alias written before, or a rollup's, is the name of something the formula depends on: the key of a requested formula ends with its value iff all it reads was left by the fixpoint or written before under its own name, and empty otherwise. |
| `FormulaApply.LastEvaluationReads` | api/BL/computed_fields.py:2056-2063 | Whatever the keys: a requested formula is evaluated last on a record that holds, under every earlier output's key, what that output shows in the end, and elsewhere what the fixpoint left. |
| `FormulaApply.AppliedRollup` | api/BL/computed_fields.py:1867-2070 | The key of a requested rollup, empty beforehand, ends with the aggregate for the record's id; where there is none, with what the fixpoint left under that key. |
| `FormulaApply.RollupShownExactlyWhen` | api/BL/computed_fields.py:1867-2070 | So it shows its own value iff it has one or the fixpoint left nothing there; always unless its alias is the name of another computed field. |
| `FormulaApply.RollupShowsFormula` | api/BL/computed_fields.py:2065-2070 | Concrete request: a rollup without a value, aliased like a formula, shows the formula's value. |
| `FormulaApply.StoredRollupStays` | api/BL/computed_fields.py:1867-2070 | A value present under the key beforehand stays. |
| `FormulaApply.RollupsArePrefilled` | api/BL/computed_fields.py:1867-2000 | Before the fixpoint every rollup of the table has its value, requested or not, unless an alias has taken its name. |
| `FormulaApply.SixRanksSuffice` | api/BL/computed_fields.py:1838-2080 | A requested formula of dependency rank at most six always gets its value. |
| `FormulaApply.StairsTooHigh` | api/BL/computed_fields.py:1838-2080 | The first of n copying formulas is found by the fixpoint iff n is at most five, and in the end iff n is at most six. |
| `FormulaFetch.ExtractDeps` | api/BL/computed_fields.py:640-658 | Terminates on cyclic definitions and returns exactly the non-formula identifiers that expansion bottoms out in, rollups contributing `id`. |
| `FormulaFetch.ExtractFrom` | api/BL/computed_fields.py:640-658 | What a recursive call with the shared visited set adds: newly visited formulas are fully expanded, everything new is reachable, and the result is their leaves. |
| `FormulaFetch.ProcessComputedFields` | api/BL/computed_fields.py:590-678 | Physical fields in order, computed fields by output key (later ones overwrite in place), and exactly the extra columns left after removing requested ones, output keys and all computed names. |
| `FormulaFetch.PhysicalsInOrder` | api/BL/computed_fields.py:590-628 | The physical fields are the requested ones that the table does not compute, in request order. |
| `FormulaFetch.OutputsInOrder` | api/BL/computed_fields.py:590-628 | Computed fields are keyed by alias or name, listed by the first request for the key, each with the field of the last one. |
| `FormulaFetch.OutputKeys` | api/BL/computed_fields.py:590-628 | The keys are exactly those under which computed fields are requested. |
| `FormulaFetch.ValueOnPart` | api/BL/computed_fields.py:660-678 | On part of a row a field keeps its full-row value iff every column it needs is in that part; otherwise it has none. |
| `FormulaReport.AddDependencies` | api/BL/blcontroller.py:249-266 | The list asked for: the physical fields, then each extra dependency under its own name, unless a physical field has that name or alias. |
| `FormulaReport.SelectPermitted` | api/permissions/permissions.py:995-1037 | For a registered object readable bare names come first, described fields after them, and other bare names are dropped; otherwise the list stays. |
| `FormulaReport.SelectColumns` | api/BL/blcontroller.py:249-416 | The query delivers, under every key, the extra dependency or the column last selected under it after the permission check (by alias, own name, or a name generated from the position there), so each result row becomes the specified record. |
| `FormulaReport.ZipSource` | api/ORM/sqlFunctions/complexGetSql.py:203-406 | The record of a result row holds under each key the column last selected under it. |
| `FormulaReport.SourceHasKey` | api/ORM/sqlFunctions/complexGetSql.py:203-406 | That column is the last selected one with the key, and there is none iff no selected field has it. |
| `FormulaReport.DigitsDenote` | api/ORM/sqlFunctions/utils/helpers.py:106-108 | The position in a generated name is written in decimal, without leading zeros. |
| `FormulaReport.FetchedColumnsSuffice` | api/BL/computed_fields.py:660-678 | For any request and read permissions: the report's record gives a computed field its full-row value, for every row and every meaning of the functions used, iff each column read below it arrives under its own name and no computed field below it is hidden by an alias. |
| `FormulaReport.SuppliedMeans` | api/BL/computed_fields.py:640-678 | That condition in terms of the expansion: every column it bottoms out in arrives as itself, and no computed field met on the way is hidden. |
| `FormulaReport.ReportShows` | api/BL/blcontroller.py:408-431 | From request to display: a supplied formula that no alias interferes with is shown with its full-row value iff its reads were at hand when it was evaluated last, and empty otherwise. |
| `FormulaReport.AliasHidesColumn` | api/BL/computed_fields.py:670-673 | Concrete request: a column requested under an alias is missing from the record, and the formula stays empty. |
| `FormulaReport.GeneratedNameHidesColumn` | api/ORM/sqlFunctions/complexGetSql.py:267-268 | Concrete request: a column described without an alias arrives as `expr1`, and the formula stays empty. |
| `FormulaReport.OtherObjectHidesColumn` | api/BL/computed_fields.py:675-676 | Concrete request: a column named like another object's computed field is not fetched. |
| `FormulaReport.OutputKeyHidesColumn` | api/BL/computed_fields.py:674 | Concrete request: a column whose name a computed field takes as alias is not fetched, and the field stays empty. |
| `FormulaReport.AliasOverridesColumn` | api/permissions/permissions.py:1037 | Concrete request: `discount` aliased as `unit_price` is selected after `unit_price` though requested before it, and the total is computed from the discount. |
| `FormulaReport.UnreadableColumnIsDropped` | api/permissions/permissions.py:1000-1014 | Concrete request: a requested column the profile may not read is neither selected nor an extra dependency, and the formula stays empty. |
| `FormulaReport.AliasOverwritesInput` | api/BL/computed_fields.py:2056-2063 | Concrete request: a formula shown under the alias `quantity` changes what the next one computes. |
| `Rollup.EvaluateRollup` | api/formulas/evaluate_rollup.py:90-201 | The rollup of one parent's qualifying children, 0 if nothing to aggregate, failing formula rows skipped, with its three errors. |
| `Rollup.RowAddsItsNumber` | api/formulas/evaluate_rollup.py:118-197 | A row adds its own column or formula value to a sum, whatever the sign, and 1 to a count, iff it is a child that meets the criteria and has one; over no rows both are 0. |
| `Rollup.ExtremeIsAttained` | api/formulas/evaluate_rollup.py:118-197 | A minimum or maximum is the column or formula value of some qualifying child, and bounds that of every one. |
| `Rollup.RollupIsRounded` | api/formulas/evaluate_rollup.py:137-197 | Only formula fields are rounded, once, after aggregation; without a value to aggregate the result is 0. |
| `Rollup.EvaluateRollupBatch` | api/formulas/evaluate_rollup.py:204-365 | Exactly the distinct truthy ids, each with the value of its single evaluation; 0 for all of them when a query fails, where the single evaluation raises. |
| `Rollup.BatchInPython` | api/formulas/evaluate_rollup.py:236-310 | Bucketing all parents' children in one pass gives every parent its own rollup, for COUNT and formula fields. |
| `Rollup.BatchInSql` | api/formulas/evaluate_rollup.py:312-362 | One GROUP BY with default 0 gives every parent its own rollup of a physical column. |
| `Rollup.SelectThenSplit` | api/formulas/evaluate_rollup.py:243-289 | Selecting for all ids and then splitting by parent is selecting for each id, in the same order. |
| `RollupPushdown.ConvertRollupFilter` | api/BL/computed_fields.py:1034-1192 | The emitted filters, or the filter handed back, as the aggregate query over a column or inlined formula, the parent's stored column and the recompute-on-empty fallback, whose query may fail, decide. |
| `RollupPushdown.ConvertBareFilter` | api/BL/computed_fields.py:937-984 | The comparison itself on a stored column, membership of the matching parents, or the filter handed back. |
| `RollupPushdown.NoQueryExactlyWhen` | api/BL/computed_fields.py:430-517 | The aggregate query gives no answer iff the field is a formula that cannot be inlined, or whose text fails on a row with a parent. |
| `RollupPushdown.HavingIsExactRollup` | api/BL/computed_fields.py:488-517 | Its aggregate is the unrounded rollup, without criteria, of what SQL reads, and a parent has one iff some child contributes. |
| `RollupPushdown.StoredColumnDecides` | api/BL/computed_fields.py:1086-1169 | A stored rollup that SQL cannot aggregate: its column decides if it selects any parent or there are more than 5000, else the recomputed rollup. |
| `RollupPushdown.FalsyParent` | api/BL/computed_fields.py:1127-1169 | A falsy parent id, which the batch leaves out, is kept by the fallback for `!=` alone. |
| `RollupPushdown.ComparisonLaws` | api/BL/computed_fields.py:1140-1160 | Each comparison is another one reversed or negated. |
| `RollupPushdown.DottedFilterExactlyWhen` | api/BL/computed_fields.py:1034-1192 | Whatever criteria, source and stored column: a row is treated as its parent's rollup demands iff the fallback ran (its query failing only where 0 compares like the rollup), or SQL's verdict on that parent is the rollup's. |
| `RollupPushdown.BareFilterExactlyWhen` | api/BL/computed_fields.py:937-984 | The bare form, which has no fallback: iff SQL's verdict is the rollup's. |
| `RollupPushdown.VerdictRightWhen` | api/BL/computed_fields.py:442-517 | Where the parent's children all meet the criteria and SQL reads the field's own values: right iff rounding does not carry the aggregate over the limit, or, with nothing to aggregate, iff rollup 0 fails the comparison. |
| `RollupPushdown.PushdownExactlyWhen` | api/BL/computed_fields.py:1034-1192 | A count or physical column, the parent's children all meeting the criteria: right iff the parent has something to aggregate, or rollup 0 fails the comparison, or nothing matched and the fallback ran. |
| `RollupPushdown.PushdownOnSummarizedObject` | api/BL/computed_fields.py:409-517 | On a report over the summarised object, without excluded children and nulls, a row is kept iff its parent's rollup satisfies the comparison. |
| `RollupPushdown.FormulaRollupRight` | api/BL/computed_fields.py:1086-1169 | A formula that SQL cannot aggregate, of a rollup that is no stored column: always right through the fallback, and handed back above 5000 parents. |
| `RollupPushdown.VerdictDespiteCriteria` | api/BL/computed_fields.py:496-508 | For one comparison and limit, counts and sums with filter criteria: right iff the excluded children add nothing or the limit does not lie between the aggregate with and without them, or, with nothing to aggregate, iff 0 fails the comparison. |
| `RollupPushdown.RightForEveryComparison` | api/BL/computed_fields.py:496-517 | SQL is right about a parent for every comparison and limit iff its aggregate is the parent's rollup. |
| `RollupPushdown.HavingIsRollupWhen` | api/BL/computed_fields.py:496-508 | With filter criteria it is iff what they exclude is harmless: no child for a count, sum 0 for a sum, nothing beyond the qualifying children (or 0, if there are none) for a minimum or maximum. |
| `RollupPushdown.ChildlessParentLost` | api/BL/computed_fields.py:500-508 | Concrete input: a parent without children is lost although its rollup 0 satisfies the filter. |
| `RollupPushdown.InlinedFormulaLosesChildless` | api/BL/computed_fields.py:462-470 | The same for a formula that SQL inlines. |
| `RollupPushdown.InlinedFormulaIsNotRounded` | api/BL/computed_fields.py:462-508 | Concrete input: SQL keeps 5.004 for `> 5` where the evaluated rollup is 5.00. |
| `RollupPushdown.PushdownIgnoresCriteria` | api/BL/computed_fields.py:500-508 | Concrete rollup with filter criteria for which the pushed filter keeps a row it should drop. |
| `RollupPushdown.EmitMeansMembership` | api/BL/computed_fields.py:1183-1192 | The FK-IN filter, or the contradictory pair for no ids, holds of a row iff its key is among the ids. |
| `PivotWriter.ExportPivot` | data_export/views.py:594-792 | The one-pass writer produces the bucket-free description of the sheet, and with subtotals every bucket has been popped at the end. |
| `PivotWriter.Writer.WriteBodyRow` | data_export/views.py:717-747 | Appends the row with suppressed labels and adds exactly its numbers to the grand bucket and to every prefix level's bucket. |
| `PivotWriter.Writer.EmitSubtotals` | data_export/views.py:749-776 | Emits, innermost first, a subtotal row for each level whose run ends, holding the numbers of that run, and leaves only the runs that go on. |
| `PivotWriter.Writer.WriteGrandTotal` | data_export/views.py:778-792 | The grand row holds all numbers of each column. |
| `PivotWriter.BuildCombos` | data_export/views.py:595-605 | Distinct key combinations in order of first appearance. |
| `PivotWriter.BuildIndex` | data_export/views.py:635-640 | The index lists, for each pair of combinations, its records in order. |
| `PivotCells.RowsInOrder` | data_export/views.py:595-607 | One row per combination of row keys, in the order of the first records that have them; a single row without row keys. |
| `PivotCells.ColumnsInOrder` | data_export/views.py:595-608 | Combinations of column keys are listed the same way. |
| `PivotCells.ColumnsShown` | data_export/views.py:610-633 | The columns are a prefix of the combinations: all of them if labels, one value per field each and the margin of 4 fit into 16384, else as many as do, at least one. |
| `PivotCells.MatchingInOrder` | data_export/views.py:635-640 | The records of a pair of combinations are exactly those with both, in order. |
| `PivotCells.BodyCellShows` | data_export/views.py:731-747 | A body cell shows what the first record of its pair has under the alias, or else the name: the number, else the text, else nothing. |
| `PivotCells.BodyLabelShows` | data_export/views.py:720-729 | A body label shows its value iff its prefix differs from that of the row above. |
| `PivotCells.GrandTotalReadsBody` | data_export/views.py:712-792 | Each grand total is about exactly the numbers that the body rows show under its combination in the fields of its alias, top to bottom. |
| `PivotCells.SubtotalReadsBody` | data_export/views.py:749-776 | Each subtotal is about exactly the numbers shown in the body rows of its run, from the first row with that prefix, in the fields of its alias; about none if an earlier field has the alias. |
| `PivotCells.SubtotalLabelShows` | data_export/views.py:754-764 | It is labelled with the value its run shares, one column further right. |
| `PivotCells.SubtotalsFollow` | data_export/views.py:749-776 | After a body row stand the subtotals of exactly the levels whose prefix the next row does not share, innermost first, then the next body row. |
| `PivotCells.HeaderShows` | data_export/views.py:669-688 | One header row per column key: the key, then that level's value over each of its cells. |
| `PivotCells.TitleShows` | data_export/views.py:690-708 | Then the row keys and a field over each cell. |
| `PivotCells.GrandRowShows` | data_export/views.py:778-783 | The sheet ends with the grand total iff it is asked for and there is a row or column combination. |
| `PivotLaws.SubtotalsPartitionGrandTotal` | data_export/views.py:712-792 | At every level, the lists of the emitted subtotal rows, top to bottom, concatenate to the grand total's list of that column. |
| `PivotLaws.RunIsContiguous` | data_export/views.py:749-771 | A subtotal covers exactly the rows of one contiguous run of its prefix, even when the prefix recurs. |
| `PivotLaws.RepeatedAliasLosesSubtotals` | data_export/views.py:766-775 | With repeated aliases the partition holds in a column iff its field is the first of its alias or no number was put there. |
| `PivotLaws.RepeatedAliasExample` | data_export/views.py:766-775 | Concrete grid: two fields share an alias, the second one's subtotals are empty, its grand total is not. |
| `PivotLaws.SubtotalsGiveGrandTotal` | data_export/views.py:530-544 | Sum, count, minimum and maximum of the grand total follow from those of the subtotals. |
| `PivotLaws.SheetIsRectangular` | data_export/views.py:669-792 | All rows of the sheet share one width. |
| `PivotLaws.SheetFitsExcel` | data_export/views.py:610-633 | If labels, value fields and the margin of 4 fit into 16384 columns, so does the sheet, margin included. |
| `PivotLaws.LabelsReadBack` | data_export/views.py:720-729 | Filling blank label cells down over the body rows recovers every row combination when no label is None or empty. |
| `FormulaScan.ExtractFunctions` | api/formulas/evaluate_formula.py:121-154 | The nested index loops return the texts of the specified spans. |
| `FormulaScan.SpansAreCallsInOrder` | api/formulas/evaluate_formula.py:121-154 | On any text the pieces are a name that nothing lengthens to the left, spaces and a parenthesis closed by the piece's end and not before; disjoint, left to right. |
| `FormulaScan.EveryCallIsCovered` | api/formulas/evaluate_formula.py:121-154 | In any text, each parenthesis after a name, spaces allowed, that is closed at k opens a piece ending there or lies strictly inside one. |
| `FormulaScan.ParsesExactly` | api/formulas/evaluate_formula.py:157-164 | On any text: it parses iff it is a name directly followed by something in parentheses and at most a newline, and the parameters are the pieces of what is inside. |
| `FormulaScan.PiecesBetweenCommas` | api/formulas/evaluate_formula.py:167-183 | On any text the pieces are the stripped texts between exactly the commas outside all open parentheses, unmatched closing ones counting for nothing. |
| `FormulaScan.StripMeans` | api/formulas/evaluate_formula.py:160-181 | Stripping cuts all white space off both ends and nothing else. |
| `FormulaScan.SplitParametersLoop` | api/formulas/evaluate_formula.py:167-183 | The loop with its stack returns the specified pieces. |
| `FormulaScan.CallTextRoundTrip` | api/formulas/evaluate_formula.py:121-183 | The text of a call with trimmed, balanced arguments without top-level commas is found as one piece and parsed back to name and arguments. |
| `FormulaSyntax.ValidateFormulaSyntax` | api/formulas/formula_validation.py:184-244 | The loops return the first issue of the recursive specification. |
| `FormulaSyntax.AcceptedExactly` | api/formulas/formula_validation.py:184-244 | Accepted iff not blank, balanced, and of each extracted call the function is known, the number of parameters the function's own (odd and at least 3 for CASE) and every nested formula accepted. |
| `FormulaSyntax.CheckOfCall` | api/formulas/formula_validation.py:218-244 | For a call written out: accepted iff known, rightly counted and its arguments accepted; else the issue is the unknown function, the wrong count, or that of the first rejected argument. |
| `FormulaSyntax.FirstCallsFirst` | api/formulas/formula_validation.py:216-244 | Of several calls the first that has an issue, or fails, decides. |
| `FormulaSyntax.ProcessFormula` | api/formulas/evaluate_formula.py:50-118 | The evaluator's calls and recursion, values left aside, give the specified first structural failure. |
| `FormulaSyntax.EvaluationOfCall` | api/formulas/evaluate_formula.py:60-96 | For a call written out: at depth 0 the limit, else an unknown function fails at once, else the first argument that fails one level down. |
| `FormulaSyntax.CheckCoversEvaluation` | api/formulas/formula_validation.py:184-244 | A checked formula never meets an unknown function at any level, and reaches the recursion limit only if its parentheses nest deeper than the limit. |
| `FormulaSyntax.CheckedFormulaEvaluates` | api/formulas/evaluate_formula.py:55-63 | With nesting at most 50 a checked formula fails neither way. |
| `FormulaSyntax.ParamIsShallower` | api/formulas/evaluate_formula.py:87-93 | Every parameter of an extracted call nests strictly less deep than the formula. |
| `FormulaSyntax.LimitIsSharp` | api/formulas/evaluate_formula.py:60-63 | k nested calls hit the limit iff k exceeds it. |
| `FolderForest.BuildFolderTree` | api/BL/dashboard.py:64-73 | One node per id; each node's children are exactly the nodes of the folders naming it, in input order; the roots are those without an existing parent. |
| `FolderForest.ChildrenInOrder` | api/BL/dashboard.py:68-71 | The children of an existing folder are exactly the folders naming it as their parent, in input order. |
| `FolderForest.RootsInOrder` | api/BL/dashboard.py:68-73 | The roots are exactly the folders without a parent or with a missing one, in input order. |
| `FolderForest.LastCounts` | api/BL/dashboard.py:66 | Of several folders with one id the last one is the node's. |
| `FolderForest.DepthIsChain` | api/BL/dashboard.py:64-73 | With distinct ids a folder's depth is the length of its chain of existing parents. |
| `FolderForest.EachFolderOnce` | api/BL/dashboard.py:64-73 | With distinct ids a folder stands in the forest once, at the depth of its parent chain, iff that chain ends at a root; otherwise nowhere. |
| `FolderForest.OneDepth` | api/BL/dashboard.py:64-73 | No folder stands at two depths. |
| `FolderForest.OnlyFolders` | api/BL/dashboard.py:64-73 | Nothing else stands in the forest. |
| `FolderForest.AcyclicFoldersAllPresent` | api/BL/dashboard.py:64-73 | Without cycles every folder is in the forest. |
| `FolderForest.ChildrenAreBelow` | api/BL/dashboard.py:71 | One link down in the heap is one step down among identifiers. |
| `FolderForest.HeapLevels` | api/BL/dashboard.py:64-73 | The nodes k links below the built roots are those of the identifiers k steps down. |
| `FolderForest.EachNodeOnce` | api/BL/dashboard.py:64-73 | With distinct ids a folder's node stands in the built forest once, at the depth of its parent chain, iff that chain ends at a root; otherwise nowhere. |
| `Calendar.AddMonthsMeaning` | api/formulas/functions_and_conditions.py:130-148 | Succeeds iff the target month lies in years 1 to 9999; then a valid date, exactly that many months on, on the same day or the last day of a shorter month. |
| `Calendar.MonthsMakeTheYear` | api/formulas/functions_and_conditions.py:141 | Month lengths alternate outside February and add up to the Gregorian year, leap years included. |
| `Calendar.DatesAreOrdered` | api/formulas/functions_and_conditions.py:130-148 | The order used for monotonicity is total and antisymmetric. |
| `Calendar.AddMonthsMonotone` | api/formulas/functions_and_conditions.py:130-148 | Keeps the order of dates. |
| `Calendar.AddMonthsComposes` | api/formulas/functions_and_conditions.py:137-142 | Two steps equal one iff the final day exists in the month in between; always for days up to 28. |
| `Calendar.AddMonthsUndone` | api/formulas/functions_and_conditions.py:141-142 | Going back undoes going forth iff the day was not clamped. |
| `Calendar.AddYearIsTwelveMonths` | api/formulas/functions_and_conditions.py:164-181 | Adding k years equals adding 12k months, errors included. |
| `FormulaCache.Cache.Get` | api/formulas/cache.py:55-68 | A hit returns the stored value and counts one use; a miss changes nothing. |
| `FormulaCache.Cache.Set` | api/formulas/cache.py:70-85 | Stores the value with count 1 after making room; raises, changing nothing, when there is nothing to evict. |
| `FormulaCache.Cache.MinKey` | api/formulas/cache.py:80 | The first key in insertion order with the least count. |
| `FormulaCache.SetKeepsBounds` | api/formulas/cache.py:70-85 | For a limit of at least 1 a set never raises, keeps both dictionaries' keys equal and the size within the limit, and the new entry is present. |
| `FormulaCache.VictimIsLeastUsed` | api/formulas/cache.py:78-82 | A set removes at most one entry, only from a full cache, and one with the least count. |
| `FormulaCache.SetRemovesExactly` | api/formulas/cache.py:78-82 | A set on a full cache removes exactly the entry that goes before every other, even if its own key is already cached; below the limit nothing. |
| `FormulaCache.HitsAreCurrent` | api/formulas/cache.py:55-90 | Over every run of calls, what is found is the last value set since the last clear, and its count is its number of uses since. |
| `FormulaCache.EvictsLeastFrequent` | api/formulas/cache.py:78-82 | Over every run the evicted entry has been used no more often than any other. |
| `FormulaCache.VictimIsSoonest` | api/formulas/cache.py:79-80 | The evicted key is the one with fewer uses than every other, or as many and an earlier insertion. |
| `FormulaCache.EvictsLeastRecentExactlyWhen` | api/formulas/cache.py:78-82 | Over every run: the least recently used entry of a full cache is evicted iff it has fewer uses than every other entry, or as many and an earlier insertion in the run. |
| `FormulaCache.EvictionIgnoresRecency` | api/formulas/cache.py:79 | Concrete run: an entry read once stays though used longest ago. |
| `FormulaCache.SettingAgainKeepsPlace` | api/formulas/cache.py:84-85 | Concrete run without reads: a key set again keeps its place, so it goes before one left alone. |
| `FormulaCache.OrderIsInsertion` | api/formulas/cache.py:79-85 | Over every run the count dictionary lists its keys by the call that inserted them; setting a key that stays does not insert it anew. |
| `FormulaCache.NoRoomRaises` | api/formulas/cache.py:78-80 | On an empty cache a set raises iff the limit is below 1. |
| `FormulaCache.Cache.Clear` | api/formulas/cache.py:87-90 | Leaves the state of a new cache. |
| `FormulaCache.Cache.Size` | api/formulas/cache.py:92-94 | The number of entries. |

## Left out

- SQL text, cursors, transactions, schema lookup and the per-process name caches: replaced by tables in memory.
- Web framework code, messaging and third-party clients: plumbing without an algorithm of its own.
- Python's own recursion limit, which would cut off group chains of about a thousand levels, and NULL identifiers in group tables.
- Character-level tokenising of filter logic and the invalid-character test: the model starts from tokens; an empty logic string is accepted before any token stage.
- FilterSplit.SplitExactlyWhen: stated for distinct conditions and non-empty nodes, because with repeated conditions or empty nodes the two halves can agree by absorption even though a computed condition is an alternative.
- FormulaFetch.ProcessComputedFields: fields given by a dotted name on a related object are not modelled, nor are aggregated computed fields.
- FormulaApply.AppliedExactly: says nothing of a formula that depends on a name which an alias written before it, or a rollup's, takes, nor of one whose own name or dependency is the key of a fetched column; the first is described by FormulaApply.LastEvaluationReads, the second by FormulaReport.FetchedColumnsSuffice.
- FormulaReport.SelectColumns: the detail query of a report; dotted names, the key added and taken out again to cap rows per parent, denied access to the whole object, and the other callers of the column selection are not modelled.
- FormulaApply.ApplyComputedFields: a rollup query that fails, whose batch form yields 0 where the single form yields nothing.
- FormulaFixpoint.RoundsExactly: assumes strict formulas, so functions that accept a missing value and unknown names read as text are not covered.
- Formula definitions with an empty expression, and values that are present but equal None: both behave like absent ones.
- RollupPushdown.ConvertRollupFilter: null tests, filters on plain formula fields, failing lookups of metadata and parents, and AVG are not modelled; AVG has no evaluated rollup to compare with.
- Float rounding and coercion: `round` is an arbitrary function in rollups, and the pivot laws are about the lists handed to the aggregation before rounding.
- PivotLaws.SubtotalsGiveGrandTotal: says nothing of averages, which do not combine.
- Spreadsheet styling, number formats, field label texts and file streaming: only the grid of logical cells is kept.
- FormulaSyntax.ProcessFormula: values, the substitution of results into the text and errors raised by a function on its arguments are not modelled; such an error only ends the evaluation earlier.
- Non-ASCII letters, digits and spaces in formula text.
- Numeric timestamps in year arithmetic and the parsing of date texts.
- The memoize decorator and the module-level cache instance.
