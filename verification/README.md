# GoREST: verified models of its query builder, migrations, serializer, roles, tokens and pages

This project models six parts of GoREST in Dafny and proves what they are for.
Code that updates state in place is a class or a method with loops, proved
against a specification; the results about whole runs, trees and walks are
lemmas about that specification.

**Query builder** (`SqlText`, `Renumbering`, `StrayDollars`, `QueryTree`,
`QueryLoops`, `QueryMeaning`, `QueryNumbering`, `SelectBuilder`, `NameRules`, `CteBuilder`,
`SqlReading`, `StatementText`, `ConditionMeaning`, `ClauseReading`,
`StatementReading`, `ExpressionReading`, `WithReading`, `FailedSubquery`). A statement is a text with
placeholders and an argument list. Its meaning is an *inline* statement, the text with the
arguments written in place. `Bind` is how a database puts the two together,
knowing nothing of the builder. The results: whatever tree, subquery, SELECT or
WITH statement is rendered from whatever counter, binding gives back the inline
statement; first-occurrence renumbering from the highest number down is right
for every count and start; and a condition's text, read by a lexer and a parser
with SQL's precedence, denotes the tree in three-valued logic, nested statements
and all: whatever a statement is made of, its text leaves no quote or
parenthesis open. A second reader takes whole statements apart, clause by
clause, and knows the order of SQL's clauses and nothing of the functions that
print them; each dialect's placeholders and quotes are spelled out for it. What
it finds in a built SELECT or WITH statement is what the builder holds: named
queries, DISTINCT, columns, tables, joins, conditions, groups, order and
direction, the rows wanted and the rows skipped.

**Dependency orders** (`Digraphs`, `CycleSearch`, `StringOrder`, `KahnSort`,
`MigrationOrder`, `PluginOrder`, `RoleHierarchy`). Depth-first cycle search,
both Kahn sorts, role expansion and role trees, for every order of map
iteration. The repository's three copies of the cycle search share one model.

**Migration engine** (`MigrationRuns`, `MigrationPrefix`, `MigrationClosure`,
`Migrator`). The state is the user's schema, the tracking table and a clock that
lets an executor answer differently at every attempt; a journal, not seen by
the program, lists the committed transactions. `Run` is any sequence of Up,
UpOne, UpTo, Down and DownTo. The class `Migrator` is proved to take only such
steps.

**JSON-LD serializer** (`JsonStrings`, `Utf8Texts`, `JsonValues`, `JsonLd`,
`ResourceNames`, `ForeignKeyOrder`, `JsonLdMaps`, `JsonLdEncoding`, `JsonLdRefinement`,
`RelationExpansion`). Bytes are written by the streaming path into a buffer and read by a JSON reader after
sections 3 to 8.1 of RFC 8259, which knows nothing of the writer and takes
nothing that is not UTF-8. What is read is compared with what the encoder makes
of the object that the map path builds while it iterates over the very map it
changes, in any order.

**Refresh tokens** (`RefreshTokens`), **pagination** (`Pagination`) and the
**field filter** (`FieldFilter`) are smaller state machines and walks.

Where a promise does not hold of the code, the model keeps the code and a lemma
says exactly when it holds:

- `Pagination.CountTotal`: the total is the number of rows only up to the end of
  the result.
- `Pagination.WalkVisitsAll`: following next visits all pages exactly when the
  caps on pages and offsets are not exceeded. Beyond them the walk circles on
  the last allowed page (`PageCapLoops`) or is refused (`OffsetCapRefuses`).
- `Pagination.EstimatedWalk`: an estimated count ends the walk before the last
  row exactly when it makes fewer pages than there are (`LowEstimateEndsWalk`),
  though `pagination/pagination.go:33-37` says it must not drive navigation.
- `Pagination.UncountedWalkVisitsAll`: without a count it visits all pages
  exactly when, besides, the caller may read every row of the full pages;
  `UnreadableRowEndsWalk` is an input where the rest is never reached.
- `JsonLdRefinement.FastPathRefinesMapPath`: both paths agree exactly when no
  shown id is dropped for being empty (`OmittedZeroIdDiffers`) and every name
  and text is UTF-8 (`BadByteDiffers`).
- `RefreshTokens.CleanupKeepsGrants`: deleting expired tokens changes no grant
  exactly when the latest expiry the cutoff can delete, a whole second, has
  passed (`EarlyCutoffTakesGrant`).
- `ConditionMeaning.RawIsConjunct` and `RawIsConjunctBehind`: a raw fragment
  before a condition of WHERE is a conjunct on a row exactly when all its
  disjuncts but the last are false there, and behind one when all but the first
  are. `RawStaysTogether`: one without an OR of its own always is.
- `StrayDollars.RenumberedExactly`: renumbering is right for a text exactly when
  placeholders have no numbers, or keep theirs, or nothing that looks like a
  placeholder comes before it; `LiteralDollarIsRewritten` is a subquery where a
  raw condition breaks this.
- `ForeignKeyOrders.OrderMatters`: rewriting foreign keys in the map that is
  iterated over has one result exactly when no relation name is a foreign key
  again and keys of one relation agree.
- `RoleHierarchy.BuildRoleTree`: cycles are reported that some root leads to;
  `CycleBesideRootIsMissed` has one that is not, and in
  `RootlessAnswerVaries` the answer depends on the key that comes first.
- `FieldFilter.ShortcutIsCopy`: the shortcut is the copy exactly when fields
  that are not exported are zero. `StarBehindAny` shows that the order of a read
  list matters.
- `FailedSubqueries.FailedSubqueryIsFalse`: the condition of a nested SELECT that
  does not build is false exactly when neither its column nor the error holds
  the two characters that end a comment.
- `Renumbering.AscendingOrderWouldFail`: counting up would be wrong.

Choices of the model:

- Conditions and expressions have one interface in the code (text, arguments,
  next counter) and are one datatype `Node` here.
- A subquery or WITH query is a snapshot of its builder, built for the dialect
  of its host.
- Error texts quote names as `%q` does for printable ASCII.
- `query/README.md:614-623` promises a limit on the depth of subqueries; no code
  enforces it, and neither does the model.
- Column names of an IN subquery are quoted whole, without splitting at dots, as
  the code does (`query/subquery.go:51-72`).
- A read list that holds "any" before "*" refuses a caller without roles
  (`rbac/models.go:58-76`).
- A migration carries the name of the source it was loaded from, and versions
  hold no colon, as `migrations/source.go:149-169` demands of timestamps.
- Sorting by a library call (`sort.Slice`, `ORDER BY`) picks any order of
  equals.

## Model

| member | source | states |
|---|---|---|
| SqlText.ReplaceFirstIsLeftmost | query/subquery.go:115-126 | replacing once changes the leftmost occurrence and nothing else |
| SqlText.LargerIsNoPrefixOfSmaller | query/subquery.go:115-126 | a larger number's digits never begin a smaller number's digits, the reason for counting down |
| SqlText.FillReadsBack | database/postgres/dialect.go:14-16 | a printed statement with its arguments is read back by a database as the inline statement, for numbered and plain placeholders |
| SqlText.FillNumbers | database/postgres/dialect.go:14-16 | the placeholder numbers found in a printed text are consecutive, left to right, one for each argument |
| Renumbering.RenumberParameters | query/subquery.go:115-126 | the downward loop computes the specified renumbering |
| Renumbering.RenumberQueryParameters | query/cte.go:211-226 | the WITH copy of the loop computes the same, also where the dialect's placeholders have no numbers |
| Renumbering.RenumberShifts | query/subquery.go:115-126 | placeholders 1..n become s..s+n-1 and nothing else changes, for every text, n and s >= 1 |
| Renumbering.AscendingOrderWouldFail | query/subquery.go:115-126 | counting up would renumber an already renumbered placeholder: shifting two of them by one that way leaves the second where it was |
| StrayDollars.RenumberedExactly | query/subquery.go:115-126 | for every text, with whatever dollar signs and digits of its own, renumbering from s gives the text numbered from s exactly when placeholders have no numbers, s is 1, or no dollar sign before placeholder k is followed by the digits of k |
| StrayDollars.StaysOff | query/subquery.go:115-126 | once a wrong step has replaced a number, no later step makes it right |
| StrayDollars.LiteralDollarIsRewritten | query/condition.go:299-309 | a subquery with the raw condition '$1' = ?: from whatever counter, the literal is renumbered in the placeholder's stead |
| QueryLoops.RenderNodes | query/condition.go:249-271 | the loop that threads the counter through a list of trees renders it piece by piece |
| QueryLoops.LogicalToSQL | query/condition.go:249-271 | the AND/OR node's loop, its collapse for one child and "1=1" for none |
| QueryLoops.InToSQL | query/condition.go:187-207 | the IN list's loop, and its constants for an empty list |
| QueryLoops.PlaceholderList | query/condition.go:187-207 | n placeholders counted up from the counter |
| QueryLoops.RawToSQL | query/condition.go:299-309 | the loop that replaces question marks one by one |
| QueryLoops.CallToSQL | query/expression.go:210-223 | functions over several operands thread the counter through them |
| QueryLoops.CaseToSQL | query/case.go:58-101 | both CASE forms, their loop and optional ELSE |
| QueryLoops.WindowToSQL | query/window.go:64-101 | the window's PARTITION BY, ORDER BY and frame of type, start and end, each left out when empty |
| QueryNumbering.RenderedTreeReadsAsInline | query/condition.go:28-31 | every tree rendered from counter p holds placeholders p..next-1 once each, left to right, and binds to its inline statement |
| QueryNumbering.BuiltSelectReadsAsInline | query/select.go:281-417 | a built SELECT binds to its inline statement with placeholders from 1; it fails exactly when it holds an error |
| QueryNumbering.NestedSelectReadsAsAlone | query/subquery.go:92-111 | a subquery read inside its host, whatever the counter, is the statement it is when built alone |
| FailedSubqueries.FailedSubqueryIsFalse | query/subquery.go:51-102 | a nested SELECT that does not build takes no argument and leaves a condition that is false, negated or not, exactly when neither column nor error holds what ends a comment |
| SelectBuilders.SelectBuilder.constructor | query/builder.go:35-56 | columns are validated, the first error is kept |
| SelectBuilders.SelectBuilder.Or | query/select.go:66-75 | combines the last condition with the new one, or begins the list |
| SelectBuilders.SelectBuilder.JoinTable | query/select.go:83-131 | appends a validated join |
| SelectBuilders.SelectBuilder.FullJoin | query/select.go:135-153 | refused where the dialect has no full join |
| SelectBuilders.SelectBuilder.GroupBy | query/select.go:240-251 | validates in a loop; after an error nothing is appended |
| SelectBuilders.SelectBuilder.BuildStatement | query/select.go:281-417 | the builder's object builds the statement its fields describe, clause by clause, with one counter |
| SelectBuilders.ValidatedIsTidy | query/validation.go:73-112 | what the builder accepted meets the conditions of the numbering results |
| NameRules.IdentifierMeans | query/validation.go:23-66 | an identifier is accepted exactly when it has 1 to 63 letters, digits and underscores, no digit first, and is no reserved word in any case |
| NameRules.ColumnReferenceMeans | query/validation.go:68-112 | a column is accepted exactly when it has a parenthesis, or is a star, an identifier, or two of these with a dot between them |
| NameRules.NoneBadMeans | query/builder.go:35-56 | a list of columns is accepted exactly when each is |
| NameRules.FirstBadMeans | query/builder.go:35-56 | otherwise the error is that of the first that is not |
| CteBuilders.CTEBuilder.constructor | query/cte.go:21-69 | one WITH query and a new, empty main SELECT of the same dialect |
| CteBuilders.CTEBuilder.BuildCtes | query/cte.go:151-209 | the loop over WITH queries, stopping at the first error |
| CteBuilders.CTEBuilder.BuildQuery | query/cte.go:151-209 | the builder's object builds the specified WITH statement |
| CteBuilders.BuiltWithReadsAsInline | query/cte.go:151-209 | a WITH statement binds to its inline statement, with placeholders from 1 across all its parts |
| WithReading.BuiltWithAsks | query/cte.go:151-209 | a built WITH statement, read by a database, asks for the named queries with their columns, in order, and for the main SELECT that the builder holds, and may recurse exactly when one of them was added as recursive |
| SqlReading.LexConcat | query/condition.go:249-288 | tokens of a concatenation are the tokens of its parts when none spans the seam |
| SqlReading.AndExtends | query/select.go:336-349 | what the reader takes as a conjunction does not depend on what follows, unless an AND does |
| StatementTexts.ScannedPasses | query/subquery.go:51-112 | a text whose quotes and parentheses balance has tokens that can stand between parentheses |
| StatementTexts.NodeIsBalanced | query/expression.go:12-16 | the text of every condition, expression and clause balances, however nested, if texts taken over as they are do |
| StatementTexts.StatementIsBalanced | query/select.go:281-417 | so does the text of every SELECT made of them |
| ConditionMeaning.ComparisonLeaf | query/condition.go:28-31 | a comparison's text is read as one predicate of its column, operator and value |
| ConditionMeaning.ColumnComparisonLeaf | query/condition.go:357-360 | a column comparison is read as one predicate, left column first |
| ConditionMeaning.BetweenLeaf | query/condition.go:229-235 | BETWEEN is read as one predicate that keeps its own AND |
| ConditionMeaning.InListLeaf | query/condition.go:187-207 | an IN list is read as one predicate of its values in order |
| ConditionMeaning.ILikeLeaf | query/condition.go:134-144 | case-insensitive matching is read as one predicate in both dialect forms |
| ConditionMeaning.NullTestLeaf | query/condition.go:158-165 | IS NULL and IS NOT NULL are read as one predicate each |
| ConditionMeaning.StatementIsClosed | query/subquery.go:51-112 | a nested statement can stand between parentheses, whatever it is made of |
| ConditionMeaning.InSubqueryLeaf | query/subquery.go:51-72 | IN over a subquery is read as one predicate |
| ConditionMeaning.ExistsLeaf | query/subquery.go:92-111 | EXISTS over a subquery is read as one predicate |
| ConditionMeaning.NotExistsLeaf | query/subquery.go:92-111 | NOT EXISTS is read as the negation of the EXISTS predicate |
| ConditionMeaning.ConditionStandsAlone | query/condition.go:249-288 | wherever a condition may stand exactly its own tokens are taken, and they are read as its own formula |
| ConditionMeaning.RenderingKeepsMeaning | query/condition.go:249-288 | a condition's text, read with NOT over AND over OR, denotes the tree; one child collapses, none is true |
| ConditionMeaning.RenderedMeansTheTree | query/condition.go:28-31 | what ToSQL returns from any counter, text and arguments put together by a database, evaluates the tree |
| ConditionMeaning.BareAndIsConjunction | query/select.go:336-349 | conditions joined by a bare AND in WHERE or HAVING denote their conjunction |
| ConditionMeaning.WhereAddsConjunct | query/select.go:56-64 | Where and And add a conjunct |
| ConditionMeaning.OrWidensLastConjunct | query/select.go:66-75 | Or widens the last conjunct only |
| ConditionMeaning.RawStaysTogether | query/select.go:336-349 | raw fragments that are taken whole as a conjunction are conjuncts of WHERE and HAVING like any condition |
| ConditionMeaning.FragmentBefore | query/select.go:336-349 | what WHERE fragment AND condition is read as: the AND takes hold of the fragment's last disjunct only |
| ConditionMeaning.RawIsConjunct | query/select.go:336-349 | whatever condition follows, the fragment is a conjunct on a row exactly when its disjuncts before the last are false there |
| ConditionMeaning.FragmentBehind | query/select.go:336-349 | WHERE condition AND fragment: the AND takes hold of its first disjunct only |
| ConditionMeaning.RawIsConjunctBehind | query/select.go:336-349 | whatever condition stands before, the fragment is a conjunct on a row exactly when its disjuncts behind the first are false there |
| ConditionMeaning.OrFragmentEscapes | query/condition.go:299-309 | "a OR b" is a conjunct on exactly the rows where a is false |
| ClauseReading.SpelledReadsBack | query/select.go:281-417 | clauses spelled in SQL's order, each there only if it says something, are read back as the query they spell |
| StatementReading.NodeReads | query/expression.go:12-16 | the text of every condition and expression is one item of a list and holds no clause of its own, if texts taken over as they are do not |
| ExpressionReading.CaseIsRead | query/case.go:58-101 | a CASE is read as its operand, its pairs in order, the value behind ELSE and END, each only if there is one |
| ExpressionReading.WhenIsRead | query/case.go:58-101 | a pair is read as the test behind WHEN and the result behind THEN |
| ExpressionReading.CallIsRead | query/expression.go:210-223 | a function is read as its name and its operands in order |
| ExpressionReading.DistinctCallIsRead | query/expression.go:129-136 | COUNT(DISTINCT ...) keeps its DISTINCT before the operand |
| ExpressionReading.AliasIsRead | query/expression.go:491-495 | an alias is read as a name behind its expression |
| ExpressionReading.OverIsRead | query/window.go:124-132 | a window function is read as its call, and its window in parentheses behind OVER |
| ExpressionReading.WindowIsRead | query/window.go:64-101 | a window is read as its partition, its order with directions and its frame, each only if it says something |
| ExpressionReading.FrameIsRead | query/window.go:90-93 | a frame is read as its kind, its start and its end, in this order |
| StatementReading.LimitReads | database/dialect.go:59-68 | LIMIT with the number of rows and OFFSET with the number skipped, each there exactly when its number is positive |
| StatementReading.StatementReads | query/select.go:281-417 | the inline statement of a SELECT is read, clause by clause, as what its builder holds |
| StatementReading.BuiltSelectAsks | query/select.go:281-417 | a built SELECT, read by a database with its arguments, asks for the columns, tables, joins, conditions, groups, order and rows that the builder holds |
| StatementReading.LimitAndOffsetAsked | query/select.go:391-413 | whatever a built SELECT is read as has the builder's row limit, rows skipped, DISTINCT, and each order column with its direction |
| StatementReading.WhereMeansAll | query/select.go:336-349 | on every row, the WHERE clause found in a built SELECT is the conjunction of its conditions |
| CycleSearches.CycleSearch.Visit | migrations/dependency.go:90-126 | a visit finishes its node with all its targets or returns a walk that comes back to itself; it ends on every graph |
| CycleSearches.FindCycle | migrations/dependency.go:90-126 | finds a walk along dependencies whose last node occurs in it earlier, exactly when there is a cycle |
| CycleSearches.ValidateHierarchy | rbac/config.go:95-130 | an error exactly when the role graph has a directed cycle |
| RoleHierarchy.RoleResolver.ExpandRole | rbac/hierarchy.go:41-63 | resolves what is reachable and never takes its error branch, on cyclic graphs too |
| RoleHierarchy.ResolveRoles | rbac/hierarchy.go:12-39 | exactly the roles reachable from the given ones, each once |
| RoleHierarchy.RoleTreeBuilder.BuildRoleNode | rbac/hierarchy.go:126-151 | unfolds the hierarchy below a role or fails on a walk that returns |
| RoleHierarchy.BuildRoleTreeFrom | rbac/hierarchy.go:126-151 | fails exactly when a cycle is reachable; otherwise the tree's names are the roles its root inherits |
| RoleHierarchy.BuildRoleTree | rbac/hierarchy.go:94-124 | one tree for every role that is nobody's child; fails exactly when one of these leads to a cycle, and without any as the first key does |
| RoleHierarchy.AcyclicTreesShowAll | rbac/hierarchy.go:94-124 | without cycles there is a root and every role is in some tree |
| RoleHierarchy.CycleBesideRootIsMissed | rbac/hierarchy.go:94-124 | a cycle that no root leads to is not reported, and the role on it is in no tree |
| RoleHierarchy.RootlessAnswerVaries | rbac/hierarchy.go:114-121 | without roots two keys can give two answers |
| RoleHierarchy.ValidatedHierarchyUnfolds | rbac/config.go:95-130 | a validated hierarchy always unfolds |
| StringOrder.SortStringsSorts | migrations/dependency.go:52-76 | sorting gives a sorted permutation |
| StringOrder.LeqMeans | migrations/dependency.go:52-76 | strings are ordered by prefix or by their first differing character |
| StringOrder.LeqOfNumbers | migrations/dependency.go:143-152 | digits of equal length, as in time stamps, are ordered as numbers |
| StringOrder.ListLeqMeans | migrations/dependency.go:52-76 | lists are ordered by prefix or by their first differing name |
| KahnSort.Relax | migrations/dependency.go:66-80 | finishing a name leaves queued exactly the names that became ready, with repeated dependencies |
| KahnSort.OrderedNeverSticks | migrations/dependency.go:82-84 | where an order exists some name is ready until all are placed |
| MigrationOrder.DependencyResolver.BuildGraph | migrations/dependency.go:33-50 | in-degrees count known dependencies, repeats included, and lists mirror them |
| MigrationOrder.DependencyResolver.Sort | migrations/dependency.go:52-80 | every placed source was the least ready one in its turn |
| MigrationOrder.DependencyResolver.Resolve | migrations/dependency.go:33-87 | succeeds exactly on acyclic dependencies; the order is the least that puts known dependencies first; an error carries a real cycle |
| MigrationOrder.GreedyIsLeast | migrations/dependency.go:33-87 | taking the least ready name each time gives the lexicographically least order |
| PluginOrder.ValidateDependencies | pluginloader/dependency.go:53-83 | accepts exactly the lists whose dependencies are enabled, and names one that is not |
| PluginOrder.ValidatedIsKnown | pluginloader/dependency.go:53-83 | a validated list is closed under dependencies |
| PluginOrder.DetectCircularDependency | pluginloader/dependency.go:135-189 | a closed cycle, first name equal to last, exactly when there is one |
| PluginOrder.ResolveInitializationOrder | pluginloader/dependency.go:85-133 | succeeds exactly with distinct names, known dependencies and no cycle; otherwise a validated list gets a real cycle, never the generic message |
| MigrationRuns.StoppedRunLeavesOneFailure | migrations/migrator.go:481-533 | a stopped run leaves the effects of a first part, all recorded, and one failed row exactly when the next migration was refused |
| MigrationRuns.CompletedUpAppliesAll | migrations/migrator.go:46-102 | when Up ends without error every migration of the sources is applied |
| MigrationRuns.CompletedDownsRemove | migrations/migrator.go:203-240 | reverting a list without error deletes exactly its rows |
| MigrationRuns.DirtyBlocks | migrations/tracker.go:241-290 | while a failed row exists Up, UpOne and UpTo change nothing |
| MigrationRuns.FilterPendingMembers | migrations/migrator.go:438-456 | pending are exactly the migrations without an applied row, none twice |
| MigrationRuns.UpToVersionFacts | migrations/migrator.go:130-165 | up to a version are exactly the migrations that are not newer |
| MigrationRuns.TimestampMeans | migrations/source.go:149-169 | a time stamp is 14 or 17 digits that are a date of the calendar, leap years and all, and a time of day |
| MigrationRuns.LeapMeans | migrations/source.go:149-169 | leap years are every fourth, and of full centuries every fourth |
| MigrationRuns.StepKeepsConsistent | migrations/migrator.go:46-240 | every operation keeps applied rows and committed effects together |
| MigrationRuns.RunsStayConsistent | migrations/migrator.go:46-240 | over every run the applied rows are exactly the migrations committed and not reverted, and the journal leads to the schema |
| MigrationPrefixes.RunsKeepPrefix | migrations/migrator.go:46-240 | for one source from an empty table the applied set is always a prefix in version order |
| MigrationPrefixes.DownStepsRetrace | migrations/migrator.go:167-240 | Down and DownTo undo in exact reverse of application; where downs invert ups the schema is what the remaining migrations left |
| MigrationPrefixes.AppliedIsPrefix | migrations/migrator.go:438-456 | the applied rows are those of the first migrations in version order, and of no others |
| MigrationClosure.DependencyComesFirst | migrations/dependency.go:129-155 | in the pending list a missing migration of a source depended on stands before |
| MigrationClosure.UpRunsStayClosed | migrations/migrator.go:77-128 | every run of Up and UpOne keeps the applied set closed under dependencies, in every state on the way |
| Migrators.KeyInjective | migrations/migrator.go:438-456 | version and source joined by a colon identify a row when versions hold no colon |
| Migrators.MigrationTracker.RecordMigration | migrations/tracker.go:160-182 | a plain insert, refused when the key is taken |
| Migrators.MigrationTracker.RecordFailedMigration | migrations/tracker.go:184-232 | an upsert of a failed row that keeps an old checksum |
| Migrators.MigrationTracker.CheckForDirtyDatabase | migrations/tracker.go:241-290 | clean exactly when no row is failed |
| Migrators.MigrationTracker.GetAppliedMigrations | migrations/tracker.go:97-158 | all rows once, by version, equal versions in any order |
| Migrators.MigrationTracker.VerifyChecksums | migrations/tracker.go:292-319 | accepts exactly matching checksums of applied rows |
| Migrators.FilterPendingMigrations | migrations/migrator.go:438-456 | the migrations without applied row, in order |
| Migrators.SortMigrations | migrations/dependency.go:143-152 | a sorted permutation, equals in any order |
| Migrators.OrderMigrations | migrations/dependency.go:129-155 | ordered by source, then version; refused exactly on cycles |
| Migrators.Migrator.LoadAllMigrations | migrations/migrator.go:420-436 | all migrations in source order; the resolver knows all sources |
| Migrators.Migrator.Pending | migrations/migrator.go:281-295 | the pending migrations in order; fails exactly on cycles |
| Migrators.Migrator.ExecuteMigration | migrations/migrator.go:481-533 | run, commit, record; a failed run leaves a failed row only |
| Migrators.Migrator.ExecuteDownMigration | migrations/migrator.go:535-576 | run, commit, delete the row; a failure changes nothing |
| Migrators.Migrator.ExecuteSequential | migrations/migrator.go:578-589 | one after the other until the first failure |
| Migrators.Migrator.ValidateBatch | migrations/validator.go:50-69 | accepts exactly valid migrations with distinct keys |
| Migrators.Migrator.FindMigration | migrations/migrator.go:462-479 | finds a migration of that version and source exactly when there is one |
| Migrators.Migrator.Up | migrations/migrator.go:46-102 | which check refuses, or which pending list is run and how it ends; without error all is applied |
| Migrators.Migrator.UpOne | migrations/migrator.go:104-128 | which check refuses, or that the first pending migration is run |
| Migrators.Migrator.UpTo | migrations/migrator.go:130-165 | which check refuses, or that the pending migrations up to the version are run |
| Migrators.Migrator.Down | migrations/migrator.go:167-201 | which answer is given when: nothing applied, the newest applied migration not in the sources, or that migration reverted, with success or not |
| Migrators.Migrator.CollectReverts | migrations/migrator.go:213-231 | the applied migrations newer than the target, oldest first; fails when one is not in the sources |
| Migrators.Migrator.DownTo | migrations/migrator.go:203-240 | which answer is given when: bad version, an applied migration not in the sources, nothing newer, or the list reverted from its end to the first failure; without error nothing newer stays applied |
| JsonStrings.WriteJSONStringBody | serializer/fastld.go:363-414 | the chunk-copying loop writes the byte-by-byte escaping |
| JsonStrings.WriteJSONStringBodyBytes | serializer/fastld.go:418-426 | the shortcut for ids writes the same |
| JsonStrings.EscapeReadsBack | serializer/fastld.go:353-443 | reading an escaped string as RFC 8259 says gives back the bytes and stops at its closing quote |
| JsonStrings.EscapeIsHarmless | serializer/fastld.go:353-443 | outside escapes no control byte, quote, backslash, angle bracket, ampersand or line separator |
| JsonStrings.EscapeInPieces | serializer/fastld.go:201-219 | escaping in pieces that an ASCII byte separates is escaping the whole |
| Utf8Texts.ValidIsEncoded | serializer/serializer.go:157-168 | the well-formed texts are exactly the encodings of sequences of characters |
| Utf8Texts.ToValidIsValid | serializer/serializer.go:157-168 | what the encoder makes of a text is well formed, and the text itself if that was well formed |
| Utf8Texts.EscapeKeepsUtf8 | serializer/fastld.go:353-443 | an escaped text is well formed exactly when the text is |
| JsonValues.ScalarReadsBack | serializer/fastld.go:252-304 | a written scalar is read back as its value |
| JsonValues.ObjectReadsBack | serializer/fastld.go:168-248 | written members are read back as the object of those members |
| JsonLd.GetLDPlan | serializer/fastld.go:51-92 | the plan of a type: keys, omission, foreign keys and the id field |
| ResourceNames.PluralizeMeans | serializer/serializer.go:268-278 | a stem in no vowel then y gives stem and "ies"; s, x, z, ch and sh take "es"; all others take "s" |
| ResourceNames.PluralIsOne | serializer/serializer.go:268-278 | no word has two plurals |
| ResourceNames.ForeignKeyMeans | serializer/serializer.go:245-253 | a foreign key is a name with _id or Id behind it, but not id itself |
| ResourceNames.RewriteMeans | serializer/serializer.go:238-259 | a text behind a foreign key becomes slash, plural of its relation, slash, text, under the relation's name |
| ResourceNames.OthersAreKept | serializer/serializer.go:238-259 | every other member stays as it is |
| ResourceNames.PlanMeans | serializer/fastld.go:51-92 | the plan of a string field that is a foreign key holds its relation and plural |
| ResourceNames.OtherPlanMeans | serializer/fastld.go:51-92 | no other field is planned as a relation |
| ResourceNames.TagMeans | serializer/serializer.go:36-64 | the key is the tag's name unless that is empty; only options that speak of omitempty omit |
| ResourceNames.KeptMeans | serializer/serializer.go:36-113 | a field is written when it is exported, not tagged away and not an omitted empty value |
| ResourceNames.ItemIriMeans | serializer/serializer.go:216-226 | the path without its last slash, and the id behind it unless it ends with the id |
| ResourceNames.DisplayMeans | serializer/serializer.go:216-226 | a flag or a number is shown in a path as it is written in JSON |
| ResourceNames.ItemSays | serializer/fastld.go:183-248 | an item says its type, where it is, and every kept field, foreign keys as links |
| ResourceNames.IdMeans | serializer/fastld.go:51-92 | the id is that of the last field with the key id, or there is none |
| JsonLd.WriteJSONValue | serializer/fastld.go:252-304 | a scalar's bytes |
| JsonLd.WriteField | serializer/fastld.go:221-246 | one field: skipped, written, rewritten to its relation, or left to the map path |
| JsonLd.WriteLDBody | serializer/fastld.go:185-248 | type, id and fields with commas between; refused exactly when a kept foreign key is empty |
| JsonLdMaps.StructToMap | serializer/serializer.go:69-113 | the map of the kept fields |
| ForeignKeyOrders.RewriteForeignKeys | serializer/serializer.go:238-259 | the loop that changes the map it iterates over ends, with a result that its rounds can have in some order, inserted keys visited or not |
| ForeignKeyOrders.OrderMatters | serializer/serializer.go:238-259 | every order has the same result exactly when no relation name is a foreign key again and keys of one relation agree |
| ForeignKeyOrders.UnsettledDiffers | serializer/serializer.go:238-259 | otherwise there are two orders with two results |
| JsonLdMaps.NoClashEnds | serializer/serializer.go:238-259 | with distinct output keys the result is the rewritten members |
| JsonLdMaps.AddTypeToItem | serializer/serializer.go:204-262 | type, id, and foreign keys rewritten in some order |
| JsonLdMaps.FastSerializeLD | serializer/fastld.go:106-165 | handled exactly when no kept foreign key is empty, and what it writes then |
| JsonLdMaps.WrapWithContext | serializer/serializer.go:174-194 | the context, and the record's members or the records' objects, each rewritten in some order; the one document there is unless output keys clash |
| JsonLdRefinement.ClearMeansNoClash | serializer/serializer.go:238-259 | distinct output keys are enough for the loop's result not to depend on order |
| JsonLdRefinement.ItemsAgree | serializer/fastld.go:183-248 | both paths have the same members for a record exactly when its id is kept |
| JsonLdRefinement.FastBytesUtf8 | serializer/fastld.go:104-165 | a streamed document is UTF-8 exactly when every name and text in it is |
| JsonLdRefinement.FastPathRefinesMapPath | serializer/fastld.go:104-165 | the streamed bytes denote what the encoder makes of the map path's document, for one record or many, exactly when no shown id is dropped and every name and text is UTF-8 |
| JsonLdRefinement.OmittedZeroIdDiffers | serializer/fastld.go:201-224 | an id of zero that may be omitted is shown by one path and not the other |
| JsonLdRefinement.BadByteDiffers | serializer/fastld.go:363-414 | a byte that is not UTF-8 is copied by one path, and its document is no JSON |
| RelationExpansion.CollectIds | serializer/serializer.go:385-402 | the keys of the items, each once, in order of appearance |
| RelationExpansion.FetchRelation | serializer/serializer.go:385-409 | one fetch with the items' keys, each once, or none when there are no keys |
| RelationExpansion.WriteRows | serializer/serializer.go:365-379 | every item with an answered key gets its row and loses its key |
| RelationExpansion.ExpandItems | serializer/serializer.go:336-383 | the items after all relations; each configured relation is fetched in its turn with the keys the items hold then |
| RelationExpansion.FetchedOnce | serializer/serializer.go:336-383 | however many items there are, no relation is fetched more often than it is listed, and no fetch is empty or repeats an id |
| RelationExpansion.IdsAreTheKeys | serializer/serializer.go:385-402 | the ids asked for are exactly the keys present, each once |
| RelationExpansion.BatchIsPerItem | serializer/serializer.go:336-383 | batched expansion is looking up every item alone |
| RelationExpansion.BatchIsAlone | serializer/serializer.go:318-334 | an item expands the same on a page and by itself |
| RelationExpansion.KeyMeans | internal/idkey/idkey.go:16-48 | which values have a key; a text is its own key, a number has the key of its digits, and two numbers never share one |
| RefreshTokens.Service.Issue | auth/refresh/service.go:73-100 | a fresh row, or nothing when the write fails |
| RefreshTokens.Service.Lookup | auth/refresh/service.go:257-299 | the row with the token's hash |
| RefreshTokens.Service.Validate | auth/refresh/service.go:106-124 | unknown, then reuse, then expiry; reuse revokes the user's tokens |
| RefreshTokens.Service.Rotate | auth/refresh/service.go:129-191 | an accepted token is revoked and replaced in one transaction |
| RefreshTokens.Service.Revoke | auth/refresh/service.go:195-211 | revokes the token with that hash if it is live |
| RefreshTokens.Service.RevokeAllForUser | auth/refresh/service.go:214-230 | revokes every live token of a user |
| RefreshTokens.Service.DeleteExpired | auth/refresh/service.go:235-255 | deletes exactly the rows that expired before the cutoff and counts them |
| RefreshTokens.StepKeepsInv | auth/refresh/service.go:73-255 | every call keeps at most one live token per rotation chain, replacements in their chain and spent tokens revoked |
| RefreshTokens.EmptyIsInv | auth/refresh/service.go:56-65 | a new service's table meets it |
| RefreshTokens.RunsKeepInv | auth/refresh/service.go:73-255 | the same over every run |
| RefreshTokens.AcceptedOnce | auth/refresh/service.go:126-191 | a token accepted by Rotate is never accepted again by Rotate or Validate |
| RefreshTokens.ReuseEndsFamily | auth/refresh/service.go:102-124 | presenting a stored revoked token leaves its user without live token |
| RefreshTokens.RevokeMeans | auth/refresh/service.go:195-211 | after Revoke the presented token is granted at no time; rows with another hash or already revoked are as they were, and so is every other token's answer |
| RefreshTokens.RevokeAllMeans | auth/refresh/service.go:214-230 | the same for all tokens of a user; rows of other users and their answers are as they were |
| RefreshTokens.JudgedBy | auth/refresh/service.go:106-124 | a stored token is reuse when revoked, expired behind the whole second of its expiry, and granted otherwise |
| RefreshTokens.UnknownIsInvalid | auth/refresh/service.go:106-124 | a token that is not stored is unknown |
| RefreshTokens.IssueMeans | auth/refresh/service.go:73-100 | an issued token is granted until its lifetime is over; all other rows are as they were |
| RefreshTokens.RotateMeans | auth/refresh/service.go:129-191 | a rotated token is reuse from then on, its successor has the same user and a lifetime of its own; all other rows are as they were |
| RefreshTokens.DeleteExpiredMeans | auth/refresh/service.go:235-255 | exactly the rows that expired before the cutoff are gone, the others as they were |
| RefreshTokens.OtherwiseUnchanged | auth/refresh/service.go:73-255 | a write that fails and an answer that is neither grant nor reuse leave the table as it was |
| RefreshTokens.CleanupKeepsGrants | auth/refresh/service.go:232-255 | deleting with a cutoff changes no grant in any table exactly when the latest expiry it can delete, a whole second, has passed |
| RefreshTokens.EarlyCutoffTakesGrant | auth/refresh/service.go:232-255 | for every other cutoff and time, a token that is deleted although it is still granted |
| Pagination.ScanRows | crud/crud.go:328-366 | the shown rows in order and the number of rows read, or the first failure |
| Pagination.ScanMeans | crud/crud.go:328-366 | the items are the shown values of the rows that may be read, in the rows' order; a failure stops at the first row that cannot be filtered |
| Pagination.ParseIntMeans | pagination/pagination.go:62-78 | digits, with a plus or without, are the number up to the cap; negative numbers, numbers beyond 64 bits and texts that are no number are the default |
| Pagination.CountTotal | crud/crud.go:477-515 | counting exactly, the total is the number of rows exactly when the offset is not beyond the end; from there on a page reports its own offset; an estimate is given for full pages only |
| Pagination.BuildPaginationURL | pagination/pagination.go:80-104 | the link's parameters, for any order of the old ones |
| Pagination.SetNavigation | pagination/pagination.go:38-60 | the next and last links |
| Pagination.LinkAsks | pagination/pagination.go:62-104 | a link is parsed back to the limit and page it was made for, up to the page cap |
| Pagination.LinkKeepsAll | pagination/pagination.go:80-104 | every other parameter that says something is in the link with all its values, and no other is |
| Pagination.GetAll | processor/processor.go:110-182 | a request's page, total and links |
| Pagination.WalkVisitsAll | pagination/pagination.go:38-60 | counting exactly, following next from page 1 visits every page and stops exactly when the caps on pages and offsets are not exceeded |
| Pagination.WalkReadsAll | pagination/pagination.go:38-60 | the visited pages are the whole result, every row once and in order, and each reports the full count |
| Pagination.WalkShows | crud/crud.go:328-366 | the pages' items joined are what their rows show, in order; where all pages are visited that is the whole result |
| Pagination.UncountedWalkVisitsAll | pagination/pagination.go:33-50 | without a count the same holds exactly when, besides, every row of the full pages may be read; an empty last page follows a full one |
| Pagination.EstimatedWalk | pagination/pagination.go:33-60 | with an estimate the walk stops behind the full pages or at the last page the estimate knows of, within the caps, and has read all rows exactly when the estimate makes no fewer pages than there are, or one page is enough |
| Pagination.LowEstimateEndsWalk | pagination/pagination.go:33-60 | two rows, one a page, of which the estimate knows one: the second is never reached |
| Pagination.UnreadableRowEndsWalk | crud/crud.go:347-353 | one unreadable row on a full page, and the rows behind it are never reached |
| Pagination.PageCapLoops | processor/processor.go:112-116 | with more pages than the cap allows, the walk from page 1 reaches the last allowed page and circles there for ever |
| Pagination.OffsetCapRefuses | query/validation.go:126-134 | beyond the offset cap, the walk from page 1 reaches the first page that is not allowed, is refused and ends |
| Pagination.RefusedMeans | query/validation.go:114-134 | a page is refused exactly when limit or offset is beyond its cap, the limit negative, or a row of it cannot be filtered |
| Pagination.LastLinkLeads | pagination/pagination.go:38-60 | counting exactly, the last link asks for the last page, up to the page cap |
| FieldFilter.HasReadPermission | rbac/models.go:58-76 | the search through a read list |
| FieldFilter.AllowedMeans | rbac/models.go:58-76 | with roles, any granting entry allows; without, only a star before every "any" |
| FieldFilter.StarBehindAny | rbac/models.go:58-76 | the order of a read list matters to a caller without roles |
| FieldFilter.CanReadField | rbac/filter.go:141-148 | the field's read list, or the default policy |
| FieldFilter.AllFieldsReadable | rbac/filter.go:124-139 | whether every exported field may be read |
| FieldFilter.FilterReadFields | rbac/filter.go:9-64 | the record itself or the field-by-field copy |
| FieldFilter.FilterSlice | rbac/filter.go:67-120 | every record filtered, with one shortcut for all |
| FieldFilter.FilterRead | rbac/voter.go:121-138 | the filter for the expanded roles, none for a superuser |
| FieldFilter.ShortcutIsCopy | rbac/filter.go:33-64 | the shortcut returns what the copy would exactly when fields that are not exported are zero |
| FieldFilter.SliceIsElementWise | rbac/filter.go:67-120 | for exported fields a slice is filtered copy by copy |
| FieldFilter.FilterReadIsIdempotent | rbac/voter.go:121-138 | filtering again changes nothing |
| FieldFilter.FilterReadIsMonotone | rbac/voter.go:121-138 | adding roles or hierarchy edges never hides a field |
| FieldFilter.FilterReadShows | rbac/voter.go:121-138 | a superuser gets the resource; for others a field shows its value exactly when it is exported and a granting entry of its read list, or without a list the policy, lets it; otherwise it is zero |
| FieldFilter.CanReadMeans | rbac/filter.go:141-148 | a field may be read when its list grants it, or it has no list and the policy is allow |

## Left out

- HTTP handlers, middleware, CLI, logging, YAML loading, drivers, introspection, fixtures and generated resources: input and output or thin wrappers.
- `executeTransactional`, `Force`, `Retry`, `RunOne`, `UpSource`, `DownSource` and running on after an error: they bypass or break the run invariants on purpose.
- `migrations/lock.go`: mutual exclusion rests on sessions and engine locks that cannot be seen here; each migrator operation is one step.
- Migrators.Migrator.ExecuteMigration: failing writes of the tracking table, other than a taken key, and timeouts are not modelled; a commit without its row breaks the agreement of rows and effects.
- Migrators.Migrator.ExecuteDownMigration: a failing deletion of the row after the commit is not modelled, for the same reason.
- Migrators.Migrator.LoadAllMigrations: a source that fails to load is not modelled; reading files is outside.
- Migrators.Migrator.ValidateBatch: the textual verdict on one migration is a flag the migration carries.
- Reading files of migrations and their checksums.
- Interleavings inside Rotate, between its lookup and its transaction: each service call is one step.
- Random tokens, hashing and JWT: fresh values given by the caller; tokens with one hash are one token.
- INSERT, UPDATE and DELETE builders, `ON CONFLICT`, type maps and field caches: they would only add easy members.
- Nested nodes that are invalid, below the top level of a clause: the code prints nothing for them, and so does the model; the precedence results exclude them.
- Precedence of other raw texts: inside nested statements raw fragments, and names that are expressions, must balance quotes and parentheses; a name that is an expression must be one operand, such as COUNT(*). String literals and comments inside them are not told apart by the reader.
- StatementReading.BuiltSelectAsks: texts taken over as they are, raw fragments and names that are expressions, must each be one item without a clause of its own outside parentheses; commas and words inside string literals are not told apart.
- WithReading.BuiltWithAsks: the same.
- ConditionMeaning.InSubqueryLeaf: a subquery that cannot be built prints a comment and 1=0; this reader knows no comments, FailedSubqueries has one that does.
- ConditionMeaning.ExistsLeaf: the same.
- ConditionMeaning.NotExistsLeaf: the same.
- CASE builders of mixed forms or with nil values: they panic.
- The delegating methods of the WITH builder, which set the main SELECT without validation.
- JsonLdMaps.StructToMap: nested structs, pointers and maps are not modelled; times and ids are leaves with a text of their own.
- JsonLd.WriteJSONValue: the kinds that are left to json.Marshal are not modelled.
- JsonLdMaps.FastSerializeLD: pointers (only the streaming path gives a pointed-to record its type), slices of other kinds and custom marshalers are not modelled.
- White space and numbers with fractions in the JSON reader: the serializer never writes them.
- Requested expansion of embedded objects (`serializer/serializer.go:231-243`) and parsing of expand parameters.
- Two items of a page that are one map, in relation expansion.
- Pagination.GetAll: ordering, filtering and hooks of a listing are not modelled, the result is a fixed sequence of rows; percent-encoding of links is left out, a link is its parameters.
- Pagination.ScanRows: errors of the driver while rows are read are not modelled.
- Integer overflow in page arithmetic and clocks: the caps keep the numbers small.
- Hierarchy caches, write permissions and the parsing of annotations.
- FieldFilter.FilterReadFields: pointers to records and other kinds are not modelled, records are values.
- FieldFilter.FilterSlice: slices of pointers and nested slices are not modelled.
- FieldFilter.FilterRead: a nil resource and its error are not modelled.
