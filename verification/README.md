# Verified model of polyspec/orm

This project models the parts of the ORM whose correctness rests on an argument over all inputs or all runs, and proves
those arguments.  `dafny verify dfyconfig.toml` checks all of it.

- **Crash-safe schema migration** (`PlanApply`, `PlanRuns`, `PlanRefusals`, `PlanLimits`, `PlanFinalize`, `PlanSamples`,
  `PlanRenames`, `PlanRestores`, `PlanApplier`).  The operations apply, recover, rollback and finalize write a step's statement and the history row that
  records it separately.  A run is any sequence of operations and row writes, each cut after any number of database writes.
  The schema is abstract: what the model asks of a step is stated once, in `PlanApply.Sound`, and holds of chains that create
  tables, add columns, hide tables and columns, bring them back, rename tables and drop what they hid.
- **Canonical requests** (`Ir`, `IrMeaning`, `Canonical`, `CanonicalLaws`, `CanonicalMeaning`, `CanonicalForm`,
  `CanonicalTree`, `CanonicalRefusals`, `Canonicalizer`, `WherePrecedence`).  A request tree has a meaning for every database, in three-valued logic, with joins,
  subqueries, relations and writes.  Canonicalization is a pair of functions, one that lists a tree's places and one that
  fills them, and the walk over the tree is proved to compute them.  What is kept and what is refused is also stated by
  recursion on the tree alone.
- **Shape keys and the plan cache** (`Shape`, `ShapeUnique`, `PlanCache`).
- **Relation loading and split lists** (`Keys`, `Chunking`, `Relations`, `RelationLoader`, `RootIn`, `RootInSplit`,
  `RootInMerge`, `RootInResult`, `Placeholders`, `NumberedPlaceholders`, `TupleLists`).
- **Transactions** (`Transactions`, `TxWrites`, `TxConn`, `Session`).  Callbacks are trees of writes and nested blocks, and
  every statement of a session may fail, with or without an effect.
- **Codecs and grammars** (`Numerals`, `Php`, `PhpGrammar`, `PhpRoundTrip`, `PhpNormal`, `PhpTwice`, `PhpOverflow`, `PhpSamples`,
  `PhpCodec`, `Decimals`, `Names`, `ChainNames`, `ChainReadBack`, `ChainSpelling`, `ChainParser`, `ChainClashes`).
- **Loops with measures** (`AesRotation`, `SetOrder`, `OutputReplace`).

Text is a sequence of characters that stand for bytes.  Numbers are unbounded, and a 64-bit bound is written out where the
source has one that matters.

## Where the source does not keep a property

Each of these has a lemma with a concrete input, and a lemma that says exactly when the property holds.

- A finalize of a plan that is not the last, cut after its first write, leaves a history that every later operation refuses
  (`PlanSamples.CutFinalizeStrands`; exactly when: `PlanLimits.FinalizeExact`).
- A recover of a finalizing row runs the next statement before it records the step, unlike a recover of an applying row.  Two
  cuts leave the row two steps behind and no operation can continue (`PlanSamples.TwoCutsStrand`; exactly when:
  `PlanLimits.RecoverExact`).
- A finalize step names the table of a hidden column as it was called when the column was hidden.  When a later plan has renamed
  the table, a finalize that nothing interrupts fails there, leaves a plan before the last unsettled, and no operation can
  continue (`PlanRenames.UncutFinalizeStrands`; exactly when: `PlanFinalize.FinalizeEnds`).
- The guard of a split count looks only at predicates, so OR between two groups passes it, and the rows of the second group
  are counted once per part (`RootInMerge.GuardAdmitsOrBetweenGroups`; exactly when: `RootIn.SplitCountExact`).
- The planner writes the where group of a query between the test for live rows and the conditions of joins without
  parentheses (packages/go/engine/planner/planner.go:339), and that of a write in front of the test for live rows.  With an OR
  in the group, a read selects and a write changes soft-deleted rows, which the rule DBS-67 excludes, and a read selects rows
  that fail the condition of a join (`WherePrecedence.OrSelectsDeleted`; exactly when: `WherePrecedence.ConjunctionExact`).
- The record of an audited insert is not in a savepoint, so a callback that swallows the insert's failure commits a record that
  no write follows (`Transactions.CaughtInsertStrandsRecord`; exactly when: `Transactions.CommittedIsSound`).
- The comment at packages/go/orm/tx.go:631-632 says that a connection whose opening statement fails is closed.  The code hands
  it back to the pool first (packages/go/orm/tx.go:671-678), with the isolation level of its next transaction still set
  (`Session.FailedStartLeavesLevel`), or with the transaction open, when BEGIN takes effect and a subscriber to statement events
  then fails (`Session.FailedStartLeavesTransaction`; exactly when, for both: `Session.Connection.RunTransaction`).
- A named lock or a user variable of MySQL whose statement takes effect, and a subscriber to statement events then fails, is not
  remembered, and the connection goes back to the pool with it (`Session.LateLockIsHandedBack`; exactly when:
  `Session.Connection.RunTransaction`).
- The end of a transaction sends COMMIT as a statement and looks only at its error (packages/go/orm/tx.go:753-756).  PostgreSQL
  answers the COMMIT of a transaction that a failed statement has aborted by rolling back, without an error, so a callback that
  catches the failure and returns is told that it committed (`Session.CaughtFailureLosesWork`; exactly when:
  `Session.Connection.RunTransaction`).
- A map key that is a number with a plus sign loses the sign, and a second normalization can turn a map into a list
  (`PhpTwice.PlusNormalizesTwice`; exactly when: `PhpTwice.NormalizingTwice`).
- A length near 2^63 in a serialized string overflows the parser's cursor, and in a serialized array the room for its entries;
  both end in a panic, not in an error (`PhpOverflow.HugeLengthsOverflow`; exactly when: `PhpCodec.ParseAll`).
- A full-text search whose first column starts with the word Boolean reads as a boolean search
  (`ChainClashes.FulltextReadsAsBoolean`; exactly when: `ChainReadBack.KeyReadsBack`, `ChainReadBack.ChainReadsBack`).
- The name rules accept two columns with one PascalCase name, and the name is read as the later column
  (`ChainClashes.TwinColumns`; exactly when: `ChainClashes.SharedExactly`).
- The comment at packages/go/generator/gen_go_sets.go:18-19 says that the refusal names the sets of the cycle.  The code names
  every set that leads to one (`SetOrder.LeadsWithoutCycle`; exactly when: `SetOrder.LeadsExactly`).

## Model

| member | source | states |
|---|---|---|
| `PlanApply.Position` | packages/php-ext/src/apply.c:483-518 | gives m exactly when the rows are those of the first m plans, with their hashes and known states and only the last unsettled; None when no m fits |
| `PlanApply.PositionUnique` | packages/php-ext/src/apply.c:483-518 | a history that is a prefix of the chain has one length, and that is the position |
| `PlanApply.UnsettledRefused` | packages/php-ext/src/apply.c:509-514 | an unsettled row before the last is refused |
| `PlanApply.FinalizeStart` | packages/php-ext/src/apply.c:885-893 | is the index of the first finalize step, or the number of steps |
| `PlanApply.ResolveSound` | packages/php-ext/src/apply.c:643-668 | the restart position read off the catalog is one at which the next statement of that direction may run |
| `PlanApply.ResolveFinalizing` | packages/php-ext/src/apply.c:643-668 | a finalizing row resolves to its step, or to the next one once the step has run |
| `PlanApply.Advance` | packages/php-ext/src/apply.c:732-775 | a statement and then the row that records it: the worlds after each of the two writes keep the invariant |
| `PlanApply.ForwardSafe` | packages/php-ext/src/apply.c:938-951 | a forward run cut after any write keeps the row's bound on the schema and runs no non-repeat step twice |
| `PlanApply.ForwardCompletes` | packages/php-ext/src/apply.c:938-951 | uninterrupted, a forward run ends with the row applied and the schema of the plan's end |
| `PlanApply.FinalizeSafe` | packages/php-ext/src/apply.c:953-963 | finalizing cut after any write keeps the bound |
| `PlanApply.FinalizeCompletes` | packages/php-ext/src/apply.c:953-963 | uninterrupted, finalizing the last plan ends with the row done and all steps run |
| `PlanApply.BackwardSafe` | packages/php-ext/src/apply.c:1060-1094 | undoing steps cut after any write keeps the bound and runs no rollback of a step that has not happened |
| `PlanApply.BackwardNeedsRollbacks` | packages/php-ext/src/apply.c:1060-1094 | a rollback that ends had a rollback for every step below its start |
| `PlanApply.BackwardCompletes` | packages/php-ext/src/apply.c:1060-1094 | uninterrupted, with all rollbacks, the row is deleted and the schema is that of the plan before |
| `PlanApply.ApplySafe` | packages/php-ext/src/apply.c:965-997 | apply, cut after any write, keeps the invariant and leaves at most the last row unsettled |
| `PlanRuns.RecoverSafe` | packages/php-ext/src/apply.c:1015-1038 | recover, cut after any write, keeps the invariant; off a lagging finalizing row it leaves no row more than one step behind |
| `PlanRuns.RollbackSafe` | packages/php-ext/src/apply.c:1040-1094 | rollback, cut after any write, keeps the invariant |
| `PlanRuns.FinalizeOpSafe` | packages/php-ext/src/apply.c:1096-1125 | finalize, cut after any write, keeps every row's bound, and keeps a prefix history when all earlier plans are done |
| `PlanRuns.EveryRunIsSafe` | packages/php-ext/src/apply.c:984-1125 | in every run of the four operations and row writes, each cut anywhere, every row bounds its plan's schema and no non-repeat step runs where it has taken effect |
| `PlanRuns.CarefulRunIsKept` | packages/php-ext/src/apply.c:984-1125 | with finalize only when earlier plans are done, and no cut right after the first statement of a recover on a lagging row, every run keeps a prefix history with only the last row unsettled and at most one step behind |
| `PlanRuns.RecoverCompletes` | packages/php-ext/src/apply.c:1015-1038 | from every kept state one uninterrupted recover ends at applied with the plan's end, or at done with all steps |
| `PlanRuns.RollbackCompletes` | packages/php-ext/src/apply.c:1040-1094 | one uninterrupted rollback ends with the row deleted and the schema before the plan if and only if every step up to the resolved position has a rollback |
| `PlanRuns.ApplyCompletes` | packages/php-ext/src/apply.c:984-997 | one uninterrupted apply of a fresh database records every plan as applied |
| `PlanLimits.FinalizeExact` | packages/php-ext/src/apply.c:1096-1125 | finalize leaves a history that the next operation accepts at every cut if and only if every plan but the last is done |
| `PlanLimits.RecoverExact` | packages/php-ext/src/apply.c:1034-1037 | recover leaves every row at most one step behind at every cut if and only if the row is not a lagging finalizing one |
| `PlanLimits.Stranded` | packages/php-ext/src/apply.c:1015-1125 | on a refused history, or a row two steps behind, every operation fails and changes nothing |
| `PlanLimits.StrandedForever` | packages/php-ext/src/apply.c:1015-1125 | from there no run of operations and row writes changes the history again |
| `PlanFinalize.FinalizeEnds` | packages/php-ext/src/apply.c:1096-1125 | an uninterrupted finalize ends, with every plan done, if and only if every hidden object that it is to drop is where its step looks for it; the history that it leaves is accepted if and only if no plan but the last misses one |
| `PlanFinalize.PlanEnds` | packages/php-ext/src/apply.c:953-963 | finalizing one plan, the last or not, ends if and only if its hidden objects are there |
| `PlanRenames.UncutFinalizeStrands` | packages/php-ext/src/steps.c:980-998 | a plan drops a column and a later one renames the table: a finalize that nothing interrupts fails at the hidden column, and every later operation fails and changes nothing |
| `PlanRenames.IsSound` | packages/php-ext/src/steps.c:980-998 | the hypotheses of the theorems on runs hold of that chain |
| `PlanRefusals.ForeignRowRefused` | packages/php-ext/src/apply.c:483-507 | a row whose hashes are not those of its plan, or whose state is unknown, leaves the history without a position |
| `PlanRefusals.GapRefused` | packages/php-ext/src/apply.c:495-507 | a row of a plan after one without a row leaves the history without a position |
| `PlanRefusals.DriftRefused` | packages/php-ext/src/apply.c:592-622 | on a database whose schema hash is not that of the last plan, apply and finalize, and a rollback of a settled plan, fail and change nothing |
| `PlanRefusals.InterruptedRefused` | packages/php-ext/src/apply.c:592-622 | while the last plan is interrupted, apply and finalize fail and change nothing |
| `PlanRefusals.NothingToRecover` | packages/php-ext/src/apply.c:1015-1030 | without an interrupted plan recover ends and changes nothing |
| `PlanRefusals.NothingToDo` | packages/php-ext/src/apply.c:984-1058 | rollback of an empty history and apply of a complete one end and change nothing |
| `PlanRefusals.IrreversibleRefused` | packages/php-ext/src/apply.c:1064-1075 | a step without a rollback at the top stops a rollback before it writes |
| `PlanRefusals.ForwardVerifies` | packages/php-ext/src/apply.c:938-951 | whatever the steps mean, a plan becomes applied only on the schema that it declares and with no row that breaks a foreign key |
| `PlanRefusals.BackwardVerifies` | packages/php-ext/src/apply.c:1076-1094 | whatever the steps mean, a row is deleted only on the schema before its plan |
| `PlanRefusals.ApplyVerifies` | packages/php-ext/src/apply.c:965-997 | every apply that ends leaves the schema of the last plan |
| `PlanRefusals.RollbackVerifies` | packages/php-ext/src/apply.c:1040-1094 | every rollback that ends leaves the schema before the last plan, without its row |
| `PlanRestores.AttemptRuns` | packages/php-ext/src/apply.c:918-935 | which of its four texts a step runs, from its fields: the restore form of the direction exactly when there is one and the condition for it holds, an error when a restore form has no condition or the step no rollback |
| `PlanRestores.IsSound` | packages/php-ext/src/steps.c:900-915 | the hypotheses of the theorems on runs hold of a chain that creates a table and adds a column with a restore form |
| `PlanRestores.ApplyRuns` | packages/php-ext/src/apply.c:938-951 | the first apply of that chain adds the column; a later one, with the column hidden, renames it back |
| `PlanRestores.RollbackRuns` | packages/php-ext/src/apply.c:1076-1094 | its rollback hides the column |
| `PlanRestores.ColumnComesBack` | packages/php-ext/src/steps.c:900-915 | applied, rolled back and applied again, the column is back with the data that it had |
| `PlanSamples.CutFinalizeStrands` | packages/php-ext/src/apply.c:1102-1114 | a chain of two applied plans whose finalize is cut after its first write is stranded |
| `PlanSamples.TwoCutsStrand` | packages/php-ext/src/apply.c:1034-1036 | a finalize and a recover, each cut after one statement that drops a hidden table, strand a chain |
| `PlanSamples.SampleSound` | packages/php-ext/src/steps.c:980-998 | the hypotheses on steps hold of chains with any number of plans that hide tables, where the effect of a finalize step is that the hidden table is absent |
| `PlanSamples.SampleReads` | packages/php-ext/src/apply.c:369-399 | such an effect, which also reads true before the table was hidden, tells from the end of apply on whether its step has run |
| `PlanSamples.SampleDrops` | packages/php-ext/src/steps.c:980-998 | the hypothesis on finalize holds of these chains |
| `PlanApplier.Applier.Position` | packages/php-ext/src/apply.c:483-518 | returns the position that the specification gives, by the scan over plans and rows |
| `PlanApplier.Applier.Settled` | packages/php-ext/src/apply.c:592-622 | refuses an unsettled last row and a schema hash that differs |
| `PlanApplier.Applier.Record` | packages/php-ext/src/apply.c:732-764 | writes the row, or inserts it |
| `PlanApplier.Applier.RunAndSetStep` | packages/php-ext/src/apply.c:766-841 | runs one statement and records the next step, each a write of its own |
| `PlanApplier.Applier.FinalizeStart` | packages/php-ext/src/apply.c:885-893 | finds the first finalize step |
| `PlanApplier.Applier.Forward` | packages/php-ext/src/apply.c:938-951 | leaves the world that the forward run of the specification leaves at the same cut |
| `PlanApplier.Applier.FinalizeFrom` | packages/php-ext/src/apply.c:953-963 | leaves the world that finalizing leaves at the same cut |
| `PlanApplier.Applier.Backward` | packages/php-ext/src/apply.c:1060-1094 | leaves the world that undoing leaves at the same cut |
| `PlanApplier.Applier.Apply` | packages/php-ext/src/apply.c:965-997 | leaves the world of apply at the same cut |
| `PlanApplier.Applier.Recover` | packages/php-ext/src/apply.c:1015-1038 | leaves the world of recover at the same cut |
| `PlanApplier.Applier.Rollback` | packages/php-ext/src/apply.c:1040-1094 | leaves the world of rollback at the same cut |
| `PlanApplier.Applier.Finalize` | packages/php-ext/src/apply.c:1096-1125 | leaves the world of finalize at the same cut |
| `CanonicalLaws.RequestLaw` | packages/go/orm/canonical.go:24-56 | putting references into a request's places and listing its places again gives those references; putting twice is putting once |
| `CanonicalMeaning.RequestMean` | packages/go/orm/canonical.go:24-351 | requests whose places hold the same values, an IN list up to repeated values, mean the same for every database |
| `CanonicalForm.CanonicalKeepsMeaning` | packages/go/orm/canonical.go:24-351 | a request that is not refused means the same with its canonical tree and parameters as before, on every database: nested groups, placed and unplaced conditions of joins, live rows, subqueries, relations, the rows that a write changes, and its assignments |
| `CanonicalForm.CanonicalIsFixed` | packages/go/orm/canonical.go:24-56 | canonicalizing a canonical request changes neither the tree nor the parameters |
| `CanonicalForm.CanonicalByShape` | packages/go/orm/canonical.go:44-55 | two requests get one canonical tree if and only if they are equal up to indexes and list lengths within a bucket and have equally many unreferenced parameters |
| `CanonicalForm.CanonicalKeepsParams` | packages/go/orm/canonical.go:44-50 | every parameter of the request is one of the canonical request, whether the tree refers to it or not |
| `CanonicalTree.CanonicalKeepsShape` | packages/go/orm/canonical.go:24-351 | the canonical request agrees with the request, node by node, in every field but parameter references, the length of value lists, the numbers of the root limit and the count of parameters |
| `CanonicalTree.QueryShape` | packages/go/orm/canonical.go:261-351 | the same of a query, with its options, its groups, joins, relations, order and columns |
| `CanonicalRefusals.RefusedExactly` | packages/go/orm/canonical.go:65-113 | a request is refused if and only if a reference anywhere in its tree names no parameter, or the page of the root or of a nested query is out of range, read off the tree |
| `IrMeaning.InListBySet` | packages/go/orm/canonical.go:11-23 | repeating values of a list changes no membership, in three-valued logic |
| `WherePrecedence.ConjunctionExact` | packages/go/engine/planner/planner.go:845-883 | a where group written without parentheses means, for all truths of its items, a conjunction with the terms around it if and only if there are no such terms or no OR connects its items |
| `WherePrecedence.RelatedIsMeant` | packages/go/engine/planner/planner.go:322-350 | the query of a relation, whose group has parentheses, selects exactly the live rows that meet the group and the conditions of all unplaced joins |
| `WherePrecedence.MeantIsSelected` | packages/go/engine/planner/planner.go:322-350 | every other query selects at least those rows |
| `WherePrecedence.AllAndIsMeant` | packages/go/engine/planner/planner.go:322-350 | and no others, on any database, when no OR connects the items of its group |
| `WherePrecedence.WriteIsMeant` | packages/go/engine/planner/planner.go:1470-1481 | an update or delete changes every live row of the expected revision that meets its group, and no other row when no OR connects the items |
| `WherePrecedence.OrSelectsDeleted` | packages/go/engine/planner/planner.go:336-348 | with a OR b as the group, a read selects and a write changes a soft-deleted row |
| `Canonicalizer.Walker.Index` | packages/go/orm/canonical.go:65-77 | appends one value and marks its parameter, or keeps the first error; the result is the filled node and the state is that of the walk |
| `Canonicalizer.Walker.PageValue` | packages/go/orm/canonical.go:79-87 | appends a number of a page, with the safe-integer error; the result is the filled node and the state is that of the walk |
| `Canonicalizer.Walker.PageIndex` | packages/go/orm/canonical.go:89-113 | reads a page parameter with its three errors in order; the result is the filled node and the state is that of the walk |
| `Canonicalizer.Walker.Ptr` | packages/go/orm/canonical.go:143-149 | an optional reference; the result is the filled node and the state is that of the walk |
| `Canonicalizer.Walker.Ints` | packages/go/orm/canonical.go:151-160 | one place per reference; the result is the filled node and the state is that of the walk |
| `Canonicalizer.Walker.List` | packages/go/orm/canonical.go:163-177 | one place per slot of the power-of-two bucket, the last value repeated; the result is the filled node and the state is that of the walk |
| `Canonicalizer.Walker.Fn` | packages/go/orm/canonical.go:179-186 | the references of a function; the result is the filled node and the state is that of the walk |
| `Canonicalizer.Walker.WalkSub` | packages/go/orm/canonical.go:188-195 | the places of a subquery; the result is the filled node and the state is that of the walk |
| `Canonicalizer.Walker.WalkGroup` | packages/go/orm/canonical.go:220-237 | the places of a group and of its nested groups; the result is the filled node and the state is that of the walk |
| `Canonicalizer.Walker.WalkPred` | packages/go/orm/canonical.go:239-259 | the places of a predicate, its list padded only for IN and NOT IN of values; the result is the filled node and the state is that of the walk |
| `Canonicalizer.Walker.WalkColumns` | packages/go/orm/canonical.go:263-282 | the places of column functions and subqueries in key order; the result is the filled node and the state is that of the walk |
| `Canonicalizer.Walker.WalkLimit` | packages/go/orm/canonical.go:316-344 | the places of a limit, numbers becoming parameters on the root only; the result is the filled node and the state is that of the walk |
| `Canonicalizer.Walker.WalkQuery` | packages/go/orm/canonical.go:261-351 | the places of a query in walk order; the result is the filled node and the state is that of the walk |
| `Canonicalizer.Walker.WalkAssigns` | packages/go/orm/canonical.go:205-218 | the places of assignments; the result is the filled node and the state is that of the walk |
| `Canonicalizer.Walker.WalkRequest` | packages/go/orm/canonical.go:24-40 | the places of the whole request; the result is the filled node and the state is that of the walk |
| `Canonicalizer.Walker.Keep` | packages/go/orm/canonical.go:44-50 | the values of parameters that no place names, after the places; the result is the filled node and the state is that of the walk |
| `Canonicalizer.WalkFault` | packages/go/orm/canonical.go:67-77 | the walk keeps the first error |
| `Canonicalizer.WalkAppends` | packages/go/orm/canonical.go:67-77 | without an error the walk appends one value per place |
| `Canonicalizer.WalkMarks` | packages/go/orm/canonical.go:67-77 | without an error the walk marks exactly the parameters that places name |
| `Canonicalizer.Call.Canonicalize` | packages/go/orm/canonical.go:24-56 | leaves the canonical request, or reports the first error and leaves the request as it was; refuses exactly the requests with a missing parameter or a page out of range, and keeps every field that holds no reference |
| `ShapeUnique.StreamDeterminesRequest` | packages/go/orm/shape.go:36-281 | two requests feed the hash the same bytes if and only if they are equal; the digest of map entries is taken to be injective |
| `ShapeUnique.QueryUnique` | packages/go/orm/shape.go:144-217 | a query can be read off the front of a byte stream: equal streams have equal queries and equal rests |
| `ShapeUnique.GroupUnique` | packages/go/orm/shape.go:228-269 | the same of a group with its nested groups |
| `ShapeUnique.WordUnique` | packages/go/orm/shape.go:41-47 | eight little-endian bytes determine a 64-bit number |
| `ShapeUnique.SameEntries` | packages/go/orm/shape.go:87-98 | map entries digested in any order are the same entries in key order |
| `PlanCache.Hasher.FeedLow` | packages/go/orm/shape.go:41-47 | feeds the stream's bytes of the eight low bytes, whatever follows |
| `PlanCache.Hasher.FeedStr` | packages/go/orm/shape.go:57-62 | feeds the stream's bytes of a length and its bytes, whatever follows |
| `PlanCache.Hasher.FeedFn` | packages/go/orm/shape.go:100-108 | feeds the stream's bytes of a function, whatever follows |
| `PlanCache.Hasher.FeedSub` | packages/go/orm/shape.go:110-119 | feeds the stream's bytes of a subquery, whatever follows |
| `PlanCache.Hasher.FeedDigest` | packages/go/orm/shape.go:87-98 | feeds the stream's bytes of the digest of map entries, whatever follows |
| `PlanCache.Hasher.FeedColumns` | packages/go/orm/shape.go:146-155 | feeds the stream's bytes of columns with their two maps, whatever follows |
| `PlanCache.Hasher.FeedGroup` | packages/go/orm/shape.go:228-269 | feeds the stream's bytes of a group, whatever follows |
| `PlanCache.Hasher.FeedPred` | packages/go/orm/shape.go:242-258 | feeds the stream's bytes of a predicate, whatever follows |
| `PlanCache.Hasher.FeedRelation` | packages/go/orm/shape.go:171-186 | feeds the stream's bytes of a relation, whatever follows |
| `PlanCache.Hasher.FeedQuery` | packages/go/orm/shape.go:144-217 | feeds the stream's bytes of a query, whatever follows |
| `PlanCache.Hasher.FeedAssigns` | packages/go/orm/shape.go:271-281 | feeds the stream's bytes of assignments, whatever follows |
| `PlanCache.Hasher.FeedRequest` | packages/go/orm/shape.go:121-142 | feeds the stream's bytes of a request, whatever follows |
| `PlanCache.ShapeKey` | packages/go/orm/shape.go:19-23 | the key is the hash of the request's byte stream |
| `PlanCache.KeyDeterminesRequest` | packages/go/orm/exec.go:101-107 | where the hash separates the streams of the process, a key belongs to one request |
| `PlanCache.SampleUniverse` | packages/go/orm/exec.go:101-107 | the hypotheses on a process and its hash can be met by requests that differ in a map of column functions |
| `PlanCache.Cache.Store` | packages/go/orm/exec.go:113-124 | keeps the order a list of every cached key once, within the size, evicting the oldest, and lets an earlier plan of another flow win |
| `PlanCache.Cache.Plan` | packages/go/orm/exec.go:78-125 | returns the plan compiled from this very request, on a hit as on a miss, whatever other flows store between the two locked sections, and leaves it in the cache |
| `Keys.KeyOfUnique` | packages/go/orm/collection.go:26-96 | two values have one key exactly when they are equal or are the two zeros |
| `Keys.KeysAreExact` | packages/go/orm/collection.go:143-167 | keys of component lists are equal exactly when the lists are, component by component |
| `Keys.PartUnique` | packages/go/orm/collection.go:150-166 | a component can be read off the front of a composite key |
| `Keys.KeyFromValues` | packages/go/orm/collection.go:143-167 | builds the key of the specification, or fails on a value without a key |
| `Keys.KeyOfRowExactly` | packages/go/orm/collection.go:100-116 | a row has no key if and only if a component is null and no index up to it is outside the row; it is an error if and only if there are no components, an index is outside the row with no null component before it, or no component is null and one has no key; otherwise it has a key |
| `Keys.ScanExactly` | packages/go/orm/collection.go:104-113 | the first missing cell decides before any value is converted |
| `Keys.NotFiniteBits` | packages/go/orm/collection.go:72-88 | a float has a key if and only if not all bits of its exponent are set, whatever its sign and fraction |
| `Keys.KeyFromRow` | packages/go/orm/collection.go:100-116 | builds the key, and tells no key from an error: none exactly when a component is null, a key exactly when every component has one |
| `Relations.TuplesCover` | packages/go/orm/exec.go:730-756 | the collected tuples have different keys and cover every parent that has one |
| `Relations.TuplesExactly` | packages/go/orm/exec.go:730-756 | the tuples are collected if and only if every parent is outside the gate, has a null component or has a key |
| `Relations.RowsOfTuple` | packages/go/orm/exec.go:613-660 | the rows with the key of a tuple are those that a statement with that tuple alone returns, so that loading in chunks refines one statement for each parent |
| `Relations.LoadedRow` | packages/go/orm/exec.go:613-660 | a row is loaded if and only if it is in the table and one of the tuples finds it |
| `Relations.SelectPadded` | packages/go/orm/exec.go:758-770 | padding a chunk does not change its rows |
| `Relations.LoadedExact` | packages/go/orm/exec.go:613-660 | the rows loaded for a key are the table's rows with that key, in order and once each, if and only if the database finds none of them with the tuples of another chunk |
| `Relations.LoadingRefinesNestedLoop` | packages/go/orm/exec.go:613-660 | when the database compares keys as the client does, every parent gets exactly the child rows with its key |
| `Relations.BinaryIsFaithful` | packages/go/engine/dbspec/render.go:258-290 | under the one binary collation that the schema rules give every character column, the database compares keys as the client does |
| `RelationLoader.ParentValues` | packages/go/orm/exec.go:730-756 | returns the values of the collected tuples, or fails on the first parent without a key |
| `RelationLoader.RelationChunks` | packages/go/orm/exec.go:662-689 | splits the values into chunks of the largest power of two of tuples that stays within the bind limit, with both errors exactly when the source has them |
| `RelationLoader.PaddedWithinLimit` | packages/go/orm/exec.go:662-689 | every padded chunk stays within the driver's bind limit |
| `RelationLoader.PadValues` | packages/go/orm/exec.go:758-770 | pads the values to a power of two of tuples by repeating the last |
| `RelationLoader.PositionsAreRows` | packages/go/orm/exec.go:643-652 | the rows at the indexed positions of a key are the rows with that key |
| `RelationLoader.StepRows.Index` | packages/go/orm/exec.go:643-652 | indexes the positions of every key, and fails exactly when a row has neither a key nor a null component |
| `RelationLoader.StepRows.Related` | packages/go/orm/exec.go:462-490 | returns the rows with the parent's key; none, and no error, for a parent with a null component or outside the gate |
| `RelationLoader.StepRows.Load` | packages/go/orm/exec.go:613-660 | succeeds whenever every parent is outside the gate, has a null component or has a key, every table row has a null component or a key, and one tuple fits; on success every parent's key indexes exactly the table's rows with that key; both errors occur exactly when the source has them |
| `RelationLoader.LoadedRead` | packages/go/orm/exec.go:643-652 | indexing fails if and only if the tuples find a row whose key cannot be read |
| `RootIn.SplitCount` | packages/go/orm/root_in.go:66-131 | the counts of the parts add up to the count of the query plus, for every further part, the rows that the query selects with an empty list |
| `RootIn.SplitCountExact` | packages/go/orm/exec.go:1128-1155 | the summed count is the count of the query if and only if there is one part or no row is selected with an empty list |
| `RootIn.AllAndHasNoAlternative` | packages/go/orm/root_in.go:81-88 | with AND between all root items an empty list selects no row |
| `RootIn.SplitSelects` | packages/go/orm/exec.go:568-598 | the parts together select exactly the rows of the query, whatever joins the root items |
| `RootInSplit.RootInTarget` | packages/go/orm/root_in.go:51-64 | finds the first of the longest lists of values |
| `RootInSplit.Distinct` | packages/go/orm/root_in.go:102-113 | keeps one place for each key |
| `RootInSplit.PadIndexes` | packages/go/orm/root_in.go:133-144 | pads to a power of two |
| `RootInSplit.PartsPartition` | packages/go/orm/root_in.go:98-130 | the parts' values partition the list's distinct values |
| `RootInSplit.RootInParts` | packages/go/orm/root_in.go:66-131 | splits exactly when the list is too long, the guard admits the query and one value fits; every part stays within the bind limit, and a part of twice its size would not fit |
| `RootInMerge.MergeRows` | packages/go/orm/exec.go:573-595 | keeps the first row of each key, over all parts |
| `RootInMerge.MergedAppend` | packages/go/orm/exec.go:573-595 | one more row comes last, unless a row before it has its key |
| `RootInResult.SplitReadsTheSameResult` | packages/go/orm/root_in.go:66-131 | for a query that the guard admits, the results of the parts with their columns, merged, are the result of the query, each row once; it needs the tests for a limit, an order and a grouping |
| `RootInMerge.GuardLeavesGroups` | packages/go/orm/root_in.go:81-88 | what the guard admits has AND between all root items if and only if no OR stands between two items that are no predicates |
| `RootInMerge.SplitReadsTheSameRows` | packages/go/orm/exec.go:568-598 | the merged rows are the rows of the unsplit query, once each |
| `RootInMerge.SplitCountsTheSameRows` | packages/go/orm/exec.go:1128-1155 | with AND between all root items the added counts are the count of the query |
| `RootInMerge.AddCounts` | packages/go/orm/exec.go:1139-1154 | adds the counts, and fails exactly when the sum does not fit in 64 bits |
| `RootInMerge.GuardAdmitsOrBetweenGroups` | packages/go/orm/root_in.go:81-88 | on SQLite a query with OR between two groups passes the guard for every list beyond the bind limit, is split into at least two parts, and counts a row once per part |
| `Chunking.BucketWithin` | packages/go/orm/root_in.go:133-144 | the padded length is the smallest power of two that is not below the length, so a list that fits in a chunk still fits once it is padded |
| `Chunking.ChunksOf` | packages/go/orm/root_in.go:122-129 | chunks join to the list, all but the last have the size, and the last is not empty |
| `Chunking.LargestPower` | packages/go/orm/root_in.go:98-101 | the largest power of two that is not above the bound |
| `Placeholders.BindArgs` | packages/go/orm/exec.go:169-261 | one argument per slot, all the parents' values for the parent slot |
| `Placeholders.ArgsAt` | packages/go/orm/exec.go:169-261 | where the arguments of every slot lie once the parent slot is expanded |
| `Placeholders.ExpandPositional` | packages/go/orm/exec.go:821-834 | replaces the parent's question mark by a list |
| `Placeholders.PositionalAligned` | packages/go/orm/exec.go:821-834 | bound to its arguments, the expanded statement reads what the statement reads, with the padded values in the parent's place |
| `NumberedPlaceholders.ExpandNumbered` | packages/go/orm/exec.go:784-820 | renumbers the placeholders after the parent's, and fails exactly when a number does not fit |
| `NumberedPlaceholders.LexPrint` | packages/go/orm/exec.go:791-818 | a statement that is written out reads back as its tokens |
| `NumberedPlaceholders.NumberedAligned` | packages/go/orm/exec.go:784-820 | the rewritten text, read again and bound to its arguments, reads what the statement reads |
| `NumberedPlaceholders.ExpandIn` | packages/go/orm/exec.go:758-835 | in either form the result, bound to its arguments, reads what the statement reads |
| `TupleLists.ListIsTuples` | packages/go/orm/exec.go:772-783 | the bound list is the tuples in order, each with all its values between commas, and tuples of several values with a closing and an opening parenthesis between them |
| `TupleLists.ChunkListIsTuples` | packages/go/orm/exec.go:758-783 | the list of a chunk is its padded tuples |
| `Transactions.WriteAgrees` | packages/go/orm/exec.go:1278-1292 | after a write the log has one record at most, with the key of the write that inserted it, and the record is followed by that write if and only if it succeeded |
| `Transactions.CommittedHasOneRecord` | packages/go/orm/tx.go:804-908 | whatever the callbacks do, at most one record is committed and every audited write that survives carries its key |
| `Transactions.CommittedIsSound` | packages/go/orm/tx.go:804-908 | for every tree of callbacks the committed record is followed by the write that inserted it if and only if the run, followed without the database, does not end with the record of a failed insert |
| `Transactions.StrandingIsCaught` | packages/go/orm/tx.go:804-908 | such a failed insert is an audited insert of the tree whose failure a callback catches |
| `Transactions.CaughtInsertStrandsRecord` | packages/go/orm/tx.go:885-890 | a swallowed failed insert commits a record that no write follows, also when an update carries its key later |
| `Transactions.LaterCaughtInsertIsSound` | packages/go/orm/tx.go:874-890 | once a record is there, the same swallowed failure strands none |
| `Transactions.OpsExtend` | packages/go/orm/tx.go:804-858 | a callback only adds to what is written |
| `TxWrites.AllWorkExactly` | packages/go/orm/tx.go:527-568 | a callback ends without an error if and only if each of its operations works or is caught, where a write works when its statement does and an audited one has or inserts a record, and a block works when it does not fail by itself and its body works |
| `TxWrites.WriteShows` | packages/go/orm/exec.go:1278-1310 | a write that succeeds and inserts or changes a row adds exactly one effect, with its kind, table, key and a record exactly when it is audited; any other write adds none |
| `TxWrites.CommittedShowsWrites` | packages/go/orm/tx.go:804-908 | over every tree of callbacks, a transaction commits beside the audit record exactly one effect, in order, for each write that succeeds, inserts or changes a row and lies in no failed block |
| `TxWrites.RunKeys` | packages/go/orm/tx.go:950-961 | the generated keys are those of the surviving inserts that report a generated positive key of a named entity |
| `TxConn.Connection.RecordInserted` | packages/go/orm/tx.go:950-961 | adds a generated key of a named entity |
| `TxConn.Connection.AuditFor` | packages/go/orm/tx.go:874-908 | inserts the record before the first audited write, in a savepoint of its own for an update or delete |
| `TxConn.Connection.Settle` | packages/go/orm/tx.go:901-907 | keeps the record exactly when the write changed a row |
| `TxConn.Connection.Savepoint` | packages/go/orm/tx.go:804-858 | a nested block that fails leaves the database, the inserted keys and the audit key as they were |
| `TxConn.Connection.RunWrite` | packages/go/orm/exec.go:1278-1292 | succeeds exactly when its statement does and an audited write has or inserts a record; adds exactly its own effect when it inserts or changes a row; the audit key and the inserted keys stay functions of what is in the database |
| `TxConn.Connection.RunOps` | packages/go/orm/tx.go:804-858 | for every callback tree the database holds, in order, the effects of the surviving writes, `inserted` is exactly the set of their generated keys, the audit key is set exactly when a record survives, and the callback ends without an error exactly when its operations work or are caught |
| `Session.Connection.Lock` | packages/go/orm/utils.go:163-190 | a lock on the server is one the client knows, or one whose statement took effect and was reported as failed |
| `Session.Connection.SetLocal` | packages/go/orm/utils.go:213-238 | a variable on the server is one the client knows, or one whose statement took effect and was reported as failed |
| `Session.Connection.ReleaseLocks` | packages/go/orm/utils.go:192-211 | without an error exactly the locks that the client does not know of are left |
| `Session.Connection.ClearLocals` | packages/go/orm/utils.go:240-258 | without an error exactly the variables are left that the client does not know of and whose names it does not reset |
| `Session.Connection.BeginSqliteMode` | packages/go/orm/tx.go:963-978 | a partly applied mode is known to the client |
| `Session.Connection.FinishSqliteMode` | packages/go/orm/tx.go:980-1000 | without an error no mode is left |
| `Session.Connection.Rollback` | packages/go/orm/tx.go:697-732 | ends with the work undone, discarded, or handed back with nothing but what the client does not know of, whichever statements fail; handed back when all its statements succeed and discarded after a cancellation, except on SQLite |
| `Session.Connection.RollBackOpen` | packages/go/orm/tx.go:719-732 | the same on a session whose statements still run |
| `Session.Connection.CommitNative` | packages/go/orm/tx.go:753-756 | keeps the work when it takes effect and the server has not given the work up, and fails on a transaction that SQLite has ended |
| `Session.Connection.Commit` | packages/go/orm/tx.go:767-802 | ends as a rollback does, but with the work kept or undone, and succeeds when all its statements do; success means that the work is kept unless the server had given it up |
| `Session.Connection.Begin` | packages/go/orm/tx.go:597-695 | once begun, a failure ends discarded or clean; before that the connection is handed back with what its statements left |
| `Session.Connection.RunTransaction` | packages/go/orm/tx.go:527-568 | success and kept work need a callback that succeeds, no cancellation and a COMMIT that takes effect; a successful transaction keeps its work if and only if PostgreSQL has not given it up; it succeeds when the callback and all statements do; for any locks, values, cancellations and failing statements: once begun, discarded, or handed back with no transaction and no mode and with exactly the locks and variables whose statements took effect and were reported as failed, so clean if and only if there are none; if it had not begun, handed back with an open transaction if and only if its opening statement took effect |
| `Session.LateLockIsHandedBack` | packages/go/orm/utils.go:173-181 | a lock, or a variable, whose statement takes effect and is reported as failed stays on the connection that a committed transaction hands back |
| `Session.FailedStartLeavesLevel` | packages/go/orm/tx.go:666-679 | a failed start hands back a MySQL connection with the isolation level of its next transaction set |
| `Session.FailedStartLeavesTransaction` | packages/go/orm/tx.go:666-679 | a BEGIN that takes effect and is reported as failed hands the connection back with its transaction open |
| `Session.CaughtFailureLosesWork` | packages/go/orm/tx.go:753-756 | a callback that catches a failed statement on PostgreSQL and returns is told that it committed, and its work is undone |
| `PhpRoundTrip.RoundTrip` | packages/go/orm/codec.go:532-595 | every value reads back, consuming all of the text |
| `PhpRoundTrip.ReadBack` | packages/go/orm/codec.go:631-795 | a written value reads back and leaves what follows it |
| `PhpGrammar.ReadsExactlyTrees` | packages/go/orm/codec.go:631-795 | a text is read if and only if it is the text of a proper tree, in which numbers are 64-bit decimals, lengths are true and keys are numbers or strings, and then as the value of that tree |
| `PhpGrammar.TreeIsRead` | packages/go/orm/codec.go:687-795 | the text of a proper tree is read as the value of the tree, and what follows it is left |
| `PhpGrammar.ReadHasTree` | packages/go/orm/codec.go:687-795 | a text that is read starts with the text of a proper tree of that value |
| `PhpSamples.ScalarTexts` | packages/go/orm/codec.go:532-550 | the texts of null, booleans, a number and a string |
| `PhpSamples.ListText` | packages/go/orm/codec.go:551-562 | the text of a list |
| `PhpSamples.NamedText` | packages/go/orm/codec.go:563-578 | the text of a map with a named key |
| `PhpSamples.NumberedText` | packages/go/orm/codec.go:563-595 | the text of a map whose key has the form of a number |
| `PhpSamples.ObjectsAreRefused` | packages/go/orm/codec.go:791-793 | objects and references are refused as unsupported, whatever follows |
| `PhpNormal.BackIsNorm` | packages/go/orm/codec.go:585-595 | what is read back is the normal form if and only if no key is a number with a plus sign |
| `PhpNormal.NormIsReadBack` | packages/go/orm/codec.go:235-244 | without such keys a value and its normal form both read back as the normal form |
| `PhpTwice.NormalizingTwice` | packages/go/orm/codec.go:235-244 | normalizing twice gives what normalizing once gives if and only if no map that the first pass keeps has as its keys the first one-digit numbers without being written in their order |
| `PhpTwice.KeptEntries` | packages/go/orm/codec.go:780-790 | the entries behind the first pass are those whose key, read as a number, no later entry has |
| `PhpTwice.KeptCounts` | packages/go/orm/codec.go:586-597 | what the first pass leaves is a list for the second if and only if its keys are the numbers 0 to n - 1 with n at most ten |
| `PhpTwice.BackIsWellFormed` | packages/go/orm/codec.go:631-795 | what the first pass leaves can be written again |
| `PhpTwice.PlusNormalizesTwice` | packages/go/orm/codec.go:585-595 | with such a key the second normalization differs from the first |
| `PhpNormal.CanonKeeps` | packages/go/orm/codec.go:585-595 | a key that is read as a number and has no plus sign is that number's text |
| `PhpCodec.Serialize` | packages/go/orm/codec.go:532-583 | writes the text of the specification |
| `PhpCodec.Parser.ExpectChar` | packages/go/orm/codec.go:652-658 | moves the cursor over one character |
| `PhpCodec.Parser.UntilChar` | packages/go/orm/codec.go:677-685 | moves the cursor over the text before a character |
| `PhpCodec.Parser.ReadLength` | packages/go/orm/codec.go:660-675 | moves the cursor over a length that fits in 64 bits |
| `PhpCodec.Parser.ReadStr` | packages/go/orm/codec.go:727-743 | moves the cursor over a string, and panics if and only if the 64-bit sum of the cursor and the length overflows |
| `PhpCodec.Parser.ReadArray` | packages/go/orm/codec.go:744-790 | moves the cursor over an array, as a list or a map, and panics if and only if one of its headers cannot be handled |
| `PhpCodec.Parser.Read` | packages/go/orm/codec.go:687-795 | moves the cursor over a value, with the error of the specification, and panics if and only if one of the headers that it meets cannot be handled |
| `PhpCodec.ParseAll` | packages/go/orm/codec.go:631-641 | ends in a panic if and only if parsing meets a string whose end is beyond 64 bits or an array that there is no room for; otherwise gives the value or the error of the specification, trailing text included |
| `PhpOverflow.StringHeader` | packages/go/orm/codec.go:735-738 | a string header panics if and only if its length does not fit behind it in 64 bits |
| `PhpOverflow.ArrayHeader` | packages/go/orm/codec.go:752-753 | an array header panics if and only if the machine has no room for its entries |
| `PhpOverflow.HugeLengthsOverflow` | packages/go/orm/codec.go:727-753 | the lengths 2^63 - 1 of a string and of an array panic |
| `PhpOverflow.ValuesFit` | packages/go/orm/codec.go:687-795 | the text of a value never panics, on a machine with room for as many entries as the text has characters |
| `PhpOverflow.WrittenFits` | packages/go/orm/codec.go:532-595 | no written value panics when it is read |
| `Names.Pascal` | packages/go/generator/shared.go:9-25 | the PascalCase name |
| `Names.SplitWords` | packages/go/generator/gen_go_names.go:67-81 | the words of a name |
| `Names.WordsJoin` | packages/go/generator/gen_go_names.go:67-81 | the words of joined words are those words |
| `Names.ColumnWordsPlain` | packages/go/generator/gen_go_names.go:46-65 | a column that passes the name rules has words that are no words of the grammar |
| `ChainParser.CheckFieldName` | packages/go/generator/gen_go_names.go:46-65 | accepts exactly the names without a double underscore, a reserved segment, name or prefix |
| `ChainParser.SplitColumns` | packages/go/generator/gen_go_names.go:282-297 | the columns joined by With, or none |
| `ChainParser.ReadKey` | packages/go/generator/gen_go_names.go:172-248 | the one meaning of the words, or none |
| `ChainParser.ReadChain` | packages/go/generator/gen_go_names.go:139-170 | the keys and connectors of a chain |
| `ChainParser.ReadOrder` | packages/go/generator/gen_go_names.go:320-345 | the keys of an order chain |
| `ChainReadBack.KeyReadsBack` | packages/go/generator/gen_go_names.go:172-248 | an allowed key means exactly itself if and only if it is not a full-text search whose first column starts with Boolean |
| `ChainReadBack.ReadLeading` | packages/go/generator/gen_go_names.go:212-218 | every operator in front of a column reads as that operator; Eq reads as equality |
| `ChainReadBack.WordsAreNames` | packages/go/generator/gen_go_names.go:91-93 | operators, connectors and directions are written as their own names in PascalCase |
| `ChainSpelling.KeyIsSpelled` | packages/go/generator/gen_go_names.go:172-248 | words that are read as a key are the printed words of that key, or those of an equality with Eq in front, and the type rules allow the key |
| `ChainSpelling.ChainIsSpelled` | packages/go/generator/gen_go_names.go:139-170 | a name that is read consists of the words of its keys with their connectors between them, and the rules allow every key |
| `ChainSpelling.OrderIsSpelled` | packages/go/generator/gen_go_names.go:320-345 | an order name that is read is the printed name of its keys, on columns of the entity |
| `ChainReadBack.ChainReadsBack` | packages/go/generator/gen_go_names.go:139-170 | a chain of allowed keys, printed and parsed, is that chain if and only if no key in it is a full-text search whose first column starts with Boolean |
| `ChainClashes.BooleanMisread` | packages/go/generator/gen_go_names.go:189-211 | a full-text search on boolean_c has the name of a boolean search on c, and is read as that |
| `ChainClashes.FulltextReadsAsBoolean` | packages/go/generator/gen_go_names.go:189-211 | this happens on a schema that the generator accepts |
| `ChainClashes.SharedExactly` | packages/go/generator/gen_go_names.go:46-65 | two names share a PascalCase name if and only if they are equal without the underscores that no letter follows |
| `ChainClashes.AcceptedExactly` | packages/go/generator/gen_go_names.go:46-65 | columns have PascalCase names of their own if and only if no two are equal without those underscores |
| `ChainClashes.TwinColumns` | packages/go/generator/gen_go_names.go:46-65 | a_1 and a1 both pass the name rules, and the name of the first is read as the second |
| `ChainReadBack.OrderReadsBack` | packages/go/generator/gen_go_names.go:320-345 | every order chain, printed and parsed, is that chain |
| `AesRotation.NewKeyring` | packages/go/orm/aes_rotation.go:40-54 | accepts exactly the keyrings with valid versions and keys and a declared current version |
| `AesRotation.RotateRow` | packages/go/orm/aes_rotation.go:69-119 | re-encrypts every value, leaves a row without one at its version and reads no key for it, and fails as a whole, with the configuration or the codec error |
| `AesRotation.RotationKeepsPlaintext` | packages/go/orm/aes_rotation.go:69-119 | whatever nonces are drawn, every cell keeps its plaintext, and the row its key |
| `AesRotation.AnyNonce` | packages/go/orm/hostcodec.go:23-38 | whether cells can be re-encrypted does not depend on the nonces |
| `AesRotation.ObstacleExactly` | packages/go/orm/aes_rotation.go:69-119 | a row can be rotated if and only if it has no value, or its version is from 1 to 2^31 - 1, its key and the current one are known, and every cell decodes under the one and is accepted under the other; only a missing key is a configuration error |
| `AesRotation.FinishedKeepsPlaintext` | packages/go/orm/utils.go:856-917 | a finished rotation keeps every key and every plaintext of the table and leaves all rows at the current version |
| `AesRotation.Table.RotateBatch` | packages/go/orm/utils.go:890-914 | rotates the rows of a batch and leaves that many fewer to rotate |
| `AesRotation.Table.Rotate` | packages/go/orm/utils.go:856-917 | ends, succeeds exactly when every pending row can be rotated, and then returns their number and leaves none |
| `AesRotation.Table.RotateShort` | packages/php-ext/src/aes_utils.c:337-519 | the same of the loop that stops after a short batch |
| `AesRotation.OneResult` | packages/php-ext/src/aes_utils.c:337-519 | both loops leave tables with the same keys, versions and plaintexts, whatever nonces they draw |
| `SetOrder.OrderSets` | packages/go/generator/gen_go_sets.go:69-93 | ends, fails exactly when the needs have a cycle, and otherwise returns the lexicographically least order that respects them; the failure names exactly the sets that lead to a cycle, in order |
| `SetOrder.LeadsExactly` | packages/go/generator/gen_go_sets.go:82-90 | the sets that are named are the sets on cycles if and only if every set that needs one of those is one of them |
| `SetOrder.LeadsWithoutCycle` | packages/go/generator/gen_go_sets.go:82-90 | a set that needs a set of a cycle is named without being on one |
| `SetOrder.AllDone` | packages/go/generator/gen_go_sets.go:95-103 | whether all needed sets are done |
| `SetOrder.GreedyIsLeast` | packages/go/generator/gen_go_sets.go:71-81 | taking the least set that is ready each time gives the least order |
| `SetOrder.FindCycle` | packages/go/generator/gen_go_sets.go:82-90 | where no set is ready, the sets that are left hold a cycle |
| `SetOrder.NoOrderOfCycle` | packages/go/generator/gen_go_sets.go:39-40 | no order respects a cycle |
| `OutputReplace.GoFiles` | packages/go/generator/gen_go_output.go:58-85 | the Go files, or those with the generated header |
| `OutputReplace.Output.MoveAway` | packages/go/generator/gen_go_output.go:204-209 | moves files into the backup, up to the first failure |
| `OutputReplace.Output.Place` | packages/go/generator/gen_go_output.go:210-215 | moves the new files in, up to the first failure |
| `OutputReplace.Output.Restore` | packages/go/generator/gen_go_output.go:188-203 | undoes both, and reports a failed undo |
| `OutputReplace.Output.Replace` | packages/go/generator/gen_go_output.go:155-217 | whichever step fails, the directory is as it was unless undoing fails too; otherwise it holds the new files and the entries that they do not replace |
| `OutputReplace.ReplacedKeepsOthers` | packages/go/generator/gen_go_output.go:58-85 | an entry that no new file replaces and that is a folder, no Go file or without the generated header stays as it was |
| `OutputReplace.ReplacedDropsGenerated` | packages/go/generator/gen_go_output.go:58-85 | a generated Go file that is generated no more is gone |
| `Decimals.NormalizeDecimal` | packages/go/orm/decimal.go:11-67 | the canonical text, or a refusal |
| `Decimals.NormalizeKeepsValue` | packages/go/orm/decimal.go:11-67 | normalizing keeps the value and is idempotent |
| `Decimals.NormalFormsAreValues` | packages/go/orm/decimal.go:11-67 | two accepted texts have one normal form exactly when they have one value |
| `Decimals.AcceptsExactly` | packages/go/orm/decimal.go:11-67 | a text that parses is accepted if and only if it has at most scale digits after the point and its value is below ten to the precision |
| `Decimals.FormIsParsed` | packages/go/orm/decimal.go:17-45 | a sign or none, digits, and perhaps a point with digits after it is read as its sign and its digits |
| `Decimals.ParsedHasForm` | packages/go/orm/decimal.go:17-45 | no other text is read |
| `Decimals.ValueBound` | packages/go/orm/decimal.go:69-81 | the scaled value is below ten to the precision, and fits in 64 bits |
| `Decimals.DecimalScaledInt` | packages/go/orm/decimal.go:69-81 | fails only where normalizing fails |
| `Decimals.ScaledIsValue` | packages/go/orm/decimal.go:69-81 | the scaled integer is the value |
| `Decimals.DecimalFromScaledInt` | packages/go/orm/decimal.go:83-108 | the text of a scaled integer |
| `Decimals.FromScaledAccepts` | packages/go/orm/decimal.go:83-108 | accepts exactly the integers below ten to the precision, with their value |
| `Decimals.ScaledRoundTrips` | packages/go/orm/decimal.go:69-108 | text to integer and back is the normal text, and integer to text and back is the integer |
| `Numerals.AmountOfNumeral` | packages/go/orm/decimal.go:93-93 | a decimal or hexadecimal numeral has the amount that it was written from |

## Left out

- Drivers, connection strings, TLS, pools, notifications, process watchers and statement events.
- SQL text, request validation, schema documents and introspection: of the planner the model has the parts of a condition and
  how they are connected; a plan step is its bind slots and an abstract query, and which operators a column type allows is a
  parameter.
- Writes other than the rows that an update or a delete changes and the values that are assigned: restoring a row, and what an
  insert does to an existing row.
- YAML, JSON, gzip, base64, AES and HMAC: the rotation asks only that decoding undoes encoding under the same key, for every
  nonce; a random source that fails is not modelled.
- Floats in serialized values, and text of floats and times: a float key is its bit pattern, and a time is its UTC text.
- The arithmetic of the FNV hash: `PlanCache.Hasher` keeps the bytes that are fed to it, and separating distinct streams, and
  distinct sets of map entries, is a hypothesis.
- The session statements around a migration operation: they write no history row.
- PlanFinalize.FinalizeEnds: asks that a step that drops a hidden object succeeds exactly when the object is there, and that no
  two steps drop one object.  Two plans with the same target schema that hide equally many objects have equal hidden names.
- PlanApply.FinalizeCompletes: is about the last plan; `PlanFinalize.PlanEnds` is about every plan.
- PlanApplier.Applier.Rollback: leaves out the null checks before the first rollback statement, which fill rows with a default
  and change neither the schema nor the history, and their refusal.
- Placeholders.BindArgs: leaves out conversions and checks of bound values, and the masks of clock values.
- The limit per parent of a relation step, which is part of the abstract query.
- The rollback hook of SQLite is a flag that says whether it was removed.
- Concurrent goroutines inside one transaction; other flows appear only between the two locked sections of the plan cache.
- Retry of a transaction after a deadlock, and the stack of active transactions.
- Session.Connection.RunTransaction: leaves out a MySQL transaction that the server rolls back on a deadlock and whose callback goes
  on; of PostgreSQL it has that a failed statement gives up the transaction.
- Savepoint statements that fail: in `TxConn` every savepoint statement succeeds.
- Package loading, the type scan and the emitted Go source.
- Error texts: an error is its kind.
- CanonicalRefusals.RefusedExactly: does not say which of several errors is reported; `Canonicalizer.Call.Canonicalize` reports the
  first in walk order.
- AesRotation.Table.Rotate: when it fails, the table is as the failed batch left it; the enclosing transaction, which is not
  part of this class, rolls it back.
- Relations.LoadingRefinesNestedLoop: asks that the database compares keys as the client does, which the schema rules give
  (`Relations.BinaryIsFaithful`); `Relations.LoadedExact` is the exact condition without them.
- NumberedPlaceholders.ExpandIn: the form is chosen as in the source, by the text "$1" anywhere in the statement.
- PhpCodec.Parser.Read: refuses floats, as does `PhpCodec.ParseAll`; a deep nesting that exhausts the stack is not modelled.
- PhpCodec.Parser.ReadArray: the room for entries is a number of the machine; the source asks for two slices of that many
  elements.
