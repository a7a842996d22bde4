# Verification models of StructuraGuard

Dafny models of the parts of StructuraGuard whose correctness spans several functions,
whole runs or whole inputs, with proofs of what those parts are for. `dafny verify
dfyconfig.toml` checks everything.

## The modules

**The transactional loader.** `LoadContracts`, `LoadClient` and `LoadTransaction` model one
call of the loader: the routine with its flags, and the automaton of everything an `await`
may bring back (cancellation, deadline, coded refusal, database error, an exception that no
except clause names). `Ledger` models the
idempotency marker. `LoadProtocol`, `LoadProtocolProof` and `LoadProtocolTheorems` put any
number of concurrent and retried attempts against one PostgreSQL database: committed state,
per-transaction buffers with savepoints, transaction-scoped advisory locks whose keys may
collide, statement snapshots under READ COMMITTED, COMMIT requests whose acknowledgement is
lost, and connections that die. The history of every attempt is a run of the same client
automaton that `LoadTransaction.ExecuteTransaction` is shown to follow. `LoadPlans`,
`WriteBatches` and `BatchSemantics` model plans, the greedy splitting into multi-row
statements, and what those statements do to tables with unique keys; `RepeatedUpserts` says for
which plans that is less than the single steps would do. `DependencyGroups` and
`QuarantineWrite` model the indivisible groups and the write loop with a savepoint per group,
`QuarantineAccount` says which reply excluded which group, `WriteHistory` the effects of that loop. `LoadRefinement` joins the two levels: every behaviour
of the write loop is a run of the protocol, and what the protocol demands of statements and
receipts (`LoadProtocol.Granted`) is what the loop keeps.

**The audit chain.** `AuditLog` defines rows, intact chains and the verifier; `AuditStore` is
the store inside one transaction and the append with retries; `AuditProtocol` is any number of
appending transactions, statement by statement.

**The dependency graph.** `Graphs`, `Kahn`, `DependencyGraph`, `CatalogGraph` and
`CatalogGraphTheorems` model the validation of foreign-key graphs, cycle evidence and load orders.

**Streaming checks.** `Segments`, `SegmentStream` and `SegmentContents` model the one-pass check
of extracted batches; `ParentWalks` the memoised and the bounded walks over parents;
`FindingCounts` the record counters of reports; `JsonNesting` the nesting scan;
`LockfileClosure` the closure over locked packages.

**Small machines.** `SqlText`, `SqlTokens` and `SqlGroups` model the tokenizer for stored SQLite
DDL, measured against a character-by-character reading; `DetailKeys` and `Sanitizer` the
budgeted sanitizing of error details over possibly cyclic data; `InspectionSlot` the worker slot
of a database reader; `JsonPointer` printing, accepting and reading JSON Pointers.

`Wrappers`, `Collections` and `Decimals` hold shared vocabulary.

What comes from outside is a parameter or an oracle: database replies and their order, the clock
(only as deadlines that may expire at any await), text patterns and Unicode classes, hashes,
signatures and byte sizes.

## Where the code does less than one might expect

- **Worker slot.** Two ways lead to two live workers. `inspection_slot` receives the closing flag as
  an argument that is evaluated before the lock is tried: two threads that share a reader can
  interleave so that a late caller has read the open flag, an earlier call gives up its live worker,
  sets the flag and frees the lock, and the late caller is then granted the slot
  (`InspectionSlot.TwoThreadsTwoWorkers`). And on a single event loop somebody else may cancel the
  asyncio task of the worker thread, as a loop does that shuts down: that task is done, the call leaves
  the ordinary way, the thread runs on and the slot is open
  (`InspectionSlot.CancelledTaskTwoWorkers`). `InspectionSlot.SafeExactlyOnOneThread` proves that
  without these two the slot is safe, and with either it is not.
- **Escaping exceptions.** Three kinds of exceptions leave the loader without an outcome, also after
  an acknowledged COMMIT: one that no except clause names; one that the closing of connection and
  engine raises in the finally clause (lines 424-428 of `_load_transaction.py`; `_cleanup` in
  `postgresql.py` lets everything but cancellations, timeouts, SQLAlchemy and OS errors through);
  and one from the audit event of a rollback (lines 453-467), which is written outside the try
  block. `LoadTransaction.ExecuteTransaction` says exactly when.
- **JSON Pointers.** Names in an instance path have no length bound, a pointer location has one of
  4096 characters. `JsonPointer.PrintedIsAccepted` gives the exact condition on the path,
  `JsonPointer.LongNameIsRefused` an input.
- **Upserts.** A plan may hold two steps with one identity. PostgreSQL refuses a statement that meets
  a key twice, while the steps one by one would succeed: `RepeatedUpserts.RenamedTwiceFails` is such
  a plan. `RepeatedUpserts.BatchesFailOnRepeats` gives the exact condition in terms of plan, records
  and budgets: two selected steps with one identity share an upserting statement. Distinct
  identities rule that out under any budgets (`RepeatedUpserts.DistinctIdentitiesSuffice`). The
  planner's validator reports rows with exactly the same key (lines 457-485 of
  `validation/db_constraints.py`) and such rows are quarantined, so the plans in question are those
  whose identities the database compares more coarsely than the validator does, for instance
  without regard to case, and those that a caller built. A value in the model stands for what the
  database compares.
- **Table segments.** The first segment of a table need not start at row zero, unlike the first
  segment of a tree; the model follows the code.
- **Empty reports.** Without records a failed check of the snapshot rejects a report in which nothing
  is invalid; `FindingCounts.RejectedWithoutInvalidRecords`.

## Model

| member | source | states |
|---|---|---|
| `DependencyGraph.Explore` | packages/structuraguard/src/structuraguard/contracts/database.py:589-596 | the worklist visits exactly the nodes reachable from the start, and ends on cyclic graphs |
| `DependencyGraph.ValidateComponent` | packages/structuraguard/src/structuraguard/contracts/database.py:573-599 | accepts a cycle exactly when its members are distinct, covered at both ends by its own distinct foreign keys, and every member reaches every other one over those keys |
| `Kahn.CountVisited` | packages/structuraguard/src/structuraguard/contracts/database.py:728-740 | the loop visits as many nodes as there are exactly when the graph has no cycle, whatever order the queue is served in |
| `DependencyGraph.ValidateCycleCoverage` | packages/structuraguard/src/structuraguard/contracts/database.py:706-740 | accepts exactly when every edge inside a component or on itself is listed as evidence and the graph condensed by the components is acyclic |
| `CatalogGraph.ValidateOrders` | packages/structuraguard/src/structuraguard/contracts/database.py:681-698 | accepts the two orders exactly when the topological order lists every table once with parents first and the load order is a duplicate-free part of it in the same sequence |
| `CatalogGraph.ValidateGraph` | packages/structuraguard/src/structuraguard/contracts/database.py:647-703 | the whole validator as one equivalence with the declarative acceptance condition |
| `CatalogGraphTheorems.CoverageIsExactEvidence` | packages/structuraguard/src/structuraguard/contracts/database.py:665-679 | for well-formed components, passing the condensed-graph check is equivalent to being exact evidence: two distinct tables share a component iff each reaches the other, a table is in one iff it lies on a cycle, and the keys of a component are exactly the edges inside it |
| `CatalogGraphTheorems.AcceptedEvidenceIsExact` | packages/structuraguard/src/structuraguard/contracts/database.py:706-740 | every accepted graph, cyclic or not, carries exactly its non-trivial strongly connected components |
| `CatalogGraphTheorems.StrategyRequiredExactlyForCycles` | packages/structuraguard/src/structuraguard/contracts/database.py:663-685 | in an accepted graph the strategy flag is set iff a directed foreign-key cycle exists, and an order is published iff none exists |
| `CatalogGraphTheorems.ValidateCatalogGraph` | packages/structuraguard/src/structuraguard/contracts/database.py:781-832 | the catalog check is equivalent to: a catalog with a fingerprint version is complete and its accepted graph has the nodes and edges of the catalog tables and a published load order of exactly the writable ones; a catalog without has none of the extensions |
| `CatalogGraphTheorems.LoadOrderIsParentFirst` | packages/structuraguard/src/structuraguard/contracts/database.py:806-819 | a published load order lists every writable table once, each writable parent before its writable children |
| `Ledger.LedgerTables.InsertReferences` | packages/structuraguard/src/structuraguard/database/_load_ledger.py:128-160 | quarantine references go out in chunks of at most one hundred, complete and in order, exactly when they fit the payload budget |
| `Ledger.LedgerTables.Commit` | packages/structuraguard/src/structuraguard/database/_load_ledger.py:96-174 | inserts marker, references and audit row exactly when the key is free and receipt and references fit the budget together, and says which of the two it was otherwise; no stored marker is ever changed |
| `Ledger.ClaimReturnsStoredReceipt` | packages/structuraguard/src/structuraguard/database/_load_ledger.py:60-94 | a retry reads back exactly the receipt that was stored, marked as a replay to it, iff it has the same binding and mapping and the receipt fits its limit |
| `Ledger.ClaimTrustsOnlyItsOwn` | packages/structuraguard/src/structuraguard/database/_load_ledger.py:72-94 | a receipt is taken from whatever row is found iff it is intact, within the limit, no replay and about this very mapping; another binding is a conflict, everything else an invalid receipt |
| `LoadClient.FlagsRemember` | packages/structuraguard/src/structuraguard/database/_load_transaction.py:218-222 | after every history the flags of the routine agree with what really happened, and an escaping exception leaves no outcome |
| `LoadClient.OutcomesAreHonest` | packages/structuraguard/src/structuraguard/database/_load_transaction.py:429-474 | committed is reported iff the commit was acknowledged or a marker was read; rolled back or cancelled only if COMMIT was never issued and the cleanup ended the transaction; of an attempt that was cancelled no mere rollback; after COMMIT was issued only committed or unknown |
| `LoadTransaction.ExecuteTransaction` | packages/structuraguard/src/structuraguard/database/_load_transaction.py:193-474 | for every pattern of failing awaits: nothing is reported exactly when an exception that no except clause names arises at a stage that is reached, or the cleanup raises, or the audit event of a rollback is due and raises; else, stated in the awaits alone: which of committed, unknown, rolled back and cancelled is reported, the code of the failure that ended the load, whether it was cancelled, the warnings after a commit, the audit gap after a rollback, the stored receipt exactly when a marker was read, and every field of the new one; the outcome is honest about a history, statements and rollbacks of the write loop included, that is a run of the client automaton |
| `LoadTransaction.WriteAndCommit` | packages/structuraguard/src/structuraguard/database/_load_transaction.py:302-416 | COMMIT is issued exactly when planning, writing, audit envelope, marker and final checks all succeeded, and acknowledged exactly when it did not fail either |
| `LoadProtocolProof.LocalStep` | packages/structuraguard/src/structuraguard/database/_load_transaction.py:223-416 | what an attempt knows about its own transaction is kept by every one of its events |
| `LoadProtocolProof.OwnClaim` | packages/structuraguard/src/structuraguard/database/_load_ledger.py:40-94 | the marker SELECT under the lock sees the committed markers of that moment, so a claim without marker is true and a replay is of the stored receipt |
| `LoadProtocolProof.CommitKeepsShared` | packages/structuraguard/src/structuraguard/database/_load_transaction.py:411-416 | one commit never falsifies what another open attempt has read about its own key, because two open transactions cannot both hold the lock |
| `LoadProtocolProof.StepKeepsInv` | packages/structuraguard/src/structuraguard/database/_load_transaction.py:193-416 | every step of every attempt and of the server keeps the protocol invariant |
| `LoadProtocolProof.ReachableInv` | packages/structuraguard/src/structuraguard/database/_load_transaction.py:193-474 | every world that any interleaving can reach satisfies the invariant |
| `LoadProtocolTheorems.PublishedAtMostOnce` | packages/structuraguard/src/structuraguard/database/_load_transaction.py:261-302 | in every run all published rows of a key come from one attempt, together with its marker and, if audited, its audit event, and under one key no unit is published twice |
| `LoadProtocolTheorems.ReplaysReturnStoredReceipt` | packages/structuraguard/src/structuraguard/database/_load_transaction.py:268-298 | whoever is told of an earlier commit gets the receipt that the one publisher of the key stored, unchanged but for being marked as a replay to this attempt, and its log summary claims no write; both share one binding |
| `LoadProtocolTheorems.ForeignBindingPublishesNothing` | packages/structuraguard/src/structuraguard/database/_load_ledger.py:60-80 | an attempt that reuses a stored key with another binding has no published row and no durable transaction |
| `LoadProtocolTheorems.ReportsAreTrue` | packages/structuraguard/src/structuraguard/database/_load_transaction.py:429-474 | what a finished attempt reports is true of the database: a commit is durable or stored, a rollback left nothing and cannot be overtaken, a durable commit is never called otherwise than committed or unknown |
| `LoadProtocolTheorems.ReportedNeverExceedsPublished` | packages/structuraguard/src/structuraguard/contracts/loading.py:301-316 | summed over all attempts of a key, reported inserts and updates never exceed the published rows, and equal them once the publisher was acknowledged and returned |
| `LoadProtocolTheorems.MarkersAreForever` | packages/structuraguard/src/structuraguard/database/_load_ledger.py:96-115 | a stored marker survives every continuation of the run unchanged |
| `LoadRefinement.WriteLoopIsARun` | packages/structuraguard/src/structuraguard/database/_load_transaction.py:103-190 | every sound history of statements and savepoint rollbacks is a run of the protocol, and leaves in the buffer of the attempt exactly the rows it leaves in its transaction |
| `LoadRefinement.WrittenPlanIsReported` | packages/structuraguard/src/structuraguard/database/_load_transaction.py:345-384 | after a write loop that succeeded in either mode the protocol grants the receipt with the inserts and updates of the returned plan |
| `LoadRefinement.WriteInProtocol` | packages/structuraguard/src/structuraguard/database/_load_transaction.py:103-190 | the write loop, whatever the database replies, is a run of the protocol that ends with its rows, and if it returns a plan the receipt about that plan is granted |
| `LoadPlans.ValidateOrdered` | packages/structuraguard/src/structuraguard/contracts/loading.py:106-116 | accepts exactly the plans with distinct units, every dependency on an earlier step and every table in the load order |
| `WriteBatches.EmitBatches` | packages/structuraguard/src/structuraguard/database/_load_queries.py:88-142 | yields well-formed, greedily maximal batches within all three budgets; no error iff no step is refused; otherwise the code is that of the first refused step |
| `WriteBatches.Statements` | packages/structuraguard/src/structuraguard/database/_load_queries.py:33-142 | the whole generator: without error the batches together are the chosen inserting and updating steps in plan order; a plan that does not belong to the request yields nothing; an error carries the code of that refusal or of the first refused step |
| `WriteBatches.PresentableMeans` | packages/structuraguard/src/structuraguard/database/_load_queries.py:45-62 | a plan is presentable for a request iff nothing blocks it, it belongs to this request, it has exactly one step for each record, it excludes steps only where the policy lets it, and every chosen unit is one of its own |
| `WriteBatches.TakenExactlyWhenSound` | packages/structuraguard/src/structuraguard/database/_load_queries.py:88-168 | a row is written iff its step asks for it, its cells are those announced, its columns are the table's and writable, an upsert looks for a supported unique key and updates exactly the other columns, and row and parameters fit the limits |
| `WriteBatches.RefusalsTellWhy` | packages/structuraguard/src/structuraguard/database/_load_queries.py:88-168 | each refusal code names the check that the step fails |
| `WriteBatches.SelectionWritesDependenciesFirst` | packages/structuraguard/src/structuraguard/contracts/loading.py:106-116 | whatever units are chosen, no row is written before a row it depends on |
| `BatchSemantics.SameKeyMeans` | packages/structuraguard/src/structuraguard/database/_load_queries.py:68-86 | two rows meet on a key iff each of its columns has the same value in both and no null |
| `BatchSemantics.StatementAgreesWithEach` | packages/structuraguard/src/structuraguard/database/_load_queries.py:68-86 | a multi-row statement on a table with any unique keys succeeds exactly when its rows succeed one by one and no upserting statement repeats an identity, and then has the simultaneous effect |
| `BatchSemantics.StatementResultUnique` | packages/structuraguard/src/structuraguard/database/_load_queries.py:68-86 | the simultaneous effect (rows met are merged, others stay, new ones follow) determines the table |
| `BatchSemantics.StatementIsRowByRow` | packages/structuraguard/src/structuraguard/database/_load_queries.py:68-86 | a statement leaves what its rows leave one after another, or fails where an upsert meets a key twice |
| `BatchSemantics.InsertFailsOnDuplicates` | packages/structuraguard/src/structuraguard/database/_load_queries.py:68-86 | a plain insert appends its rows exactly when no unique key is then taken twice, be it by an old and a new row or by two new ones |
| `BatchSemantics.BatchesWriteLikeSteps` | packages/structuraguard/src/structuraguard/database/_load_queries.py:63-142 | over all tables with their unique keys, running the batches that the generator makes of a plan equals running every selected step alone in plan order, unless an upserting batch repeats an identity, in which case they fail |
| `RepeatedUpserts.BatchesFailOnRepeats` | packages/structuraguard/src/structuraguard/database/_load_queries.py:63-142 | the batches do what the selected steps do one by one, failures included, unless two selected steps with one identity fall into one upserting statement, and then they fail; which steps share a statement is decided by plan, records and budgets |
| `RepeatedUpserts.DistinctIdentitiesSuffice` | packages/structuraguard/src/structuraguard/database/_load_queries.py:63-142 | if no two selected upserting steps of a table look for the same identity, the batches agree with the steps under any budgets |
| `RepeatedUpserts.RenamedTwiceFails` | packages/structuraguard/src/structuraguard/database/_load_queries.py:68-86 | a concrete plan of two upserts of one account: one by one the second name replaces the first, as one statement they fail |
| `DependencyGroups.BuildGraph` | packages/structuraguard/src/structuraguard/loading/groups.py:11-28 | collects dependencies, one arc per unit to the first unit of its record, and one arc per record link; fails iff a unit or a record is missing |
| `DependencyGroups.Component` | packages/structuraguard/src/structuraguard/loading/groups.py:39-50 | one search returns exactly the component of its start |
| `DependencyGroups.StarsConnectLikeBonds` | packages/structuraguard/src/structuraguard/loading/groups.py:13-28 | the star-shaped graph connects exactly what dependencies, common records and record links connect |
| `DependencyGroups.DependencyGroups` | packages/structuraguard/src/structuraguard/loading/groups.py:8-51 | succeeds iff everything resolves within the work budget; the groups are then exactly the classes of connected units, each unit in one group, in plan order; otherwise the code says whether a unit is unplanned, which way the first unresolved link leads nowhere, the budget is exceeded or a dependency is unknown |
| `DependencyGroups.GroupsAreClosed` | packages/structuraguard/src/structuraguard/loading/groups.py:8-51 | a group contains everything its units depend on, is needed by, share a record with or are linked to |
| `DependencyGroups.GroupIsUnique` | packages/structuraguard/src/structuraguard/loading/groups.py:36-50 | no unit is in two groups |
| `QuarantineWrite.Transaction.Execute` | packages/structuraguard/src/structuraguard/database/_load_transaction.py:121-137 | a statement is applied whole or not at all |
| `QuarantineWrite.GroupWrite` | packages/structuraguard/src/structuraguard/database/_load_transaction.py:114-141 | without failure exactly the chosen writing steps are in effect, in plan order, and the plan could be written; a failure is that of the first reply that is no acceptance, or the refusal of the plan or of the first step that is refused, with its code; no row is written twice on the way |
| `QuarantineWrite.GroupUnderSavepoint` | packages/structuraguard/src/structuraguard/database/_load_transaction.py:162-176 | a failed group leaves the rows as they were before it, or the rollback itself failed and the load ends; the failure is that of the SAVEPOINT, of the first call behind it that failed, or of the rollback |
| `QuarantineWrite.WriteGroups` | packages/structuraguard/src/structuraguard/database/_load_transaction.py:155-190 | whatever the database replies, each group has a span of replies of its own, one behind the other: a group that the given plan excludes has an empty one; any other was written if all replies of its span are acceptances, and else its one refusal for a constraint put all its steps in quarantine with that code; the loop ends early only in the turn of a group that mixes excluded and other steps or fails otherwise, and then with the code of that failure |
| `QuarantineWrite.WritePlan` | packages/structuraguard/src/structuraguard/database/_load_transaction.py:103-190 | atomic mode writes the whole plan unchanged or fails with the code of the first failure; quarantine mode returns a plan that accounts for every row in effect and for every reply of the database; it fails only because the given plan has no groups within the budgets, or in the turn of one of them, and says why |
| `QuarantineAccount.ExcludedByItsOwnRefusal` | packages/structuraguard/src/structuraguard/database/_load_transaction.py:155-189 | a step that the given plan does not exclude with its group ends quarantined iff the replies in the turn of its group hold a refusal for a constraint, and then with exactly that code added |
| `QuarantineAccount.OneGroupPerRefusal` | packages/structuraguard/src/structuraguard/database/_load_transaction.py:155-189 | as many groups are newly excluded as the database gave refusals |
| `QuarantineAccount.AcceptedPlanComesBack` | packages/structuraguard/src/structuraguard/database/_load_transaction.py:155-190 | if the database accepts everything, the returned plan is the given one |
| `QuarantineWrite.BoundStepsShareFate` | packages/structuraguard/src/structuraguard/database/_load_transaction.py:155-190 | steps joined by dependency, record or record link are both quarantined or both not |
| `QuarantineWrite.RowsAreThePlannedWrites` | packages/structuraguard/src/structuraguard/database/_load_transaction.py:155-190 | the rows in effect are exactly the inserting and updating steps of the returned plan, once each |
| `QuarantineWrite.NoRowNeedsAQuarantinedOne` | packages/structuraguard/src/structuraguard/database/_load_transaction.py:155-190 | no row in effect depends on a quarantined step |
| `QuarantineWrite.RecordsAreLoadedOrRejected` | packages/structuraguard/src/structuraguard/database/_load_transaction.py:368-384 | every record is loaded whole or rejected whole, and the two counts of the receipt add up to all distinct records |
| `QuarantineWrite.RowCountIsInsertedPlusUpdated` | packages/structuraguard/src/structuraguard/database/_load_transaction.py:368-384 | the number of rows in effect is the sum of the inserting and the updating steps of the returned plan |
| `AuditLog.ChainIsLinked` | packages/structuraguard/src/structuraguard/security/audit.py:264-300 | sequences 1..n, each previous hash the current hash before it, zeros at the start, one binding, no event twice |
| `AuditLog.ChainStatedOutright` | packages/structuraguard/src/structuraguard/security/audit.py:264-300 | the links of a chain checked one by one are equivalent to the whole chain stated outright: numbers, hashes, signatures, one binding, distinct events, rising times, a target that stays |
| `AuditLog.ChainKeepsTimeAndTarget` | packages/structuraguard/src/structuraguard/security/audit.py:286-293 | over any distance in a chain times never go back, and a target once named stays |
| `AuditLog.HighestIsLast` | packages/structuraguard/src/structuraguard/database/audit.py:173-185 | the row with the highest sequence is the last of an intact chain |
| `AuditLog.Verify` | packages/structuraguard/src/structuraguard/security/audit.py:264-303 | one pass accepts exactly the non-empty intact chains of the binding, within the cap, that end in the trusted head; an empty chain, one that is good up to the cap but longer, and every other one are told apart |
| `AuditStore.ChainStore.Prepare` | packages/structuraguard/src/structuraguard/database/audit.py:96-108 | succeeds iff a transaction is open and the layout and grant checks pass, and binds the store to it; otherwise with which code |
| `AuditStore.ChainStore.Find` | packages/structuraguard/src/structuraguard/database/audit.py:187-200 | succeeds iff the store is usable and the read does not fail, and then finds the envelope of an event iff the snapshot holds it |
| `AuditStore.ChainStore.CompareAppend` | packages/structuraguard/src/structuraguard/database/audit.py:212-248 | appends event and intent iff the locked chain still ends in the expected head and lacks the event and no statement fails; which error otherwise; an event without its intent only in a torn transaction |
| `AuditStore.Append` | packages/structuraguard/src/structuraguard/security/audit.py:202-262 | for every pattern of failing awaits of database and signer: returns an envelope of this very event that is in the chain, writes it at most once, under the key asked for, and not at all if it was there; ends after at most 16 lost races; what each refusal says is true of the chain or is the sanitized code of an await that failed |
| `AuditProtocol.InsertEventKeepsTx` | packages/structuraguard/src/structuraguard/database/audit.py:212-248 | inserting under the checks of compare_append extends an intact chain |
| `AuditProtocol.CommitKeepsInv` | packages/structuraguard/src/structuraguard/database/audit.py:212-248 | one commit leaves every other open transaction right about the chains it has locked |
| `AuditProtocol.StepKeepsInv` | packages/structuraguard/src/structuraguard/database/audit.py:202-248 | every statement, commit, rollback and failure keeps the invariant |
| `AuditProtocol.CommittedChainsAreIntact` | packages/structuraguard/src/structuraguard/database/audit.py:212-248 | in every run each committed chain is intact, within the cap and free of repeated events, and the intents are those of exactly the committed events |
| `AuditProtocol.ChainsGrowBySuffix` | packages/structuraguard/src/structuraguard/database/audit.py:212-248 | a committed chain only ever grows at its end |
| `AuditProtocol.OneCommitPerExpectedHead` | packages/structuraguard/src/structuraguard/database/audit.py:202-248 | of all appends that expected one head of one chain at most one is committed |
| `AuditProtocol.CommittedChainsVerify` | packages/structuraguard/src/structuraguard/security/audit.py:264-303 | the verifier accepts every committed chain against every head taken from it |
| `Segments.AcceptedStaysJoined` | packages/structuraguard/src/structuraguard/contracts/source.py:900-934 | the cursor accepts a piece exactly when all pieces of its key stay contiguous |
| `Segments.ClosedIsComplete` | packages/structuraguard/src/structuraguard/contracts/source.py:992-995 | all cursors are closed exactly when every key ends in its terminal piece |
| `SegmentStream.ContainsRefs` | packages/structuraguard/src/structuraguard/contracts/source.py:1346-1367 | striking keys off the missing set with early exit decides whether the batch holds all references |
| `SegmentStream.ValidateBatch` | packages/structuraguard/src/structuraguard/contracts/source.py:860-883 | accepts a batch exactly when it is the one its manifest describes |
| `SegmentStream.ValidateBatches` | packages/structuraguard/src/structuraguard/contracts/source.py:885-995 | the one-pass check accepts a stream iff the collected form is right: batches in sequence, pieces of every table and tree contiguous with one terminal piece at the end, references concatenating to the index |
| `SegmentStream.RowsFollow` | packages/structuraguard/src/structuraguard/contracts/source.py:900-934 | two segments of a table meet iff the second begins in the row after the last of the first |
| `SegmentContents.ValidateCells` | packages/structuraguard/src/structuraguard/contracts/source.py:566-615 | accepts exactly the tables without repeated cell ids or coordinates whose cells lie in their table, sheet and segment and whose segment fields come together |
| `SegmentContents.CoordinatesAreUnique` | packages/structuraguard/src/structuraguard/contracts/source.py:885-995 | no coordinate occurs twice in a whole segmented table, wherever its cells arrived |
| `SegmentContents.ValidateChildRanges` | packages/structuraguard/src/structuraguard/contracts/source.py:1228-1247 | comparing sorted orders accepts exactly when the direct children carry the announced numbers once each |
| `SegmentContents.ChildrenEnumerate` | packages/structuraguard/src/structuraguard/contracts/source.py:885-995 | over all batches the children of a continued tree are numbered 0..N-1, each number exactly once |
| `InspectionSlot.RunInspection` | packages/structuraguard/src/structuraguard/database/_inspection.py:91-124 | gives its worker up exactly when neither the first wait nor the cleanup brings an answer: the cleanup takes only cancellations until a wait begun in time ends it; it returns in any other way exactly when the asyncio task of the worker is done, which, unless somebody else cancelled that task, means that the worker has finished; it ends although every wait may be cancelled |
| `InspectionSlot.StepKeepsInv` | packages/structuraguard/src/structuraguard/database/constraint_reader.py:170-181 | with one calling thread and nobody but the calls cancelling, every step keeps: the slot has one holder, the flag read is still the flag, a given-up worker keeps the slot until the flag is set |
| `InspectionSlot.NormalExitLeavesNoWorker` | packages/structuraguard/src/structuraguard/database/_inspection.py:91-124 | in every run, on any threads: a worker that outlives its call was given up, or somebody else cancelled its thread task |
| `InspectionSlot.TwoThreadsTwoWorkers` | packages/structuraguard/src/structuraguard/database/_inspection.py:25-32 | a concrete run of two threads in which the slot is granted after a cleanup failure and two workers are alive |
| `InspectionSlot.CancelledTaskTwoWorkers` | packages/structuraguard/src/structuraguard/database/_inspection.py:91-124 | a concrete run of one thread in which the thread task of a call is cancelled from outside, the call leaves the ordinary way, and the next call is granted the slot beside the live worker |
| `InspectionSlot.SafeExactlyOnOneThread` | packages/structuraguard/src/structuraguard/database/_inspection.py:25-32 | at most one live worker and no grant after a cleanup failure hold in every run iff all calls come from one thread and nobody but the calls themselves cancels their thread tasks or closes their coroutines |
| `SqlTokens.ReadQuoted` | packages/structuraguard/src/structuraguard/database/_sqlite_sql.py:55-72 | reads one quotation; its text is the content with the closing quote doubled, and no code lies inside |
| `SqlTokens.Tokenize` | packages/structuraguard/src/structuraguard/database/_sqlite_sql.py:33-89 | succeeds iff quotes and block comments are closed and parentheses balance within depth 64; tokens are disjoint, ordered, cover exactly the text outside spaces and comments, and carry the true depth |
| `SqlGroups.GroupEnd` | packages/structuraguard/src/structuraguard/database/_sqlite_sql.py:92-102 | finds the first closing parenthesis of the same depth |
| `SqlGroups.GroupEndMatches` | packages/structuraguard/src/structuraguard/database/_sqlite_sql.py:92-102 | in the tokens of a text it always exists and is the parenthesis that closes the group |
| `SqlGroups.MatchingIsUnique` | packages/structuraguard/src/structuraguard/database/_sqlite_sql.py:92-102 | a group has only one closing parenthesis |
| `SqlGroups.QuotedIdentifierComesBack` | packages/structuraguard/src/structuraguard/database/_sqlite_sql.py:55-72 | an identifier quoted by doubling its quotes is read back unchanged, up to its closing quote |
| `SqlGroups.CutPieces` | packages/structuraguard/src/structuraguard/database/_sqlite_sql.py:198-203 | the stripped slices of a group cut at exactly its top-level commas |
| `SqlGroups.IndexDefinition` | packages/structuraguard/src/structuraguard/database/_sqlite_sql.py:187-210 | succeeds iff the text can be tokenized, has a group and no empty piece; pieces are the stripped slices of the first group at its top-level commas, the condition is the text behind the first WHERE after it |
| `SqlGroups.SlicesOfRejoin` | packages/structuraguard/src/structuraguard/database/_sqlite_sql.py:198-203 | joined with commas, the slices are the text between the parentheses |
| `DetailKeys.CandidatesDiffer` | packages/structuraguard/src/structuraguard/exceptions.py:152-161 | the names tried for a colliding key are pairwise distinct |
| `DetailKeys.CandidateKeepsKey` | packages/structuraguard/src/structuraguard/exceptions.py:152-161 | a renaming keeps as much of the key as fits before its number, and the mark of a truncated key behind it |
| `DetailKeys.Deduplicate` | packages/structuraguard/src/structuraguard/exceptions.py:143-161 | the rename loop ends after at most one more name than there are keys and returns the first free one, within 4107 characters |
| `Sanitizer.Sanitize` | packages/structuraguard/src/structuraguard/exceptions.py:164-218 | terminates on every finite heap; pays one item per node; what it returns is what its budget shows of the value: secrets and texts redacted, every item with what the earlier ones left, and one marker where the budget ends |
| `Sanitizer.SanitizeDict` | packages/structuraguard/src/structuraguard/exceptions.py:189-207 | for every budget: the entries before the cut stand under their own keys, renamed only where a key is taken, each shown with the budget that is left for it, and a marker follows under a free name; no entries are merged |
| `Sanitizer.SanitizeDetails` | packages/structuraguard/src/structuraguard/exceptions.py:221-232 | a mapping with at most 272 nodes and distinct keys of at most 4107 characters; at any depth and for any size every text is a marker or was redacted, every value under a secret or overlong key is replaced and every other scalar before the cut is shown; the full rendering whenever the value weighs at most 256 items |
| `LockfileClosure.CollapsedIsCollapsed` | scripts/verify_distribution.py:932-933 | after the substitution hyphens are the only separators and never meet |
| `LockfileClosure.CollapsedStays` | scripts/verify_distribution.py:932-933 | the substitution changes nothing where hyphens are the only separators and never meet |
| `LockfileClosure.NormalizedIsStable` | scripts/verify_distribution.py:932-933 | for a case mapping that keeps collapsed names collapsed and does nothing a second time, a normalized name is its own normal form |
| `LockfileClosure.LockedRegistryClosure` | scripts/verify_distribution.py:1553-1611 | succeeds iff every reachable package has one readable registry entry with a version; the result is exactly the reachable packages with their versions, also on cyclic graphs |
| `ParentWalks.AcyclicChainsEnd` | packages/structuraguard/src/structuraguard/contracts/normalized.py:190-201 | a chain of parents that does not end runs into a cycle |
| `ParentWalks.RejectCycles` | packages/structuraguard/src/structuraguard/contracts/normalized.py:190-201 | the memoised walk accepts exactly the acyclic hierarchies and visits every node at most once in total |
| `ParentWalks.ValidateTree` | packages/structuraguard/src/structuraguard/contracts/parsing.py:722-739 | accepts iff every parent exists and no chain is cyclic |
| `ParentWalks.ValidateRecordLinks` | packages/structuraguard/src/structuraguard/contracts/normalized.py:611-630 | accepts iff all parents and related records exist and no chain of parents is cyclic |
| `ParentWalks.ValidateIdentities` | packages/structuraguard/src/structuraguard/contracts/record_validation.py:57-73 | the unmemoised walk accepts iff identities are distinct, the hierarchy is a forest and every record has at most 32 ancestors |
| `ParentWalks.BoundedWalkDiffersByDepth` | packages/structuraguard/src/structuraguard/contracts/record_validation.py:62-72 | on a forest the bounded walk refuses a record iff it has more than 32 ancestors |
| `FindingCounts.ClassesPartition` | packages/structuraguard/src/structuraguard/contracts/provenance.py:127-165 | valid, invalid and unresolved records partition the total |
| `FindingCounts.FindingCounts` | packages/structuraguard/src/structuraguard/contracts/provenance.py:127-165 | the counters equal classifying every record by itself with global findings applied to each; unknown ordinals are refused |
| `FindingCounts.ValidateReport` | packages/structuraguard/src/structuraguard/contracts/provenance.py:282-343 | accepts a report iff its counters and decision are those its findings call for |
| `FindingCounts.AcceptedMeansAllValid` | packages/structuraguard/src/structuraguard/contracts/provenance.py:321-343 | an accepted report is complete, provenance included, has evidence for all values that need it, and every record in it is valid |
| `FindingCounts.ReviewMeansOpen` | packages/structuraguard/src/structuraguard/contracts/provenance.py:327-343 | a report about any records needs a review iff no record is invalid and a required check was not made or a record is open |
| `FindingCounts.RejectedMeansSomeInvalid` | packages/structuraguard/src/structuraguard/contracts/provenance.py:327-343 | a report about any records is rejected iff one of them is invalid |
| `FindingCounts.RejectedWithoutInvalidRecords` | packages/structuraguard/src/structuraguard/contracts/provenance.py:327-343 | rejection without an invalid record happens iff there are no records and a check of the snapshot failed |
| `JsonNesting.ValidateJsonNesting` | packages/structuraguard/src/structuraguard/contracts/reports.py:187-209 | for any text: accepts iff the brackets outside strings open and close between level 0 and 64 throughout, and otherwise the first level out of range decides the error; of the texts that print a value it accepts exactly those nested at most 64 deep |
| `JsonNesting.PrintedValuesScanByDepth` | packages/structuraguard/src/structuraguard/contracts/reports.py:187-232 | a printed JSON value is never called invalid, ends outside strings at depth zero, and is rejected iff its containers nest more than 64 deep |
| `JsonPointer.ValidatePointer` | packages/structuraguard/src/structuraguard/contracts/source.py:244-264 | accepts iff the pointer is short enough, starts with a slash or is empty, escapes every tilde and has one slash per occurrence |
| `JsonPointer.PrintedIsAccepted` | packages/structuraguard/src/structuraguard/contracts/json_schema.py:77-83 | a printed pointer has one slash per part and one character more per part, tilde and slash than the texts, and is accepted iff that is at most 4096 and the occurrence path has one entry per part |
| `JsonPointer.LongNameIsRefused` | packages/structuraguard/src/structuraguard/contracts/source.py:212 | a path of one name of 4096 characters prints a pointer that is refused |
| `JsonPointer.PointerRoundTrip` | packages/structuraguard/src/structuraguard/contracts/json_schema.py:77-83 | reading a printed pointer by RFC 6901 sections 3 and 4 gives back the texts of its parts |

## Left out

- SQL text, drivers, PRAGMA and catalog queries, grants, layout checks and target scopes: the database is abstract.
- SHA-256, HMAC, UUIDs and canonical JSON bytes: signatures, hashes and sizes are arbitrary functions; the signature covers the envelope without its own hash.
- Regular-expression redaction, secret patterns, case mapping and Unicode categories: arbitrary functions on texts and characters.
- Wall-clock time: a deadline is an event that may occur at any await.
- QuarantineWrite.GroupUnderSavepoint: takes it that a ROLLBACK TO SAVEPOINT never fails with one of the four constraint codes, because it checks no constraint.
- BatchSemantics.RunStep: does not model column defaults, checks, foreign keys and unique indexes over expressions or with conditions; a column without value has a value of its own that conflicts with nothing.
- WriteBatches.Statements: yields its batches in one result followed by the error, where the source executes each statement before it makes the next; the failing step and everything before it are the same.
- DependencyGroups.BuildGraph: visits units in the order in which they were projected, not record by record; the arcs are the same.
- AuditStore.Append: does not model process-control exceptions, which pass through unchanged; a row that cannot be read is a failing read.
- AuditProtocol.Enabled: the reads and the signing before `compare_append` are one step, because `compare_append` reads everything again.
- AuditProtocol.StepKeepsInv: takes from the callers that a transaction whose append failed half-way is rolled back, as the loader and the rollback-event writer do.
- InspectionSlot.RunInspection: does not model the accounting of metadata items, nor a coroutine that is closed in mid-wait; `InspectionSlot.Apply` has the latter as a step.
- CatalogGraphTheorems.ValidateCatalogGraph: of the checks on schemas, tables and keys before the graph only the distinct table ids are modelled, and the metadata snapshot is a verdict.
- SegmentStream.ValidateBatch: source, extraction run and parser identity are one value; line and block contents, locations other than those of cells, and producer metadata are not modelled.
- SegmentContents.ValidateCells: does not model the metadata entries of a table.
- FindingCounts.ValidateReport: leaves out the order and uniqueness of findings and layers, the issue list derived from the findings, evidence coordinates and layer results.
- Sanitizer.Sanitize: numbers are integers or opaque floats that are finite or not.
- LockfileClosure.LockedRegistryClosure: starts from the parsed document and returns a map, without the final sorting of its keys.
- JsonNesting.PrintedValuesScanByDepth: prints members in the given order; sorting, duplicate keys and the byte limit are not modelled.
- SqlGroups.IndexDefinition: `table_definition` and `expression` are not modelled; they add keyword matching on top of the same tokens and groups.
- The planner, staging stores, cleanup of connections, audit key providers and the memory audit store are not part of this model; the loader takes the plan as given, and of the cleanup whether it raises, succeeds or was interrupted.
- Field bounds of data classes, discriminated unions, plain equality checks and log projections other than the loader's: facts of one branch.
- The payment-card check, the normalized batch stream and the extraction facades: they would repeat the shapes above.
