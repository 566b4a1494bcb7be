# NexusPuppet: a verified model of its protocols

NexusPuppet keeps one classification file per Puppet node on disk (the ENC files) in step with a
database, installs TLS certificates through a helper that rolls back what nobody confirms, forwards
an audit log at least once while a retention sweeper bounds the same table, and carries a number of
small pieces whose correctness is subtle. This project models that behaviour in Dafny and proves what
the code argues for in its comments, and, where the code does not meet a promise, exactly when it does.

`dafny verify dfyconfig.toml` checks everything.

## How it is laid out

| files | what they model |
|---|---|
| `options`, `order`, `json` | a missing value; sorting by a strict total order; canonical JSON |
| `enc_model`, `enc_outbox`, `enc_edits`, `enc_projection`, `enc_drain`, `enc_reconcile` | the materialization state and every transaction on it, as functions |
| `enc_document`, `enc_edit_results`, `enc_effects` | what a document says, what each edit stores, refuses and queues, and what one write or failure leaves |
| `enc_drain_inv`, `enc_run`, `enc_walk`, `enc_claims`, `enc_purge`, `enc_limits` | the invariant, runs, the chunked walk, the batch in flight, purge and return, and where else the code falls short |
| `enc_store`, `enc_classification`, `enc_materializer` | the services as classes over the tables, proved against those functions |
| `forest` | the group hierarchy and its cycle check |
| `cert_files`, `cert_protocol`, `cert_results`, `cert_helper` | file-operation scripts, safety at every operation, what the answers mean, and the helper process |
| `audit_model`, `audit_services` | the audit queue under many workers and sweepers, and the services |
| `tokens`, `grants`, `log_sink`, `regex`, `pql`, `ldap` | refresh-token families, install grants, log rotation, query compilation, LDAP URLs |

The central invariant (`EncOutbox.Inv`) says that a managed node whose file or record is not what the
database describes is covered by a queued row, and that a queued deletion comes before the rewrite of
a node that returned. `EncRun` lets every edit, projection, purge, drain, rolled-back drain, reconcile
and orphan sweep happen in any order and proves the invariant of every state reached.

Assumptions: a transaction and a drained batch are one step each, at strictly increasing times;
certnames and ids are ordered by code point; whether one rule holds of a node's facts is a parameter;
equal documents are what the code recognises by equal hashes. `faults` says which file writes fail,
`stuck` which orphans cannot be deleted, `locked`, `free` and `configured` what the lock or the
configuration answers; in the certificate helper, fields such as `written`, `steps` and `pruned` say
which file operation throws. Token hashes, families and new group ids are fresh.

## What turned out not to hold

- A full reconcile requested while a walk is queued part-way keeps the walk's cursor
  (`materialization.service.ts:130-141`), although the comment on the drain
  (`materializer.service.ts:430-434`) expects a restart. An edit then misses the nodes already walked
  past: `EncLimits.PartWayWalkSwallowsEdit`. `EncOutbox.FullEditKeepsInvExactly` says exactly when the
  request is enough, and `EncRun` guards runs by that condition.
- A purge while a rewrite of the node is queued leaves the older rewrite to run before the deletion; a
  node that returns in between loses its file, in a run whose prune the guard lets through
  (`EncPurge.PurgeWithQueuedRewriteLosesFile`). `EncPurge.PurgeKeepsFilesExactly` is the exact condition,
  for any certnames: a name that is no file name is never deleted, and so never lost.
  A full reconcile that is queued anyway may write the file again later.
- A failed job is queued again without its kind (`materializer.service.ts:257-266`), so a failed deletion
  comes back as a write, until its attempts are used up (`EncLimits.FailedDeletionRewritesExactly`). A run
  from an empty installation ends with an empty queue and a file for a purged node
  (`EncLimits.FailedDeletionLeavesFile`).
- A managed certname that is no safe file name keeps a full reconcile in the queue until it is purged
  (`EncRun.UnsafeNameBlocksForever`).
- The orphan sweep lists known nodes before it deletes; it keeps the invariant exactly when every
  managed node it sweeps away is queued (`EncReconcile.SweepKeepsInvExactly`). A run from an empty
  installation reaches a state in which it takes a current file away and leaves nothing queued that would
  write it (`EncLimits.SweepRemovesCurrentFile`).
- The prune guard is given the number of all listed nodes, inactive ones included, under the name
  `activeCount`. Inactive nodes that were never on record let it pass while the whole estate goes
  (`EncProjection.InactiveStrangersDefeatGuard`); `EncProjection.PruneLosesHalfExactly` says what it guards.
- An install whose set name is the one that is live when it is written (same certificate, same second,
  nothing swapped back) truncates files the proxy reads: exactly then, `CertProtocol.StageSafeExactly`.
- Recovery does not cover a crash between the removal of a record and the swap back, nor one between an
  install's swap and its finished record or, if it is not verified, its swap back; and an install that
  follows an undo that did not swap back is exposed throughout. Exactly these: `CertProtocol.Exposed` and
  `CertProtocol.CrashStrandsExactly`. An error thrown after the swap, by pruning or by writing the
  record, leaves the same state without a crash and without the outcome `rollback-failed`
  (`CertProtocol.AbortAfterSwapStrands`).
- A grant with a lifetime over 600 seconds can be used twice: `Grants.SingleUseExactly`.
- A spent refresh token whose row was pruned, or revoked by itself, can be replayed without ending its
  family (`Tokens.ReplayEndsFamilyExactly`, `Tokens.PrunedReplayGoesUnnoticed`). `pruneExpired` is called
  by its own test and by nothing else in the repository.
- A query that asks only for absent facts loses every node that is absent from PuppetDB's inventory,
  because each compiled condition starts from an inventory row: `Pql.NotExistsLosesNode` is such a backend
  and node. `Pql.RowsAgreeExactly` says when the compiled conditions mean what the filter asks,
  `Pql.NodeQueryAgreesExactly` and `Pql.ResourceQueryAgreesExactly` lift it to the queries, and
  `Pql.NodeQueryFaithfulExactly` says which filters are answered faithfully on every backend.
- An `IN` filter with an empty list, which the schema admits, compiles to a query PuppetDB rejects:
  `Pql.BuildNodeQuery` says exactly when the query is well formed.

## Model

| member | source | states |
|---|---|---|
| Json.PrintInjective | apps/api/src/puppetdb/node-projection.service.ts:665-673 | a canonical print followed by a delimiter determines the value up to member order, and where the print ends |
| Json.StableEqualsExact | apps/api/src/puppetdb/node-projection.service.ts:661-673 | facts compare as unchanged exactly when they are equal with objects read as unordered maps |
| EncModel.LastWriterWins | apps/api/src/materialization/pure/class-merger.ts:50-188 | of groups merged in a given order, the last that sets a top-scope parameter decides it, and it is set exactly when one does |
| EncModel.ClassesUnite | apps/api/src/materialization/pure/class-merger.ts:80-95 | a class is declared exactly when one of the groups merged names it, parameters or not |
| EncModel.LastClassWriterWins | apps/api/src/materialization/pure/class-merger.ts:80-126 | of groups merged in a given order, the last that sets a parameter of a class decides it, and it is set exactly when one does |
| EncModel.LastEnvironmentWins | apps/api/src/materialization/pure/class-merger.ts:50-188 | of groups merged in a given order, the last with a non-empty environment decides it, and there is none exactly when none has one |
| EncModel.DocCongruent | apps/api/src/materialization/pure/class-merger.ts:50-188 | a node's document and applied groups are unchanged by an edit that leaves the groups it matches, and their rank and contribution, as they were |
| EncDocument.HighestRankSetsParameter | apps/api/src/materialization/pure/rule-evaluator.ts:175-185 | a matching group decides a parameter of the document when every other matching group that sets it has a lower rank, or the same rank and a smaller id |
| EncDocument.HighestRankSetsClassParameter | apps/api/src/materialization/pure/rule-evaluator.ts:175-185 | the same of a parameter of a class |
| EncDocument.HighestRankSetsEnvironment | apps/api/src/materialization/pure/class-merger.ts:138-170 | the same of the environment, an empty one counting as none |
| EncDocument.ParameterSetExactly | apps/api/src/materialization/pure/class-merger.ts:111-137 | a parameter is in the document exactly when a matching group sets it |
| EncDocument.ClassDeclaredExactly | apps/api/src/materialization/pure/class-merger.ts:80-95 | a class is in the document exactly when a matching group names it |
| EncDocument.ClassParameterSetExactly | apps/api/src/materialization/pure/class-merger.ts:80-126 | a parameter of a class is in the document exactly when a matching group sets it |
| EncDocument.EnvironmentAbsentExactly | apps/api/src/materialization/pure/class-merger.ts:138-170 | the document has no environment exactly when no matching group has a non-empty one |
| EncDocument.DocumentOfNode | apps/api/src/materialization/materializer.service.ts:288-306 | a managed node's document is that for its projected facts, and an unmanaged name's that for none |
| EncDocument.DisabledMatchesNothing | apps/api/src/materialization/pure/rule-evaluator.ts:149-150 | a disabled group matches nothing, whatever its strategy |
| EncDocument.PinnedMatchesPins | apps/api/src/materialization/pure/rule-evaluator.ts:152-154 | an enabled pinned group matches its pins, whatever its rules |
| EncDocument.OneRuleMatches | apps/api/src/materialization/pure/rule-evaluator.ts:156-162 | with one rule an enabled group matches where the rule holds, whatever its pins; with none it matches nothing |
| EncDocument.RulesNarrowOrWiden | apps/api/src/materialization/pure/rule-evaluator.ts:156-162 | over two lists of rules an all-rules group matches the intersection and an any-rule group the union |
| EncDocument.SafeNameStaysInside | apps/api/src/materialization/posix-enc-storage.ts:35-47 | a certname that may become a file name is short and has no separator, no hidden start and no double dot |
| EncDocument.SafeNamesJoin | apps/api/src/materialization/posix-enc-storage.ts:35-47 | and letters, digits and safe names joined by dots, hyphens, underscores or nothing are accepted |
| EncOutbox.EditKeepsInv | apps/api/src/classification/classification.service.ts:328-657 | any change of the groups keeps "stale implies queued" if each current node is re-queued or described exactly as before |
| EncOutbox.FullEditKeepsInvExactly | apps/api/src/materialization/materialization.service.ts:130-141 | an edit that requests a full reconcile keeps "stale implies queued" exactly when the walk already queued, if part-way, has not passed a node without a row of its own whose document or applied groups change |
| EncEdits.CreateKeepsInv | apps/api/src/classification/classification.service.ts:328-356 | creating a group needs no re-queueing: without rules and pins it matches nothing |
| EncEdits.UpdateKeepsInvExactly | apps/api/src/classification/classification.service.ts:358-411 | a rename needs no rewrite, and any other field change keeps the invariant exactly under that condition |
| EncEdits.RemoveKeepsInv | apps/api/src/classification/classification.service.ts:413-444 | re-queueing the nodes recorded with the group and its pins is enough when it is removed |
| EncEdits.ReplaceRulesKeepsInvExactly | apps/api/src/classification/classification.service.ts:446-479 | replacing rules keeps the invariant exactly under that condition |
| EncEdits.ContributeKeepsInv | apps/api/src/classification/classification.service.ts:481-574 | class and parameter edits need only the nodes the group currently classifies |
| EncEdits.RepinKeepsInv | apps/api/src/classification/classification.service.ts:576-632 | pin changes need only the nodes whose pin changed and the ones classified |
| EncEdits.RefusedReparentingsAreCycles | apps/api/src/classification/classification.service.ts:364-385 | in a forest a re-parenting to an existing group is refused exactly when it would close a cycle |
| EncEditResults.CreateStores | apps/api/src/classification/classification.service.ts:333-356 | a new group has the given fields, no rules, classes, parameters or pins, and nothing else changes |
| EncEditResults.CreateRefusedExactly | apps/api/src/classification/classification.service.ts:333-336 | a creation goes through exactly when the name is free and the parent, if given, exists |
| EncEditResults.UpdateStores | apps/api/src/classification/classification.service.ts:364-388 | each field that the patch gives has the given value, and the others, the rules, classes, parameters and pins, and every other group are as before |
| EncEditResults.UpdateQueues | apps/api/src/classification/classification.service.ts:388-410 | a full reconcile is made due at once exactly if a field besides the name is given, and no other row changes |
| EncEditResults.UpdateRefusedExactly | apps/api/src/classification/classification.service.ts:364-372 | in a forest an update goes through exactly when the group exists, no other has the name, and the parent exists and closes no cycle |
| EncEditResults.RemoveStores | apps/api/src/classification/classification.service.ts:413-444 | a group is removed exactly if it exists and has no children, and nothing but it goes |
| EncEditResults.ReplaceRulesStores | apps/api/src/classification/classification.service.ts:446-479 | the rules are the given ones and the rest of the group stays |
| EncEditResults.AssignClassStores | apps/api/src/classification/classification.service.ts:481-505 | the class has exactly the given parameters, and the other classes and the rest stay |
| EncEditResults.RemoveClassStores | apps/api/src/classification/classification.service.ts:507-526 | a class that is assigned goes and nothing else does; any other request is refused |
| EncEditResults.SetParameterStores | apps/api/src/classification/classification.service.ts:528-552 | the parameter has the given value, and the other parameters and the rest stay |
| EncEditResults.RemoveParameterStores | apps/api/src/classification/classification.service.ts:554-574 | a parameter that is set goes and nothing else does; any other request is refused |
| EncEditResults.AddPinsStores | apps/api/src/classification/classification.service.ts:576-609 | the group is pinned to what it was pinned to and the given names |
| EncEditResults.RemovePinStores | apps/api/src/classification/classification.service.ts:611-632 | a pinned name is let go and nothing else is; any other request is refused |
| EncEditResults.RemoveClassUndoes | apps/api/src/classification/classification.service.ts:481-526 | removing a class just assigned, and not there before, restores the groups |
| EncEditResults.RemoveParameterUndoes | apps/api/src/classification/classification.service.ts:528-574 | the same of a parameter |
| EncEditResults.RemovePinUndoes | apps/api/src/classification/classification.service.ts:576-632 | the same of a pin |
| EncEditResults.SetParameterShows | apps/api/src/classification/classification.service.ts:528-552 | a parameter written to a group is in the document of each node for which no other matching group with it outranks the group |
| EncEditResults.ContributionQueues | apps/api/src/classification/classification.service.ts:413-444 | a removal or a change of what a group contributes makes due exactly the rewrites of its pins and of the nodes with it on record |
| EncEditResults.ContributionEdits | apps/api/src/classification/classification.service.ts:481-574 | the class and parameter edits queue what any such change queues |
| EncEditResults.PinsQueue | apps/api/src/classification/classification.service.ts:576-609 | pinning also makes due the rewrites of the names pinned, and no others |
| EncEditResults.UnpinQueues | apps/api/src/classification/classification.service.ts:611-632 | unpinning makes due exactly the rewrites of the former pins and of the nodes with the group on record |
| EncEditResults.EnqueueDues | apps/api/src/materialization/materialization.service.ts:31-141 | an enqueue makes its keys pending and due, keeps kind, cursor, attempts and creation time of rows already there, and touches no other row |
| EncProjection.UpsertNodeKeepsInv | apps/api/src/puppetdb/node-projection.service.ts:407-456 | a refresh that queues nothing left the document as it was; any other re-queues the node |
| EncProjection.ListedIsRefreshed | apps/api/src/puppetdb/node-projection.service.ts:309-397 | after a refresh a listed active node has the environment and facts listed last and is not deactivated; an inactive one keeps what it had, flagged, and is not taken on |
| EncProjection.UnlistedStays | apps/api/src/puppetdb/node-projection.service.ts:342-376 | a refresh leaves every node that the answer does not list as it was |
| EncProjection.PruneTakesUnlisted | apps/api/src/puppetdb/node-projection.service.ts:514-535 | a prune leaves exactly the listed nodes, takes the others with their records, and makes their deletions due |
| EncProjection.PlausibleAnswerPrunesExactly | apps/api/src/puppetdb/node-projection.service.ts:465-495 | when an answer lists only nodes on record, each once, exactly those are left if it lists any and at least half of the estate, and everything otherwise |
| EncProjection.PruneKeepsInvExactly | apps/api/src/puppetdb/node-projection.service.ts:514-535 | purging keeps every clause of the invariant, the order of deletions before rewrites included, exactly when no purged node has a rewrite queued without a deletion |
| EncPurge.PurgeKeepsFilesExactly | apps/api/src/materialization/materialization.service.ts:31-60 | after any purge, no way of projecting nodes and draining the queue, whatever writes fail, leaves a purged node managed, without a file and without a row of its own, if and only if no purged node with a valid file name had a rewrite queued without a deletion |
| EncPurge.UnsafePurgeLoses | apps/api/src/materialization/materializer.service.ts:179-217 | for every world and every such node there is a run that loses it, and if no full reconcile was queued then nothing is left in the queue that would write it |
| EncPurge.PurgeWithQueuedRewriteLosesFile | apps/api/src/puppetdb/node-projection.service.ts:341-385 | a run from an empty installation in which the guard lets half of the estate go and a node that returns ends without a file and with nothing queued that would write it |
| EncProjection.ProjectKeepsInvExactly | apps/api/src/puppetdb/node-projection.service.ts:309-397 | a whole projection keeps the invariant exactly when its prune, if the guard lets it run, is safe |
| EncProjection.PruneLosesHalfExactly | apps/api/src/puppetdb/node-projection.service.ts:465-495 | an answer that lists only nodes on record, each once, never costs more than half of the estate; any other does exactly when the guard lets it through and its repeated names and strangers are more than it has to spare over half |
| EncProjection.InactiveStrangersDefeatGuard | apps/api/src/puppetdb/node-projection.service.ts:341-376 | as many inactive strangers as cached nodes let the prune remove every node |
| EncDrain.BatchStepByStep | apps/api/src/materialization/materializer.service.ts:176-232 | claiming a whole batch first and then running it equals taking its rows one at a time |
| EncEffects.WriteRecords | apps/api/src/materialization/materializer.service.ts:273-346 | writing a managed node leaves its document on disk and on record with its groups, and the revision moves exactly when the file did not already hold that document |
| EncEffects.WriteOfUnmanaged | apps/api/src/materialization/materializer.service.ts:300-317 | writing an unmanaged name leaves a file and no record |
| EncEffects.DeletionClears | apps/api/src/materialization/materializer.service.ts:375-395 | a deletion leaves neither file nor record |
| EncEffects.EffectsAreLocal | apps/api/src/materialization/materializer.service.ts:273-395 | neither touches another name, a node, a group or the queue |
| EncEffects.EffectTwice | apps/api/src/materialization/materializer.service.ts:273-395 | writing or deleting twice is doing it once, the revision included |
| EncEffects.BackoffDoubles | apps/api/src/materialization/materializer.service.ts:245-250 | the backoff starts at two seconds and doubles up to five minutes |
| EncEffects.FailuresRunOut | apps/api/src/materialization/materializer.service.ts:234-269 | a job that keeps failing stays pending until it failed as often as allowed, with a backoff after each failure, and is claimed no more after that |
| EncEffects.BatchIsOldestDue | apps/api/src/materialization/materializer.service.ts:176-200 | a claim takes due rows, oldest first, and leaves out a due row only if it is full and the row is no older |
| EncDrainInv.NodeJobKeepsCoverage | apps/api/src/materialization/materializer.service.ts:273-395 | running, failing or deleting one node's job leaves every managed node current or queued |
| EncDrainInv.FullJobKeepsCoverage | apps/api/src/materialization/materializer.service.ts:410-453 | one chunk of the walk leaves every managed node current, queued or ahead of the new cursor |
| EncDrainInv.BatchDeletesAhead | apps/api/src/materialization/materializer.service.ts:179-188 | a claimed batch runs a node's deletion before its rewrite, or leaves the rewrite for later |
| EncDrainInv.BatchKeepsInv | apps/api/src/materialization/materializer.service.ts:176-269 | a drained batch keeps the invariant whatever writes fail |
| EncDrainInv.AbortKeepsInv | apps/api/src/materialization/materializer.service.ts:176-232 | a rolled-back batch keeps the invariant after any number of file writes that cannot be undone |
| EncRun.StepKeepsInvExactly | apps/api/src/materialization/materializer.service.ts:116-453 | every action keeps "stale implies queued", and the four that may not, changing a group, replacing rules, purging and sweeping, keep it exactly under their conditions |
| EncRun.RunsKeepInv | apps/api/src/materialization/materializer.service.ts:116-453 | in every state of every run under those conditions, each managed node is current or covered by a queued row |
| EncRun.UnsafeNameBlocksForever | apps/api/src/materialization/posix-enc-storage.ts:43-59 | while an unsafe certname is managed, a full reconcile that has yet to reach it is in the queue after every run that does not purge it |
| EncRun.SettledNodeIsCurrent | apps/api/src/materialization/materializer.service.ts:116-453 | from an empty installation, a node that nothing covers has the file and record its groups describe |
| EncRun.SettledFileFollowsRank | apps/api/src/materialization/materializer.service.ts:116-453 | from an empty installation, the file of a node that nothing covers has, for each parameter, the value of the matching group that outranks the others with it |
| EncRun.RequestRestoresExactly | apps/api/src/materialization/reconciler.service.ts:138-158 | whatever happened to files and records, requesting a full reconcile makes "stale implies queued" true again exactly when no walk was part-way or it had passed no stale node without a row |
| EncRun.HealsOverRuns | apps/api/src/materialization/reconciler.service.ts:138-158 | from any files and records, after a request and whatever follows it, a node nothing covers has its current file and record |
| EncRun.ReturnedNodeKeepsFile | apps/api/src/materialization/materialization.service.ts:31-60 | after a safe purge, whatever follows, a returned node that nothing covers has its file and no deletion is left to take it |
| EncRun.RunsKeepHierarchy | apps/api/src/classification/classification.service.ts:333-435 | every run keeps the group hierarchy acyclic with existing parents |
| EncReconcile.SweepKeepsInvExactly | apps/api/src/materialization/reconciler.service.ts:227-263 | the orphan sweep keeps the invariant exactly when every managed node it sweeps away is still queued |
| EncReconcile.StepShrinks | apps/api/src/materialization/materializer.service.ts:116-165 | every job that does not fail shrinks queued rows plus nodes ahead of the cursor |
| EncReconcile.DrainEnds | apps/api/src/materialization/materializer.service.ts:116-165 | a drain without faults over valid names, each batch claimed at its own time, claims at most as many batches as that measure |
| EncReconcile.DrainExists | apps/api/src/materialization/materializer.service.ts:116-165 | and whatever the clock says at each claim, there is one that leaves nothing due |
| EncReconcile.HealsExactly | apps/api/src/materialization/reconciler.service.ts:138-158 | with everything else drained or failed, from any disk and records, a reconcile and any later drain to the end, however batched and whenever it claims, leave every managed node current exactly when the nodes a part-way walk had passed already were, and of other names only the files the sweep could not remove |
| EncReconcile.HealsAnyDisk | apps/api/src/materialization/reconciler.service.ts:138-158 | so without a part-way walk exactly the managed nodes' documents and records are left, and the files the sweep could not remove |
| EncReconcile.DrainIsWalk | apps/api/src/materialization/materializer.service.ts:116-165 | however and whenever claims batch the work, a drain with only the reconcile pending writes the nodes ahead of the cursor in certname order, each once, and nothing else |
| EncReconcile.UnsafeNameBlocksBatch | apps/api/src/materialization/posix-enc-storage.ts:43-59 | no batch, whatever fails in it, removes a full reconcile that has yet to reach a managed unsafe name |
| EncWalk.VisitsIncrease | apps/api/src/materialization/materializer.service.ts:410-453 | over an estate that changes between chunks, writes happen in strictly increasing certname order |
| EncWalk.WalkWritesOnce | apps/api/src/materialization/materializer.service.ts:410-453 | over every run, whatever happens between the chunks, an undisturbed walk writes each node that is not purged meanwhile exactly once |
| EncWalk.RunVisits | apps/api/src/materialization/materializer.service.ts:410-453 | what the claimed rows of the walk write over a run is what a walk over the estate as each chunk finds it visits, and both end together |
| EncWalk.ContinuationIsFresh | apps/api/src/materialization/materializer.service.ts:430-450 | the row that carries a walk on is due at once with no attempt spent |
| EncWalk.WalkEnds | apps/api/src/materialization/materializer.service.ts:428-447 | a walk over a bounded estate ends within its size over the chunk size, plus one, chunks |
| EncClaims.NoSwallowedEdit | apps/api/src/materialization/materializer.service.ts:189-269 | a row enqueued while a batch is in flight is in the committed queue with its own status, schedule, attempts and cursor |
| EncClaims.ClaimedKeyRestarts | apps/api/src/materialization/materializer.service.ts:189-217 | a claimed key requested again in flight starts from scratch, if the enqueue does not wait for the batch |
| EncClaims.EnqueueAfterCommit | apps/api/src/materialization/materialization.service.ts:31-48 | an enqueue that does wait is queued and due, and keeps the attempts and cursor of a row the batch settled |
| EncClaims.RollbackRestores | apps/api/src/materialization/materializer.service.ts:189-217 | after a rollback every claimed key is queued again |
| EncLimits.PartWayWalkSwallowsEdit | apps/api/src/materialization/materialization.service.ts:130-141 | for every estate as large as a chunk and every node of it a run from an empty installation reaches a state in which disabling its group leaves it stale with nothing queued for it |
| EncLimits.FailedDeletionRewritesExactly | apps/api/src/materialization/materializer.service.ts:255-269 | a claimed deletion of an unmanaged name that fails comes back as a write, may be claimed again exactly when attempts are left and its backoff is over, and then leaves a file |
| EncLimits.FailedDeletionLeavesFile | apps/api/src/materialization/materializer.service.ts:234-269 | a run from an empty installation in which the guard lets a purge through, its deletion fails once, and the queue runs dry with a file for the purged node |
| EncLimits.SweepRemovesCurrentFile | apps/api/src/materialization/reconciler.service.ts:227-263 | for every estate as large as a chunk and every node of it, a run after which a sweep with the node list from before the run takes the node's current file away with nothing queued to write it |
| EncStore.MaterializationService.Upsert | apps/api/src/materialization/materialization.service.ts:31-48 | the upsert inserts a fresh row or makes the queued one due, keeping kind, cursor and creation time |
| EncStore.MaterializationService.EnqueueNodes | apps/api/src/materialization/materialization.service.ts:72-84 | the loop over certnames upserts exactly their rows |
| EncClassification.ClassificationService.Update | apps/api/src/classification/classification.service.ts:358-411 | the service refuses what the specification refuses, for the same reason, and otherwise commits its new state |
| EncClassification.ClassificationService.Remove | apps/api/src/classification/classification.service.ts:413-444 | as Update, for removal |
| EncClassification.ClassificationService.AddPins | apps/api/src/classification/classification.service.ts:576-608 | as Update, for added pins |
| EncMaterializer.NodeProjector.UpsertNode | apps/api/src/puppetdb/node-projection.service.ts:407-456 | the transaction, and that it reports a change exactly for a new node, another environment or facts of another meaning |
| EncMaterializer.NodeProjector.ProjectLocked | apps/api/src/puppetdb/node-projection.service.ts:309-397 | refreshing in list order and pruning once, as a chain of committed states |
| EncMaterializer.Materializer.MaterializeNode | apps/api/src/materialization/materializer.service.ts:273-361 | the file and record written, the revision kept when the content is the same, nothing on failure |
| EncMaterializer.Materializer.DrainLocked | apps/api/src/materialization/materializer.service.ts:176-232 | the claim is the oldest due rows, the new state is the batch's, the counts are of its jobs |
| EncMaterializer.Materializer.Drain | apps/api/src/materialization/materializer.service.ts:116-165 | a pass commits a chain of batches and its claimed, succeeded and failed totals are theirs; it stops on a lost lock, an empty claim or the budget |
| EncMaterializer.Reconciler.RemoveOrphans | apps/api/src/materialization/reconciler.service.ts:227-263 | the loop removes exactly the orphans that can be removed and counts them |
| Forest.WalkDecides | apps/api/src/classification/classification.service.ts:692-718 | the walk accepts exactly the chains that reach a root without meeting the group |
| Forest.AssertNoCycle | apps/api/src/classification/classification.service.ts:692-718 | the loop ends on any hierarchy and accepts exactly those chains |
| Forest.CheckIsExact | apps/api/src/classification/classification.service.ts:692-718 | on an acyclic hierarchy it accepts exactly the re-parentings that keep it acyclic |
| Forest.RemoveKeepsForest | apps/api/src/classification/classification.service.ts:418-435 | removing a group without children keeps a forest |
| CertProtocol.TailSafeExactly | apps/cert-helper/src/install.ts:97-112 | with nothing pending, an install keeps live whole at every file operation exactly unless it opens a file of the set that is live |
| CertProtocol.StageSafeExactly | apps/cert-helper/src/pending.ts:193-219 | the same of a whole install request, of the set that is live after what is pending was undone |
| CertProtocol.ConfirmSafe | apps/cert-helper/src/pending.ts:99-122 | the same for a confirmation, its pruning included |
| CertFiles.PruneIsSafe | apps/cert-helper/src/install.ts:274-296 | pruning never removes the live set or the one a rollback would restore |
| CertProtocol.OverwritingBreaksLive | apps/cert-helper/src/install.ts:97-112 | writing over the live set breaks live as soon as its certificate file is opened |
| CertProtocol.CutAccountedExactly | apps/cert-helper/src/pending.ts:59-219 | from an accounted state, any request cut after any number of its file operations leaves what is live committed, or pending with a committed set to go back to, exactly when the cut is not between a removed record and the swap back, nor between a swap and its record or swap back |
| CertProtocol.RunAccounted | apps/cert-helper/src/pending.ts:59-219 | over every run of requests, crashes and thrown errors that miss those stretches, an uncommitted certificate is live only while pending |
| CertProtocol.WholeRequestExposed | apps/cert-helper/src/install.ts:152-183 | a request that runs to its end ends in such a stretch only if a rollback failed or an error was thrown after the swap |
| CertProtocol.AbortAfterSwapStrands | apps/cert-helper/src/install.ts:183-185 | an error thrown by pruning or by writing the record always leaves an uncommitted certificate live that nothing will undo |
| CertProtocol.CrashStrandsExactly | apps/cert-helper/src/pending.ts:144-169 | a crash at any operation of any request, followed by a recovery that works, leaves an uncommitted certificate live with no record exactly in those stretches |
| CertProtocol.ConfirmationCrash | apps/cert-helper/src/pending.ts:99-122 | a crash in a confirmation: recovery undoes the install before its first operation, and leaves the confirmed set live after it |
| CertProtocol.SweptRequestsLeaveNothingOverdue | apps/cert-helper/src/pending.ts:125-141 | after a sweep that could remove the record nothing overdue is pending |
| CertHelper.Helper.InstallBundle | apps/cert-helper/src/install.ts:87-199 | performs exactly the operations of the install script, its failure branches and thrown errors included, with its outcome |
| CertHelper.Helper.StageBundle | apps/cert-helper/src/pending.ts:193-219 | recovers, installs and holds pending, operation by operation, up to the first that throws |
| CertHelper.Helper.ConfirmPending | apps/cert-helper/src/pending.ts:99-122 | expiry before the token, the record removed before old sets, operation by operation up to the first that throws |
| CertHelper.Helper.HandleInstall | apps/cert-helper/src/server.ts:77-146 | sweeps before anything else and stages exactly when the sweep did not throw and the grant was accepted |
| CertHelper.InstallRequestSafeExactly | apps/cert-helper/src/server.ts:42-146 | an install request keeps live whole at every operation exactly unless it gets as far as opening a file of the set that is live by then |
| CertHelper.RefusedRequestSweeps | apps/cert-helper/src/server.ts:58-66 | a refused request leaves nothing overdue pending |
| CertResults.InstalledExactly | apps/cert-helper/src/install.ts:87-199 | an install is kept exactly when the bundle was accepted, the set written whole and swapped in, the fingerprint read back is the upload's, the listener answered with the one read off the disk after the reload, and old sets could go |
| CertResults.InstalledIsLive | apps/cert-helper/src/install.ts:97-199 | then the new set is whole and live and the one before it is still there |
| CertResults.DisagreementUndoesSwap | apps/cert-helper/src/install.ts:136-183 | if the disk or the listener disagreed after the swap, the swap is undone, and the answer is `rolled-back` exactly when the listener then served the previous fingerprint, where one is known |
| CertResults.EarlyFailureKeepsLive | apps/cert-helper/src/install.ts:87-125 | a rejected bundle touches nothing and a failed write or swap leaves what is live |
| CertResults.RolledBackExactly | apps/cert-helper/src/install.ts:208-252 | a rollback worked exactly when there was a set to go back to, the swap went through and the listener answered with the previous fingerprint, where one is known |
| CertResults.RollbackSwaps | apps/cert-helper/src/install.ts:208-261 | whatever its answer, it changes nothing but the link |
| CertResults.RemovableExactly | apps/cert-helper/src/install.ts:274-296 | an old set goes exactly when it is neither kept nor the previous one and three such sets are newer |
| CertResults.StagedIsHeld | apps/cert-helper/src/pending.ts:193-219 | a staged set is live, and the record names it, the set live before, the token and the end of the window |
| CertResults.ConfirmedExactly | apps/cert-helper/src/pending.ts:99-122 | a confirmation commits exactly when something is pending, the window is open, the token is the one staged and nothing throws; the window is checked first |
| CertResults.ConfirmationResult | apps/cert-helper/src/pending.ts:99-122 | a confirmed set stays live with nothing pending and only old sets gone, a wrong token changes nothing, a late one undoes the install |
| CertResults.StagedThenConfirmed | apps/cert-helper/src/pending.ts:99-219 | what was staged and is confirmed in time with its token is live and no longer pending |
| AuditModel.StepConserves | apps/api/src/auth/audit-delivery.outbox.ts:81-194 | each step of workers, crashes and sweeps keeps every job exactly one of queued, completed or dropped |
| AuditModel.EnqueuedIsAccountedFor | apps/api/src/auth/audit-delivery.worker.ts:136-218 | over every run, jobs enqueued = queued + completed + recorded drops, and completed jobs were in a batch the transport accepted |
| AuditModel.LeaseExcludes | apps/api/src/auth/audit-delivery.outbox.ts:114-126 | a leased job is in no claim before its lease runs out, whatever workers and sweepers do meanwhile short of rescheduling that job |
| AuditModel.ClaimIsOldestDue | apps/api/src/auth/audit-delivery.outbox.ts:114-148 | a claim takes due jobs, oldest first, and leaves out a due job only if it is full and the job is no older |
| AuditModel.EnqueuedOnce | apps/api/src/auth/audit-delivery.outbox.ts:81-92 | a first enqueue makes the job due at once with no attempt spent, and a second one changes nothing |
| AuditServices.AuditOutbox.Claim | apps/api/src/auth/audit-delivery.outbox.ts:114-148 | leases the oldest due jobs, as many as fit, and removes nothing |
| AuditServices.ReschedulingKeepsJobs | apps/api/src/auth/audit-delivery.worker.ts:208-219 | rescheduling a batch removes no job, gives each one attempt more and its capped backoff, and leaves others alone |
| AuditServices.FailedDrainBacksOff | apps/api/src/auth/audit-delivery.worker.ts:136-219 | a drain that fails gives each job it claimed one attempt more and the backoff of its attempts, and leaves the others as they were |
| AuditServices.BackoffDoubles | apps/api/src/auth/audit-delivery.worker.ts:208-219 | the backoff doubles with every attempt up to its cap |
| AuditServices.AuditWorker.Drain | apps/api/src/auth/audit-delivery.worker.ts:136-191 | a delivered batch is removed, a failed one backs off, and nothing happens unconfigured or without the lock |
| AuditServices.DrainIsThreeSteps | apps/api/src/auth/audit-delivery.worker.ts:136-191 | a delivering drain is claim, deliver, complete of the conserved runs |
| AuditServices.TakeOldest | apps/api/src/auth/audit-retention.sweeper.ts:202-219 | the rows taken are the requested number of candidates, none left out older than one taken |
| AuditServices.RetentionSweeper.CeilingBatch | apps/api/src/auth/audit-retention.sweeper.ts:226-264 | removes the oldest rows, never past the ceiling, and records the undelivered ones |
| AuditServices.RetentionSweeper.Sweep | apps/api/src/auth/audit-retention.sweeper.ts:141-195 | within its budget of rows; never below the ceiling; ran here without exhausting the budget means no aged row without a job remains and the table is within the ceiling; exhausted means it ran and all its batches but at most one were full; the counts are true |
| AuditServices.SweepIsTwoSteps | apps/api/src/auth/audit-retention.sweeper.ts:141-195 | a pass is two steps of the conserved runs |
| Tokens.FamiliesAreChains | apps/api/src/auth/token.service.ts:93-157 | after any run a family has at most one exchangeable token and one user |
| Tokens.ExchangedAtMostOnce | apps/api/src/auth/token.service.ts:102-157 | over any run a refresh token is exchanged at most once |
| Tokens.ExchangedInTime | apps/api/src/auth/token.service.ts:132-134 | every exchange of a run is of a token that has not expired by then |
| Tokens.TokensKeepTheirTerms | apps/api/src/auth/token.service.ts:102-213 | nothing in a run extends a token, moves it to another user or family, or makes a spent or revoked one good again |
| Tokens.PruneSparesLive | apps/api/src/auth/token.service.ts:306-312 | dropping what has expired drops exactly that and changes the exchange of no token |
| Tokens.RotatedExactly | apps/api/src/auth/token.service.ts:102-157 | a token is exchanged exactly when it is on record, live and unexpired, and its principal active |
| Tokens.ReuseEndsFamily | apps/api/src/auth/token.service.ts:117-128 | after a detected reuse, or a principal that is gone, no token of the family is ever exchanged again |
| Tokens.RevokeEndsFamilyExactly | apps/api/src/auth/token.service.ts:160-165 | revoking a token ends its family exactly when no other token of it is live |
| Tokens.RevokeAllSparesOnlyOwnFamily | apps/api/src/auth/token.service.ts:189-213 | every family of the user dies but the presented token's own, and no other row changes |
| Tokens.ForeignTokenSparesNothing | apps/api/src/auth/token.service.ts:189-213 | presenting someone else's token, or none on record, spares nothing in any later run |
| Tokens.ReplayEndsFamilyExactly | apps/api/src/auth/token.service.ts:102-128 | after the replay of a spent token its family is dead exactly if it was before or the token's row is there and was not revoked by itself |
| Tokens.PrunedReplayGoesUnnoticed | apps/api/src/auth/token.service.ts:306-312 | a run from the start in which a pruned spent token is replayed and the token that replaced it is exchanged right after |
| Tokens.TokenService.Rotate | apps/api/src/auth/token.service.ts:102-157 | exchanged exactly if on record, live, unexpired and its principal active; the verdict in the order of the checks; the spent and the new token, the revoked family, or the unchanged table |
| Tokens.TokenService.RevokeAllForUser | apps/api/src/auth/token.service.ts:189-213 | the update's filter is exactly the user's unspared rows |
| Grants.AcceptedAtMostOnce | packages/tls-grant/src/index.ts:65-124 | with a clock that does not go back and a lifetime of at most 600 seconds, a minted grant is accepted at most once though nonces are swept |
| Grants.SingleUseExactly | packages/tls-grant/src/index.ts:40-124 | a lifetime gives single use in every run exactly when it is at most 600 seconds |
| Grants.ValidExactly | packages/tls-grant/src/index.ts:81-124 | a grant is valid exactly when it carries this secret's seal, the version and the purpose, has a nonce and an expiry that has not come, and the nonce was not spent in the last ten minutes |
| Grants.RefusedExactly | packages/tls-grant/src/index.ts:101-121 | why a sealed token is refused: shape, purpose, age, and last that it was spent |
| Grants.SpentLast | packages/tls-grant/src/index.ts:56-121 | only an accepted grant has its nonce remembered, and no other nonce is forgotten before ten minutes |
| Grants.ForgedNeverAccepted | packages/tls-grant/src/index.ts:94-97 | over any run a token sealed with another secret is never accepted |
| Grants.ForgedMakesNoDifference | packages/tls-grant/src/index.ts:94-97 | taking a forged attempt out of a run changes neither what is accepted nor what is remembered |
| Grants.FreshGrantAcceptedExactly | packages/tls-grant/src/index.ts:40-124 | after any run that does not carry its nonce a minted grant is accepted exactly while it lives |
| Grants.SpentGrants.VerifyGrant | packages/tls-grant/src/index.ts:81-124 | the verdict in the order of the checks, signature first, and exactly which nonces are remembered afterwards |
| LogSink.RenameReads | apps/api/src/logging/file-log-sink.ts:182-196 | a rename into an empty generation loses nothing and one onto the oldest loses exactly that |
| LogSink.LostExactly | apps/api/src/logging/file-log-sink.ts:182-196 | what a completed rotation loses is exactly the oldest generation, if another is renamed over it |
| LogSink.FileLogSink.ShiftUp | apps/api/src/logging/file-log-sink.ts:182-196 | whichever rename fails, what is left reads as the history before or as the history without the oldest generation |
| LogSink.FileLogSink.Write | apps/api/src/logging/file-log-sink.ts:151-201 | a line is appended to what is kept; only a write that does not fit drops the oldest generation, and nothing else is lost, whichever call fails |
| LogSink.FileLogSink.ReadsAsLines | apps/api/src/logging/file-log-sink.ts:151-201 | reading generations oldest to newest gives the last whole lines written, and the torn start of one if the sink failed in it |
| LogSink.FileLogSink.BoundedSpace | apps/api/src/logging/file-log-sink.ts:182-201 | at most keep + 1 files, none over both the limit and the longest line |
| Regex.EscapedFindsLiteral | apps/api/src/puppetdb/pql-builder.ts:42-44 | searching for an escaped string finds exactly the strings that contain it |
| Pql.ConditionMeaning | apps/api/src/puppetdb/pql-builder.ts:97-124 | a compiled condition holds of a row exactly when the value satisfies the operator; a missing value is not unequal |
| Pql.RowsAgreeExactly | apps/api/src/puppetdb/pql-builder.ts:97-124 | the compiled fact conditions select a node exactly as the filter asks if and only if there is none, the node has an inventory row, or some condition asks for more than absence |
| Pql.BuildNodeQuery | apps/api/src/puppetdb/pql-builder.ts:126-190 | on every backend and node the query selects exactly the nodes the filter accepts but for those it misses, absent from the inventory and asked for absent facts alone; it is well formed exactly when every IN list has an element |
| Pql.NodeQueryAgreesExactly | apps/api/src/puppetdb/pql-builder.ts:126-190 | at one backend and node query and filter agree exactly unless the filter accepts a node the query misses |
| Pql.NodeQueryFaithfulExactly | apps/api/src/puppetdb/pql-builder.ts:126-190 | they agree on every backend and node exactly when the fact filter is empty or has a condition other than NOT_EXISTS |
| Pql.NotExistsLosesNode | apps/api/src/puppetdb/pql-builder.ts:118-120 | a backend and node on which NOT_EXISTS loses a node the filter accepts |
| Pql.AbsentExactlyForTrivialFilter | apps/api/src/puppetdb/pql-builder.ts:187-190 | the query is absent exactly when the filter accepts every node on every backend |
| Pql.BuildResourceQuery | apps/api/src/puppetdb/pql-builder.ts:277-312 | the same for resources: their parameters, and their nodes' facts but for the nodes missed |
| Pql.ResourceQueryAgreesExactly | apps/api/src/puppetdb/pql-builder.ts:277-312 | query and filter agree on a resource exactly unless its node is missed |
| Ldap.DecimalDigits | packages/contracts/src/auth.ts:1012-1020 | a port prints as digits that read back as the port |
| Ldap.PrintedUrlParsesBack | packages/contracts/src/auth.ts:1012-1055 | a valid host, port and protocol survive printing and parsing, bracketed IPv6 included; STARTTLS reads back as ldap |
| Ldap.ParsedUrlIsNormal | packages/contracts/src/auth.ts:1012-1055 | what was parsed prints to a URL that parses to the same |
| Ldap.UrlsIdentifyTargets | packages/contracts/src/auth.ts:1012-1020 | two valid targets that print alike are alike, STARTTLS and plain ldap aside |
| Ldap.PortByProtocol | packages/contracts/src/auth.ts:1027-1055 | a URL without a port means 636 for ldaps and 389 for ldap |
| Ldap.SpacesIgnored | packages/contracts/src/auth.ts:1027-1055 | white space around a URL is ignored |
| Ldap.SlashIgnored | packages/contracts/src/auth.ts:1027-1055 | and so is a slash at its end |
| Ldap.PlainHostsExactly | packages/contracts/src/auth.ts:1063-1084 | a name without colons is accepted exactly when it is a host name |
| Ldap.SingleLabels | packages/contracts/src/auth.ts:1080-1082 | a name without dots is a host name exactly when it is letters, digits and inner hyphens |
| Ldap.JoinedLabels | packages/contracts/src/auth.ts:1080-1082 | and one behind a dot exactly when both sides are, or nothing follows the dot |
| Ldap.AddressesExactly | packages/contracts/src/auth.ts:1075-1079 | a name with colons is accepted exactly when it has two of them and is made of hexadecimal digits, colons and dots |
| Ldap.ParseLegacyUrl | packages/contracts/src/auth.ts:1027-1055 | the parser with its local variables computes the specified parse |
| Ldap.UpgradeTwice | packages/contracts/src/auth.ts:1161-1200 | upgrading an upgraded row changes nothing, whatever is said about the password |
| Ldap.UpgradeReadsPrintedUrl | packages/contracts/src/auth.ts:1161-1200 | a row carrying a target's URL upgrades to that target's host, port and protocol |
| Ldap.UpgradedFromUrl | packages/contracts/src/auth.ts:1168-1176 | a row without a host takes it from its URL, and port and protocol unless it has its own that are not null |
| Ldap.UpgradedAddress | packages/contracts/src/auth.ts:1168-1177 | a row with a host, or whose URL says nothing, keeps its address |
| Ldap.UpgradedPort | packages/contracts/src/auth.ts:1190-1197 | and has a missing port filled in exactly when it names a known protocol, by that protocol |
| Ldap.UpgradedBind | packages/contracts/src/auth.ts:1182-1188 | a bind type is kept, and a missing one is regular exactly with a DN and a password, held or in the row |
| Ldap.UpgradedDialect | packages/contracts/src/auth.ts:1178-1180 | a dialect given as text becomes the detected one unless one was detected already |
| Ldap.UpgradeLeaves | packages/contracts/src/auth.ts:1160-1200 | the URL is gone and every other field is as it was |
| Ldap.UpgradeLegacySettings | packages/contracts/src/auth.ts:1161-1200 | the in-place edit of the copied row computes the specified upgrade |

## Left out

- EncReconcile.HealsAnyDisk: asks for safe certnames and no part-way walk, and the drain after the reconcile sees no failed write; EncReconcile.HealsExactly drops the second, and EncRun.HealsOverRuns the first and the last for the nodes nothing covers.
- EncWalk.WalkWritesOnce: is about walks none of whose chunks fails; a chunk that fails starts the walk again from the first node.
- EncPurge.PurgeKeepsFilesExactly: is about projecting and draining after the purge, and counts a node as lost even if a full reconcile queued as well may write its file again; without one queued, EncPurge.UnsafePurgeLoses shows that nothing will.
- EncClaims.ClaimedKeyRestarts: assumes that an enqueue of a key the open batch has deleted does not wait for it; EncClaims.EnqueueAfterCommit is the other reading.
- EncModel.LastClassWriterWins: says what is merged; the attribution and conflict lists beside it are not modelled.
- AuditServices.RetentionSweeper.Sweep: another replica's writes between the batches of one pass are steps of AuditModel runs, not of this method.
- AuditModel.LeaseExcludes: a worker that reschedules after its own lease ran out can make another worker's lease end early; delivery stays at least once.
- LogSink.FileLogSink.Write: a live file unlinked or replaced by others, pruning of other hosts' files and a restart after a torn line are not modelled.
- Ldap.PrintedUrlParsesBack: ports that are not all digits go through a parameter for JavaScript's Number; inherited property names as protocols are not modelled.
- Pql.BuildNodeQuery: fact and parameter values are strings, null is two-valued, and patterns beyond literals, dots and single stars go to a parameter; case sensitivity of `~` is the engine's.
- Single-rule evaluation (operators on facts), receipts, the revision stamp, YAML text and hashing, logging and warnings.
- Concurrent calls of rotate on one token, overlapping certificate-helper requests, and isolation anomalies of the database.
- Wall-clock pacing, jitter, timers, transports, cryptography, HTTP controllers and the web application.
- Paging and incremental polling of PuppetDB facts, saved queries, report and event queries: they repeat shapes proved here.
- `enqueueForGroup` in materialization.service.ts is never called and is not modelled.
