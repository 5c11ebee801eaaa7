# Verified models of the knowledge-command stateful cores

This project models, in Dafny 4.11, the stateful protocols behind knowledge publication,
projection, retrieval and provisioning, and proves what they guarantee over whole runs.
`dafny verify dfyconfig.toml` checks everything.

| file | what it models |
|---|---|
| `Text.dfy`, `Ids.dfy`, `Knowledge.dfy` | string order and canonical sorting; lists of identities; results, error codes, addresses, canonical digests |
| `Reconcile.dfy`, `PreviewMeaning.dfy`, `Application.dfy`, `LayoutOrder.dfy` | the diff of a desired state against an observed one, what it asks for in terms of the plan, what the Writer's store makes of its ChangeSet, and when it will refuse it |
| `Publication.dfy`, `PublicationSafety.dfy`, `PublicationPending.dfy`, `PublicationLease.dfy`, `PublicationFailure.dfy`, `Runtime.dfy` | the integration publish protocol as a state machine, its safety theorems, how a pending command ends, who can take the lease when, a run that loses a publication, and the durable record edited in place |
| `Compile.dfy`, `Meaning.dfy`, `UnitOrder.dfy`, `Residual.dfy`, `Retrieval.dfy` | projection documents, what they mean without the compiler, where the order of units shows in them, the logical search predicate, and exactness of a search over a superset provider |
| `Projection.dfy`, `ChangedIds.dfy`, `Sync.dfy` | a projection that must equal the full compile of its basis; when the list of changed ids is complete; the maintenance calls on one engine |
| `Budget.dfy`, `Paging.dfy`, `Relations.dfy` | the shared search budget, continued searches, continued relation lookups |
| `ServingState.dfy`, `StatePublication.dfy` | refreshing Serving State, and publishing it next to concurrent searches and Close |
| `Targets.dfy`, `Controller.dfy`, `StateNotices.dfy` | the desired/applied work queue, the catch-up of projection and consumers, and the queue of State notices |
| `ManagedLedger.dfy`, `Provisioning.dfy`, `Granting.dfy`, `GrantOverlap.dfy`, `Creation.dfy` | the allocation ledger, provisioning over crashes and retries, its one-time grant, a run of two processes that grants twice, and one creation call |
| `Outbox.dfy`, `OutboxLock.dfy`, `Bindings.dfy` | the hook outbox and its lock map, identity bindings |
| `MountTree.dfy`, `MountFiles.dfy` | what adding files to a mount tree means, and the linked directories it is done on in place |

Shape of the models. A concurrent or crash-prone protocol is a `World` with `Event`s, an
`Enabled` guard and a `Next` function; every critical section or database transaction is one
event, a crash is the disappearance of the operation, and theorems quantify over all executions.
Code that works in place is a class or a method with loops, proved equal to a specification
function or to a direct statement of its result; the theorems are about those specifications.
Canonical digests are injective datatypes. Clocks, random identities, the network, providers,
drivers, files and collectors are parameters with arbitrary answers, constrained only where a
predicate (`Honest`, `Faithful`, `Sound`, `KeepsGuarantee`, `Deployable`) says so.

Results where the code does not do what one might expect, each with the exact condition:

- A pending command released as rejected may have been published: the Writer's ledger gives up its
  entry on any error of the apply, also after the head has moved. It is ever published exactly by a
  step whose apply failed after publishing, or while another apply failed with a code of rejection
  that nothing justified (`PublicationSafety.RejectedIsPublishedIff`,
  `PublicationFailure.PublishedThenRejected`).
- A pending command that is neither acknowledged nor refused with a code of rejection, such as one
  that switches an object's layout, stays pending through every retry, and no activation is possible
  meanwhile; exactly a final answer to the lease holder ends it (`PublicationPending.PendingLeavesIff`,
  `PublicationPending.UnansweredStaysPending`).
- A relation continuation does not bind the candidate scope, so a chain under changing scopes finds
  each stretch of the stream through the scope of its own lookup (`Relations.ResumedLookupPerScope`).
- A continuation issued by a relation lookup is refused later exactly when the request was fresh
  and the budget stopped it before the first page (`Relations.RelationsAt`).
- A second reconcile preview is empty exactly when no desired unit drops a declaration the store
  keeps (`Application.SecondPreviewEmpty`); a ChangeSet is refused exactly when a changed desired
  unit meets the other layout on its object, stored and not removed under a smaller key, or put
  under a smaller key (`LayoutOrder.PreviewLandsIff`, `Application.LayoutSwitchRefused`).
- The scan that finds changed objects by value misses a change of declarations alone; it is complete
  exactly when every object that keeps its value has units that say the same at both commits, and
  always if their addresses and schema references are the same (`ChangedIds.ScanIsCompleteIff`,
  `ChangedIds.DeclaredAlikeSuffices`, `ChangedIds.ScanMissesDeclarations`).
- The text of a projection document follows the order of the units. Rearranging units keeps the
  document if those with text keep their order; if different units have different texts without
  blanks, only then (`UnitOrder.SameSpeakersSameDocument`, `UnitOrder.RearrangedIsSameIff`,
  `UnitOrder.TextFollowsUnitOrder`).
- A record saved beyond RESERVED keeps the ledger loadable exactly when it carries a backend id and
  a head; the saver does not check it (`ManagedLedger.SaveKeepsIff`).
- Overlapping processes can call the grant callback after READY, exactly when the calling operation
  began before the receipt was written (`Granting.GrantsReadyIff`, `GrantOverlap.OverlapGrantsAgain`);
  under the per-directory lock none does (`Provisioning.NoGrantAfterReady`), and a READY replay never
  does (`Granting.ReadyReplayNeverGrants`).
- A State notice is lost exactly when a refresh of its key that began before it was enqueued succeeds
  and nobody enqueues the key again (`StateNotices.LostIff`, `StateNotices.LostIffOvertaken`).
- An append to the outbox that a crash tears blocks it: items queued behind it are kept and never
  delivered (`Outbox.TornBlocks`).

## Model

| member | source | states |
|---|---|---|
| Text.SplitUnique | index/extract.go:69-74 | a first part free of the separator and the rest are determined by their concatenation |
| Text.LessMeans | index/extract.go:92-106 | Go's order of strings: at the first place where they differ the smaller one has ended or has the smaller character |
| Text.SortIsCanonical | connector/preview.go:134-136 | two insertion orders of elements with pairwise distinct keys sort to the same list |
| Knowledge.KeyIdentifies | knowledge/address.go:28-32 | for addresses without the separator the key determines object, aspect and member |
| Reconcile.DesiredMapEntries | connector/preview.go:163-182 | the desired map holds exactly the listed units, each under its own key, all scoped and writable |
| Reconcile.DesiredMapFailsIff | connector/preview.go:163-182 | it succeeds exactly if no unit is invalid, out of scope or a repetition, and fails with the fault of the first that is |
| Reconcile.ObservedMapEntries | connector/preview.go:184-195 | the observed map holds in-scope observations under their keys, and one for every in-scope observation |
| Reconcile.ObservedMapIsLast | connector/preview.go:184-195 | namely the last one of its key |
| Reconcile.ObservedAddrsEntries | connector/preview.go:197-207 | the removable addresses are those of observed in-scope units |
| Reconcile.OperationsHaveDistinctKeys | connector/preview.go:88-133 | two different operations of one preview never touch the same address key |
| Reconcile.SortedOperationsShape | connector/preview.go:134-136 | the operation list is strictly ascending in its keys and holds exactly the operations of the diff, whatever order maps are iterated in |
| Reconcile.BuildDesired | connector/preview.go:163-182 | the loop builds the specified map or fails as specified |
| Reconcile.BuildObserved | connector/preview.go:184-195 | the loop builds the specified map and counts what it ignores |
| Reconcile.CollectPuts | connector/preview.go:88-117 | for any iteration order the loop emits exactly one PUT per new or changed desired unit, with the digest precondition |
| Reconcile.CollectRemovals | connector/preview.go:118-133 | for any iteration order the loop emits exactly one REMOVE per observed, undesired unit |
| Reconcile.Preview | connector/preview.go:73-161 | the whole method, over arbitrary map orders, returns the one specified preview: same operations, same ChangeSet, hence same command id |
| PreviewMeaning.PreviewMeans | connector/preview.go:73-161 | a preview asks for exactly these operations, ascending in their keys: each desired unit that was not seen in scope or was seen changed is put as it is, conditioned on what was last seen; in reconcile mode what was seen and is not desired is removed. Target, ref, base, message and provenance are the plan's |
| PreviewMeaning.PreviewFailsIff | connector/preview.go:73-88 | it fails exactly if the plan or a desired unit is at fault, and with which code |
| Application.PreviewLands | internal/repofile/apply.go:9-123 | if Observed is exact on the scope, the Writer's store accepts the ChangeSet exactly when no PUT clashes with the layout standing before it, and then equals the target; otherwise OBJECT_ID_CONFLICT |
| Application.TargetMeetsDesired | connector/preview.go:73-161 | the target agrees with every desired unit in scope, keeps everything out of scope, keeps undesired units in patch mode and drops them in reconcile mode |
| Application.SecondPreviewEmpty | connector/preview.go:137-160 | a second preview over the result is empty exactly when no desired unit drops a declaration the store holds |
| LayoutOrder.PreviewLandsIff | internal/repofile/layout.go:145-167 | the same condition on desired units, store, scope and mode, before any list is built: no changed desired unit meets the other layout, stored and not removed under a smaller key, or put under a smaller key |
| LayoutOrder.SpelledAgreesIff | internal/repofile/layout.go:145-167 | for every list with one operation per changed unit in key order |
| Application.KeptLayoutLands | internal/repofile/layout.go:145-167 | a plan that keeps every object's blob or aspect layout is always accepted |
| Application.LayoutSwitchRefused | internal/repofile/layout.go:145-167 | a reconcile from aspects to an entity blob is refused, because the blob's key sorts first |
| Application.DroppedDeclarationExample | internal/repofile/apply.go:43-79 | a concrete plan that lands and still drops a declaration |
| Publication.NextKeeps | integrationruntime/store.go:59-79 | every event (activate, pause, acquire, read, collect, save, send, execute, lose, reply, drop, advance, release, crash) keeps the protocol invariant |
| Publication.ExecuteKeeps | snapshot/commandlog/log.go:254-317 | the Writer's replay lookup, validation and CAS on the expected head keep ledger and log in step, also when it dies or its apply fails with any code before or after the head has moved, and the reservation is or cannot be deleted then |
| Publication.SavePendingKeeps | integrationruntime/runtime.go:208-227 | persisting the diffed command keeps the invariant |
| Publication.DropPendingKeeps | integrationruntime/runtime.go:229-237 | releasing a rejected command keeps the invariant: the command is dead, unless a failed apply blurred what became of it |
| Publication.AdvanceKeeps | integrationruntime/runtime.go:241-248 | moving the checkpoint to a published commit keeps the invariant |
| PublicationSafety.Reachable | integrationruntime/runtime.go:139-248 | the invariant holds in every reachable state of any number of overlapping runs |
| PublicationSafety.CheckpointIsJustified | integrationruntime/runtime.go:217-248 | the checkpoint only ever moves to a cursor whose ChangeSet was published as the recorded commit, or whose preview was empty at a head the run had read |
| PublicationSafety.SupersededRunIsInert | integrationruntime/runtime.go:169-177 | a run that lost its lease never regains it, and none of its later steps changes the record |
| PublicationSafety.CommitCarriesStoredPending | integrationruntime/runtime.go:224-228 | every Commit request carries a command and ChangeSet that were in the record as pending before |
| PublicationSafety.PendingNeverSwaps | integrationruntime/runtime.go:200-246 | the pending command is never replaced by another one in one step |
| PublicationSafety.PublishedAtMostOnce | snapshot/commandlog/log.go:254-317 | no command is published twice |
| PublicationSafety.RejectedIsPublishedIff | integrationruntime/runtime.go:250-265 | a pending released as rejected is ever published exactly by a step that a failed apply is to blame for, delayed requests of stale runs included |
| PublicationSafety.RejectedIsNeverPublished | snapshot/commandlog/log.go:289-298 | where no apply fails with an unjustified code of rejection: it stays unpublished through the whole behaviour exactly if no apply of its command failed after moving the head |
| PublicationSafety.PublishingStepIsUnique | snapshot/commandlog/log.go:254-317 | a command is published by one step only, although its ledger entry may be given up |
| PublicationFailure.PublishedThenRejected | snapshot/commandlog/log.go:289-298 | for anything there is to publish, a behaviour from the start that publishes it, releases it as rejected and never moves the checkpoint |
| PublicationSafety.NoPublicationForgotten | integrationruntime/runtime.go:228-248 | a published command is still pending, or was advanced to under its commit, or was released as rejected over a failed apply |
| PublicationPending.PendingLeavesIff | integrationruntime/runtime.go:228-265 | in every step of every behaviour a pending command leaves the record exactly if the lease holder drops it or advances past it, and then the holder was answered with a commit or a code of rejection |
| PublicationPending.GoneWasEnded | integrationruntime/runtime.go:228-248 | between any two points, a pending command that is gone was ended by such a step |
| PublicationPending.UnansweredStaysPending | integrationruntime/runtime.go:229-238 | as long as every answer about it has another code (OBJECT_ID_CONFLICT of a layout switch, say), a stored command stays pending and every activation is refused |
| PublicationLease.LeaseExcludesIff | integrationruntime/runtime.go:146-163 | over any behaviour in which a lease, once taken, is not given back: another run can take it exactly if the integration is active and the time has run out, and until then no activation is possible |
| PublicationLease.ReleasedIsFree | integrationruntime/runtime.go:177-193 | over any behaviour from the step in which its holder gives the lease back until somebody takes it: a new run can take it at any time exactly if the integration is active |
| PublicationLease.IntegrationIsFixed | integrationruntime/runtime.go:45-97 | between any two points of a behaviour, activations included, id, owner, server, repository and ref stay, and the run count never falls |
| PublicationLease.ActivationKeepsProgress | integrationruntime/runtime.go:45-97 | between the steps of runs that move it the checkpoint stays over any behaviour, activations included, none of which happens over a pending command or a live lease |
| Runtime.ActivationMeans | integrationruntime/runtime.go:45-97 | exactly when an integration can be activated, which code each refusal has, and what the record is then: what is left open filled in, checkpoint and run count kept |
| Runtime.Store.Activate | integrationruntime/runtime.go:45-97 | activation in place; refused while a command is pending, and keeps checkpoint and owner |
| Runtime.SentIsBound | integrationruntime/runtime.go:202-223 | a command a run makes itself names its connector, its content, target and owner, expects the head that was read, and asks for exactly what the collected state asks for |
| Runtime.Store.Pause | integrationruntime/runtime.go:114-137 | pause in place, by the owner only |
| Runtime.Store.Acquire | integrationruntime/runtime.go:146-163 | taking the lease in place |
| Runtime.Store.Prepare | integrationruntime/runtime.go:200-227 | recover the stored command or collect, diff and store one; nothing changes on failure |
| Runtime.Store.Settle | integrationruntime/runtime.go:228-248 | what the Writer's answer makes of the stored command |
| Runtime.Store.Work | integrationruntime/runtime.go:193-248 | the whole effect of a run's body on the record, for every answer of the outside |
| Runtime.Store.Run | integrationruntime/runtime.go:139-248 | one run in place, for every record and all answers: it succeeds exactly if the owner matches and nothing was to be published at the head read, or the Writer acknowledged the command sent; what checkpoint, pending command, phase and error are then, and which code each failure has; lease released, nothing else changed |
| Budget.NextKeeps | index/execution.go:74-116 | entering, finishing and leaving keep the budget invariant |
| Budget.BudgetIsConserved | index/execution.go:74-116 | free, in-flight and consumed candidates always add up to the initial budget, none negative; reservations never exceed the pages |
| Budget.StopsAreTrue | index/execution.go:83-108 | a search is told "candidates" or "pages" only when all of them were really consumed |
| Budget.NoLostWakeup | index/execution.go:96-114 | every waiting search has a closed channel, or an unfinished reservation whose finish closes it |
| Budget.State.Reserve | index/execution.go:74-116 | one pass of the critical section in place |
| Budget.State.Finish | index/execution.go:96-104 | refund and wake-up in place |
| Paging.FilterCandidateScope | index/candidate_scope.go:21-44 | exactly the allowed candidates in order, or an error; every candidate on basis when a scope is set |
| Paging.AppendCandidatePage | index/search.go:366-425 | on success exactly the matching hits of the page are appended, in order; earlier hits are never touched |
| Paging.SearchPages | index/search.go:233-331 | the paging loop, turn by turn: the hits are those of the turns that ran to their end; it is a budget stop exactly if it was not done, and then the budget or the time did end a turn; a failure has a cause in its turn |
| Paging.Search | index/search.go:216-342 | one search: partial exactly if the budget stopped it, otherwise the limit is reached or the provider has no more; the continuation names exactly the place reached, and is taken only for the same query, view and projection |
| Paging.ConclusionIsUnique | index/search.go:233-331 | provider and turns decide how a search goes and where and why it ends |
| Paging.ContinuedSearchIsComplete | index/search.go:206-331 | for any limits, page cuts and budget stops, the concatenated hits of continued searches are the filtered stream: no loss, repeat or reorder |
| Paging.ContinuedSearchEnds | index/search.go:327-340 | following continuations ends: if every search before the last finds something, as those do that no budget stops, a chain has at most one search more than the stream has candidates |
| Paging.HitsMean | index/search.go:397-424 | the hits of candidates are exactly those that exist and match |
| Relations.RelationLimit | index/relations.go:218-226 | accepted exactly from 0 to 1000, and then between 1 and 1000 |
| Relations.HitMeansWanted | index/relations.go:237-267 | a stored object is a hit exactly when it is a relation of the wanted type and direction with a matching endpoint; the hit names exactly the matched roles |
| Relations.Admit | index/relations.go:134-162 | one page: basis checked, scope applied, each object admitted once per request |
| Relations.Recheck | index/relations.go:163-186 | exactly the admitted objects that match the canonical predicate are appended |
| Relations.RelationPages | index/relations.go:99-204 | the paging loop, turn by turn, with every stop and failure explained by its turn; it finds exactly the relevant objects of the candidates it completed |
| Relations.RelationsAt | index/relations.go:61-216 | hits strictly in canonical order, exhausted iff no continuation, and a continuation is later refused exactly when it was issued before the first page of a fresh request |
| Relations.ConclusionIsUnique | index/relations.go:99-204 | provider and turns decide how a lookup goes and where and why it ends |
| Relations.LookupsTile | index/relation_continuation.go:37-55 | following accepted continuations, every candidate up to where the last lookup stopped is read by exactly one lookup |
| Relations.ResumedLookupPerScope | index/relation_continuation.go:12-18 | a token does not name the candidate scope: over lookups under any scopes an id is found exactly if some lookup read a candidate of it that is visible in that lookup's scope and is a hit |
| Relations.ResumedLookupIsComplete | index/relation_continuation.go:37-55 | over any chain of accepted continuations under one scope the ids found are, as a set, exactly the relevant ids of the stream read so far, and of all of it at the end |
| Relations.ResumedLookupEnds | index/relation_continuation.go:37-55 | following continuations ends, in the same sense |
| Meaning.DocumentMeans | index/extract.go:26-124 | when an object compiles, and what its document is: exactly the cells the object states and the fields its read units bear, each once and ascending, its kind and its relation; said over paths as chains of named fields, lists as their leaves, addresses and observations, without the compiler |
| Meaning.LookupIff | index/extract.go:256-274 | a lookup finds x exactly if the path, read as names between dots, is a chain of fields from the value to x |
| Meaning.PartsJoin | index/extract.go:261 | the parts of a path join back to it with dots, and hold none |
| Meaning.PartsUnique | index/extract.go:261 | and no other list does |
| Meaning.ItemsIff | index/extract.go:206-217 | the scalars of a field are the leaves of what its path denotes, unless that is null |
| Meaning.PresentedIff | index/extract.go:36-60 | a unit presents exactly what it reads: its part of the value, null for a binding observed without one, nothing for a stream or an unobserved binding; and it fails exactly on an observation of another declaration |
| Meaning.FieldKeyIdentifies | retrieval/spec.go:17-19 | fields with the same key have the same schema, aspect and path |
| Compile.DocumentIsCanonical | index/extract.go:81-98 | two values that say the same compile to the same cells, pairs and eligible fields |
| Compile.UnitOrderIsIrrelevant | index/extract.go:37-80 | reordering or repeating units changes neither whether a value compiles nor anything but the text |
| Compile.ScalarRepetitionIsIrrelevant | index/extract.go:60-79 | repeating or reordering scalars changes no cell, pair or eligible field |
| Compile.FlattenForgetsOrder | index/extract.go:206-217 | the scalars of a list depend, as a set, only on the members of the list |
| UnitOrder.TextMeans | index/extract.go:60-106 | the text is the joined texts of the cells as they are first met, unit by unit |
| UnitOrder.SameSpeakersSameDocument | index/extract.go:75-106 | rearranging the units keeps the whole document if those that have text keep their order of first appearance |
| UnitOrder.OneSpeakerSameDocument | index/extract.go:75-106 | in particular if no two different units have text |
| UnitOrder.RearrangedIsSameIff | index/extract.go:75-106 | and only then, when different units have different texts without blanks |
| UnitOrder.JoinDetermines | index/extract.go:106-106 | parts without blanks can be told from their joined text |
| UnitOrder.TextFollowsUnitOrder | index/extract.go:75-106 | a concrete value whose text changes when its units are swapped |
| Compile.IdentityDetermines | index/extract.go:69-74 | cells that count as duplicates are the same cell |
| Compile.PairOrder | index/extract.go:85-98 | ordering by field and then value is the order of the identity strings |
| Compile.Builder.AddUnit | index/extract.go:60-79 | the field and scalar loops of one unit, in place |
| Compile.SortedKeys | index/extract.go:81-84 | collecting a map's keys in any order and sorting gives the same list |
| Compile.CompileDocument | index/extract.go:26-124 | the whole compiler loop computes the specified document, errors included |
| Residual.ResolveField | retrieval/spec.go:150-170 | success names the one field that matches the reference; CAPABILITY_UNSATISFIED means none does |
| Residual.ResolveIff | retrieval/spec.go:150-170 | a reference resolves exactly if the list holds one field it names, one time; unsatisfied exactly if it holds none |
| Residual.MatchesExpression | index/residual.go:29-51 | the short-circuiting loop over children equals the specified evaluation |
| Residual.EvalMeans | index/residual.go:29-93 | evaluation on the document decides the logical All/Any predicate over what the object's read units say |
| Residual.ClauseMeans | index/residual.go:52-93 | one clause on the compiled document holds exactly if some read unit carries the field and its values satisfy the clause, each operator said by its own meaning: the sign of the comparison, a value that starts with or contains the text, the verifier's answer |
| Residual.EvalSucceeds | index/residual.go:52-61 | evaluation fails only on an unresolvable field or a MATCH the provider cannot verify |
| Residual.PresenceLaws | index/residual.go:84-105 | on a carried field exactly one of EXISTS and MISSING holds, on another neither; NEQ is EXISTS without EQ |
| Residual.RangeLaws | index/residual.go:141-158 | GTE is GT or EQ, LTE is LT or EQ, and none holds of values that do not compare |
| Residual.OneValueLaws | index/residual.go:128-158 | of one comparable value exactly one of LT, EQ and GT holds: the one that the sign of the comparison says |
| Residual.UnreadFieldIsSilent | index/extract.go:43-55 | a field carried only by streams or unobserved bindings satisfies no clause, not even MISSING |
| Residual.ApplySearchGuarantees | index/search.go:335-361 | refused iff some capability is unsupported, residual iff some is a superset, partial iff some is approximate or below full coverage |
| Retrieval.ResidualDecides | index/residual.go:13-27 | the residual verdict on a hydrated object is the logical predicate |
| Retrieval.AnswerIsExact | index/search.go:335-425 | over a provider that keeps its guarantee, residual filtering makes the answer exactly the visible objects that satisfy the predicate |
| Retrieval.ContinuedSearchIsExact | index/search.go:189-425 | the same for any finished chain of continued searches |
| Projection.IncrementalIsExactIff | index/sync.go:299-351 | an incremental publication equals the full compile of the new basis exactly when every object whose document differs was listed |
| Projection.CountsAreExact | index/sync.go:330-350 | Updated and Removed then are exactly the new or different, and the gone documents |
| Projection.FullMeans | index/sync.go:223-300 | a full compile has one document for every object that is no schema and compiles |
| Projection.CompleteCompiles | index/sync.go:353-382 | with a complete list the unlisted objects compile at the new basis too |
| ChangedIds.ScanIsCompleteIff | knowledge/internal/maintenanceimpl/change.go:9-49 | the fallback's list of changed ids is complete exactly when every object that keeps its value has the same kind and relation and units that say the same cells, fields and text at both commits |
| ChangedIds.DeclaredAlikeSuffices | knowledge/internal/maintenanceimpl/change.go:26-49 | which holds if its units, declared or resolved, keep addresses and schema references, whatever happens to bindings and declaration digests |
| ChangedIds.ScanIsCompleteIfDeclaredAlike | knowledge/internal/maintenanceimpl/change.go:9-49 | so the list is complete if no kept object is declared otherwise |
| ChangedIds.ScanMissesDeclarations | knowledge/internal/maintenanceimpl/change.go:34-43 | a concrete history where only a declaration changes and the scan misses it |
| Sync.MovedKeepsExact | index/sync.go:35-134 | any effect a maintenance call can have keeps the engine exact, given a complete list if it is incremental |
| Sync.ServedBasisIsExact | index/sync.go:35-134 | over any run of maintenance calls, failed ones included, an engine that serves a basis holds exactly the full compile of it; only incremental publications need a complete list |
| Sync.ReportIsExact | index/sync.go:347-350 | what an incremental call reports is exact; batches and repeated ids do not show |
| Sync.Classify | index/sync.go:148-159 | no rebuild only if the engine serves, under the same access fields, at the stated basis |
| Sync.Live.Gather | index/sync.go:225-279 | the walk hands over exactly the full compile, in batches or at once, and counts it |
| Sync.Live.Rebuild | index/sync.go:223-293 | a rebuild publishes the full compile or leaves the engine as it was or not serving |
| Sync.Live.CompileBatch | index/sync.go:353-382 | exactly the documents of the listed objects, or an error some listed object explains |
| Sync.Live.Diff | index/sync.go:332-341 | one batch's upserts and deletions, by object digest |
| Sync.Live.Changes | index/sync.go:300-342 | deduplicated and batched by 500, the changes are those of the whole list |
| Sync.Live.ApplyHydrated | index/sync.go:299-351 | the incremental publication, its counts, and what a failure leaves |
| Sync.Live.Ensure | index/sync.go:35-76 | which way it takes, and exactly when: left alone if it matches; rebuilt as COLD, SCHEMA or DIVERGED without a basis, under other fields or another physical identity, or over a basis that is gone, then also without a list of changes; incremental otherwise. After success the engine serves the commit, by an effect that keeps it exact |
| Sync.Live.EnsureAt | index/sync.go:82-108 | a fixed projection is left alone exactly if it matches and rebuilt otherwise; the empty commit is refused |
| Sync.Live.Apply | index/sync.go:110-134 | which way it takes, and exactly when: incremental only from where the caller says the engine stands, else rebuilt with the cause |
| Sync.Live.RebuildAt | index/sync.go:161-179 | a requested rebuild, with its cause |
| ServingState.Store.WalkRecords | index/state_store.go:28-53 | the batches are non-empty, bounded, and together exactly the records, each once |
| ServingState.Store.WalkDocs | index/state_store.go:55-80 | the batches concatenate to the documents in cursor order |
| ServingState.Store.PutBatch | index/state_store.go:151-165 | the records override the store, or a closed store is untouched |
| ServingState.CopyPrevious | index/state.go:187-193 | the previous store is copied whole and counted, for any batch boundaries |
| ServingState.HydrateOne | index/state.go:155-186 | one object: a schema object passed over, any other observed, counted once, flushed with a full batch |
| ServingState.Hydrate | index/state.go:194-214 | the loop over listed or walked ids, repetitions included |
| ServingState.Refresh | index/state.go:116-222 | what the new store holds of every object, in both modes: what was just observed of the listed ones, schemas apart, and of any other what the previous one held; success exactly needs every listed object to be readable, and the count is its size |
| StatePublication.NextKeeps | index/state.go:254-269 | building, publishing, failing, retiring, searching and closing keep every published pair matched |
| StatePublication.SearchUsesOneRefresh | index/search.go:169-187 | a search works on an open store and on the provider generation built from that very store |
| StatePublication.ViewIsStable | index/search.go:169-187 | neither changes while the search runs |
| StatePublication.OnlyPublicationChangesPairs | index/state.go:231-259 | a refresh that has not published, or fails, leaves the published pairs as they are |
| Targets.ReadyIsApplied | index/controller.go:98-130 | in every reachable queue READY implies applied = desired, for projections and consumers |
| Targets.DesireStands | index/controller.go:112-114 | only a later desire changes what is desired; an older attempt finishing late changes nothing |
| Targets.ConsumersAreIndependent | index/consumer.go:198-326 | nothing that happens to others alters one consumer's records |
| Targets.ConsumersLeaveTargets | index/consumer.go:198-326 | consumers never alter the projection's records |
| Targets.KeysAreDistinct | index/consumer.go:194-196 | keys of NUL-free ids determine consumer and repository |
| Targets.PrefixIsOneConsumer | index/consumer.go:244-253 | the prefix scan of one consumer meets no other consumer's record |
| StateNotices.LostIff | index/controller.go:552-620 | in every run a State notice is lost exactly when a refresh of its key, begun before it was enqueued, succeeds and nobody enqueues the key again |
| StateNotices.DropsIff | index/controller.go:516-526 | a refresh drops a notice exactly if it succeeds and the key was enqueued between its beginning and its end |
| StateNotices.LostIffOvertaken | index/controller.go:516-526 | the same as LostIff in terms of the steps alone: taken, enqueued, finished successfully in this order without an end of the refresh in between, and not enqueued since |
| StateNotices.LateNoticeIsLost | index/controller.go:603-620 | for any key, a run in which that happens |
| Controller.Controller.Desire | index/controller.go:55-77 | the transaction in place |
| Controller.Controller.Finish | index/controller.go:98-130 | the transaction in place |
| Controller.Controller.DesireConsumer | index/consumer.go:198-224 | the transaction in place |
| Controller.Controller.FinishConsumer | index/consumer.go:258-294 | the transaction in place, its no-op case included |
| Controller.Controller.FailConsumerHead | index/consumer.go:296-326 | the transaction in place, its no-op cases included |
| Controller.Controller.Reconcile | index/controller.go:349-378 | exactly the repositories with a head that are not satisfied there are desired there, for the projection and every consumer |
| Controller.Controller.ApplyPending | index/controller.go:380-405 | every unaligned target is READY at what it desired, or FAILED with the error of its lookup, of a missing repository or of the index; aligned ones untouched |
| Controller.Controller.CatchUpProjection | index/controller.go:321-334 | every repository of the inventory with a head stays if it is satisfied there, else ends READY at its head or FAILED with the index's reason, with all consumers told; any other target is settled where it stood |
| Controller.Controller.ListConsumers | index/consumer.go:226-256 | exactly the consumer's own records |
| Controller.Controller.ReconcileConsumer | index/consumer.go:114-135 | every repository of the inventory is desired at its head, or FAILED with the reason it has none; only what never was a target and is no knowledge repository is passed over; other consumers untouched |
| Controller.Controller.CatchUpConsumer | index/consumer.go:137-171 | every repository of the inventory or already recorded ends READY at its head or FAILED with the reason, passed over is only what never was a target and is no knowledge repository; nothing else appears |
| ManagedLedger.ReserveKeeps | home/managed_ledger.go:171-248 | a reservation keeps the indexes inverse, the records acceptable and accounts shared per holder |
| ManagedLedger.SaveKeepsIff | home/managed_ledger.go:250-269 | a save keeps the ledger loadable exactly when a record beyond RESERVED has backend and head |
| ManagedLedger.IncompleteSaveIsRefusedLater | home/managed_ledger.go:250-269 | an incomplete save succeeds and makes every later save fail |
| ManagedLedger.AcceptableMeans | home/managed_ledger.go:122-138 | which records a load accepts: complete, about themselves, of a known phase, with chosen actions, 32 hexadecimal digits and, if they claim a source, its receipt |
| ManagedLedger.Store.Load | home/managed_ledger.go:144-169 | loading succeeds exactly on inverse indexes of acceptable records, and lists each once |
| ManagedLedger.Store.LoadRecords | home/managed_ledger.go:147-156 | the first pass of the load |
| ManagedLedger.Store.Reserve | home/managed_ledger.go:171-248 | the transaction in place: replay, conflict, or a new record and both index entries |
| ManagedLedger.Store.Inherit | home/managed_ledger.go:225-236 | for any bucket order the account of some record of the same holder is taken over, if there is one |
| ManagedLedger.Store.SaveRecord | home/managed_ledger.go:250-269 | the transaction in place |
| Provisioning.NextKeeps | home/managed.go:100-203 | every event keeps the invariant and moves the ledger onward, with or without the lock |
| Provisioning.LedgerAlwaysLoads | home/managed_ledger.go:144-169 | every reachable ledger has inverse indexes, acceptable records and shared accounts |
| Provisioning.AllocationsOnlyMoveOnward | home/managed_ledger.go:250-269 | between any two points of any run: rank never falls; request, allocation, binding and actions never change; backend and head are fixed once saved |
| Provisioning.GrantsHaveOnePayload | home/managed.go:194-196 | all grant calls for an allocation carry the one payload the ledger records |
| Provisioning.ReadyWasGranted | home/managed.go:194-201 | what is READY was granted |
| Provisioning.NoGrantAfterReady | home/managed.go:90-93 | under the lock no grant is called for a repository that is READY |
| Granting.ReadyReplayNeverGrants | home/managed.go:65-68 | an operation that found its repository READY never calls the callback, with or without the lock |
| Granting.GrantsReadyIff | home/managed.go:90-93 | a call of the callback is for a READY repository exactly when the calling operation began before the receipt was written |
| GrantOverlap.OverlapGrantsAgain | home/managed.go:90-93 | a concrete run of two processes from the empty ledger that makes such a call |
| Granting.RevokedStaysRevoked | invocation/session_helpers.go:147-180 | once the initial rule of a repository is revoked, no initial rule for it ever stands again, under any allocation, whatever crashes, retries and overlaps follow |
| Granting.CallbackNeverConflicts | invocation/session_helpers.go:158-163 | the callback never finds another payload under the allocation it is called for |
| Granting.RulesMatchLedger | invocation/session_helpers.go:169-179 | every initial rule that stands carries the allocation and actions the ledger records for its repository |
| Creation.Home.Own | home/managed.go:133-162 | a reserved record becomes OWNED under the account, source and head the driver answered with, saved part by part |
| Creation.Home.Resume | home/managed.go:100-177 | reserve or find, create or open, install |
| Creation.Home.Create | home/managed.go:69-203 | success means READY under the head, REPLAYED exactly if READY before, source built by this call's answers or found as it was, installed, and granted unless replayed; at most one grant call; a calm first call of an admissible command and a calm retry succeed |
| Outbox.KeptOrDone | hook/outbox.go:74-96 | of a flush every item, told by its own ticket, is still queued exactly if its attempt failed, and delivered exactly if it did not |
| Outbox.KeptInOrder | hook/outbox.go:74-96 | what stays, stays in order |
| Outbox.NothingIsLost | hook/outbox.go:39-96 | over any run of enqueues, torn appends and flushes, crashes included, whatever was ever queued is queued, in order, or was itself delivered, and nothing else was |
| Outbox.TornBlocks | hook/outbox.go:74-91 | an item queued behind a torn append is kept and never delivered |
| Outbox.Store.AppendItem | hook/outbox.go:45-51 | the item is last in the queue, or an error is reported |
| Outbox.Store.DeliverAll | hook/outbox.go:74-91 | the decode-and-deliver loop, up to a torn line |
| Outbox.Store.Flush | hook/outbox.go:61-96 | exactly the failed items remain, or the file is as before |
| Outbox.Store.DispatchOne | hook/dispatch.go:44-62 | one post event with a ticket of its own: delivered, or queued, or an error because the append is not certain |
| Outbox.Store.DispatchAll | hook/dispatch.go:44-62 | the loop over the matched bindings: its deliveries and its queued items, and an error exactly if some append failed |
| Outbox.Store.DispatchPost | hook/dispatch.go:33-64 | without an error, deliveries and queue are exactly those before, the flush's and this dispatch's own; an error exactly if the flush or an append fails |
| Outbox.SentOrWaiting | hook/dispatch.go:44-62 | every matched event, by its own ticket, is delivered by the dispatch or queued by it, never both |
| Outbox.DispatchPre | hook/dispatch.go:44-57 | deliveries in order up to the first refusal |
| OutboxLock.MutualExclusion | hook/outbox.go:159-178 | at most one routine per path is in the critical section |
| OutboxLock.ObjectsLiveWithTheirUsers | hook/outbox.go:159-178 | the map holds a lock object for a path exactly while some routine uses it |
| Bindings.EveryFileIsReadable | identity/legacy.go:39-63 | every file any interleaving writes is accepted by the reader: usernames and subjects one to one, aliases on bindings, although the second step of a migration does not check that |
| Bindings.FilesOnlyGrow | identity/bindings.go:119-146 | bindings and aliases are never removed or changed |
| Bindings.ResolvedForever | identity/legacy.go:68-84 | a migrated legacy principal resolves to the same username for ever, and no other account ever shares it |
| Bindings.VerdictIsUnique | identity/bindings.go:128-137 | a bind has one verdict |
| Bindings.VerdictIgnoresOrder | identity/bindings.go:128-137 | which does not depend on the storage order |
| Bindings.BindKeeps | identity/bindings.go:119-146 | a bind keeps the file readable and only adds |
| Bindings.Store.ReadFile | identity/bindings.go:64-95 | the nested loops accept exactly the readable files |
| Bindings.Store.Bind | identity/bindings.go:119-146 | the verdict and the new file, in place |
| Bindings.Store.MigrateLegacyAlias | identity/legacy.go:39-63 | two locked steps with other calls between, for every user and name: which code each refusal has, and otherwise the alias points at the bound user; nothing else changes |
| MountTree.AddSucceedsIff | datasetfs/plan.go:145-176 | adding succeeds exactly when no file of the tree has the path, a prefix of it, or lies below it |
| MountTree.AddDenotes | datasetfs/plan.go:145-176 | the tree then holds one more file and the rest as before |
| MountTree.AddKeepsNoEmptyDirs | datasetfs/plan.go:153-165 | and still has no empty directory |
| MountTree.AddAllMeans | datasetfs/plan.go:127-137 | a list of files is added exactly when their paths are pairwise apart, and the tree denotes exactly that map |
| MountTree.AddOrderIsIrrelevant | datasetfs/plan.go:127-137 | in any order |
| MountFiles.AddSucceedsUnobstructed | datasetfs/plan.go:155-172 | adding fails exactly over a file on the way, or a file or directory at the place |
| MountFiles.Mount.MakeDir | datasetfs/plan.go:159-163 | a missing directory is linked in place; the nodes stay a tree and no file moves |
| MountFiles.Mount.Walk | datasetfs/plan.go:155-165 | the walk ends at the file's directory, made on the way if missing, or at a file in the way with nothing changed |
| MountFiles.Mount.AddParts | datasetfs/plan.go:154-176 | in place: the linked nodes become exactly the specified tree, or on a refusal keep every directory they had and gain none |
| MountFiles.Mount.AddFile | datasetfs/plan.go:145-176 | the same from the path as given, unclean paths refused |
| MountFiles.Build | datasetfs/plan.go:123-137 | the file loop of one mount: accepted exactly when the cleaned paths are apart, and then the nodes are exactly that tree without an empty directory |
| MountTree.OverlapMeansNested | datasetfs/plan.go:116-120 | the string test finds exactly the nested mount paths |
| MountTree.ValidateMounts | datasetfs/plan.go:96-126 | accepted exactly when every mount path is clean and they are pairwise not nested |

## Left out

- Publication.NextKeeps: the Writer's ledger pruning after its retention time, and access evidence, are not modelled; heads never recur, the pre-checks before the replay lookup (archived repository, denied target) appear as arbitrary errors, and a ChangeSet that changes no file, for which a provider returns the head it found, is taken to make a commit.
- Runtime.Store.Run: wall-clock times (next run, last run) and the scheduling of `Tick` are not modelled; lease expiry is a parameter.
- Application.PreviewLands: provenance envelopes, file paths and the text encoding of stored units are not modelled; a unit is its address, value, schema reference and value source.
- Budget.NoLostWakeup: the deadline of a search is the freedom of a waiting search to leave.
- Paging.Search: statistics, claims, the semantic-window search and the sort order of a provider are not modelled; positions of a provider are an arbitrary map from tokens to places of its stream; a value is named by a string.
- Relations.RelationsAt: claims (which the code does not roll back with hits), the HMAC of the token and the readiness checks of the projection are not modelled.
- Compile.CompileDocument: number and time parsing, relation decoding and schema-reference parsing are arbitrary functions; a field key without NUL and a spec that lists a field once are assumed by the lemmas, not by the method.
- Residual.EvalMeans: comparison of numbers and times, and the provider's analysed MATCH, are arbitrary functions; request validation and its depth and leaf limits are not modelled.
- Sync.Live.Ensure: the atomicity of a provider's publication is assumed; a failed one may leave anything behind, but not under a serving state; path hints of changed objects only speed up reading and are not modelled.
- ServingState.Refresh: the observation digest and the on-disk name of a store are not modelled; reading and hydration are arbitrary answers per object.
- UnitOrder.RearrangedIsSameIff: where different units share a text, or a text holds a blank, the document may also survive another order; only the sufficient half is proved there.
- StateNotices.LostIff: one lane refreshes notices, one at a time, as under the catch-up lock; what a refresh reads is not modelled.
- StatePublication.SearchUsesOneRefresh: the provider commit and the swap of the pair are one step, as under the lock; the opening and closing of provider engines is not modelled.
- Controller.Controller.CatchUpProjection: runs alone, with fixed heads; cancellation, database errors and the State lane after it are not modelled. Other actors' transactions interleave freely in Targets.
- ManagedLedger.Store.Reserve: management and login states shown to users are not modelled; random allocation ids do not repeat.
- Provisioning.NextKeeps: rewriting the request of a migrated owner, pool configuration checks and provider adapters are not modelled; a driver is a create that names what it created; rules that administrators add, and grants of connected repositories, are no part of the policy.
- Outbox.Store.Flush: process execution and HTTP delivery are arbitrary answers; the advisory file lock between processes is taken as given; a ticket stands for the time an item was queued at.
- OutboxLock.MutualExclusion: fairness is not modelled.
- Bindings.Store.Bind: the username grammar is an arbitrary predicate; a failing write leaves the file as it was; each locked step is atomic, so the lock of the file between goroutines and processes is taken as given.
- MountTree.ValidateMounts: symbolic links, existing host directories, lazily read directories and the final sorting of the targets are not modelled; a path is given by its non-empty parts, which is what cleaning leaves of a path without dots, and paths with dots are refused.
- Command-line, HTTP, console, FUSE, deployment configuration and the control plane: single-branch checks or input and output.
- Connections ledger in `home/connections.go`: the same pattern as the managed ledger with fewer phases.
- RequiresState in `index/state.go`: a read-only scan whose contract would repeat it.
