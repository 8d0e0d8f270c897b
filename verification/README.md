# Verified model of the generated data-access layer

This project models the parts of the `ent` data-access layer in which something can go wrong that
no single function shows: creating many change orders through one chain of hooks, upserting them,
loading edges eagerly with hash joins, compiling one mutable query builder along two paths,
decoding rows, and updating an edge. The generator emits the same code for every entity; the model
states each algorithm once and uses `ChangeOrder`, `Certificate` and `CertDeployment` as entities.

| module | models |
|---|---|
| `Relational`, `ChangeOrderFields` | columns and rows; defaults, checks and errors |
| `RowCodec`, `RowReading`, `JsonWitness` | `scanValues`, `assignValues`, and the row that `createSpec` leads to; what decoding a row gives, said on its cells; a codec that meets the assumption on JSON |
| `MutatorChain` | the meaning of bulk creation: hooks are programs, the chain is an interpreter over a store of mutations and nodes |
| `HookNesting` | with pass-through hooks a run follows a plan read off the builders |
| `ChainSafety`, `NodeDelivery`, `DoneMutations`, `CheckedRows` | what any honest hooks keep: no success without a commit, the nodes that are returned, the mutations that are done, the rows that are checked |
| `BulkSaveTheorems` | the guarantees of a whole save |
| `BulkCreate`, `SavedRows` | `Save` on builder, mutation and node objects; refines `MutatorChain`; what was set is what is stored |
| `ConflictOptions`, `ConflictRequests`, `Upsert` | conflict options, their resolution at the moment of the insert, `ChangeOrderUpsertBulk` |
| `QueryPlan`, `QueryTheorems` | what builders denote; duplicates, sorting, joins, terminal operations |
| `Projection` | the columns a query scans, what they give of a row, and which choices are refused |
| `CompilationPaths`, `Traversals` | when the two compilations agree; what chains of hops denote |
| `QueryBuilder` | the builder objects, both compilations step by step, terminal operations, `Clone` |
| `EagerLoading`, `JoinTheorems`, `SecondRun` | `sqlAll`, `loadDeployments`, `loadCertificate`, the edge accessors; both directions together; running a builder twice |
| `EdgeUpdate` | the edge part of `ChangeOrderUpdate.sqlSave`, the projection of an update's result |
| `Witnesses`, `BulkWitnesses` | concrete inputs for the findings below |

## What is assumed of the libraries

The SQL builder, `sqlgraph`, the drivers and `encoding/json` are not part of this model. In their
place stands a small relational specification:

- A table is a sequence of rows with unique primary keys. A selector filters, sorts stably, removes
  duplicates of its projection, drops and takes, in that order. In a query specification a limit or
  offset of zero means none.
- Following an edge joins the target table, in table order, with the rows that the inner selector
  selects: one row per linked pair.
- An insert appends all rows under fresh IDs or changes nothing; the database decides which, by the
  table, the rows and the number of inserts this save has tried before, so that a retry may succeed.
  It also decides whether it reports the IDs of a batch. Creating a single node always reports its
  ID. A batch's columns are those that some row sets; the other rows get NULL.
- A hook that calls on again after an accepted batch causes a second batch. In the code the
  specifications of earlier positions then still carry the IDs that the first batch reported; here
  every batch gets fresh IDs.
- The last assignment to a column wins in an update set. `DO NOTHING` overrides every assignment.
- The driver fills a holder from a cell of the holder's type, and NULL resets it.
- JSON encodings are not empty and decode to what was encoded.
- Scanning into a list of numbers fails unless exactly one column was selected.
- An update applies `Clear` edge specifications before `Add` ones.

## Where the code is not what one might expect

Unless it says otherwise, each of these is proved with the exact condition under which the expected
behaviour does hold, and `Witnesses`, `BulkWitnesses` or the lemma itself gives an input on which it
does not.

- A bulk checks the mutation its builder had before the hooks ran; a mutation that a hook hands on
  in its place is inserted unchecked. A single save checks the mutation it inserts
  (`SubstituteIsCheckedOnlyAlone`).
- A hook that reports success without calling on makes `Save` succeed with nothing stored
  (`DishonestHookLosesTheBatch`). Only one direction is general here: without such hooks success
  always means stored (`SuccessMeansSaved`).
- A slice may hold one builder twice, or two builders with one mutation. The save then stores and
  returns every position, but only one of the positions that share a mutation can find its node in
  it: all mutations read their IDs from their returned nodes exactly if no two are shared
  (`FinishedIffSeparate`, and `Save` on objects; `SecondPositionIsNotMarked`).
- `UpdateNewValues` keeps a stored `created_at` exactly if some builder's mutation shows one when the
  insert is made, if the insert sets it (`KeepsCreatedAtIffShown`). Every run is like that, unless
  builders share a mutation and a hook hands on another one in its place
  (`UpsertNeverChangesCreatedAt`; `SubstituteHidesCreatedAt`).
- Only `sqlQuery` honours a limit of 0, and only it cuts at MaxInt32 rows behind an offset. On a
  traversal with `Unique` unset only `querySpec` removes duplicates, and with `Unique` set on chosen
  fields `sqlQuery` merges entities that look alike (`PathsAgreeIff`, for every builder state;
  `LimitZeroIsIgnored`, `OffsetCutsAtMaxInt32`, `TraversalRepeats`, `LookAlikesMerge`).
- For the same reasons a limit or offset in the middle of a traversal counts duplicates, unless
  `Unique` is set: it then cuts other entities than the same builder would load (`SelectedHopIff`;
  `LimitCountsRepeats`). Loading does the same only with `Unique(false)` (`LoadedHopIff`).
- `IDs`, `OnlyID`, `FirstID` and `Exist` fail after any earlier field selection (`EarlierFieldsBreakIds`),
  and terminal operations leave their limit, fields and `Unique` behind in the builder.
- An eager-load builder keeps the IN predicate of its first run. A second run of the same outer
  builder silently loads empty lists for newly returned certificates (`SecondRunListsIff`), and
  reports "not found" for certificates that only the new deployments name (`SecondRunFindsIff`).
- `Clone` does not copy `withFKs` (`CloneCompilesTheSameIff`), and it shares the builders along its
  path: what is later called on those reaches the clone (`CloneSharesItsPath`).
- A NULL in an ID column resets the ID to 0 and a NULL blob resets its field, unlike the other
  columns (`NullLeavesEntityIff`).
- Clearing an edge does not take back the additions recorded before it (`SaveMeansItsCallsIff`).
- In a bulk upsert a column that only some builders set is overwritten with NULL in the rows the
  other builders conflict with (`BulkUpsertAgreesIff`). `ExecX` skips the guards of `Exec`.

## Model

| member | source | states |
|---|---|---|
| ChangeOrderFields.CheckAfterDefaults | ent/changeorder_create.go:276-335 | after `defaults`, `check` passes exactly if the caller set a title and set no invalid enum; no set field is touched, and `created_at` is always set |
| ChangeOrderFields.DefaultsFillIn | ent/changeorder_create.go:276-297 | the defaults keep what is set and give the five unset fields, and no other, exactly these values and clock readings |
| ChangeOrderFields.CheckIsFirstUnacceptable | ent/changeorder_create.go:300-335 | the check of any mutation reports the first required field, in order, that is missing or no valid enum; it passes exactly if there is none |
| ChangeOrderFields.SettableKeepsColumns | ent/changeorder_create.go:355-442 | `createSpec` copies every column of the table but the ID, with the value it was set to |
| RowCodec.ScanValues | ent/changeorder.go:79-96 | the holders allocated for any column list, known, unknown or repeated |
| RowCodec.Entity.AssignValues | ent/changeorder.go:100-220 | the loop, updating the entity in place, succeeds exactly if every holder has its column's type and every JSON text can be unmarshalled, and otherwise ends with the error of the first position where this fails; too few values are refused without effect |
| RowCodec.AssignSucceedsIff | ent/changeorder.go:104-217 | the same of the column-by-column fold, for every column list, repeats included |
| RowReading.DecodingReads | ent/changeorder.go:79-220 | decoding a row by any columns with the ID succeeds exactly if each JSON text that is read can be unmarshalled on top of what was there; then the entity has the row's ID, the row's cell in every field that is read, and no other field; an error names a column that cannot be unmarshalled |
| RowCodec.ScannedNeverMismatches | ent/changeorder.go:79-220 | holders from `scanValues`, whatever was scanned into them, never give a type mismatch; only undecodable JSON can fail |
| RowCodec.NullsLeaveFieldAlone | ent/changeorder.go:104-217 | a field is unchanged if none of its remaining holders writes |
| RowCodec.LastWriteWins | ent/changeorder.go:104-217 | for every column list the last writing occurrence of a column decides its field |
| RowCodec.LastIdWinsEvenNull | ent/certdeployment.go:84-89 | the last ID column decides the ID, and a NULL there resets it |
| RowCodec.NullLeavesEntityIff | ent/certificate.go:107-247 | exactly when a NULL cell leaves the entity as it was, column kind by column kind |
| JsonWitness.FaithfulCodecsExist | ent/schema/deploy_types.go:15-28 | the assumption on JSON, under which rows are read back, is met by a codec for number lists, name lists and strategies |
| RowCodec.ReadBackIsIdentity | ent/changeorder_create.go:355-442 | decoding the row of a created entity into a fresh one gives that entity, for any set fields and any permutation or repetition of a covering projection |
| MutatorChain.RunBase | ent/changeorder_create.go:1124-1157 | any run of the innermost mutator keeps the store well-formed and never loses an object or empties a slot |
| MutatorChain.RunHooks | ent/changeorder_create.go:1158-1161 | the same of a mutator wrapped in its hooks, whatever they do |
| HookNesting.HooksFollowPlan | ent/changeorder_create.go:1124-1161 | with pass-through hooks a run enters the hooks, sends the specifications, fails and stores exactly as a plan read off the builders says, whatever builders and mutations the positions share |
| HookNesting.ProgramFollowsPlan | ent/changeorder_create.go:1158-1161 | a hook puts its own two events around what it calls and passes the outcome on |
| HookNesting.BaseFollowsPlan | ent/changeorder_create.go:1124-1157 | each position adds its specification in front of those of the rest, and a failed check ends the plan there |
| BulkSaveTheorems.PlanEntersInOrder | ent/changeorder_create.go:1158-1161 | hooks are entered in builder order and then in list order, and none is skipped |
| BulkSaveTheorems.TraceIsNested | ent/changeorder_create.go:1113-1170 | for any builders, repeated ones too, the trace of a save: hooks entered in order, one batch or none, hooks left in exact reverse order; no builders, no call |
| BulkSaveTheorems.PlanIsAdmission | ent/changeorder_create.go:1129-1137 | the plan is stopped by the first builder that its hooks or its check refuse, with that builder's error |
| BulkSaveTheorems.SeparateEnterWithOwn | ent/changeorder_create.go:1120-1157 | the fields that the plan starts each position with are those of its own builder if no two positions share a mutation |
| BulkSaveTheorems.BulkSaveExactly | ent/changeorder_create.go:1113-1170 | for any builders: if every position is admitted the run sends exactly one batch, with one row per position in order, stored iff the database accepts it; otherwise it sends none and the first refusal is the error; unless the batch is stored nothing is, and no mutation is marked done |
| BulkSaveTheorems.RefusalIsReported | ent/changeorder_create.go:1138-1145 | a refused batch stores nothing, marks nothing done, and its error says whether a constraint was violated |
| ChainSafety.HooksAreTruthful | ent/changeorder_create.go:1124-1168 | for any honest hooks, in a bulk or a single save: without a commit nothing is stored and no mutation is done, and success is never reported without one |
| NodeDelivery.HooksDeliver | ent/changeorder_create.go:1134-1156 | for any honest hooks, calling on never, once or often, and any sharing: a success leaves every later slot with a node of its own that has its fields and its reported ID, and every row in the table in builder order |
| NodeDelivery.BaseDelivers | ent/changeorder_create.go:1124-1157 | the induction step: build, run the rest, fill in the ID, without disturbing other positions' nodes |
| DoneMutations.HooksMark | ent/changeorder_create.go:1150-1156 | for any honest hooks, if no two positions share a mutation: a success leaves every later position's mutation done and pointing at its own node |
| DoneMutations.BaseMarks | ent/changeorder_create.go:1124-1157 | the induction step, in which a substituted mutation takes the builder's place |
| BulkSaveTheorems.SuccessMeansSaved | ent/changeorder_create.go:1134-1169 | for any honest hooks and any builders, repeated ones too, success means an accepted batch and every slot holding a node of its own with its fields and its row's ID |
| BulkSaveTheorems.SuccessMarksMutations | ent/changeorder_create.go:1150-1156 | and if no two positions share a mutation, every mutation done and pointing at its returned node |
| BulkSaveTheorems.FinishedIffSeparate | ent/changeorder_create.go:1150-1156 | with pass-through hooks, after a success every position is finished exactly if no two positions share a mutation |
| BulkSaveTheorems.NothingBeforeCommit | ent/changeorder_create.go:1124-1168 | as long as the database has accepted nothing, the save fails, stores nothing and marks nothing done |
| BulkSaveTheorems.AtMostOneBatch | ent/changeorder_create.go:1135-1146 | hooks that call on at most once cause at most one batch |
| BulkSaveTheorems.DishonestHookLosesTheBatch | ent/changeorder_create.go:1158-1169 | the concrete hook for which success does not mean saved |
| BulkSaveTheorems.PassThroughIsHonest | ent/changeorder_create.go:1158-1161 | pass-through hooks meet the premises of all the theorems on honest hooks |
| BulkSaveTheorems.ReturnedEntities | ent/changeorder_create.go:1150-1169 | when the batch is stored, position n returns the entity of row n under its reported ID |
| BulkSaveTheorems.SingleSaveExactly | ent/changeorder_create.go:248-251 | what saving one builder by itself stores, and the entity it returns under its ID with its mutation done; nothing is done or stored otherwise |
| BulkSaveTheorems.OneByOneStores | ent/changeorder_create.go:337-353 | saving one by one stores the admitted builders' rows in order under fresh IDs and returns their entities; it stops at the first refusal, keeping what came before |
| BulkSaveTheorems.BulkAgreesWithOneByOne | ent/changeorder_create.go:1113-1170 | for any builders, a bulk stores the same rows and returns the same entities as saving one by one, up to the choice of fresh IDs; one by one every mutation is done and reads its ID from its node, in the bulk if no two are shared |
| CheckedRows.HooksInsertChecked | ent/changeorder_create.go:1129-1134 | while hooks pass on the mutation they got, every row of every batch has passed the check |
| CheckedRows.OnlyCheckedRowsAreInserted | ent/ent.go:538-569 | so it is for a whole bulk without substitution, and for a single save whatever its hooks do |
| CheckedRows.SubstituteIsCheckedOnlyAlone | ent/changeorder_create.go:1129-1134 | on a substituted mutation a bulk decides by the mutation that was replaced, a single save by the one it inserts |
| CheckedRows.HooksAttemptOnce | ent/changeorder_create.go:1135-1146 | the induction behind at most one batch |
| BulkCreate.ChangeOrderCreate.SetDefaults | ent/changeorder_create.go:276-297 | the in-place defaults are the function the theorems speak of |
| BulkCreate.ChangeOrderCreate.CreateSpec | ent/changeorder_create.go:355-442 | node and specification carry, column by column, exactly what is set in the mutation; the node is new and has no ID |
| BulkCreate.SaveRun.Base | ent/changeorder_create.go:1124-1157 | the closure on objects computes `RunBase`: check, replace the builder's mutation, build, call on, alias the ID, mark done |
| BulkCreate.SaveRun.WriteBack | ent/changeorder_create.go:1150-1155 | the pointer is taken before the ID is written, and still reads it afterwards |
| BulkCreate.SaveRun.InsertBatch | ent/changeorder_create.go:1138-1145 | the batch of all specifications, whose ID slots are filled in place |
| BulkCreate.SaveRun.Mutate | ent/changeorder_create.go:1158-1161 | the wrapped mutator on objects computes `RunHooks` |
| BulkCreate.SaveRun.ReturnedNodes | ent/changeorder_create.go:1150-1169 | after a success every returned slot holds a node with its specification's fields and ID |
| BulkCreate.SaveRun.AliasesReturnedNode | ent/changeorder_create.go:1150-1155 | and if no two builders share a mutation, each mutation reads its ID from that very node |
| BulkCreate.DefaultsReachEveryBuilder | ent/changeorder_create.go:1120-1123 | every mutation enters the chain with its own fields, defaulted by the clock of the first position that has it |
| BulkCreate.ChangeOrderCreateBulk.Register | ent/changeorder_create.go:1120-1123 | any slice of builders, whatever it shares, is represented in the store the theorems speak of |
| BulkCreate.ChangeOrderCreateBulk.Save | ent/changeorder_create.go:1113-1170 | `Save` on objects is a run of the chain from the defaulted builders, with exactly the sharing of mutations that the builders have; an earlier error returns at once and changes nothing; an error returns no nodes; after a success with honest hooks every slot holds a node, and each mutation is done and reads its ID from its node if no two builders share one, with pass-through hooks exactly then |
| SavedRows.SettableKeepsAll | ent/changeorder_create.go:355-442 | whatever the setters of the builder can set is copied, nothing is lost |
| SavedRows.SavedRowReadsBack | ent/changeorder_create.go:1113-1170 | after a success, reading row n back by the table's columns gives exactly the fields with which position n was admitted |
| SavedRows.CreatedAsSet | ent/changeorder_create.go:276-442 | on the builder objects without hooks: after a successful `Save`, row n and node n have every field that was set on builder n, the defaults of the others, and nothing else |
| ConflictRequests.HooksMirror | ent/changeorder_create.go:1124-1146 | for any hooks, builders whose specification is built keep the mutation it was built from until the insert |
| ConflictRequests.BaseMirrors | ent/changeorder_create.go:1129-1146 | the induction step, for a bulk and for a single save |
| ConflictRequests.EveryRequestIsMirrored | ent/changeorder_create.go:1138-1141 | at every insert of every run each row is what its builder's mutation holds at that moment |
| ConflictOptions.ResolveAllAt | ent/changeorder_create.go:1243-1280 | options resolve column by column, the later one winning |
| ConflictOptions.KeepsCreatedAtIff | ent/changeorder_create.go:1222-1280 | after any conflict targets and calls on an upsert builder, in any order, exactly when `created_at` of a stored row is kept |
| ConflictOptions.KeepsCreatedAtIffShown | ent/changeorder_create.go:1243-1253 | with `UpdateNewValues` and no `DoNothing` an insert keeps it exactly if some mutation shows one at that moment, if the insert sets it |
| ConflictOptions.RunKeeps | ent/changeorder_create.go:1243-1253 | if every insert of a run keeps a column, every row that was stored has the same cell there in the table after the run, however each insert is answered |
| ConflictOptions.InspectedTooEarly | ent/changeorder_create.go:747-755 | were the mutations inspected before `defaults`, `created_at` would be overwritten |
| ConflictOptions.StoredRowsKeep | ent/changeorder_create.go:1243-1253 | over a whole statement, with any pattern of conflicts, a kept column and the ID of every stored row are unchanged |
| ConflictOptions.NewValuesExactly | ent/changeorder_create.go:1243-1253 | `UpdateNewValues`, behind any conflict targets, takes over every column of the batch but `created_at`, and no other |
| ConflictOptions.ChangesAreStored | ent/changeorder_create.go:1273-1280 | what a caller's closure sets, called last, is stored, and no other column is touched by it |
| ConflictOptions.NewRowsAreAppended | ent/changeorder_create.go:1222-1227 | rows without a conflict are inserted in order whatever the options |
| ConflictOptions.DoNothingAndIgnoreKeepRows | ent/changeorder_create.go:1255-1271 | `DoNothing` leaves every stored cell alone, and `Ignore` called last every inserted column, and every other one that no closure mentions |
| ConflictOptions.BulkUpsertAgreesIff | ent/changeorder_create.go:1243-1253 | a bulk merges a builder's row as a single upsert would exactly if that builder sets every column of the batch |
| Upsert.UpsertNeverChangesCreatedAt | ent/changeorder_create.go:747-755 | for every run, single or bulk, with any hooks, conflict targets, calls, conflicts, answers and table: in the table after the whole run every row that was stored has its `created_at`; for builders with a mutation each, or hooks that hand on none of their own |
| Upsert.EveryRequestShowsCreatedAt | ent/changeorder_create.go:1243-1253 | under the same condition every insert of a run that sets `created_at` finds it in some builder's mutation |
| Upsert.ChangeOrderUpsertBulk.ExecKeepsCreatedAt | ent/changeorder_create.go:1570-1583 | the same guarantee for the run that `Exec` makes on the builder objects |
| BulkCreate.ChangeOrderCreateBulk.OnConflictColumns | ent/changeorder_create.go:1222-1227 | a conflict target is added to the options the bulk has |
| Upsert.ChangeOrderUpsertBulk.Configure | ent/changeorder_create.go:1243-1280 | any calls append exactly their options to the bulk's |
| Upsert.ChangeOrderUpsertBulk.ResolveConflicts | ent/changeorder_create.go:1243-1253 | running the deferred options reads the builders' mutations as they are then |
| Upsert.ChangeOrderUpsertBulk.Exec | ent/changeorder_create.go:1570-1583 | an earlier error, then the first builder with options of its own by its index, then the lack of any option is refused before any effect; everything else is a run of `Save` |
| Upsert.ChangeOrderUpsertBulk.ExecX | ent/changeorder_create.go:1586-1590 | a run of `Save` whatever the guards would say |
| QueryBuilder.Query.Traverse | ent/certificate_query.go:65-84 | a new builder whose path compiles this one when it is run, with this one's clauses as they are then |
| QueryBuilder.Query.PrepareQuery | ent/certificate_query.go:344-368 | the first invalid field along the whole path is the error; otherwise the intermediate selector is the join with what the path selects |
| QueryBuilder.Query.SqlQuery | ent/certificate_query.go:487-517 | the selector changed step by step ends up as the builder's plan says, reusing the intermediate one if there is one |
| QueryBuilder.Query.QuerySpec | ent/certificate_query.go:447-485 | the specification built step by step is that of the same plan; it scans the ID, once, and behind it every chosen field in the caller's order, or the columns of the table |
| QueryBuilder.Query.IDs | ent/certdeployment_query.go:206-215 | the IDs of exactly the entities that loading would give, with any limit and on traversals, unless the two cuts differ; and the fields and `Unique` it leaves behind |
| QueryBuilder.Query.Only | ent/certdeployment_query.go:134-146 | on the rows: succeeds iff exactly one entity remains after predicates and offset, whatever limit was set; which error otherwise |
| QueryBuilder.Query.OnlyID | ent/certdeployment_query.go:161-175 | the same verdict with that entity's ID, on traversals too, if no fields were selected before; an error if some were |
| QueryBuilder.Query.First | ent/certdeployment_query.go:88-98 | on the rows: the first entity that remains, whatever limit was set |
| QueryBuilder.Query.FirstID | ent/certdeployment_query.go:110-120 | its ID, under the same condition as `OnlyID` |
| QueryBuilder.Query.Exist | ent/certdeployment_query.go:245-255 | true iff an entity remains, under the same condition |
| EagerLoading.OnlyDeployment | ent/certdeployment_query.go:134-146 | the same with decoding and eager loading: the one deployment that remains, showing its row, with its certificate on the edge; otherwise which error; it succeeds whenever the rows can be decoded and exactly one remains |
| EagerLoading.FirstDeployment | ent/certdeployment_query.go:88-98 | the first deployment that remains, showing its row, with its certificate on the edge; it succeeds whenever there is one and the rows can be decoded |
| QueryBuilder.Get | ent/client.go:910-912 | on the rows: the row with that ID or "not found", never "not singular" |
| QueryBuilder.Query.Clone | ent/certificate_query.go:268-284 | fresh builders all the way down, at every depth with the entity, path and clauses of their originals, but without `withFKs`; the path is shared |
| QueryBuilder.Query.Run | ent/certificate_query.go:34-62 | any sequence of calls on a builder or on the eager-load builders below it has exactly the effect it has on plans |
| QueryBuilder.CallsAccumulate | ent/certificate_query.go:34-62 | any calls accumulate on the builder they are made on: lists grow in order, the last limit, offset and `Unique` count; those on the eager-load builder accumulate there, and a `With` starts it afresh |
| QueryBuilder.CloneThenDiverge | ent/certdeployment_query.go:268-294 | after `Clone`, any calls on either side, at any depth, leave the other side's plan alone |
| QueryBuilder.WithoutFksIsCopy | ent/certificate_query.go:268-284 | a clone is a copy at every depth of eager loading, and the only one |
| QueryBuilder.CloneCompilesTheSameIff | ent/certdeployment_query.go:268-284 | exactly when a clone scans the same columns as its original |
| CompilationPaths.PathsAgreeIff | ent/certificate_query.go:447-517 | for every builder state, exactly when `querySpec` and `sqlQuery` select the same rows |
| CompilationPaths.UnsetUniqueAgreesIff | ent/certificate_query.go:450-454 | with `Unique` unset on a traversal, any limit and offset: they agree exactly if their cuts are alike and up to the end of the cut no entity is reached twice |
| CompilationPaths.ProjectionWithoutIdAgreesIff | ent/certificate_query.go:455-463 | with DISTINCT on chosen fields, any limit and offset: they agree exactly if their cuts are alike and up to the end of the cut no two entities look alike |
| CompilationPaths.IdTellsEntitiesApart | ent/certificate_query.go:455-463 | with the ID among the fields the last condition always holds |
| CompilationPaths.CutsAgreeIff | ent/certificate_query.go:499-515 | a cut shows the same rows with and without DISTINCT exactly if nothing is repeated up to its end |
| CompilationPaths.IdsAgreeIff | ent/certdeployment_query.go:206-215 | for any limit, offset and `Unique`: exactly when the scanned IDs are those of the entities that loading gives |
| Projection.SpecColumnsProject | ent/certificate_query.go:455-463 | the scanned columns are the ID, once, and every chosen field at its place, and no other |
| Projection.ScanReads | ent/certdeployment_query.go:370-393 | what a query makes of a selected row, for any chosen fields: it can be decoded exactly if the chosen JSON texts can, and then the entity shows exactly the chosen cells |
| Projection.ReadableIff | ent/certificate.go:107-247 | a row can be decoded exactly if each JSON text of a chosen column can be unmarshalled |
| Projection.ChosenIsRead | ent/certificate_query.go:455-463 | the field of a chosen column is the row's cell |
| Projection.ChosenDocumentIsRead | ent/certificate.go:107-247 | the field of a chosen JSON column is the document that was written |
| Projection.NothingElseIsRead | ent/certificate_query.go:455-463 | a column that was not chosen is in no field |
| Projection.PrepareFailsIff | ent/certdeployment_query.go:344-368 | preparing fails exactly if some field along the path is not a column of its table, with the first such field, the builder's own ones first |
| QueryTheorems.OnlyIsExact | ent/certdeployment_query.go:134-146 | two rows suffice to decide whether exactly one remains: that one, "not found" if there is none, "not singular" if there are more |
| QueryTheorems.IdsMatchEntities | ent/certdeployment_query.go:206-215 | scanning IDs sees the entities that loading would give, on any chain |
| QueryTheorems.OnlyIdIsExact | ent/certdeployment_query.go:161-175 | `OnlyID` and `Only` give one verdict |
| QueryTheorems.ExistIsExact | ent/certdeployment_query.go:245-255 | one row suffices for `Exist` |
| QueryTheorems.EarlierFieldsBreakIds | ent/certdeployment_query.go:206-215 | an earlier field selection makes every scan of IDs fail |
| QueryTheorems.SourceIsImage | ent/certificate_query.go:65-84 | a hop starts from exactly the rows linked to what the previous hop selects under its own clauses |
| QueryTheorems.NeighborsOfOne | ent/client.go:924-937 | a query from one entity starts from exactly the rows that its edge links, in both directions |
| QueryTheorems.BeforeIsLexicographic | ent/certdeployment_query.go:484-490 | rows are ordered by the first key in which they differ |
| Traversals.SortedJoin | ent/certdeployment_query.go:65-84 | a join, filtered, sorted and without duplicates, is the table filtered by the links and sorted |
| Traversals.LoadedHopIff | ent/client.go:924-937 | loading any hop, with any clauses: the linked rows of its table in its order, each once, then cut, exactly if `Unique(false)` repeats nothing up to the end of the cut |
| Traversals.SelectedHopIff | ent/certificate_query.go:487-517 | starting the next hop from it, with any clauses: the same rows under `sqlQuery`'s cut, exactly if up to the end of the cut no entity is named twice or merged |
| Traversals.TraversalIsImage | ent/certificate_query.go:65-84 | chains of any length denote the image of the start set, with each hop's own predicates, order, offset and limit applied at that hop, wherever the cuts count entities |
| Traversals.LoadedTraversalIff | ent/certdeployment_query.go:65-84 | loading the end of such a chain gives the rows of the image in order, each once, under exactly the same condition on the last hop |
| Traversals.ThereAndBack | ent/certdeployment_query.go:65-84 | certificates to deployments to certificates: exactly the starting certificates that have a deployment |
| EagerLoading.DecodeNode | ent/certdeployment_query.go:385-393 | for any projection it succeeds exactly if every JSON text that is read can be unmarshalled; then the node shows the row, and otherwise the error names a column where that fails |
| EagerLoading.ListsPartitionChildren | ent/certificate_query.go:424-434 | the lengths that the lists of a nested-loop join have add up to the number of children |
| EagerLoading.ListsHoldAll | ent/certificate_query.go:424-434 | the lists of the parent objects together hold exactly as many children as came back |
| EagerLoading.IndexParents | ent/certificate_query.go:407-415 | the map holds the last parent of each ID, and every list starts empty |
| EagerLoading.AppendChildren | ent/certificate_query.go:424-434 | succeeds iff every key names a parent, and then every list is the nested-loop join in order |
| EagerLoading.LoadDeployments | ent/certificate_query.go:406-436 | ends exactly as its query does: with the first invalid field, with the first row that cannot be decoded, or well; its internal errors are unreachable for any projection. Then it equals the nested-loop join with the rows that the child builder selects under its own clauses and the IN predicate, all on the last of equal IDs; the lists together hold every child; the IN predicate stays in the child builder |
| EagerLoading.GroupChildren | ent/certdeployment_query.go:413-424 | each distinct non-nil key once in first-occurrence order, and its children in order |
| EagerLoading.AssignParents | ent/certdeployment_query.go:433-441 | fails iff an ID came back that was not asked for; otherwise every child points at the parent its key names |
| EagerLoading.LoadCertificate | ent/certdeployment_query.go:412-443 | ends exactly as its query does, and its internal error is unreachable; without keys nothing is asked. Then children point at the one returned parent with their key, which shows its row, and the others are untouched |
| EagerLoading.AllDeployments | ent/certdeployment_query.go:370-410 | `sqlAll` ends exactly as its query and that of its eager load do; after a success every node shows its row's chosen cells, and its accessor says "not loaded", "not found" or returns the certificate with its key, one object for all deployments with that key |
| EagerLoading.LoadSucceedsIff | ent/certdeployment_query.go:370-410 | loading succeeds exactly if no field is invalid and every selected row, of the query and of its eager load, can be decoded |
| EagerLoading.JoinGivesVerdicts | ent/certdeployment.go:47-54 | the verdict of `CertificateOrErr` follows from the join |
| EagerLoading.AllCertificates | ent/certificate_query.go:370-404 | `sqlAll` ends exactly as its query and that of its eager load do; after a success every node shows its row's chosen cells, and its `DeploymentsOrErr` returns the nested-loop join with the deployments that came back, or "not loaded" iff it was not requested |
| JoinTheorems.PickIsNestedLoop | ent/certificate_query.go:424-434 | the hash join's list on rows is the nested loop's |
| JoinTheorems.ListedIff | ent/certificate_query.go:406-436 | a certificate lists exactly the deployments whose key is its ID |
| JoinTheorems.BroughtBackIff | ent/certdeployment_query.go:412-443 | a certificate is brought back iff some deployment names it |
| JoinTheorems.JoinsAreInverse | ent/certdeployment_query.go:412-443 | d is in c's loaded list iff the parent that the key map assigns to d is c |
| JoinTheorems.LoadBothWays | ent/certdeployment_query.go:370-443 | succeeds exactly if every certificate can be decoded; then on the loaded objects a certificate's accessor lists a deployment iff that deployment's accessor returns that certificate |
| SecondRun.FilterSort | ent/certdeployment_query.go:471-490 | a further predicate may as well be applied after the sort |
| SecondRun.AddPredicateFilters | ent/certificate_query.go:416-420 | where nothing is cut off, a further predicate filters what the builder selects |
| SecondRun.SecondRunListsIff | ent/certificate_query.go:416-420 | for a child builder with any predicates, order, fields and `Unique`: exactly when a second run lists for a certificate all that the builder selects for it |
| SecondRun.NotAskedForBefore | ent/certificate_query.go:416-420 | for every child builder, cut or not: a certificate that the first run did not return lists nothing in the second |
| SecondRun.SecondRunFindsIff | ent/certdeployment_query.go:425-432 | in the other direction: exactly when the second run finds the certificate of a deployment |
| SecondRun.NotFoundAgain | ent/certdeployment_query.go:425-432 | for every child builder: a certificate that the first run did not ask for is not found in the second |
| SecondRun.VerdictShowsCertificate | ent/certdeployment.go:47-54 | on the loaded objects: the accessor returns that certificate, or "not found" |
| EdgeUpdate.EdgeMutation.Run | ent/mutation.go:4895-4923 | any sequence of edge calls leaves the mutation its fold describes |
| EdgeUpdate.EdgeMutation.Compile | ent/changeorder_update.go:496-541 | the three conditional edge specifications, applied Clear before Add, have the mutation's effect on any linked set |
| EdgeUpdate.SaveKeepsForgotten | ent/changeorder_update.go:496-541 | a save links what the calls would have linked one by one, and besides exactly the IDs that were waiting when the edge was cleared |
| EdgeUpdate.SaveMeansItsCallsIff | ent/changeorder_update.go:496-541 | exactly when a save means its calls |
| EdgeUpdate.UpdateChecksWhatIsSet | ent/changeorder_update.go:917-934 | the check of an update passes exactly if every enum that it sets is valid; otherwise the first that is not is the error |
| EdgeUpdate.UpdateProjection | ent/changeorder_update.go:936-959 | succeeds exactly if every enum that is set is valid, there is an ID and every chosen field is a column; then it returns the ID and behind it the chosen fields in order; otherwise the error is that of the first of these, and of the first field, that fails |
| Witnesses.LimitZeroIsIgnored | ent/certificate_query.go:471-515 | `Limit(0)`: loading returns the whole table, `sqlQuery` nothing |
| Witnesses.TraversalRepeats | ent/certdeployment_query.go:65-84 | two deployments of one certificate: loading their certificates gives it once, going on from them starts twice |
| Witnesses.LookAlikesMerge | ent/certificate_query.go:499-501 | DISTINCT on a status that two deployments share |
| Witnesses.SecondRunLosesChildren | ent/certificate_query.go:416-420 | a certificate that only the second run returns: its list is empty though it has two deployments |
| Witnesses.SecondRunLosesCertificate | ent/certdeployment_query.go:425-432 | a certificate that only the second run asks for is not found though it exists |
| Witnesses.LimitCountsRepeats | ent/certificate_query.go:513-515 | a limit of 2 in the middle of a traversal: going on starts from one certificate twice, loading gives two |
| Witnesses.OffsetCutsAtMaxInt32 | ent/certificate_query.go:508-512 | a table of one row more than MaxInt32 behind `Offset(0)` |
| Witnesses.CloneSharesItsPath | ent/certificate_query.go:268-284 | a limit set on the builder that the path leads through, after cloning, is part of the clone's plan |
| Witnesses.CloneForgetsForeignKeys | ent/certdeployment_query.go:268-284 | a clone that no longer scans the foreign key |
| Witnesses.NullResetsOnlyTheId | ent/certdeployment.go:84-98 | a NULL ID and a NULL text |
| Witnesses.ClearKeepsAdditions | ent/changeorder_update.go:496-541 | adding a task and then clearing the edge leaves it linked |
| Witnesses.BulkUpsertErasesComment | ent/changeorder_create.go:1243-1253 | one builder's comment erases that of the row the other builder conflicts with |
| BulkWitnesses.SecondPositionIsNotMarked | ent/changeorder_create.go:1150-1156 | one builder twice: two rows and two nodes, and its mutation points at the first node only |
| BulkWitnesses.SubstituteHidesCreatedAt | ent/changeorder_create.go:1243-1253 | one builder twice, with a hook that hands on its own mutations: `UpdateNewValues` would overwrite a stored `created_at` |

## Left out

- Hooks are programs that edit, inspect, reject, hand on another mutation and call on any number of times; arbitrary Go closures, which could also panic, keep state or reach other builders, are not modelled.
- Hooks branch on whether their call succeeded, not on which error it returned; the value a hook itself returns is not modelled, only its outcome.
- The branch for a mutation of another entity type in `MutateFunc`, and nil hooks.
- Upsert.UpsertNeverChangesCreatedAt: where builders share a mutation and hooks hand on others it does not hold of every run; for each insert `KeepsCreatedAtIffShown` says exactly when it does. Which proposed row conflicts with which stored row, and how each insert is answered, is left arbitrary.
- Upsert.EveryRequestShowsCreatedAt: under the same condition.
- ConflictRequests.EveryRequestIsMirrored: speaks of builders with a mutation each; where they share one, a row may come from a mutation that another position has replaced.
- Upsert.ChangeOrderUpsertBulk.Exec: its `rows'` is the table of the chain, in which inserts append; the table after the conflicts is `TableAfter` of the run's requests.
- Upsert.ChangeOrderUpsertBulk.ExecX: the same.
- BulkCreate.ChangeOrderCreate.CreateSpec: the sixteen per-column copies are one loop over the table's columns; the edge to deploy tasks and the conflict options are not part of the specification; the options are resolved in `Upsert`.
- Conflict options passed as arbitrary closures: only fixed column changes and the two built-in closures are modelled. The conflict target is opaque.
- Traversals.TraversalIsImage: where a stage's cut counts duplicates the chain does not denote the image; `SelectedHopIff` says exactly when that is so.
- QueryBuilder.Query.PrepareQuery: interceptors, which run first and can change the builder or fail, are not modelled.
- QueryBuilder.Query.Only: speaks of rows; `OnlyDeployment` adds decoding and the eager load, for deployments.
- QueryBuilder.Query.First: speaks of rows; `FirstDeployment` adds decoding and the eager load, for deployments.
- QueryBuilder.Get: speaks of the row; decoding it is `DecodeNode`.
- QueryBuilder.Query.Clone: the query context is copied field by field; its own `Clone` is not shown in the repository.
- Negative limits and offsets, selector errors, `Count`, `GroupBy`, `Aggregate` and modifiers.
- SecondRun.SecondRunListsIff: a child builder with a limit or offset cuts across the children of all certificates, in its first run too; for those only `NotAskedForBefore` holds.
- SecondRun.SecondRunFindsIff: likewise, with `NotFoundAgain`.
- EagerLoading.AllDeployments: eager loads nested inside the child builder are not run, and the child builder has no path.
- The edge from change orders to deploy tasks: the same join as `loadDeployments`, so it would only repeat it.
- JSON append modifiers, numeric Add against Set, and the field assignments of an update.
- Per-field setters, panicking wrappers, deletes and the other entities' builders: the same templates again.
- SQL text, dialects, drivers, transactions, contexts and logging.
