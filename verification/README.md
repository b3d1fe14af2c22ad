# A verified model of the generated data-access layer

The repository's `ent/` directory is a data-access layer that ent generates: query builders with eager loading, create
builders with hooks, clients and transactions. This project models the parts of it that carry their own loops, maps,
mutable objects and recursion, and proves what they do.

- **Schema and store** (`Schema.dfy`, `Store.dfy`): eight entities, each with at most one one-to-many and one
  many-to-one edge; tables as sequences of rows; a query as filter, order, page and projection.
- **Eager loading** (`Plans.dfy`, `Eager*.dfy`, `Nodes.dfy`, `Loaders.dfy`, `Slices.dfy`, `QueryBuilder.dfy`,
  `QueryLaws.dfy`, `Traversal.dfy`). `Plan`
  is the value of a tree of builders. `Views` is the meaning of a load: one query per row and edge. `BatchAll` is the
  computation of the code: one query per edge, joined in memory. The classes `Query` and `Node` are the builders and
  the loaded objects; their methods have the code's loops and are proved against `BatchAll`, and `Agree` proves
  `BatchAll` equal to `Views`. A builder holds its query context as an object and its predicates, order terms and
  selected fields as slices of backing arrays that could be shared, so that a clone has to have its own.
- **Reading and writing one entity** (`Entities.dfy`): scanning, assigning, defaults, checks, insert specifications, for
  `Site` (visible foreign key) and `DeploymentComponentStatus` (hidden one).
- **Bulk create** (`BulkModel.dfy`, `BulkOutcome.dfy`, `Bulk.dfy`, `BulkEntities.dfy`): the chain in which the mutator
  of builder i runs inside the hooks of builder i and calls the mutator of builder i + 1; as a state machine and as
  methods on shared slots and mutation objects. A bulk may hold a builder twice, and builders may share a mutation.
- **Hooks** (`Hooks.dfy`): the backward composition loops and registration.
- **Transactions** (`TxModel.dfy`, `Tx.dfy`): the transactional client as a state machine, and the driver and client
  classes that implement it.

The code of two entities is generated from one template. The builder is therefore one class, `Query`, parametrised by
the entity; `Schema` lists everything in which the generated copies differ (columns, edges, hidden foreign keys).
Closures that users write are data here. Hooks of a bulk create and of a transaction are trees of steps: they edit or
exchange the mutation, execute statements, end the transaction, call the next one any number of times, and decide what
comes next by the error of the last call or step, by the mutation, and by what they remember from earlier calls or share
with other hooks. A hook takes finitely many steps, and the database and the hooks are deterministic. Options of `With`
calls are lists of calls. Closures that the code makes, when it wraps a mutator or a committer in a hook, are objects that refer to the next
one; the backward loops build them.

Automatic induction is turned off for every lemma, so each proof is the one that is written out.

## What is assumed of the database

- A query returns the rows of one table that satisfy all predicates, in the requested order with ties left in table
  order, cut to the page, projected to the requested columns. NULL is in no list of values. A limit or an offset of 0 in
  a query specification is an unset one. `AddColumnOnce` and `AppendFieldOnce` add what is absent.
- Primary keys are distinct, and key columns hold keys or NULL (`WellFormed`). Identifiers are natural numbers, with 0
  for the zero value of the key's Go type.
- A batch insert stores all of its rows or none. Whether it is refused is any function of the batch and of what has been
  stored.
- In a transaction the database may refuse any statement, the commit and the rollback: whether it does is any function of
  the statements that were sent to the transaction before. A refused statement has no effect, and a transaction is over
  when its commit or rollback is refused.
- Scanning identifiers takes one column; a query that selects more is an error.
- An interceptor is nil, a traverser that accepts or refuses, or one that hands the querier's result on.

Conditions under which the code does what it should are stated and explored, not built in. For loads: a limit or offset
on the builder of an edge (`WholeBelow`; `ChildLimitIff` and `ParentLimitIff` say exactly when it matters, with databases
on which the load goes wrong), and a parent row whose identifier is the zero value (`ZeroFree`; `ZeroIff` is the exact
condition for every tree, `ZeroFails` a database for every load of parents). For bulk creates: hooks that exchange the
mutation (`OneInsert`, `SlotIsChecked`, `InsertIsChecked`, `UncheckedInsert`), that do not call the next mutator exactly
once (`ExactlyOnce`, `NeverSent`, `RepeatedSave`), that tolerate failures or return errors of their own (`AllOrNoneIff`,
`AllOrNoneForEveryDatabase`, `SimpleHooks`, `FailedAfterInsert`, `ToleratedRefusal`). For transactions: hooks whose
statements are refused (`RefusedInHook`), that try again (`Settled`, `SecondAttempt`), and that end the transaction
themselves (`CommitTakesEffect`, `RolledBackFirst`, `RolledBackInstead`, `CommittingHookNeverEnds`, `CommitsOnce`).

## Where the code and its documentation differ

- `Clone` is documented to keep all steps (ent/deploymentcomponentstatus_query.go:267-268); it drops `withFKs`. `Cloned`
  follows the code, and `CloneLoadsTheSame` shows that this changes no identifier and no edge.
- `First` and `Only` leave their limit on the builder (ent/site_query.go:114, ent/site_query.go:160).
- `Exist` leaves the identifier among the selected fields (ent/site_query.go:236, ent/site_query.go:369), so asking the
  same builder a second time fails.
- A visible foreign key that is NULL is looked up as the zero identifier (ent/site_query.go:484).
- A hook of a bulk create that fails after it has called the next mutator makes the save fail although everything is
  stored and marked done (ent/site_create.go:793-795).
- Hooks of a bulk create may exchange the mutation, but the check reads the builder's own one
  (ent/site_create.go:772-775).

## Model

| member | source | states |
|---|---|---|
| EagerAgrees.Agree | ent/site_query.go:407-508 | For every database, tree of builders and projection: the batched load succeeds exactly when all builders that it reaches can be prepared, and then it is, in order, the one-query-per-row-and-edge meaning |
| EagerAgrees.AgreeMany | ent/site_query.go:450-479 | The one-to-many join in memory gives each row the children that its own query returns |
| EagerAgrees.AgreeOne | ent/site_query.go:480-508 | The many-to-one join in memory gives each row the parent that its own query returns, and none for a NULL key |
| EagerAgrees.OnlyPreparingFails | ent/deploymentstatus_query.go:426-437 | Whatever the tables, filters, limits and columns are, the errors about unexpected and nil foreign keys never occur |
| EagerAgrees.NoStrayChild | ent/site_query.go:464-477 | Every returned child has a foreign key that was asked for, whatever columns were selected |
| EagerAgrees.NoStrayParent | ent/deploymentcomponentstatus_query.go:429-437 | Every returned parent has an identifier that was asked for |
| EagerAgrees.LookUpById | ent/host_query.go:424-431 | Looking a key up in the loaded parents is filtering the rows by identifier |
| EagerAgrees.KeysAreTheKeys | ent/host_query.go:406-414 | The listed keys of a many-to-one load are exactly the non-nil keys of the nodes |
| EagerLaws.KeysInOrder | ent/deploymentcomponentstatus_query.go:416-425 | The listed keys are in order of first occurrence, hence without duplicates |
| EagerLaws.AdoptConserves | ent/deploymentstatus_query.go:426-437 | The children of all nodes together are the returned children, as multisets: none lost, none given twice, also with repeated parent ids |
| EagerAgrees.AdoptAt | ent/deploymentstatus_query.go:412-417 | Among nodes with one identifier the last gets all children, in returned order |
| EagerLaws.QueriesAreBounded | ent/deploymentprofile_query.go:406-447 | A load sends at most one query per builder of the tree, however many rows are returned |
| EagerLaws.ProjectionInvariance | ent/site_query.go:527-538 | Trees that differ only in the selected fields load the same identifiers and edges |
| Plans.KeysAreSelected | ent/site_query.go:527-538 | The identifier and the foreign key of an eager-loaded parent are read whatever was selected |
| Plans.KeyedIsSelected | ent/orchestrator_query.go:417-419 | The foreign key that assigns children to parents is read whatever was selected on the child |
| EagerReruns.Reruns | ent/site_query.go:460-465 | On an unchanged database any number of runs of the same builders, which keep collecting predicates, return the same graph |
| EagerReruns.RerunsAttach | ent/site_query.go:460-477 | After runs on any databases, a run attaches to a node exactly the children whose key every run that returned anything has seen |
| EagerReruns.ChildrenAfterRuns | ent/site_query.go:463-465 | What the child builder still selects for a parent after any sequence of runs |
| EagerReruns.RerunsAttachParent | ent/site_query.go:493-506 | After runs on any databases, a node is given its parent exactly if every run that came to query parents asked for it |
| EagerReruns.AfterIsSimilar | ent/site_query.go:460-465 | A load changes only the builders of the edges, and neither the shape nor the size of the tree |
| EagerEdges.EdgesAgree | ent/host_query.go:405-433 | A child is among the children of a node exactly when that node is the child's loaded parent |
| EagerEdges.ThereAndBack | ent/orchestrator_query.go:407-437 | In one load, following an edge to the children and back leads to the node it started from |
| EagerEdges.ChildIffKey | ent/site_query.go:450-479 | With an unfiltered child builder, a row is loaded as a child exactly when its foreign key is the identifier of the parent |
| EagerLimits.ChildLimitIff | ent/site_query.go:450-479 | With a limit or an offset on the builder of the children, a load computes its meaning on all databases if and only if it can have only one node |
| EagerLimits.ChildLimitFails | ent/site_query.go:463-477 | Otherwise a database with the selected parents and children on which it does not |
| EagerLimits.ParentLimitIff | ent/site_query.go:480-508 | With a limit or an offset on the builder of the parents, if and only if it can have no more nodes than the limit or offset |
| EagerLimits.ParentLimitFails | ent/site_query.go:493-506 | Otherwise a database with more parents than fit, with a child each, on which it does not |
| EagerZero.ZeroIff | ent/host_query.go:405-433 | For every well-formed database and every tree of builders without limits on its edges: a load computes its meaning if and only if all builders that it reaches can be prepared and at none of them a NULL in a visible foreign key meets a selected parent with the zero identifier |
| EagerZero.ManyStep | ent/site_query.go:450-479 | The join gives all nodes the children of their own queries if and only if the load of all children computes its meaning |
| EagerZero.OneStep | ent/site_query.go:480-508 | The join gives all nodes the parents of their own queries if and only if the load of all parents computes its meaning and NULL does not meet zero |
| EagerZero.ZeroFails | ent/host_query.go:405-433 | For every load of parents through a visible foreign key without predicates, a database on which it does not |
| EagerEdges.NullFindsZero | ent/site_query.go:484-504 | A node is given the parent of the per-row meaning if and only if its key is not NULL or no selected parent has the zero identifier |
| EagerEdges.LimitedLoad | ent/site_query.go:43-46 | A limit on the root builder loads the first nodes of the unlimited load, with the same edges |
| QueryBuilder.Query.All | ent/site_query.go:212-219 | Returns new objects that show the per-row meaning, leaves the tree as the load changes it, sends at most one query per builder |
| QueryBuilder.Query.First | ent/site_query.go:113-122 | The first node of the load with limit 1 or its error, for all databases; where the load means what it should, the first node of the unlimited load; the limit stays |
| QueryBuilder.Query.Only | ent/site_query.go:159-172 | Classifies the load with limit 2 or returns its error, for all databases; where the load means what it should, as the unlimited load would be classified |
| QueryBuilder.Query.Exist | ent/site_query.go:270-280 | Whether the unlimited query selects anything, with the limit and the field that it leaves behind; a builder with selected fields fails |
| QueryBuilder.Query.AllIds | ent/site_query.go:231-240 | On a builder without selected fields whose limit is not literally 0: one identifier for each selected row, in their order, which are those of the nodes that a load returns; the first refusal is the error, and so are other selected fields |
| QueryBuilder.Query.FirstId | ent/site_query.go:135-144 | On such a builder: the identifier of the first row of the unlimited query and of the node that First returns, or NotFound if there is none |
| QueryBuilder.IdsAreThose | ent/site_query.go:231-240 | The same about the identifiers that are scanned |
| QueryBuilder.ExistMeansFound | ent/site_query.go:270-280 | On a builder without selected fields, Exist agrees with what First and Only find |
| QueryBuilder.Query.SqlAll | ent/deploymentprofile_query.go:406-447 | The imperative load computes the batched outcome: nodes, builders afterwards, number of queries |
| QueryBuilder.Query.LoadMany | ent/orchestrator_query.go:407-437 | Loads the children of existing node objects as the batched outcome says, or returns its error |
| QueryBuilder.Query.LoadOne | ent/deploymentcomponentstatus_query.go:413-444 | Loads the parents of existing node objects as the batched outcome says, or returns its error |
| QueryBuilder.Query.QuerySpecOf | ent/site_query.go:519-560 | The loop over the selected fields builds the specification with the identifier first and needed foreign keys |
| QueryBuilder.Query.Prepare | ent/site_query.go:381-397 | The first nil interceptor, refusing traverser or invalid column, in this order, is the error |
| QueryBuilder.Query.ReadForeignKey | ent/deploymentstatus_query.go:419 | Hidden keys are forced by the flag, visible ones are added to selected fields |
| QueryBuilder.Query.PerformAll | ent/site_query.go:37-65 | Configuration calls on objects, nested ones included, have the effect on the tree whose meaning the following rows state |
| QueryLaws.ConfiguredSelects | ent/site_query.go:37-65 | For every list of calls on a new builder: it selects the rows that satisfy all predicates, in the order of all terms, without as many as the last offset and at most as many as the last limit |
| QueryLaws.CallsConfigure | ent/site_query.go:37-65 | It reads all selected fields, keeps the interceptors of its entity, and its edges are loaded by the builders of the last With calls, configured by their options in the same way |
| QueryLaws.LimitSelects | ent/site_query.go:43-46 | A limit selects the first rows of the query without one; 0 is no limit; nothing else changes |
| QueryLaws.OffsetSelects | ent/site_query.go:49-52 | An offset drops the first rows of a query without limit; nothing else changes |
| QueryLaws.WhereSelects | ent/site_query.go:37-40 | Predicates filter a query without page and hold of every row of one with a page; nothing else changes |
| QueryLaws.OrderSelects | ent/site_query.go:62-65 | Order terms sort the rows after the earlier terms, and lose and invent none; nothing else changes |
| QueryLaws.FieldsAreRead | ent/site_query.go:367-375 | Selected fields are read, with those selected before, of the same rows; nothing else changes |
| QueryLaws.WithManyReplaces | ent/site_query.go:313-320 | A With call replaces exactly that edge by a new builder of the other entity with its interceptors, to which the options were applied |
| QueryLaws.WithOneReplaces | ent/site_query.go:324-331 | The same for the parent |
| QueryLaws.NewSelects | ent/client.go:1422-1428 | A new builder selects the whole table with all columns and loads no edges |
| QueryLaws.LoadInOrder | ent/site_query.go:407-449 | The nodes of a load hold the read columns of the selected rows, in the requested order, and remember which edges were asked for |
| QueryLaws.ChildrenSelect | ent/site_query.go:450-465 | The query for children selects, of what their builder selects, those whose key is asked for |
| QueryLaws.ParentsSelect | ent/site_query.go:480-493 | The query for parents selects, of what their builder selects, those whose identifier is asked for |
| Store.SortedAscends | ent/site_query.go:62-65 | Sorted rows ascend or descend in the column of the first term, in the next one among equals, and so on |
| Plans.ColumnsRead | ent/site_query.go:519-538 | Exactly which columns are read, the identifier first: all if none is selected, otherwise the selected ones, the identifier, and the keys that edges need |
| Plans.PrepareReturns | ent/site_query.go:381-397 | The error of preparing, with its reason: the first nil or refusing interceptor, then the first selected field that is no column |
| QueryBuilder.Query.Clone | ent/site_query.go:293-309 | A clone is a tree of new builders with new contexts and new backing arrays for predicates, order terms and fields, with the value of the original except for the flag |
| QueryLaws.CloneSelects | ent/site_query.go:293-309 | A clone selects the same rows and reads the same columns, except for hidden foreign keys that only a load of its parents has asked for |
| QueryBuilder.EditClone | ent/site_query.go:293-309 | No sequence of calls on a clone, and no run of it, changes the original |
| QueryBuilder.Query.AppendPredicates | ent/site_query.go:37-40 | Appends in place or to a new backing array; the memory of the builder grows by nothing else |
| Slices.Append | ent/site_query.go:37-40 | Appending writes into the backing array if it has room and leaves it alone otherwise |
| Slices.AppendToShared | ent/site_query.go:301-303 | Why a clone copies its lists: of two slices that share a backing array, appending to one overwrites the other |
| QueryBuilder.EditOriginal | ent/site_query.go:293-309 | No sequence of calls on the original, and no run of it, changes a clone |
| QueryBuilder.ConfiguredIsCloned | ent/site_query.go:293-309 | A builder that was configured and never run is cloned to an equal tree |
| QueryBuilder.CloneLoadsTheSame | ent/deploymentcomponentstatus_query.go:269-284 | A clone of a builder that was run loads successfully exactly when the builder does, and then the same identifiers and edges |
| Loaders.IndexById | ent/site_query.go:451-459 | The list is the identifiers in order, the map holds the last node of each identifier, and all edges are reset |
| Loaders.AssignChildren | ent/deploymentstatus_query.go:426-437 | Every node gets its children in order, or the first child without a known key is the error |
| Loaders.GroupByKey | ent/deploymentcomponentstatus_query.go:414-425 | The keys in order of first occurrence, and for each the nodes with this key in order |
| Loaders.AssignParents | ent/deploymentcomponentstatus_query.go:434-442 | Every node of a group gets the last parent with the key, or the first parent without a group is the error |
| Nodes.Node.OneOrErr | ent/site.go:67-74 | Gives the parent that the load has found, and tells a missing one from one that was not asked for |
| Nodes.Node.ManyOrErr | ent/site.go:58-63 | Gives the children of the loaded value exactly if they were asked for |
| Traversal.NearestFails | ent/site_query.go:68-87 | A chain of any length is prepared exactly when all builders pass; otherwise the error is of the failing builder nearest to its end |
| Traversal.Step.Prepare | ent/site_query.go:381-405 | Prepares a chain from its end; on an error no part of the query is set on any builder |
| Store.MatchingTwice | ent/site_query.go:539-545 | Filtering by predicates added later is filtering once by all of them |
| Entities.ScanValues | ent/deploymentcomponentstatus.go:62-79 | One new slot per column, of the type of the column |
| Entities.Record.AssignValues | ent/site.go:98-163 | Assigns column by column; fails on too few values without a change, and on the first slot of a wrong type with the columns before it assigned and its column in the error |
| Entities.AssignSucceeds | ent/deploymentcomponentstatus.go:83-142 | Assigning succeeds if and only if every slot has the type that its column wants |
| Entities.TablesAgree | ent/site.go:77-163 | Slots made by scanning are accepted by assigning, for every list of columns and all values |
| Entities.ReadRowIs | ent/site.go:98-163 | Reading any list of columns gives their fields; all others are zero |
| Entities.BuildersReadTheRecord | ent/site_query.go:416-424 | The keys that loading uses are the fields of the record that scanning fills |
| Entities.BuildSpec | ent/site_create.go:239-311 | Node and specification hold the same identifier, fields and parent, and the specification the children to adopt |
| Entities.FullRoundTrip | ent/deploymentcomponentstatus_create.go:230-282 | The stored row reads back as the returned entity; without the hidden foreign key it does if and only if there is no parent |
| Entities.RoundTrip | ent/site_create.go:239-311 | Reading any columns of the stored row gives the created entity in these columns |
| Entities.DefaultsKeep | ent/deploymentcomponentstatus_create.go:163-180 | Field by field: what the caller gave stays; a missing state, created_at, updated_at and identifier gets its default; no other field appears; parent, children and the flag stay |
| Entities.CheckNamesFirst | ent/deploymentcomponentstatus_create.go:183-206 | The check passes if and only if all requirements are met, and otherwise names the first that is not |
| Entities.DefaultsThenCheck | ent/deploymentcomponentstatus_create.go:163-206 | After the defaults, the check passes if and only if the fields and edges without a default are given |
| Entities.BuiltFromGiven | ent/deploymentcomponentstatus_create.go:230-282 | Field by field: node and specification hold what the mutation gives, the node zero values besides, the specification nothing besides |
| Entities.ReadHolds | ent/site.go:98-163 | A value that fits is read as itself, NULL as the zero value, a key as the identifier or a pointer to it |
| BulkModel.InsertsAreComplete | ent/deploymentcomponentstatus_create.go:626-638 | For all hooks, whatever they decide and however often they call on: every insert holds a specification for every builder; if no hook exchanges a mutation, of one that passed the checks. With exchanges SlotIsChecked has the exact condition for hooks that call on once |
| BulkModel.NodesAreComplete | ent/deploymentcomponentstatus_create.go:631-662 | For all hooks: all nodes are returned if an insert was sent, and the last is nil if none was |
| BulkModel.ExactlyOnce | ent/deploymentcomponentstatus_create.go:622-653 | The number of inserts is at most the product of the most calls that the hooks make; on success it is exactly this product if the hooks tolerate no failure and call on equally often in every run without one, and then it is one if and only if every hook calls once |
| BulkOutcome.OneInsert | ent/site_create.go:756-809 | For all hooks that call on once, whatever they exchange, tolerate or return: an insert is sent if and only if every builder's own mutation passes as it stands when it is checked; it is exactly one, with the specification and node of the mutation that reaches builder i in slot i |
| BulkOutcome.SlotIsChecked | ent/site_create.go:772-777 | Slot i holds a checked specification if and only if the mutation that reaches builder i passes the checks, and always if the hooks of builder i do not exchange the mutation |
| BulkOutcome.InsertIsChecked | ent/site_create.go:772-777 | All that is inserted was checked, if and only if it is so at the builders whose hooks exchange the mutation |
| BulkOutcome.AllOrNothing | ent/site_create.go:756-809 | If they also return what comes back to them, then stored, every builder's mutation done and success coincide, and the error is that of the first failing check or the database |
| BulkOutcome.AllOrNoneIff | ent/site_create.go:790-799 | For one save: they coincide if and only if the answer, passed up through the hooks, comes out of the hooks of every builder that runs |
| BulkOutcome.AllOrNoneForEveryDatabase | ent/site_create.go:790-799 | Whatever the database answers: if and only if acceptance and every refusal come out of the hooks of every builder |
| BulkOutcome.SimpleHooks | ent/site_create.go:790-799 | Among hooks that each pass on or tolerate every failure, this is so if and only if no hook tolerates a failure or returns an error of its own |
| BulkOutcome.OnceOutcome | ent/site_create.go:767-799 | The outcome of the chain from builder i, for all hooks that call on once: slots, inserts, error, which object each builder refers to in the end and its value, and which objects stay as they are |
| BulkOutcome.OnceRun | ent/site_create.go:797-799 | A chain of hooks that call on once is all edits and exchanges in order, the builder's part once, and the way back out of the hooks |
| BulkOutcome.HooklessSave | ent/site_create.go:756-809 | Without hooks the save succeeds if and only if all checks pass and the database accepts the batch; otherwise the error is that of the first failing check, or the reason of the database |
| BulkModel.NeverSent | ent/site_create.go:797-809 | If any hook of any builder never calls on, nothing is sent and the last node is nil, even on success |
| BulkModel.SkippedSave | ent/site_create.go:797-809 | A save that succeeds with nothing inserted and a nil node |
| BulkModel.FailedAfterInsert | ent/site_create.go:793-799 | A hook that returns an error after calling on: stored and done, and yet a failure |
| BulkModel.ToleratedRefusal | ent/site_create.go:790-799 | A hook that tolerates the failure: success although nothing is stored |
| BulkModel.RepeatedSave | ent/site_create.go:777-795 | For one builder whose hook calls twice: the second batch is sent if the finished mutation passes the checks, and stored if the database accepts it too |
| BulkModel.ExchangedSave | ent/site_create.go:772-777 | For one builder whose hook puts another mutation in the place of the one it is called with: the original decides the check, the other one is inserted, on every database |
| BulkModel.GuardedSave | ent/site_create.go:797-800 | For one builder whose hook calls on only if it likes what it remembers and sees: it is sent exactly then |
| BulkEntities.UncheckedInsert | ent/site_create.go:772-777 | An incomplete site is inserted in the place of a complete one |
| BulkEntities.CheckedSlot | ent/site_create.go:772-777 | For both entities the specification tells whether the mutation passes, so a slot was checked if and only if the mutation that reaches its builder passes |
| BulkEntities.PlainSave | ent/deploymentcomponentstatus_create.go:610-663 | A bulk save without hooks succeeds if and only if every builder has what has no default and the database accepts |
| BulkEntities.GivenIsStored | ent/deploymentcomponentstatus_create.go:610-663 | After a successful save without hooks, every stored specification and every returned node hold what the caller gave, the defaults where nothing was given, and nothing else |
| BulkEntities.SaveEntities | ent/deploymentcomponentstatus_create.go:610-663 | The same for the builder objects and the database |
| BulkEntities.SavedIsReadBack | ent/deploymentcomponentstatus_create.go:631-649 | The stored row of builder i reads back as its node, and its mutation carries the identifier of the row |
| Bulk.WrapHooks | ent/site_create.go:797-800 | The backward loop makes the mutator that runs the hooks in their order, the first outermost |
| Bulk.Saving.Call | ent/site_create.go:778-799 | Calling a mutator changes slots, mutations and database as the machine says |
| Bulk.Saving.Perform | ent/deploymentcomponentstatus_create.go:621-649 | The mutator of a builder: check, adopt, fill, call on, mark done |
| Bulk.CreateBulk.Save | ent/site_create.go:756-809 | For all builders, repeated or with shared mutations: fills in the defaults of the entity first (their meaning: FillInAt, DefaultsKeep, GivenIsStored), then runs the machine; an error of the bulk builder itself changes nothing |
| Bulk.CreateBulk.SaveApart | ent/site_create.go:756-809 | For distinct builder objects with mutation objects of their own, and hooks that call on once: what the database holds afterwards, the returned nodes and error, the mutation object of every builder and its value; and it is all or nothing on these objects if and only if the answer comes out of the hooks of every builder |
| BulkModel.FillInAt | ent/site_create.go:763-766 | A mutation that is not shared gets its own defaults |
| BulkEntities.SharedDefaults | ent/site_create.go:763-766 | A mutation that is shared, or belongs to a repeated builder, gets the defaults of its first position |
| Hooks.Compose | ent/ent.go:575-577 | The backward loop is the right fold of the hooks, the first outermost |
| Hooks.WithHooks | ent/ent.go:508-539 | For hooks that call on once: the operation runs on the mutation that comes out of them, which becomes the builder's own one, and the hooks are left in reverse; for all hooks it is the fold around that copy; with any nil hook nothing runs and all is as before |
| Hooks.FoldIsNested | ent/ent.go:516-530 | The same about the fold |
| Hooks.UseTwice | ent/client.go:287-291 | Registering in two calls or one gives the same chain, earlier hooks outside |
| Hooks.FoldConcat | ent/client.go:1348-1350 | Wrapping in one list inside another is wrapping in their concatenation |
| Hooks.HooksNest | ent/ent.go:524-530 | For all hooks that call on once, whatever they do before and after: entered in order, the operation once, left in reverse |
| TxModel.Atomicity | ent/tx.go:76-88 | Over every run, with all hooks that are trees of steps, also those that end the transaction to any depth, and all answers of the database: no second transaction begins, and what is committed grows by all executed statements in order exactly if the transaction ended as committed |
| TxModel.DeeperChain | ent/tx.go:76-88 | What a chain of hooks does does not depend on the size of the stack, if the nested ends fit on it |
| TxModel.ChainIsFold | ent/tx.go:84-87 | Running the hooks is calling the fold of the hooks, as functions of the next committer, over the base |
| TxModel.CommitTakesEffect | ent/tx.go:76-88 | Committing changes the database if and only if the first end that the hooks come to, by calling on or on their own, is a commit and the database does not refuse it, and then by exactly the statements executed until then |
| TxModel.CommitCallsOn | ent/tx.go:76-88 | If the hooks do not end the transaction on their own, nor gain by trying again: if and only if every registered hook gets to call on, whatever the database answers to its statements before, and the commit is not refused |
| TxModel.RefusedInHook | ent/tx.go:224-227 | A commit hook whose statement the database refuses, and which passes the error on: nothing is committed, and the transaction stays open |
| TxModel.SecondAttempt | ent/tx.go:42-67 | A hook that calls on twice around one whose statement is refused once: the second attempt is committed |
| TxModel.HooksCanVeto | ent/tx.go:132-144 | A commit or rollback leaves the transaction open exactly when its hooks come to no end at all |
| TxModel.EndsWithoutHooks | ent/tx.go:79-81 | Without hooks, ending an open transaction returns no error if the database does not refuse, and otherwise its reason |
| TxModel.CommitReturns | ent/tx.go:76-88 | With hooks that pass on what comes back, a commit returns no error if and only if it took effect, and a refusal comes out with its reason |
| TxModel.RollbackReturns | ent/tx.go:132-144 | A rollback returns no error if and only if the transaction is over and the database has not refused |
| TxModel.RollbackCallsOn | ent/tx.go:132-144 | If the hooks do not end the transaction on their own, nor gain by trying again, a rollback ends it if and only if every registered rollback hook gets to call on |
| TxModel.EndsOnce | ent/tx.go:79-81 | A transaction that is over cannot be ended again |
| TxModel.RegisteredInOrder | ent/tx.go:91-96 | Hooks run in the order of registration, each around the later ones, and those for the other ending do not run |
| TxModel.StatementReturns | ent/tx.go:224-227 | A statement is executed if and only if the transaction is open and the database accepts it; otherwise its error is returned |
| TxModel.BuildersEndNothing | ent/tx.go:206-222 | Begin, commit, rollback and close of a builder change nothing |
| TxModel.RolledBackFirst | ent/tx.go:42-67 | A commit hook that rolls back and then calls on: nothing is committed |
| TxModel.RolledBackInstead | ent/tx.go:42-67 | A commit hook that rolls back and does not call on: the transaction is over all the same |
| TxModel.CommittingHookNeverEnds | ent/tx.go:42-67 | If the outermost commit hook begins by committing, it runs itself until the stack overflows, and nothing is committed |
| TxModel.CommitsOnce | ent/tx.go:42-67 | If it remembers having done so, the commit takes effect |
| Transactions.Client.StartTx | ent/client.go:152-160 | A transactional client starts no other transaction; a plain one starts a new one or returns the database's error |
| Transactions.Tx.Take | ent/tx.go:206-232 | Builders' own begin, commit, rollback and close change nothing; statements run in the transaction or return the database's error; ends run the hooks |
| Transactions.Tx.Commit | ent/tx.go:76-88 | The backward loop over the hooks registered when it is called makes a committer, and calling it changes the database as the machine says; without hooks it returns the answer of the database, and with hooks that pass on what comes back no error if and only if the commit took effect |
| Transactions.Tx.Rollback | ent/tx.go:132-144 | The same for rolling back: no error if and only if the transaction is over and the database has not refused |
| Transactions.Transact | ent/client.go:152-177 | A whole life of a transaction leaves all of its statements or none |

## Left out

- SQL generation, dialects, `Unique`, row locks and selector modifiers: their meaning is in a library that is not part of this model.
- `OnlyID`, `Count`, group-by, aggregates and `Scan` of other columns than the identifier: they scan through the library's selector, which is not part of this model.
- The rows that a traversal selects: only its preparation is modelled; a builder that is run has no path.
- EagerLimits.ChildLimitIff: for builders without predicates, and with no limit elsewhere in the tree.
- EagerLimits.ParentLimitIff: as for the children.
- EagerZero.ZeroFails: for builders without predicates; ZeroIff, which gives the exact condition, has no such restriction.
- BulkOutcome.OneInsert: for distinct builders with their own mutations, and hooks that call on once in every run and decide by errors alone (their edits and exchanges are any functions of the mutation); for all other bulks and hooks, InsertsAreComplete, NodesAreComplete and ExactlyOnce say what holds.
- Hooks that take an unbounded number of steps, go back to a mutation that they have exchanged, or call the next one after they have returned.
- EagerReruns.RerunsAttach: identifiers of the children; their own edges are loaded by builders that were bound in their own runs.
- QueryBuilder.Query.Clone: the slice of interceptors is a list of values here; builders never append to it. The path of a builder, which a clone shares, belongs to the traversal and is left out with it.
- Hooks.WithHooks: mutations and values of an unexpected type are ruled out by the types.
- Hooks of a bulk create that are nil (a panic) or that pass a mutation of another entity (an error before the check).
- What the database does to the rows of adopted children (`HostsIDs`), conflict clauses and upserts, the insert of a single builder.
- Entities.BuildSpec: a loop over the columns stands for one generated `if` per field.
- Interceptors that change the result or the query they are given; the context and its operation name.
- Negative limits and offsets.
- Update and delete builders, setters, panicking variants, string methods, the user entity.
- JSON encoding, time precision and the generation of identifiers and times: values that are passed in.
- The mutex of the transaction driver and use by several goroutines, which the driver does not support.
- Transaction options, debug drivers, logging, the test environment.
