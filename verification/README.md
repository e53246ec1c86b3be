# A verified model of the account entity and of the audit gate

The repository keeps its accounts, groups, proxies and usage logs behind generated builders (`backend/ent`), and guards its
frontend dependencies with a hand-written audit gate (`tools/check_pnpm_audit_exceptions.py`). This project models the parts
of both that hold state or an algorithm and proves what they keep. The generated files repeat one template per entity, so the
template is modelled once, on Account, with the group, proxy and usage-log edges and the nullable foreign key of AuthIdentity.

| Part | Modules |
|---|---|
| Defaults, checks, rows | `Options`, `AccountSchema`, `AccountBuilder`, `AccountRows`, `AccountFields` (field by field) |
| Bulk create | `BulkCreate` (the code), `BulkCreateRuns` (a reference and its agreement with the code), `BulkCreateTheorems` |
| Upserts | `Upsert` |
| Edge updates | `UpdateEdges` |
| Query builders and clones | `QueryBuilder`, `QueryCalls` (what sequences of calls come to) |
| Eager loading | `EdgeQuery`, `EagerJoin` (plain joins), `EagerLoad` (the loaders), `EagerTheorems`, `EagerContent` (what the loaded rows hold) |
| Audit gate | `Text`, `ExceptionList`, `ExceptionListExact`, `AuditReport`, `AuditGate`, `AuditRule` (the rule in the script's own terms), `AuditGateOrder` |

Code that works by changing things in place (`Save`, the loaders, the builders, the parser's and the gate's loops) is
imperative here too, with every method tied to a specification function; the theorems are about those functions. The modules
`AccountFields`, `EagerContent`, `AuditRule` and `ExceptionListExact` state what those functions come to in terms of named
fields, stored rows and texts alone, without the functions themselves.

`dafny verify dfyconfig.toml` checks everything.

## What is assumed about libraries and the outside

- An IN filter returns exactly the rows whose key is in the list; a table is a list of rows in the order they are returned.
- Interceptors may change the rows a query returns; where a theorem needs that they do not, it says so.
- In an upsert a later assignment to a column wins, `DO NOTHING` leaves the stored row alone, adding to NULL gives NULL, and a
  value that cannot be added to a column leaves it alone.
- An edge update applies its clears before its adds.
- The JSON codec is arbitrary. The row round trip holds iff it decodes the two documents that are stored, which is a condition
  on those documents (`CreateReadRoundTripIff`), met by some codec for every mutation (`SomeCodecKeeps`).
- The columns of a table start with its primary key (as in `backend/ent/group/group.go:162-163`).
- The driver's answer to a batch insert (failure, constraint failure, or generated keys) is an arbitrary function of the rows.
- Defaults, validators, hooks, lower-casing, date parsing, number printing and today's date are parameters.

## What does not hold

Each of these is a theorem that names the failing input; where there is an exact condition it stands beside it.

- A bulk save checks the builder's own mutation before it adopts the one its hooks passed down
  (`backend/ent/account_create.go:1935-1938`), so a hook that substitutes a mutation gets an unchecked row inserted:
  `SubstitutedRowIsNotChecked`. The check guarantees a valid row iff the adopted mutation is complete and agrees with the
  checked one on the validated fields: `CheckCoversRowIff`.
- A hook that reports success without calling the next mutator makes a save succeed with only some builders done:
  `SkippingHookBreaksSuffix`. The done builders are a suffix iff no called builder's hooks report success when its own link did
  not succeed: `DoneIsSuffixIff`.
- Running the same builder twice filters its edge queries by both parent lists, so parents that are new in the second run lose
  their children: `SecondParentLosesChild`, `NewParentLosesChildren`. Exactly when: `RerunIsFreshIff`.
- Adding a key to an edge and then clearing the edge keeps the key: `AddThenClearKeepsKey`. Exactly when:
  `UpdateKeepsExactly`, `UpdateIsOneByOneIff`.
- Resetting the proxy edge keeps the mark that clearing it left on the field: `ResetKeepsProxyCleared`. Exactly when:
  `ProxyUpdateIsOneByOneIff`.
- The raw new-values option overwrites `created_at`, and so does a callback that names the column through the update set it is
  given, for which there is no typed setter: `RawNewValuesOverwrites`, `RawSetOverwrites`. Exactly when: `KeepsCreatedAtIff`.
- An exception field named `version` or `exceptions` is dropped on a line of its own, and a key that starts with a dash or a
  hash is misread: `ReservedInnerKeyIsDropped`, `DashedKeyStartsEntry`. Exactly when: `InnerLineIff` for a line, `ParseUndoesPrintIff` for a file.
- The gate's verdict depends on the order of the findings when findings that share a key disagree on severity: `OrderMatters`.
  Exactly when: `EveryOrderPassesIff`.
- The gate overlooks a high or critical vulnerability whose `via` has no identifier, although it reports an advisory without
  one: `EmptyViaIsOverlooked`, `AdvisoryIsNeverOverlooked`. Exactly when: `VulnerabilityIsOverlookedIff`,
  `VulnerabilityContributesIff`.
- A numeric `source` that serves as a title makes reading the report fail, although the normalisers are written to take
  numbers (`tools/check_pnpm_audit_exceptions.py:119-131`): `NumericTitleIsUnreadable`. Exactly when: `TitlesKept`.
- A clone of a locked query is not locked, although cloning is documented to include all steps: `CloneDiffersOnlyInModifiers`.
  Exactly when: `CloneIsEqualIff`.

## Model

| member | source | states |
|---|---|---|
| BulkCreate.AccountCreateBulk.Save | backend/ent/account_create.go:1919-1976 | a preset error is returned before anything is touched; otherwise the builders, specs, nodes, trace and result are those of the run `SaveRun`, whose meaning the rows below give |
| BulkCreate.AccountCreateBulk.BuildMutator | backend/ent/account_create.go:1966-1968 | wrapping from the last hook to the first puts the first hook outermost |
| BulkCreate.AccountCreateBulk.CallLink | backend/ent/account_create.go:1930-1964 | one link: check, adopt the mutation, build node and spec, run the rest, and only on success take over the key and mark the mutation done |
| BulkCreate.AccountCreateBulk.FillDefaults | backend/ent/account_create.go:1928-1929 | the builder gets its defaults, whether or not they report an error |
| BulkCreateTheorems.SaveFollowsReference | backend/ent/account_create.go:1919-1976 | for all builders, hooks and answers the nested closures produce the trace, outcome and final state of a reference that looks at each builder on its own |
| BulkCreateRuns.HooksEffect | backend/ent/account_create.go:1930-1968 | the same from any hook of any builder on: the invariant that carries the run |
| BulkCreateTheorems.SaveIsWellNested | backend/ent/account_create.go:1926-1974 | the hooks entered are a prefix of all hooks in builder order, outermost first; they are left in exactly the reverse order, and every entry precedes every exit |
| BulkCreateTheorems.BatchInsertedExactlyOnce | backend/ent/account_create.go:1940-1952 | the batch is inserted exactly once, with all rows in builder order and after every check passed, iff no entry hook and no check fails; otherwise never |
| BulkCreateTheorems.SaveSucceedsIff | backend/ent/account_create.go:1919-1976 | with proper hooks nodes are returned iff no entry hook, check, batch or exit hook fails |
| BulkCreateTheorems.DoneIsSuffix | backend/ent/account_create.go:1953-1964 | at every exit the builders marked done are a suffix of the list; none after a failed batch, all after a success, each with the key of its own row |
| BulkCreateTheorems.DoneIsSuffixIff | backend/ent/account_create.go:1930-1968 | for any hooks at all: the done builders are a suffix iff no called builder's hooks report success when its link did not succeed |
| BulkCreateTheorems.EmptySave | backend/ent/account_create.go:1970-1975 | without builders nothing is inserted and the save succeeds |
| BulkCreateTheorems.PlainSaveInserts | backend/ent/account_create.go:1919-1952 | without hooks the batch is inserted iff every builder ends with all that is required and valid, and its rows have exactly the columns set and, for the rest, each column's own default |
| BulkCreateTheorems.OwnMutationIsTheOneChecked | backend/ent/account_create.go:1931-1938 | a link called with the builder's own mutation inserts exactly the fields it checked; hooks that never substitute guarantee that |
| BulkCreateTheorems.InsertedRowsAreValid | backend/ent/account_create.go:1928-1938 | without substitution every inserted row has all required columns and valid values, although errors of `defaults` are dropped |
| BulkCreateTheorems.CheckCoversRowIff | backend/ent/account_create.go:1935-1938 | for any hooks at all: passing the check guarantees a valid row, under all validators, iff no such mutation can pass, or the adopted mutation is complete and agrees with the checked one on every validated field it has |
| BulkCreateTheorems.SubstitutedRowIsNotChecked | backend/ent/account_create.go:1935-1938 | one substituting hook makes any builder that passes its check insert a row with no column |
| BulkCreateTheorems.SkippingHookBreaksSuffix | backend/ent/account_create.go:1930-1964 | the hypothesis on hooks is needed: a hook that claims success breaks the suffix |
| AccountBuilder.Check | backend/ent/account_create.go:522-588 | passes iff all required fields are there and every validated field passes its validator |
| AccountFields.CheckReportsFirst | backend/ent/account_create.go:522-588 | the error is the first problem in the order of the fourteen fields checked: missing, or refused by the field's own validator |
| AccountBuilder.AccountCreate.SetDefaults | backend/ent/account_create.go:465-519 | leaves the mutation and the error that the three rows below describe by field |
| AccountFields.DefaultsComplete | backend/ent/account_create.go:465-519 | without an error each of the ten fields holds what was set or its own default (concurrency the default concurrency, and so on), and no other field was added |
| AccountFields.DefaultsErrorNames | backend/ent/account_create.go:465-493 | the error names the first unset field among created_at, updated_at, credentials and extra whose default function is missing |
| AccountFields.DefaultsStopEarly | backend/ent/account_create.go:465-493 | with an error only the default functions before the failing one have been applied |
| AccountBuilder.DefaultsOnlyAdd | backend/ent/account_create.go:465-519 | a set field is never overwritten, and what is added is the field's default |
| AccountBuilder.DefaultsIdempotent | backend/ent/account_create.go:465-519 | a second call changes nothing and reports the same |
| AccountBuilder.DroppedDefaultsErrorIsCaught | backend/ent/account_create.go:465-588 | whenever `defaults` stops early, `check` on the mutation it leaves fails |
| AccountBuilder.CheckAfterSuccessfulDefaults | backend/ent/account_create.go:435-588 | after defaults only name, platform, type and the validators can still fail the check |
| AccountRows.ScanValues | backend/ent/account.go:140-161 | one fresh destination per column, of the column's kind |
| AccountRows.AccountRecord.AssignValues | backend/ent/account.go:165-376 | assigns column by column, JSON on top of the document already there, and stops at the first error with exactly the columns before it assigned; too few values change nothing |
| AccountRows.TablesAgree | backend/ent/account.go:140-376 | the column types written out in `createSpec`, `scanValues` and `assignValues` agree with each other and with the struct |
| AccountRows.ReadBackColumns | backend/ent/account_create.go:608-780 | if the codec keeps the documents stored, any list of columns of a stored row, in any order and with repetitions, reads back without error: listed fields get the saved node's values, others stay |
| AccountRows.CreateReadRoundTrip | backend/ent/account_create.go:590-780 | then reading all columns in any order gives the key and exactly the fields of the node that the create returned; unset optional fields are nil |
| AccountRows.CreateReadRoundTripIff | backend/ent/account_create.go:590-780 | for any codec: reading all columns once, in any order, gives back the saved node iff the codec reads back every document stored |
| AccountRows.SomeCodecKeeps | backend/ent/account.go:221-236 | for every mutation some codec keeps its documents, so the round trip speaks of every mutation |
| AccountRows.ColumnRoundTrip | backend/ent/account.go:165-376 | a single column, with its codec, kinds and nil case |
| AccountFields.NodeHolds | backend/ent/account_create.go:608-780 | the node holds thirteen fields directly, unset ones as the zero value of their type, and sixteen through pointers, unset ones as nil, each listed by name |
| AccountFields.SpecHolds | backend/ent/account_create.go:608-780 | the row has exactly the fields set, each with its type, and the proxy's key as an edge |
| AccountFields.RowReadsAs | backend/ent/account.go:165-376 | a row read back whole gives a node that holds each field so |
| AccountFields.HolderDecides | backend/ent/account.go:165-376 | a destination is refused iff it is not of the kind allocated for its column, NULL leaves the record alone, and other columns are kept by name |
| Upsert.UpsertBuilder.Call | backend/ent/account_create.go:1301-1336 | how each call changes the list of conflict options; `OnConflict` replaces it, the others append |
| Upsert.UpsertBuilder.ExecOne | backend/ent/account_create.go:1878-1883 | a single upsert runs iff it has an option |
| Upsert.UpsertBuilder.ExecBulk | backend/ent/account_create.go:2628-2641 | a bulk upsert runs iff it has no preset error, has an option, and no builder has one; the first builder that has one is named |
| Upsert.CreatedAtAssignment | backend/ent/account_create.go:1301-1336 | under any options and callbacks `created_at` ends overwritten iff some option overwrites it and no later one assigns it again |
| Upsert.CallsResolve | backend/ent/account_create.go:1301-1336 | after any sequence of calls every column of the conflicting row is decided by the last call that assigns it: new values give the proposed value (`created_at` keeps the stored one), ignoring gives the stored one, a callback what it sets last; `DoNothing` anywhere keeps the row |
| Upsert.ResolvedByLast | backend/ent/account_create.go:2049-2086 | the same for any list of options, raw ones included |
| Upsert.OnConflictStartsOver | backend/ent/account_create.go:798-803 | `OnConflict` discards what was called before it |
| Upsert.OptionAssigns | backend/ent/account_create.go:2049-2086 | what each option, callbacks included, does to the assignment of each column |
| Upsert.KeepsCreatedAtIff | backend/ent/account_create.go:1301-1336 | every conflicting row keeps its `created_at` iff the conflict is ignored, or no option overwrites it without a later one assigning it again |
| Upsert.UpsertsKeepCreatedAt | backend/ent/account_create.go:2049-2086 | after any sequence of upsert calls, single or bulk, in which new values enter only through `UpdateNewValues` and callbacks use only the typed setters, a conflicting row keeps its `created_at` |
| Upsert.RawNewValuesOverwrites | backend/ent/account_create.go:785-803 | the raw option alone overwrites it; a later `UpdateNewValues` repairs that |
| Upsert.RawSetOverwrites | backend/ent/account_create.go:826-828 | a callback that sets or excludes `created_at` through the embedded update set overwrites it, even after `UpdateNewValues` |
| UpdateEdges.BuildEdges | backend/ent/account_update.go:846-976 | the clear and add lists are those the mutation demands, edge by edge and in order, whatever order the key sets are listed in |
| UpdateEdges.Keys | backend/ent/mutation.go:3811-3824 | every key of the set is listed once, in some order |
| UpdateEdges.ReplayMeaning | backend/ent/account_update.go:846-976 | replaying clears, then adds gives for each to-many edge (empty if cleared, else old minus removed) plus added, and the proxy set, kept or removed |
| UpdateEdges.EdgeMutation.Call | backend/ent/mutation.go:3780-3831 | what adding, removing, clearing and resetting record |
| UpdateEdges.UpdateKeepsExactly | backend/ent/mutation.go:3780-3831 | for every sequence of calls the update leaves a key iff the calls made one by one leave it, or it was added before a clear and not touched since |
| UpdateEdges.UpdateIsOneByOneIff | backend/ent/account_update.go:846-890 | the update equals the calls made one by one iff no addition outlives a clear |
| UpdateEdges.AddThenClearKeepsKey | backend/ent/mutation.go:3780-3792 | the smallest case in which it does not |
| UpdateEdges.ProxyMutation.Call | backend/ent/mutation.go:3834-3858 | what setting, clearing and resetting the proxy edge or its field record |
| UpdateEdges.ProxyUpdateIsOneByOneIff | backend/ent/mutation.go:2776-2822 | for every sequence of proxy calls the update leaves what the calls made one by one leave, unless the last call is a lost clear or reset |
| UpdateEdges.ResetKeepsProxyCleared | backend/ent/mutation.go:3834-3858 | resetting the edge after clearing it still removes the stored proxy |
| QueryBuilder.Query.Clone | backend/ent/account_query.go:342-360 | terminates on any tree of builders; the copy reads the same without lock modifiers at any depth, and all its state is new, the arrays of its orderings, interceptors and predicates included |
| QueryBuilder.CopyOf | backend/ent/account_query.go:349-351 | appending a slice to an empty one gives the same elements in a new array |
| QueryBuilder.AppendTo | backend/ent/account_query.go:42-45 | appending adds the elements in place if there is room, and in a new array if not; the old slice reads as before |
| QueryBuilder.ShareThenAppend | backend/ent/account_query.go:349-351 | why the copies are needed: of two holders of one slice with room to spare, the second append overwrites the first |
| QueryBuilder.Query.CloneEager | backend/ent/accountgroup_query.go:220-236 | the edge builders are copied slot by slot, sharing nothing with the originals or each other; a missing one stays missing |
| QueryBuilder.Query.Call | backend/ent/account_query.go:42-70 | every builder call, at any depth of the tree, changes the builder as its reading says and nothing outside its own footprint |
| QueryCalls.CallsMean | backend/ent/account_query.go:48-64 | after any calls the limit, the offset and distinctness are each those of the last call that set them |
| QueryCalls.CallsAdd | backend/ent/account_query.go:42-70 | orderings, predicates and lock modifiers are those that were there and then all that were given, in order |
| QueryCalls.CallsMeanBelow | backend/ent/account_query.go:364-449 | selected fields and each edge's builder, call by call |
| QueryCalls.EmptyMeans | backend/ent/account_query.go:364-372 | the builder of a newly requested edge says nothing |
| QueryBuilder.Query.LockRows | backend/ent/account_query.go:789-812 | locking appends a modifier and on Postgres switches off distinct rows |
| QueryBuilder.Query.CallFields | backend/ent/account_query.go:420-449 | selecting appends fields, grouping replaces them |
| QueryBuilder.Query.SetEager | backend/ent/account_query.go:364-406 | asking for an edge replaces that edge's builder and leaves the other slots |
| QueryBuilder.CloneThenCall | backend/ent/account_query.go:340-360 | after cloning, any interleaving of calls on the original and the clone leaves each as if the other did not exist |
| QueryBuilder.CloneDiffersOnlyInModifiers | backend/ent/account_query.go:346-359 | at every path the clone has a builder iff the original has, equal in all but the modifiers |
| QueryBuilder.StrippingTwice | backend/ent/account_query.go:342-360 | a clone of a clone reads as the first clone |
| QueryBuilder.CloneIsEqualIff | backend/ent/account_query.go:340-341 | a clone reads as the original iff no builder in the tree is locked, although it is documented to include all steps |
| EdgeQuery.TableQuery.QuerySpecColumns | backend/ent/account_query.go:708-729 | the column list of a query: everything, or the ID first, the other selected fields, and the needed key |
| EdgeQuery.SelectionKeepsKeys | backend/ent/account_query.go:708-729 | for every selection the ID comes first and once, and selected and needed columns are read, and no others |
| EdgeQuery.TableQuery.NeedField | backend/ent/account_query.go:645-647 | a selection that lacks the foreign key gets it once |
| EdgeQuery.MatchingTwice | backend/ent/account_query.go:42-45 | predicates accumulate by conjunction |
| EagerContent.FoundInOrder | backend/ent/account_query.go:708-735 | a query finds exactly the rows that meet every predicate, in table order and as often as stored |
| EagerLoad.SqlAll | backend/ent/account_query.go:480-540 | one new node per row; each requested edge ends as the plain join with what its query returned; every node answers for its proxy; the first loader that fails decides the error; each load appends one filter to its builder; no rows, no load |
| EagerLoad.LoadGroups | backend/ent/account_query.go:542-602 | every account ends with its joined groups, or the first group nobody asked for stops the load |
| EagerLoad.ScanJoin | backend/ent/account_query.go:565-587 | one pass, with the group's key taken from the second position of the row, keeps each group at its first row and the set of accounts it is paired with |
| EagerLoad.AssignGroup | backend/ent/account_query.go:592-600 | the accounts of a set all get the group once, for every iteration order |
| EagerLoad.AssignedIsDue | backend/ent/account_query.go:584-602 | what the second pass appends to an account is the plain join |
| EagerJoin.GroupsAreTheJoin | backend/ent/account_query.go:542-602 | an account's groups are exactly those joined to it, each once however often join rows repeat |
| EagerJoin.GroupsKeepOrder | backend/ent/account_query.go:576-600 | they are a subsequence of the groups in the order of first appearance |
| EagerJoin.SortedRowsGiveSortedGroups | backend/ent/account_query.go:576-600 | rows sorted by a rank of the group alone give every account a sorted list |
| EagerTheorems.GroupsEdgeIsTheJoin | backend/ent/account_query.go:542-602 | with distinct accounts, no interceptor and any selection of group columns loading succeeds, and every list is the join with the whole link table, read through those columns |
| EagerContent.GroupsShow | backend/ent/account_query.go:542-602 | for every selection each loaded group is the stored one: same ID, and a column iff it is stored and was read, with the stored content |
| EagerContent.GroupsAreStored | backend/ent/account_query.go:542-602 | with nothing selected the groups are exactly the stored rows |
| EagerContent.JoinedInOrder | backend/ent/account_query.go:565-600 | each group of an account is that of the first link row naming it for the accounts asked for, and they come in the order of those rows |
| EagerLoad.LoadProxy | backend/ent/account_query.go:603-634 | asks for each non-nil key once in order of first appearance, gives every account the row with its key, and fails at the first row nobody asked for; no key, no query |
| EagerLoad.IndexForProxy | backend/ent/account_query.go:604-619 | the distinct keys in order and, for each, the accounts that hold it |
| EagerJoin.FirstKeysAreDistinct | backend/ent/account_query.go:604-617 | the requested keys are distinct and exactly those some account has |
| EagerContent.FirstKeysInOrder | backend/ent/account_query.go:604-617 | and are asked for in the order in which they first appear |
| EagerContent.FoundIsLast | backend/ent/account_query.go:624-632 | of several rows with an ID the last one stays assigned |
| EagerLoad.ProxyAnswerAfterLoading | backend/ent/account.go:112-119 | for every node with loaded proxies the answer is never "not loaded"; it is the node's own proxy, or "not found" iff its key is nil or no such row came back |
| EagerTheorems.FilteredProxiesAreWanted | backend/ent/account_query.go:619-626 | without interceptors no proxy comes back that nobody asked for |
| EagerLoad.LoadUsageLogs | backend/ent/account_query.go:635-664 | the last account with an ID gets its children in order; the first child without a key or owner stops the load |
| EagerLoad.AttachUsageLogs | backend/ent/authidentity_query.go:559-591 | the second pass, with the nil case of a nullable foreign key |
| EagerLoad.AssignedIsAttached | backend/ent/account_query.go:655-662 | what the second pass appends is the in-order filter of the children by key, for the last holder of an ID |
| EagerContent.ChildrenInOrder | backend/ent/account_query.go:652-662 | a parent's children are all rows with its key, in order and as often as they occur |
| EagerJoin.EveryChildIsAttachedOnce | backend/ent/account_query.go:635-664 | if every child has an owner, as many children are attached in total as were returned |
| EagerTheorems.FilteredChildrenHaveOwners | backend/ent/account_query.go:645-650 | without interceptors every child returned has an owner, for every selection |
| EagerTheorems.SelectionKeepsUsageLogs | backend/ent/account_query.go:645-647 | for every selection on the sub-query each parent has the children of the plain join, read through the selected columns, and no child is stray |
| EagerContent.LogsShow | backend/ent/account_query.go:645-664 | for every selection each usage log is the stored one as far as its columns were selected or needed, with its key |
| EagerContent.LogsAreStored | backend/ent/account_query.go:635-664 | with nothing selected the usage logs are exactly the stored rows |
| EagerContent.ProxyShows | backend/ent/account_query.go:619-632 | the same for proxies |
| EagerContent.ProxyIsStored | backend/ent/account_query.go:603-634 | with nothing selected the proxy is exactly the stored row |
| EagerTheorems.SelectionKeepsProxy | backend/ent/account_query.go:619-632 | for every selection on the proxy query each key finds the plain row and none is unwanted |
| EagerTheorems.SelectionKeepsParents | backend/ent/account_query.go:716-727 | for every selection on the accounts the same accounts come back, with their IDs and, when proxies are requested, their proxy keys |
| EagerTheorems.LoadUnderSelections | backend/ent/account_query.go:480-540 | for all selections, on accounts, proxies and usage logs together, a query without interceptors succeeds and its edges are, by key, those of joins in which no selection occurs |
| EagerTheorems.RunAttachesIntersection | backend/ent/account_query.go:648-651 | after k filters a parent has its children iff its ID is in all k lists, else none |
| EagerTheorems.LoadUsageLogsAgain | backend/ent/account_query.go:635-664 | any number of loads with one builder: each succeeds, appends its filter and attaches exactly the children whose key is in the ID lists of all loads so far |
| EagerTheorems.ProxyRunsIntersect | backend/ent/account_query.go:616-619 | after k proxy loads a key finds its proxy iff every load that asked for anything asked for it |
| EagerTheorems.LoadProxyAgain | backend/ent/account_query.go:603-634 | any number of proxy loads with one builder: each succeeds and gives each account its proxy iff its key was in all requests so far |
| EagerTheorems.RerunIsFreshIff | backend/ent/account_query.go:648-651 | a re-run gives what a fresh builder gives iff every parent with children was in all earlier lists |
| EagerTheorems.RepeatedLoadsAgree | backend/ent/account_query.go:648-651 | so on an unchanged database every re-run gives the same edges |
| EagerTheorems.NewParentLosesChildren | backend/ent/account_query.go:648-651 | a parent with children that is new in the second run gets none of them, though a fresh builder gives it some |
| EagerTheorems.SecondParentLosesChild | backend/ent/account_query.go:648-651 | the same for a table of two rows |
| EagerTheorems.ProxyRerunIsFreshIff | backend/ent/account_query.go:616-619 | a proxy re-run finds what a fresh builder finds iff every key that has a proxy was in all earlier requests |
| EagerTheorems.RepeatedProxyLoadsAgree | backend/ent/account_query.go:616-619 | so on an unchanged database every proxy re-run finds the same proxies |
| EagerTheorems.QueryAgain | backend/ent/account_query.go:480-540 | running a whole account query any number of times with the same sub-query builders on an unchanged database loads the same proxies and usage logs every time, for every selection |
| ExceptionList.FieldReadsAs | tools/check_pnpm_audit_exceptions.py:12-20 | what a first line gives back under any plain key: a value in either kind of quotes exactly, a bare one stripped and without one pair of quotes around it |
| ExceptionList.InnerFieldReadsAs | tools/check_pnpm_audit_exceptions.py:12-20 | the same for a line of its own |
| ExceptionList.IntactIff | tools/check_pnpm_audit_exceptions.py:15-19 | a value is read as meant iff it is quoted, or bare without outer whitespace or quotes around it |
| Text.StripIs | tools/check_pnpm_audit_exceptions.py:15-30 | stripping leaves the text between two blanks |
| Text.AsciiSpaces | tools/check_pnpm_audit_exceptions.py:30 | which ASCII characters are blank |
| Text.LinesOfUnended | tools/check_pnpm_audit_exceptions.py:29 | the last line of a file need not be ended |
| ExceptionList.ParseExceptions | tools/check_pnpm_audit_exceptions.py:23-48 | the parsing loop, with its error, as a function of the text |
| ExceptionList.ParseFailsIff | tools/check_pnpm_audit_exceptions.py:34-45 | reading fails iff some stripped line starts an entry with text that has no colon |
| ExceptionList.ParseUndoesPrint | tools/check_pnpm_audit_exceptions.py:12-48 | printing any list of printable entries, each value bare or in either kind of quotes, and parsing it gives the list back |
| ExceptionListExact.ParseUndoesPrintIff | tools/check_pnpm_audit_exceptions.py:12-48 | for every list of entries with distinct keys each and every choice of styles: the file reads back iff every value is on one line and read as meant, every first key is plain and every other key reads as a key |
| ExceptionListExact.ParsedIsClean | tools/check_pnpm_audit_exceptions.py:12-48 | whatever the text, every entry parsed has stripped keys without colons and one-line values |
| ExceptionListExact.ParsePrinted | tools/check_pnpm_audit_exceptions.py:26-48 | with plain keys, parsing a printed list gives one more entry per dashed key, and without those exactly the kept fields of each entry |
| ExceptionList.InnerLineIff | tools/check_pnpm_audit_exceptions.py:30-45 | which keys are read back from a line of their own, exactly |
| ExceptionList.DashedKeyStartsEntry | tools/check_pnpm_audit_exceptions.py:34-42 | a key that starts with a dash opens a new entry under the rest of the key |
| ExceptionList.ReservedInnerKeyIsDropped | tools/check_pnpm_audit_exceptions.py:32-33 | a field named after a header is dropped |
| AuditReport.FirstOf | tools/check_pnpm_audit_exceptions.py:51-61 | a chain of alternatives gives the first true one, else the last |
| AuditReport.AdvisoryIdIs | tools/check_pnpm_audit_exceptions.py:51-61 | which of an advisory's fields identifies it, in order |
| AuditReport.AdvisoryFindingIs | tools/check_pnpm_audit_exceptions.py:68-79 | package, severity, identifier and title of an advisory's finding |
| AuditReport.DetailIs | tools/check_pnpm_audit_exceptions.py:88-102 | which fields of a `via` object identify and title it, in order |
| AuditReport.OtherItemsAre | tools/check_pnpm_audit_exceptions.py:103-108 | a text is identifier and title at once, alone or in a list; anything else is neither |
| AuditReport.TitlesJoin | tools/check_pnpm_audit_exceptions.py:109 | titles are joined in order with a semicolon and a space |
| AuditReport.ViaFindingIs | tools/check_pnpm_audit_exceptions.py:109-111 | a vulnerability's finding has its name, severity and joined titles and the identifier as text |
| AuditReport.IterVulns | tools/check_pnpm_audit_exceptions.py:64-111 | the findings of a report: one per advisory, then one per vulnerability and identifier, or the first vulnerability whose titles do not join |
| AuditReport.FromSummariesAre | tools/check_pnpm_audit_exceptions.py:85-111 | the findings of the vulnerabilities are exactly those under one of their identifiers |
| AuditReport.IdsKept | tools/check_pnpm_audit_exceptions.py:88-110 | the identifiers kept are those of the items that have one |
| AuditReport.TitlesKept | tools/check_pnpm_audit_exceptions.py:97-109 | the titles fail to join iff an item has only a number to offer |
| AuditReport.NumericTitleIsUnreadable | tools/check_pnpm_audit_exceptions.py:97-109 | a report with one object whose only title is the number 7 cannot be read |
| AuditReport.ReportPassesIff | tools/check_pnpm_audit_exceptions.py:64-243 | on a report with consistent severities the gate passes iff the exceptions are sound and every advisory, and every vulnerability under each of its identifiers, is settled |
| AuditReport.AdvisoryIsNeverOverlooked | tools/check_pnpm_audit_exceptions.py:66-79 | without exceptions an advisory stops the gate iff it is high or critical and named |
| AuditReport.VulnerabilityIsOverlookedIff | tools/check_pnpm_audit_exceptions.py:82-111 | alone and without exceptions, a high or critical vulnerability gets through iff nothing in its `via` identifies it |
| AuditReport.VulnerabilityContributesIff | tools/check_pnpm_audit_exceptions.py:82-111 | in any readable report, whatever the exceptions: leaving a vulnerability out changes the findings iff an item of its `via` has an identifier |
| AuditReport.EmptyViaIsOverlooked | tools/check_pnpm_audit_exceptions.py:85-111 | a high vulnerability with an empty `via` passes an empty exception list |
| AuditReport.CheckAudit | tools/check_pnpm_audit_exceptions.py:142-243 | the whole script: `main` returns nothing iff reading fails, 0 iff the rule holds, else 1; an uncaught error ends the process with status 1 as well |
| AuditGate.IndexExceptions | tools/check_pnpm_audit_exceptions.py:156-185 | the indexing loop and its errors, in order |
| AuditGate.LookUpFindings | tools/check_pnpm_audit_exceptions.py:191-219 | the lookup loop and its three error lists, in order |
| AuditGate.RunGate | tools/check_pnpm_audit_exceptions.py:142-243 | all errors in order, and exit code 0 iff the declarative rule holds |
| AuditGate.CatalogMeaning | tools/check_pnpm_audit_exceptions.py:156-185 | indexing is silent iff all entries are complete, dated and distinct by normalised key; then the index holds exactly them |
| AuditGate.TallyMeaning | tools/check_pnpm_audit_exceptions.py:187-219 | the lookup is silent iff every finding is identified and the first one with each key is allowed |
| AuditGate.GateDecidesRule | tools/check_pnpm_audit_exceptions.py:156-243 | nothing is reported iff the exceptions are sound, every named high or critical finding has an advisory key, and the first one with each key has an unexpired exception of blank or equal severity |
| AuditRule.GateEnforcesRule | tools/check_pnpm_audit_exceptions.py:156-243 | the same rule written with stripping, lower-casing and field names only |
| AuditRule.SinglePassesIff | tools/check_pnpm_audit_exceptions.py:114-219 | one finding under one exception passes iff the five fields are there, the date parses and is not past, packages agree up to outer whitespace, advisories and severities also up to case, with a non-blank advisory |
| AuditRule.SpellingIsIrrelevant | tools/check_pnpm_audit_exceptions.py:114-131 | outer whitespace of packages, advisories and severities and the case of the latter two never change the verdict of any run |
| AuditRule.RefusalSays | tools/check_pnpm_audit_exceptions.py:160-185 | for what each exception is refused, and under which key and with what the others are indexed |
| AuditRule.SightingSays | tools/check_pnpm_audit_exceptions.py:192-204 | which findings are passed over, which reported as unidentified, and under which key the others are looked up |
| AuditGateOrder.ExceptionOrderIsIrrelevant | tools/check_pnpm_audit_exceptions.py:160-185 | permuting exceptions never changes the verdict |
| AuditGateOrder.FindingOrderIsIrrelevant | tools/check_pnpm_audit_exceptions.py:190-219 | permuting or repeating findings that agree on severities never changes the verdict |
| AuditGateOrder.EveryOrderPassesIff | tools/check_pnpm_audit_exceptions.py:190-219 | in general every order passes iff the exceptions are sound and excuse every finding, not just the first under its key |
| AuditGateOrder.OrderMatters | tools/check_pnpm_audit_exceptions.py:205-215 | one exception for a high finding: a critical finding with the same key passes after it and not before it |
| AuditGateOrder.MoreFindingsOrLaterNeverHelps | tools/check_pnpm_audit_exceptions.py:187-219 | appending findings or advancing the date never turns a failure into a pass |

## Left out

- BulkCreate.AccountCreateBulk.Save: hooks that call the next mutator more than once, pass on a mutation of another entity, or edit the mutation after it returns, are not modelled; nor is the panic on a nil mutation, nor the copy of conflict options into the batch.
- BulkCreateTheorems.DoneIsSuffix: assumes that hooks never turn an error into success, where `DoneIsSuffixIff` has the exact condition; both assume that no mutation is done before the save, since a done mark is never taken back. A mutation that a hook substitutes is taken to be new and not done.
- BulkCreate: the single-row `AccountCreate.Save` is the one-builder case without the batch and is not repeated.
- AccountRows.CreateReadRoundTrip: floats are reals and times are instants, so rounding, precision and time zones are not captured; groups and usage logs set on create are edges outside the row and are left out.
- AccountRows.AccountRecord.AssignValues: how a JSON object merges into a document already there is the codec's business; `ReadBackColumns`, which allows repeated columns, needs that decoding a document over itself gives it again.
- Upsert.UpsertBuilder.Call: the per-column `Set`, `Update`, `Add` and `Clear` calls are data of one `Update` call; the conflict target's SQL is not modelled, nor are custom SQL expressions as values.
- UpdateEdges.BuildEdges: the field assignments of an update, its validators, and the account-groups edge, which is the through table of the groups edge, are left out; so is `AccountUpdateOne`, whose edge code has the same text.
- UpdateEdges.ReplayMeaning: what the database refuses, such as a usage log that cannot lose its account, is not modelled.
- QueryBuilder.Query.Clone: orderings, interceptors and predicates are slices over arrays; the context's field list, which the library copies, and the lock modifiers, which a clone drops, are plain sequences. Builders that share an edge builder, which the public calls cannot produce, are excluded by `Valid`.
- QueryBuilder.Query.Call: the path closures of edge traversal and running a query are not modelled as calls.
- EagerLoad.SqlAll: lock modifiers, limits and offsets of an edge's query, query hooks, driver errors and errors of the sub-query itself are left out; on an error the model still hands back the nodes, which the source drops.
- EagerLoad.LoadGroups: the group query is a row stream with an interceptor; the join and filter that a load appends to its builder are not in the contract, and running the same groups builder twice, which joins the link table twice in SQL, is not modelled.
- EagerLoad: the account-groups edge repeats the usage-log loader, and the group and account edges of an account group repeat the proxy loader with a key that is never nil.
- EagerTheorems.LoadUnderSelections: compares the edges by primary key, since columns that were not selected read as zero values; it needs the foreign keys to be columns of their tables and no interceptors, and leaves out the groups edge, for which `GroupsEdgeIsTheJoin` has every selection.
- AuditReport.IterVulns: values of other JSON types than those listed, and the errors they raise, are left out; findings are collected before the lookup starts rather than one at a time.
- AuditGate.RunGate: the wording of messages is left out; errors carry their data.
- ExceptionList.ParseExceptions: line ends are those of a file opened in text mode; encoding errors are left out.
- Key widths: identifiers are unbounded, as no arithmetic is done on them.
- SQL text, `GroupBy` and `Aggregate`, transactions, drivers, the client and the other entities' instances of the same templates add no property of their own.
