# Verified models of the CairnCMS API

CairnCMS is a headless CMS; this project models the parts of its API server that make promises over all
inputs, all runs or all interleavings, and proves those promises.

- **Nested reads** (`QueryModel`, `NestedJoin`, `Fetching`, `Unstripped`, `Merging`, `Windows`, `Batches`, `RunAst`,
  `Stripping`, `Counts`, `Exactness`, `PlainTrees`, `Authorization`, `Occurrences`, `PermissionCheck`, `ReadQuery`,
  `HiddenColumns`, over `Rows`). `NestedJoin.Join` is the naive meaning of a query tree: each
  requested field of each row, with related rows looked up one row at a time in the whole table.
  `RunAst.RunAst` is the real procedure, with one fetch per level, `_in` prefilters built from the parents,
  one-to-many rows fetched in batches, children merged into parents in place and temporary columns stripped
  at the end. Row by row, it is proved to compute the join exactly when the row is intact, and for plain trees it
  always is. `Windows`, `Batches` and `Exactness` say for each kind of node exactly when it gives its parents what
  was asked for, and name the inputs on which it does not.
  `Fetching` and `Counts` say by places in the tables what a fetch, its pages and a count are.
  `Authorization`, `PermissionCheck` and `ReadQuery` add `processAST`, and prove that adding permission filters to every
  node is the same as reading a database without the rows those permissions hide. `Occurrences` says place by place what
  a tree reads, which is what the checks come to, and `HiddenColumns` that what the caller may not read does not show.
- **The Redis messenger** (`MessengerState`, `MessengerRuns`, `MessengerRecovery`, `Messenger`, `MessengerCalls`,
  `MessengerOutages`) and **schedule coordination** (`ScheduleState`, `ScheduleRuns`, `ScheduleCluster`,
  `ScheduleClaims`, `ScheduleCoordination`). Every
  event handler, every deadline and every continuation after an `await` is one atomic turn of a state machine; the
  classes perform the turns on mutable fields, and the invariants are proved over all sequences of turns.
  `ScheduleCluster` puts any number of replicas over one shared sorted set.
- **Admin continuity** (`AdminContinuity`) and **deferred effects** (`OperationSteps`, `BoundTransaction`): the guard that keeps
  one admin role, over any history of serializable transactions, and what bound transactions let out when.
- **In-place table algorithms**: drag and drop (`Reordering`), one-to-many reconciliation (`Reconciling`),
  the group worklist (`GroupWorklist`).
- **Transformations against a simple form**: secret operation options (`OperationSecrets`), the batched
  export (`Export`), settings subjects (`SettingsSubjects`).

Where the code keeps state in an object and updates it, the model has a class whose methods are proved against a
function or a predicate on values; the general theorems are lemmas about those.

## What is assumed

- A fetch is filter, order and window over the rows of a table. Rows the order does not tell apart come in the
  same order in every fetch of a run, tables do not change during a run, primary keys are distinct and not null,
  and cells are scalars (`Unstripped.Sound`). Filters other than `_in` and `_and` are predicates on rows.
- Limits are at least -1, the batch sizes are positive. Sort columns of one-to-many nodes are filled in, as
  `api/src/utils/get-ast-from-query.ts` does (`NestedJoin.SortsFilled`). The join has the children of a one-to-many node
  in the order of what they show under the first sort column, ties in the order of the database; that is the order of the
  database exactly when it orders those values (`Merging.ResortInvisibleIff`, `Merging.ResortInvisible`), and with an
  alias in place of the column it is another (`Exactness.AliasHidesSortColumn`).
- A query tree is well formed in the sense of `Unstripped.Good`, which is what `RunAst.RunAst` and all that rests on it
  require. The conditions, and what goes wrong without them:
  - keys are distinct, and no requested column and no nested node stands under the name of a column that the run itself
    reads. Under the name of the primary key or of a foreign key an alias is selected in its place: items are then not
    found by their keys, and parents get what the alias points at (`Exactness.AliasHidesPrimary`,
    `Exactness.AliasHidesForeignKey`), right exactly as `Exactness.HiddenPrimaryIff`, `Exactness.HiddenForeignKeyIff` and
    `Exactness.HiddenParentKeyIff` say. Under the sort column of a one-to-many node the comparison meets items, of which
    it makes no order (`Exactness.ComparisonIsOrderIff`). A node under the foreign key of a one-to-many node is the way
    back to the parent;
  - a many-to-one node has no `offset` and its filter no `_in` of its own on the related primary key. A node without this
    is right exactly when its window fits (`RunAst.RunM2O`, `Windows.WindowFitsIff`); it goes wrong on
    `Exactness.OffsetHidesRelated` and `Exactness.InIsForgotten`;
  - a many-to-any node goes by the name of its own column, and its branches have no `offset` (but behind page 1), no
    later `page` and no operator of any kind on the branch's primary key: the prefilter is then not looked at, while the
    limit made for it still cuts. A node without this is right exactly as `Windows.A2OFits` says (`RunAst.RunA2O`); it
    goes wrong on `Exactness.AliasedNodeGetsNull`, `Exactness.OffsetHidesBranch` and `Exactness.OperatorLetsTheLimitCut`;
  - a one-to-many node has no `_in` of its own on the foreign key (`Merging.MergeAgreesIff`,
    `Merging.MergeMayForgetAnIn`), its `page` and `offset` skip nothing (`Batches.BatchSizeInvisibleIff`), and its foreign
    key is selected: requested under another key alone it is not, and no child is linked (`Exactness.ForeignKeyShownIff`,
    `Exactness.AliasedForeignKeyIsNotSelected`).
  Filters to which a permission has been added have no clause of their own left on any key, so `ReadQuery.ReadByQuery`
  asks for none of the conditions on filters.
- A well-formed tree need not give what it asks for. A row comes out as the join has it exactly when it is
  `Unstripped.Intact`, which is said of the names in the tree and of the rows it is related to; in a tree that is
  `PlainTrees.Plain`, of names and filters alone, every row is.
- Sort values of `Reordering` are integers or null.
- A command sent on a connection that is not ready fails, since the offline queue is disabled. Redis runs
  commands one at a time and keeps the sorted set. Coordination is enabled.
- A committed history of role transactions is serializable: some order of them explains every answer each verified
  transaction was given. The cipher opens what it sealed.

## Where the code does not do what one would expect

- The `_in` prefilter is merged index by index over an `_in` of the user's on the same field and replaces its
  values. The merged filter says what the user's does exactly when the user's values hold all that the parents point at
  and the rest of the filter lets through (`Merging.MergeMayForgetAnIn`, `Merging.MergeAgreesIff`).
- Behind another operator on the same field the prefilter is not looked at. That shows in a branch of a many-to-any node,
  whose limit is the number of keys asked for (`Exactness.OperatorLetsTheLimitCut`, `Windows.OperatorFitsIff`).
- An `offset` on a many-to-one node or a branch drops related rows, exactly unless nothing is related
  (`Exactness.OffsetHidesRelated`, `Windows.OffsetFitsIff`).
- An aliased many-to-any node gives every parent null (`Exactness.AliasedNodeGetsNull`, `RunAst.RunA2O`), and children
  requested with their foreign key under another key only are given to nobody (`Exactness.ForeignKeyShownIff`).
- `page` and `offset` of a one-to-many node are applied again after each batch; the result depends on the batch
  size exactly unless nothing is skipped or nothing is kept (`Batches.BatchSizeInvisibleIff`).
- A one-to-many child whose parent is requested back under the foreign key, and filtered out there, is dropped
  from its parent: a parent that does not pass that filter itself is left without children
  (`Exactness.FilteredWayBackLosesChildren`, `Merging.WayBackShowsIff`, `RunAst.RunO2M`).
- Of two many-to-one nodes on one column, one of them aliased, the second in order is compared with the item of the
  first and gives every parent null (`Exactness.SecondNodeGetsNull`, `Windows.M2OFoundIff`, `RunAst.RunM2O`).
- An item of a many-to-any node of which nothing is requested yields null where the primary key of the parents'
  collection has another name; so does one of a many-to-one node in a branch (`Exactness.BareBranchGetsNull`,
  `Exactness.BareBranchIff`, `Exactness.BareInBranchIff`).
- In a branch of a many-to-any node, columns are picked by their names: an aliased column is dropped, and an aliased
  primary key leaves the one that the run added for itself (`Exactness.AliasIsDropped`, `Exactness.InjectedKeyIsLeft`,
  `Stripping.StrippedIffIntact`). A count there is not among the collections that `processAST` checks, so that the
  rewriting then fails (`ReadQuery.BranchCountEscapes`).
- `shouldRun` may answer true for an older occurrence after it has for a newer one, but only to calls that overlap:
  grants increase in the order of the server (`ScheduleCluster.AnswersMayBeOutOfOrder`, `ScheduleCluster.LaterClaimsGetLater`).
- A batch of role updates is refused for demotions that it takes back: it is refused exactly when it demotes someone and
  every admin at some point, needlessly exactly when its last word about some role is that it is an admin
  (`AdminContinuity.BatchMayBeRefusedNeedlessly`, `AdminContinuity.BatchIsRefusedIff`,
  `AdminContinuity.BatchIsRefusedNeedlesslyIff`). So are upserts, where an admin created in the same call does not count
  (`AdminContinuity.NewAdminDoesNotCount`, `AdminContinuity.UpsertsAreRefusedIff`,
  `AdminContinuity.UpsertsAreRefusedNeedlesslyIff`).
- An outermost role operation that does not emit events silences the operations that joined it
  (`BoundTransaction.OutermostSilencesAll`), and the events of an operation whose failure its caller catches are still
  delivered (`BoundTransaction.OnlySuccessfulAreDeliveredIff`).
- Rows to be let go beyond the read limit, and one with the key 0, keep their parent
  (`Reconciling.OnlySavedAreLinkedIff`), and a bare key linked to the primary key in the payload instead of to the
  parent is left there (`Reconciling.SavedAreLinkedIff`).
- A sealed reference key that is listed twice fails closed (`OperationSecrets.VisitsAreRuntimeIff`).

## Model

| member | source | states |
|---|---|---|
| RunAst.RunAst | api/src/database/run-ast.ts:47-157 | for every batch size and every well-formed tree, of any depth, a row of the batched, prefiltered, merged and stripped read is the row of the naive nested join exactly when it is intact, the read is the join exactly when all its rows are, and under every count key of the root an item shows how many rows of the related table point at it and pass, intact or not; what is read does not depend on the batch size |
| Counts.RequestedCounts | api/src/database/helpers/fn/types.ts:41-48 | at every level, what is requested under a count key is the number of places of the related table at which a row names this parent in the count's field and passes its filter |
| Counts.StrippedCounts | api/src/database/run-ast.ts:245-246 | and so is what the run leaves there once temporary fields are removed, whatever else of the row comes out |
| Counts.CountIsHowManyAreListed | api/src/database/helpers/fn/types.ts:41-48 | a count equals the number of items that an unlimited one-to-many node on the same field and filter lists for the parent |
| Counts.OneMoreRow | api/src/database/helpers/fn/types.ts:41-48 | one more row of the related table, wherever it stands, is one more in the count of the parent it names, if it passes the filter, and changes no other count |
| Fetching.MatchingRows | api/src/database/run-ast.ts:275-305 | the rows of a fetch before its window are those of the table that pass, as many as there are places, in the order of the query |
| Fetching.TiesStay | api/src/database/run-ast.ts:282-289 | rows that order does not tell apart stay in the order of the table |
| Fetching.FetchIsWindow | api/src/utils/apply-query.ts:50-58 | a fetch is a window of them: as wide as the limit of the query or the default, from its page counted in limits or else its offset |
| Fetching.PagesReadAll | api/src/utils/apply-query.ts:56-58 | whatever the offset, the pages put one behind the other are the first matching rows in order, each once |
| Fetching.ChildrenComeInOrder | api/src/database/run-ast.ts:507-527 | the children of a parent come in the order of their first sort column: numbers by size, text by letters, forwards or backwards, what is missing last |
| Fetching.ChildrenComeBySortField | api/src/database/run-ast.ts:416-423 | sorted by the sort field of their relation, they come in the order of what their rows have there, requested or not |
| Fetching.TextOrder | api/src/database/run-ast.ts:522-526 | text is ordered by the first character that differs |
| Fetching.ChildrenAreTheFirst | api/src/database/run-ast.ts:489-505 | and they are the first of those that match and name the parent, as many as the limit or the default lets through |
| RunAst.Run | api/src/database/run-ast.ts:67-156 | one level of a well-formed tree: the items of a fetch, with every nested node's value in place under its key |
| RunAst.RunM2O | api/src/database/run-ast.ts:129-144 | for any query of the node: every parent gets the one row of the whole related table its key names, or null, exactly when the window of the prefiltered fetch fits; where an earlier node has taken the key every parent gets null, which is right exactly when none points at a row |
| RunAst.RunO2M | api/src/database/run-ast.ts:99-128 | for a well-formed node, the batch loop ends and every parent gets the stable sort of the first `limit` children of the whole table that name it, exactly when it was given back to them or there are none; else it gets none |
| RunAst.NextBatch | api/src/database/run-ast.ts:104-128 | one turn of the batch loop takes up exactly the next rows, and a batch that is not full was the last |
| RunAst.FetchBatches | api/src/database/run-ast.ts:100-128 | for any query of the node, the loop ends and every parent has been through all the children in batches, each once |
| RunAst.RunA2O | api/src/database/run-ast.ts:129-144 | for any key and any queries of the branches: every parent gets the row its collection column and key name, or null, exactly when the windows of the branches fit; under an alias, or where its columns have been taken, exactly when there is nothing to find |
| RunAst.MergeM2O | api/src/database/run-ast.ts:461-471 | each parent holds the fetched item with the primary key it names, or null, and nothing else changed |
| RunAst.MergeIntoParent | api/src/database/run-ast.ts:473-527 | a parent's children after one batch: appended, cut to page, offset and limit, and sorted |
| RunAst.MergeO2M | api/src/database/run-ast.ts:472-528 | every parent's children after one batch, and nothing else changed |
| RunAst.MergeA2O | api/src/database/run-ast.ts:529-549 | each parent holds the item of its own collection with the key it names, or null |
| Merging.ClausesMerged | api/src/database/run-ast.ts:388-427 | what a filter says once `_in` is merged into it: the rest of it, and in the field the ids alone, the ids written over the user's values, or the user's other operator |
| Merging.MergeAgreesIff | api/src/database/run-ast.ts:402-427 | on all rows the parents point at the merged filter says what the user's does, exactly when its first clause on the field is no `_in`, or one whose values hold all of those the rest lets through |
| Merging.MergedInAgreesIff | api/src/database/run-ast.ts:402-427 | for a filter that is one `_in`, exactly when the user's values hold every id |
| Merging.MergeMayForgetAnIn | api/src/database/run-ast.ts:402-402 | merged over an `_in` of the user's, the prefilter lets through a row that the user's filter refuses |
| Merging.PrefilterInvisible | api/src/database/run-ast.ts:388-427 | a changed filter changes what a parent gets exactly when it was changed for a row the parent looks at |
| Merging.RelatedThroughPrefilter | api/src/database/run-ast.ts:398-402 | the related row of a parent is the same with and without the prefilter |
| Merging.FindInRaw | api/src/database/run-ast.ts:461-471 | the lookup by primary key among fetched items finds the item of the one row with that key |
| Windows.NoKeyFetched | api/src/database/run-ast.ts:461-471 | what an earlier node has put in place of a key is found among no fetched items |
| Merging.MatchIsLink | api/src/database/run-ast.ts:476-487 | for a well-formed node, the merge matches a fetched child to a parent exactly when its row names it and, where the children request their parent back under the foreign key, this parent was given to them |
| Merging.WayBackShowsIff | api/src/database/run-ast.ts:476-487 | a parent is given back to its children exactly when it passes the filter of the node nested under the foreign key itself |
| Merging.MergedAreLinked | api/src/database/run-ast.ts:472-528 | for such a node, filtering, cutting and sorting all fetched children gives the children that name the parent in the order asked for, or none if it was not given back to them |
| Merging.ResortInvisibleIff | api/src/database/run-ast.ts:507-527 | the merged children are in the order of the database exactly when that orders what they show under the sort column |
| Merging.ResortInvisible | api/src/database/run-ast.ts:507-527 | sorting the merged children again changes nothing where the database orders by the first sort column before anything else |
| Merging.LimitInvisible | api/src/database/run-ast.ts:437-443 | for a branch with no clause on its primary key and nothing to skip, the limit of the fetch, the number of its keys, cuts nothing off |
| Windows.WindowFitsIff | api/src/database/run-ast.ts:398-443 | for any filter, limit, offset and page, the parents find what they are related to exactly when, of the rows they name, those the user's filter lets through stand in the window and no others |
| Windows.OffsetFitsIff | api/src/database/run-ast.ts:398-443 | with no clause on the primary key, exactly when nothing is skipped or nothing is related |
| Windows.OperatorFitsIff | api/src/database/run-ast.ts:437-443 | behind another operator on the primary key, exactly when the rows named stand in the window among all that matches |
| Windows.InFitsIff | api/src/database/run-ast.ts:398-402 | over an `_in` on the primary key, exactly when the user's values hold every key at hand that the rest of the filter lets through |
| Windows.M2OFoundIff | api/src/database/run-ast.ts:461-471 | every parent of a many-to-one node finds its related row among the fetched items exactly when the window fits; where its foreign key has been taken it finds nothing, rightly exactly when there is nothing to find |
| Windows.A2OFoundIff | api/src/database/run-ast.ts:529-549 | the same for a many-to-any node and the windows of its branches, and under an alias or where its columns have been taken exactly when there is nothing to find |
| Exactness.OffsetHidesRelated | api/src/database/run-ast.ts:129-144 | a many-to-one node with an offset whose parents lose the row they point at |
| Exactness.OffsetHidesBranch | api/src/database/run-ast.ts:437-443 | a branch with an offset whose parents lose the row they point at |
| Exactness.OperatorLetsTheLimitCut | api/src/database/run-ast.ts:437-443 | a branch with an operator on its primary key, where the limit cuts the row a parent points at |
| Exactness.InIsForgotten | api/src/database/run-ast.ts:402-402 | a many-to-one node with an `_in` on the primary key that is given a row outside it |
| Exactness.AliasedNodeGetsNull | api/src/database/run-ast.ts:543-547 | an aliased many-to-any node whose item is fetched and not found |
| Exactness.ForeignKeyShownIff | api/src/database/run-ast.ts:404-414 | the merge links the children that name a parent exactly when the foreign key is selected, or when none does |
| Exactness.AliasedForeignKeyIsNotSelected | api/src/database/run-ast.ts:404-406 | a foreign key requested under another key only is not selected |
| Exactness.SecondNodeGetsNull | api/src/database/run-ast.ts:461-471 | a well-formed tree with two many-to-one nodes on one column, of which the second gives null for an item that is there |
| Exactness.HiddenPrimaryIff | api/src/database/run-ast.ts:201-218 | with a column requested under the name of the primary key, the lookup among the items of a level works for every key exactly when each item shows the key of its own row there all the same |
| Exactness.HiddenForeignKeyIff | api/src/database/run-ast.ts:201-218 | with a column requested under the name of the foreign key, a parent gets what it points at exactly when what it shows points at it too |
| Exactness.HiddenParentKeyIff | api/src/database/run-ast.ts:474-487 | a parent that shows another value for its primary key is given its own children exactly when they are that value's |
| Exactness.AliasHidesPrimary | api/src/database/run-ast.ts:201-218 | an item that is not found by its key |
| Exactness.AliasHidesForeignKey | api/src/database/run-ast.ts:201-218 | a parent that shows nobody's key and points at an author |
| Exactness.AliasHidesSortColumn | api/src/database/run-ast.ts:507-527 | two children whose order by the column and by an alias in its place differ |
| Exactness.ComparisonIsOrderIff | api/src/database/run-ast.ts:507-527 | the comparison of the merge answers a pair and its reverse consistently exactly unless both are items, and on cells it is the order of the model |
| Exactness.FilteredWayBackLosesChildren | api/src/database/run-ast.ts:476-487 | a well-formed tree that leaves an author without the posts that name it |
| Exactness.BareInBranchIff | api/src/database/run-ast.ts:590-602 | in a branch, a many-to-one node of which nothing is requested yields its key exactly when that has the name of the branch's, or nothing is related |
| Exactness.BareBranchIff | api/src/database/run-ast.ts:602-602 | a branch of which nothing is requested yields the key of its row exactly when that has the name of the parents', or nothing is related |
| Exactness.BareBranchGetsNull | api/src/database/run-ast.ts:602-602 | a well-formed tree that yields null for a row that is there |
| Exactness.InjectedKeyIsLeft | api/src/database/run-ast.ts:572-600 | an aliased primary key in a branch leaves the key the run added, and not what was requested |
| Exactness.AliasIsDropped | api/src/database/run-ast.ts:572-600 | any other aliased column in a branch is dropped |
| Batches.BatchSizeInvisibleIff | api/src/database/run-ast.ts:99-128 | with the sort between batches, for any children and parent of a one-to-many node: merging batch by batch is merging at once for every batch size, if and only if page and offset skip nothing or the limit is 0 |
| Batches.BatchesMerge | api/src/database/run-ast.ts:472-528 | when nothing is skipped, batch by batch a parent ends up with its first `limit` matching children, sorted |
| Rows.KeepSort | api/src/database/run-ast.ts:388-427 | filtering before or after a stable sort is the same, which is why a prefilter may be pushed into the fetch |
| Rows.MergeOfMerged | api/src/database/run-ast.ts:104-128 | appending, cutting and sorting batch by batch is doing it once on everything |
| Stripping.RemoveTemporaryFields | api/src/database/run-ast.ts:554-655 | the loops over items and nodes compute the recursive strip of a level |
| Stripping.StrippedIffIntact | api/src/database/run-ast.ts:554-655 | at every depth, in branches and outside, an item with its injected keys and nested items is stripped to exactly the requested fields with their values if and only if its row is intact |
| PlainTrees.PlainIsIntact | api/src/database/run-ast.ts:554-655 | in a plain tree every row is intact, whatever the database |
| Stripping.StripRawIff | api/src/database/run-ast.ts:554-655 | a level is stripped to what was requested exactly when the keys left are those requested and every nested value is stripped to its own |
| Stripping.PickedIsRequestedIff | api/src/database/run-ast.ts:594-651 | what is picked from an item is what was requested exactly under that condition |
| Stripping.OwnKeysAreLeft | api/src/database/run-ast.ts:606-651 | outside branches, where children are picked by their keys, the keys left are those requested |
| Stripping.OwnNamesAreLeft | api/src/database/run-ast.ts:564-602 | in a branch whose columns go by their own names too |
| Stripping.NothingElseIsLeft | api/src/database/run-ast.ts:594-651 | for any item at all, a stripped level has only keys its children are picked by: their keys, and in a branch the names of its columns |
| Unstripped.SelectedShows | api/src/database/run-ast.ts:159-221 | every column the run needs is selected under its own name |
| Authorization.PermissionsRestrictTheDatabase | api/src/services/authorization.ts:491-543 | the tree rewritten with permission filters reads from the whole database what the original tree reads from the visible part, at every depth and for every kind of node |
| Authorization.UpdatedHolds | api/src/services/authorization.ts:527-542 | a row passes the rewritten filter exactly when it passes the user's and the permission's |
| Authorization.NestedUpdated | api/src/services/authorization.ts:491-525 | the same for one nested value of one row |
| ReadQuery.ProcessAst | api/src/services/authorization.ts:48-73 | given the verdict on filters and sorts, the tree is let through exactly when every collection it reads at any place, branches and counts included, has a permission, and every column it reads at any place is allowed by the first permission of its collection; and exactly which refusals are failures of the rewriting |
| PermissionCheck.CountsAgreeIff | api/src/services/authorization.ts:49-67 | comparing the number of distinct collections with the number of permissions found is asking whether each collection has one |
| PermissionCheck.CoveredIff | api/src/services/authorization.ts:78-110 | the collected collections, with the counts inside many-to-any branches, are all that the rewriting needs |
| PermissionCheck.FieldsAllowedIff | api/src/services/authorization.ts:147-155 | the recursive check of the columns passes exactly when every column read at a place that some path of the tree leads to is allowed |
| PermissionCheck.FoundIff | api/src/services/authorization.ts:78-110 | the collections collected all have a permission exactly when those of all levels have one, and what is counted outside branches |
| PermissionCheck.BranchCountsIff | api/src/services/authorization.ts:81-90 | the counts that the collecting passes over are covered exactly when, in every branch, what is counted has a permission |
| Occurrences.FindIsFirst | api/src/services/authorization.ts:119-120 | the permission found for a collection is the first in the list that is for it |
| HiddenColumns.HiddenColumnsDoNotShow | api/src/services/authorization.ts:112-160 | two databases that differ only in columns the caller may not read, and that no key, filter or order reads, answer an accepted read alike, intact or not |
| ReadQuery.BranchCountEscapes | api/src/services/authorization.ts:81-90 | a count in a many-to-any branch passes the check without a permission and fails the rewriting |
| ReadQuery.GoodKept | api/src/services/authorization.ts:491-543 | the rewritten tree is as well formed as the original |
| ReadQuery.ReadByQuery | api/src/services/items.ts:393-417 | a read with permissions is refused unless all it reads is permitted, and otherwise is the nested join over the visible rows exactly when all of them are intact there, with counts that count visible rows, for every tree that is well formed once rewritten |
| ReadQuery.IntactUpdated | api/src/services/authorization.ts:491-543 | a row is intact in the rewritten tree over all rows exactly when it is in the original tree over the visible rows |
| ReadQuery.PlainReadsAreIntact | api/src/services/authorization.ts:491-543 | for a plain tree the visible rows are all intact |
| ReadQuery.NothingHiddenIsSeen | api/src/services/authorization.ts:491-543 | two databases with the same visible part give the same result |
| MessengerRuns.StepKeeps | api/src/messenger.ts:173-437 | every handler, deadline and continuation keeps the invariant: beliefs fenced by generation, one recovery, exact status, armed wakeups |
| MessengerRuns.RunKeeps | api/src/messenger.ts:173-437 | the invariant holds in every state of every run |
| MessengerRecovery.AvailableIsEarned | api/src/messenger.ts:393-425 | `available` implies both connections ready, nothing to unsubscribe, every desired channel and the publisher owed to a command answered on the connection held now, and with no recovery running the converse |
| MessengerRecovery.BeliefsAreFenced | api/src/messenger.ts:193-233 | every acknowledged channel, and the publisher's health, is owed to a command sent and answered on the current generation |
| MessengerRecovery.NoWakeupIsLost | api/src/messenger.ts:313-346 | in every reachable live state where a ready connection has work left, a timer is armed or a recovery is running |
| MessengerRecovery.OutagesAreReportedOnce | api/src/messenger.ts:393-425 | warnings and recoveries alternate in the log over any run |
| MessengerRecovery.HealsWhenLeftAlone | api/src/messenger.ts:313-352 | from every reachable state with both connections ready and a recovery running, its commands succeeding lead to `available` |
| MessengerRecovery.OneRecoveryIsEnough | api/src/messenger.ts:427-437 | from every reachable idle state with an armed timer and both connections ready, one recovery ends `available` |
| Messenger.DispatchToCallbacks | api/src/messenger.ts:39-56 | every callback is called once and in order, whichever of them fail, and which failures are warned about |
| Messenger.MessengerMemory.Subscribe | api/src/messenger.ts:83-92 | adds one callback of one channel, behind those it has |
| Messenger.MessengerMemory.Unsubscribe | api/src/messenger.ts:94-100 | removes one callback of one channel |
| Messenger.MessengerMemory.Publish | api/src/messenger.ts:79-81 | whichever of them fail, the callbacks called are those subscribed to the channel and not unsubscribed since, once each, in the order of the calls that made them hear |
| Messenger.MessengerRedis.Publish | api/src/messenger.ts:173-191 | a publish adds one command, in flight, with the generation and readiness of the publisher at the call, and nothing else |
| Messenger.MessengerRedis.Subscribe | api/src/messenger.ts:193-233 | registers the callback and sends at most one subscribe |
| Messenger.MessengerRedis.Unsubscribe | api/src/messenger.ts:235-263 | drops the callback, and with the last one the channel |
| Messenger.MessengerRedis.OnReady | api/src/messenger.ts:286-293 | a ready connection resets the back-off and starts a recovery |
| Messenger.MessengerRedis.OnDown | api/src/messenger.ts:295-311 | a lost connection gets a new generation and its beliefs are dropped |
| Messenger.MessengerRedis.AttemptRecovery | api/src/messenger.ts:313-352 | one recovery starts, and only one, and runs to its first command |
| Messenger.MessengerRedis.ResumeRecovery | api/src/messenger.ts:328-352 | a recovery goes on from the command it waited for |
| Messenger.MessengerRedis.Deadline | api/src/messenger.ts:354-391 | a command that is too late fails and recycles its own connection, no later one |
| Messenger.MessengerRedis.UpdateStatus | api/src/messenger.ts:393-425 | the status after a change, its log line and the next timer |
| Messenger.MessengerRedis.ScheduleRecovery | api/src/messenger.ts:427-437 | arms at most one timer |
| Messenger.MessengerRedis.Destroy | api/src/messenger.ts:269-279 | a destroy disarms the timer and supersedes the commands of both connections |
| Messenger.DispatchesLikeMemory | api/src/messenger.ts:72-105 | no outage, generation or recovery changes who hears a message: after any run the Redis messenger holds the callbacks, in their order, that the subscribes and unsubscribes alone build |
| Messenger.WhoHears | api/src/messenger.ts:158-235 | after any run a message of a channel is heard by exactly the callbacks subscribed and not unsubscribed since, each once, in the order of the calls that made them hear |
| MessengerCalls.CallsAreSent | api/src/messenger.ts:173-263 | over any run, a publish, the first subscribe of a channel and the last unsubscribe, on a ready connection, send exactly one command each, in flight at once, which for good says what was asked for and the generation and readiness of its connection at the call |
| MessengerCalls.SentByCalls | api/src/messenger.ts:173-352 | every other command is a retry of the recovery: whatever else was sent was asked for by the one call that made it |
| MessengerCalls.CallsInOrderSent | api/src/messenger.ts:173-263 | the commands stand in the order of the calls |
| MessengerOutages.ReadyMeansUp | api/src/messenger.ts:286-311 | over any run a connection is taken to be ready exactly when its client said so and has not closed since, nor has a command sent on it timed out |
| MessengerOutages.TimedOutIsOver | api/src/messenger.ts:354-391 | once a command has timed out, the connection it was sent on is never the current one again |
| MessengerOutages.FailuresAreReported | api/src/messenger.ts:393-425 | after every failure the messenger is available all the same or the last line of the log is the warning |
| MessengerOutages.AnswersAreBelieved | api/src/messenger.ts:178-262 | what an answer leaves: a success on the current generation is believed, a failed publish makes the publisher unhealthy, a failed unsubscribe is kept |
| MessengerOutages.FailedUnsubscribeStays | api/src/messenger.ts:328-346 | a failed unsubscribe stays to be retried until its channel is desired again or Redis has answered the retry |
| MessengerOutages.DestroyedStaysQuiet | api/src/messenger.ts:269-279 | after a destroy no run logs, changes the status, arms a timer or starts a recovery |
| ScheduleRuns.StepKeeps | api/src/schedule-coordination.ts:67-171 | every turn of a replica keeps: ready is proved on the current generation, at most one probe of it, wakeups armed |
| ScheduleRuns.ReadyIsEarned | api/src/schedule-coordination.ts:113-153 | ready implies connected with a probe that succeeded in the current generation, at most one of which is in flight, and `recovering` says whether one is |
| ScheduleRuns.NoWakeupIsLost | api/src/schedule-coordination.ts:101-171 | connected and not ready means a probe is on its way or a timer is armed, also after destroy and a new start |
| ScheduleRuns.HealsAfterTimer | api/src/schedule-coordination.ts:101-153 | from every reachable connected state with an armed timer, one timer and one answered probe make the replica ready |
| ScheduleCluster.AtMostOnce | api/src/schedule-coordination.ts:256-306 | over any number of replicas and any interleaving, one occurrence of one schedule is granted to at most one call |
| ScheduleCluster.GrantsIncrease | api/src/schedule-coordination.ts:278-291 | the occurrences granted for one schedule strictly increase in the order they were executed |
| ScheduleCluster.ClaimsAnswerForTheirSchedule | api/src/schedule-coordination.ts:126-126 | a claim's answer depends only on earlier claims of its own schedule: probes consume nothing |
| ScheduleCluster.LaterClaimsGetLater | api/src/schedule-coordination.ts:278-291 | of calls that do not overlap, on any replicas, the later one for a schedule is granted only a later occurrence |
| ScheduleCluster.AnswersMayBeOutOfOrder | api/src/schedule-coordination.ts:289-291 | a run of overlapping calls in which an older occurrence is answered true after a newer one |
| ScheduleClaims.ClaimIsSent | api/src/schedule-coordination.ts:261-278 | over any run of any number of replicas, a call on a ready replica sends exactly one command, of its schedule and occurrence, and on an unavailable one none |
| ScheduleClaims.ClaimedByACall | api/src/schedule-coordination.ts:278-278 | every claim was sent by a call of its schedule and occurrence, one for each |
| ScheduleClaims.AnsweredClaims | api/src/schedule-coordination.ts:289-291 | a claim that was executed and answered is granted exactly when its occurrence is above what its schedule started from and above all executions for it before |
| ScheduleClaims.LaterOccurrenceIsGranted | api/src/schedule-coordination.ts:256-306 | from every reachable state with a ready replica, a later occurrence of a schedule has a run in which that replica claims it and is granted it |
| ScheduleClaims.StatusIsMade | api/src/schedule-coordination.ts:67-306 | the status after every turn, by the event alone: what makes a replica ready, unavailable or uninitialized |
| ScheduleClaims.RestartMakesReady | api/src/schedule-coordination.ts:173-243 | from every reachable state a destroy, a start, a connection and one answered probe make the replica ready |
| ScheduleClaims.ConnectionMakesReady | api/src/schedule-coordination.ts:155-161 | from every reachable state with a client and no probe under way, so does its connection alone |
| ScheduleClaims.ReplacedClientsAreIgnored | api/src/schedule-coordination.ts:155-171 | over any run, what a client that was replaced or given up reports changes nothing |
| ScheduleClaims.SupersededStartsFail | api/src/schedule-coordination.ts:219-241 | over any run, a start that had no answer when the scheduler was destroyed is never answered with a status |
| ScheduleCoordination.Coordinator.AttemptProbe | api/src/schedule-coordination.ts:113-126 | starts a probe of the current generation unless one is running |
| ScheduleCoordination.Coordinator.ProbeSettled | api/src/schedule-coordination.ts:137-152 | a settled probe marks, releases and reschedules only for its own generation |
| ScheduleCoordination.Coordinator.OnReady | api/src/schedule-coordination.ts:155-161 | only the current client's events count |
| ScheduleCoordination.Coordinator.OnDown | api/src/schedule-coordination.ts:163-171 | a lost connection supersedes its probe and settles the start |
| ScheduleCoordination.Coordinator.Initialize | api/src/schedule-coordination.ts:179-237 | one start at a time |
| ScheduleCoordination.Coordinator.ShouldRun | api/src/schedule-coordination.ts:259-278 | false at once while unavailable; when ready, one claim of this schedule and occurrence is sent and nothing answered yet; without a timestamp, a client or a namespace it throws and sends nothing |
| ScheduleCoordination.Coordinator.Resume | api/src/schedule-coordination.ts:289-303 | the verdict on a settled claim, and what its failure starts |
| ScheduleCoordination.Coordinator.Destroy | api/src/schedule-coordination.ts:308-329 | a destroy supersedes the start and the probe, settles a waiting start and resets every field |
| AdminContinuity.EveryCommittedStateHasAnAdmin | api/src/services/roles.ts:366-530 | over any interleaving of serializable role transactions from a database with an admin, every committed state has one |
| AdminContinuity.OperationKeepsAnAdmin | api/src/services/roles.ts:366-530 | one operation told the truth leaves an admin |
| AdminContinuity.SnapshotMinusDemotedStays | api/src/services/roles.ts:38-57 | whatever updates and creations an operation mixes, the snapshot minus the counted demotions are still admins |
| AdminContinuity.FailClosedNeverDemotes | api/src/services/roles.ts:47-47 | in an unverified transaction no update demotes, whatever it was told |
| AdminContinuity.UnverifiedKeepsAdmins | api/src/services/roles.ts:295-297 | an unverified transaction that is let through takes no admin away |
| AdminContinuity.UnverifiedIsRefusedIff | api/src/services/roles.ts:47-47 | an operation is refused in an unverified transaction exactly when it demotes someone |
| AdminContinuity.DeletedAreGone | api/src/services/roles.ts:470-530 | an accepted deletion leaves every other role as it was, an admin among them |
| AdminContinuity.UpdateIsRefusedExactly | api/src/services/roles.ts:380-405 | run alone, `updateMany` is refused exactly when it would leave no admin |
| AdminContinuity.BatchIsRefusedIff | api/src/services/roles.ts:366-378 | a batch is refused exactly when it demotes someone and every admin of the snapshot at some point |
| AdminContinuity.BatchIsRefusedNeedlesslyIff | api/src/services/roles.ts:366-378 | replaying a refused batch would leave an admin exactly when its last word about some role is that it is one |
| AdminContinuity.BatchMayBeRefusedNeedlessly | api/src/services/roles.ts:366-378 | demoting the only admin and promoting it again in one batch changes nothing and is refused |
| AdminContinuity.WriteSkewLosesTheLastAdmin | api/src/services/roles.ts:299-304 | two guarded transactions that are not serializable can demote every admin |
| AdminContinuity.LeavesAtLeastOneAdmin | api/src/utils/admin-continuity.ts:1-13 | true exactly when something is added or an admin is not removed |
| AdminContinuity.AdminContinuityGuard.BeforeUpdate | api/src/services/roles.ts:43-56 | counts the demotions of one update and refuses exactly when no admin of the snapshot is left over |
| AdminContinuity.GuardedUpdate | api/src/services/items.ts:652-664 | the guard is asked before the rows are written, and a refusal writes nothing |
| AdminContinuity.UpdateManyRoles | api/src/services/roles.ts:380-405 | what it reads and writes, and that it is refused exactly when the guard refuses |
| AdminContinuity.UpdateBatchOfRoles | api/src/services/roles.ts:366-378 | the same for a batch, with one guard over all of it |
| AdminContinuity.UpsertManyRoles | api/src/services/roles.ts:407-463 | the same for upserts, each an update or a creation as the database answers; a refused call did what the answers it was given called for, until the first update that the guard refuses |
| AdminContinuity.UpsertsAreRefusedIff | api/src/services/roles.ts:407-463 | upserts are refused exactly when those found demote someone and every admin of the snapshot at some point, whatever they create |
| AdminContinuity.UpsertsAreRefusedNeedlesslyIff | api/src/services/roles.ts:407-463 | replaying refused upserts would leave an admin exactly when their last word about some role, created or updated, is that it is one |
| AdminContinuity.NewAdminDoesNotCount | api/src/services/roles.ts:53-53 | creating an admin and demoting the only other one in one call is refused, though an admin would be left |
| AdminContinuity.DeleteManyRoles | api/src/services/roles.ts:470-530 | refused in unverified transactions, and otherwise exactly when all admins would go |
| BoundTransaction.Services.WithBoundContext | api/src/services/roles.ts:282-309 | joining queues and lets nothing out; opening lets out one rollback, exactly when something throws uncaught or the database does not commit, or else one commit, the clears that were asked for, and the events raised at the places that were reached; the registries are as before |
| BoundTransaction.Services.RunInBoundSerializable | api/src/database/bound-transaction.ts:77-110 | the context is known only while the transaction runs, and is flushed only after a commit: after a rollback no cache is cleared and nothing delivered |
| BoundTransaction.Services.Join | api/src/services/roles.ts:289-293 | a nested operation adds its events and dirty flags to the context it found |
| BoundTransaction.Services.FlushContext | api/src/services/roles.ts:327-342 | the response cache is cleared exactly once if there is one and the operation purges it, the system cache exactly once if the context asks for it and the operation purges it, and that first; then each event once, by the options of the outermost operation |
| OperationSteps.ClearsSystemIff | api/src/services/roles.ts:316-317 | the system cache is asked to be cleared exactly when some operation that was reached, at any depth, asks for it |
| OperationSteps.ThrowsIff | api/src/services/roles.ts:282-309 | an operation fails exactly when something below it throws and nobody on the way catches it |
| OperationSteps.RaisedInOrder | api/src/services/roles.ts:319-324 | the events queued are those raised at the places that were reached, by the operations that emit, in order and once each |
| BoundTransaction.Services.RunUnverified | api/src/services/roles.ts:295-297 | in an unverified transaction events go out at once |
| BoundTransaction.ImmediateIsDelivered | api/src/services/roles.ts:295-297 | nothing but deliveries goes out there |
| BoundTransaction.ImmediateIsRaised | api/src/services/roles.ts:295-297 | the events that go out at once in an unverified transaction are those that would have been queued |
| BoundTransaction.DeliveredExactlyOnce | api/src/services/roles.ts:327-342 | whatever the nesting, the events delivered after a commit are those raised, in order and once |
| BoundTransaction.DeliveredAfterClears | api/src/services/roles.ts:327-342 | no event is delivered before the commit or a cache clear |
| BoundTransaction.NothingIsLost | api/src/services/roles.ts:311-325 | when everyone emits and nothing fails, the events of every depth are among them |
| BoundTransaction.OnlySuccessfulAreDeliveredIff | api/src/services/roles.ts:289-342 | a transaction delivers the events of its successful operations alone exactly when no operation whose failure was caught had raised one |
| BoundTransaction.OutermostSilencesAll | api/src/services/roles.ts:336-341 | an outermost operation that does not emit silences all that joined it |
| Reordering.ShiftIsMove | api/src/services/utils.ts:94-127 | the shift of sort values is a list move, and leaves all values present and distinct |
| Reordering.SortRefinesListMove | api/src/services/utils.ts:51-127 | from any table: the new order is the normalised order with the item moved, and the strict order of all other rows is kept |
| Reordering.OrderIsUnique | api/src/services/utils.ts:51-127 | a column with present and distinct values has one order |
| Reordering.OrderExists | api/src/services/utils.ts:51-127 | and it has one |
| Reordering.ContiguousStays | api/src/services/utils.ts:110-127 | values that count 1 to n still do |
| Reordering.Table.SortRows | api/src/services/utils.ts:51-127 | the whole call: normalise, then shift, or fail after normalising when a row is missing |
| Reordering.Table.Normalise | api/src/services/utils.ts:51-92 | afterwards values are present and distinct in the old strict order, and a good column is left alone |
| Reordering.Table.FillNulls | api/src/services/utils.ts:51-71 | rows without a value follow the others in table order, and no other value changes |
| Reordering.Table.ResetDuplicates | api/src/services/utils.ts:73-92 | a column with duplicates is numbered in its order, any other is left alone |
| Reconciling.ChildTable.ProcessO2M | api/src/services/payload.ts:683-793 | the reconciliation fails exactly when a bare key is of no row or an object links to another parent, with the first failure and nothing written, and otherwise leaves the upserts and the clean-up |
| Reconciling.ChildTable.ResolveEntry | api/src/services/payload.ts:693-741 | how an entry is understood, with its error conditions |
| Reconciling.ChildTable.UpsertMany | api/src/services/items.ts:821-846 | the records in order, each updating its row or creating one under its own or a new key |
| Reconciling.ChildTable.CleanUp | api/src/services/payload.ts:754-792 | of the linked rows not listed, those one read finds are deleted or nullified |
| Reconciling.SavedAreLinkedIff | api/src/services/payload.ts:710-718 | every listed and created row is linked to the parent, exactly when each bare key linked to another key in the payload is named by a record of the array as well |
| Reconciling.OnlySavedAreLinkedIff | api/src/services/items.ts:80-95 | no other row is linked, exactly when the rows linked to the parent and named by no entry fit into one read and none has a falsy key |
| Reconciling.DroppedAreUnlisted | api/src/services/payload.ts:754-769 | the rows linked to the parent and named by no entry are the rows the clean-up asks for |
| Reconciling.OthersAreLetGoOrLeft | api/src/services/payload.ts:771-792 | every other row is deleted, nullified with its content kept, or untouched, and which |
| Reconciling.ListedAreSaved | api/src/services/payload.ts:689-752 | every key listed is saved |
| Reconciling.SavedAreListed | api/src/services/payload.ts:689-752 | nothing but listed keys and new rows is saved |
| Reconciling.LastWriteWins | api/src/services/items.ts:833-836 | the last record that names a field of a row decides it |
| Reconciling.UnnamedFieldsStay | api/src/services/items.ts:833-836 | a field no record names keeps its value |
| Reconciling.ContentArrives | api/src/services/payload.ts:724-752 | what an object of the array says of a field is what its row has afterwards, unless a later object for the same row says otherwise |
| Reconciling.NewRowsAreMade | api/src/services/payload.ts:724-752 | an object without a key makes a new row, linked to the parent, with what it says |
| Reconciling.OtherFieldsStay | api/src/services/payload.ts:724-752 | what no object says of a row stays as it was |
| Reconciling.RelistingWritesNothing | api/src/services/payload.ts:704-718 | listing linked children again by key upserts nothing |
| Reconciling.ForeignPayloadKeyKeepsChildAway | api/src/services/payload.ts:710-718 | a child linked to another key in the payload is taken as linked |
| GroupWorklist.ReadableWithGroups | api/src/services/collections.ts:278-290 | the loop over the array it extends ends, cycles included, with the least set that has the readable collections and their groups, which is what lies some number of groups above one |
| OperationSecrets.NeverInTheClear | api/src/services/operation-option-secrets.ts:89-159 | over every run of accepted creates, updates and removals, no declared secret is stored in the clear |
| OperationSecrets.UpdateKeepsSafe | api/src/services/operation-option-secrets.ts:106-159 | one update of any rows with any mix of type and options keeps declared keys empty or enveloped |
| OperationSecrets.CreateKeepsSafe | api/src/services/operation-option-secrets.ts:89-96 | so does a creation |
| OperationSecrets.WriteBackChangesNothingIff | api/src/services/operation-option-secrets.ts:57-83 | a masked read written back is accepted, and changes nothing exactly when envelopes sit under declared keys only |
| OperationSecrets.RuntimeSeesTheLastWritten | api/src/services/operation-option-secrets.ts:193-218 | over any series of accepted updates the runtime gets the last cleartext written under a declared key |
| OperationSecrets.NothingSecretIsShown | api/src/services/operation-option-secrets.ts:167-180 | a masked read shows no envelope and no declared secret |
| OperationSecrets.EncryptDeclared | api/src/services/operation-option-secrets.ts:57-83 | every declared key is sealed, kept by its mask or left empty; refused exactly when some key offends |
| OperationSecrets.Operations.Create | api/src/services/operation-option-secrets.ts:89-96 | accepted exactly when no declared key offends |
| OperationSecrets.Operations.Update | api/src/services/operation-option-secrets.ts:106-159 | exactly when an update is accepted, and what it then stores; options for many operations are accepted exactly when no type that they have or get declares a secret |
| OperationSecrets.Operations.GateReclassification | api/src/services/operation-option-secrets.ts:124-143 | a change of type alone is refused exactly when it would declare a stored cleartext |
| OperationSecrets.MaskOperationOptions | api/src/services/operation-option-secrets.ts:167-180 | each option is masked or shown, and which |
| OperationSecrets.DecryptOperationOptions | api/src/services/operation-option-secrets.ts:193-218 | what a handler gets under each reference key, in a copy |
| OperationSecrets.VisitsAreRuntimeIff | api/src/services/operation-option-secrets.ts:201-215 | for every number of times a key is listed, exactly when what the handler gets is the runtime value |
| OperationSecrets.Registry.Register | api/src/services/operation-option-secrets.ts:12-16 | declarations of one type unite, those of others stay |
| Export.ExportToFile | api/src/services/import-export.ts:227-270 | for every batch size, total and limit each of the first rows stands in the file, rendered, at its place between the brackets, all of them without a limit, each read once, in batches of positive limit |
| Export.Transform | api/src/services/import-export.ts:339-351 | a chunk is the rendering without the lines the flags take off |
| Export.BatchIsNext | api/src/services/import-export.ts:242-255 | each batch reads the next rows with a positive limit |
| Export.FirstLineDropped | api/src/services/import-export.ts:342-342 | dropping the first line leaves what follows it |
| Export.LastLineDropped | api/src/services/import-export.ts:344-348 | dropping the last line leaves what precedes it |
| SettingsSubjects.ResolveSettingsSubjects | api/src/extensions/settings-subjects.ts:37-157 | every settings owner, and no one else, gets exactly one status, the first that applies: its name is not valid, another owner has it, one of its secrets shares a variable with another secret, or else it is eligible |
| SettingsSubjects.CollidesIff | api/src/extensions/settings-subjects.ts:50-89 | a subject collides exactly when one of its variables is derived twice among valid, uniquely named owners |
| SettingsSubjects.VariablesAreInjective | api/src/extensions/settings-subjects.ts:46-49 | over the secrets of eligible owners, the variable is injective |
| SettingsSubjects.Collide | api/src/extensions/settings-subjects.ts:64-89 | the variables, other subjects and own keys of every collision; the others are exactly the other subjects with a variable in common, never the subject itself |
| SettingsSubjects.AddVariable | api/src/extensions/settings-subjects.ts:66-88 | what one variable adds to the collisions of its subjects |
| SettingsSubjects.DeriveAll | api/src/extensions/settings-subjects.ts:50-62 | the derivations of valid, uniquely named owners, by variable |
| SettingsSubjects.CountOwners | api/src/extensions/settings-subjects.ts:38-44 | how many owners there are of each name |

## Left out

- SQL generation, dialects, full-text search, geometry and the inner query that makes rows unique: a fetch is taken as filter, order and window.
- Aggregates, grouping, date functions and aliases of function fields.
- ReadQuery.ProcessAst: which fields filters and sorts mention, and whether they are permitted, is `validateFilterPermissions`, whose verdict is a parameter.
- Null results of a level, transforms of values on read and hooks: values are taken as stored.
- Loose equality between keys of different types, and sharing of one child object between parents.
- Payloads, namespaces and back-off delays of the messenger and the scheduler; timers are armed or not.
- Loss of the sorted set by Redis; writers of it other than the API.
- Messenger.MessengerRedis.Destroy: does not model the two client objects, which `destroy` disconnects, beyond their commands and events.
- Role keys, the public role, users of a role and nested relations in role payloads: they only refuse more. Serialization conflicts are not retried by the code and end as a rollback here.
- BoundTransaction.Services.FlushContext: a cache that fails to clear after the commit, which loses the events, is not modelled.
- Reordering.Table.SortRows: permission checks, the cache clear and the event are left out, and so are other writers between its statements.
- Reconciling.ChildTable.ProcessO2M: the object form with create, update and delete lists, permission checks on untouched children and mutation limits are left out.
- OperationSecrets.Operations.Update: options are objects, and a type in the payload is text; how options are stored as text is left out.
- Actual cryptography: sealing and opening are abstract, with salts drawn arbitrarily.
- Export.ExportToFile: only the JSON format, without `page` and `offset` in the query; CSV, XML and YAML are the output of libraries.
- SettingsSubjects.ResolveSettingsSubjects: which names are valid and how a variable is derived are parameters; messages are reduced to what they mention.
- Controllers, middleware, the CLI, the app and the SDK: request plumbing without state of its own.
