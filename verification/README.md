# A model of the catalog API's hardest logic

A Dafny model of the parts of the catalog API whose correctness rests on an argument rather
than on a single statement, with that argument proved. `dafny verify dfyconfig.toml` checks
the whole project.

* **Discography strata** (`Strata*.dfy`, over `api/strata.py`). A three-plane ladder of
  credits, masters and releases is folded into a node budget per plane, with focus cursors,
  pages and no-master lanes. `StrataResponse.BuildStrata` states what every response keeps and
  that it is the finest the caller's budget allows; `StrataDrawn.dfy` says which releases that
  draws, `StrataWhole.dfy` when nothing folds, and `StrataOrders.dfy` what the sort keys, labels
  and page sizes mean.
* **Native-id merge** (`CatalogMerge.dfy`, `Merge*.dfy`, over `api/catalog_merge.py`).
  Temporal supersession rows, chain compression, a move ledger and exact reverts. A ghost
  stack per superseded item holds the live rows of its chain; the open rows are then shown to
  be the path-compressed form of the forest of direct merges over every run. `MergeMeaning.dfy`
  says what a merge and a revert leave, row by row and reference by reference.
* **Re-attachment** (`AliasTable.dfy`, `AliasStore.dfy`, `Reattach*.dfy`, over
  `api/reattach.py`, read back as `api/identity_ledger.py` reads it). Alias rows with validity
  intervals, the guards, one item's transaction, and an applying run with its keyset paging;
  `ReattachMerge.dfy` follows the merges of a run to where each split ends up.
* **Bounded discovery** (`Discovery*.dfy`, over `api/explore_discovery.py`). The layered
  search with its pruned last hop and its deterministic parents, the tiered choice of 100, and
  a hub's merge of two limited lists.
* **Ledger backfill dating** (`Backfill*.dfy`, over `api/ledger_backfill.py`). The bucket fold
  with its suffix minimum, and the whole plan of events.
* **Protocols**: the exactly-once trigger across replicas (`ReattachTrigger.dfy`), the key
  budget (`CacheBudget.dfy`, `CacheWriters.dfy`), the refresh poll (`LedgerRefresh.dfy`), the
  snapshot quota (`SnapshotQuota.dfy`) and the collection sync (`Collection*.dfy`). Each is a
  state machine over its commands, and the results hold over every interleaving.

`Seqs.dfy` holds the sequence facts the others share: stable sorting by a key, grouping that
keeps the order of first appearance, filters and flattening.

## How the code is read

* A database transaction is one step that commits whole or changes nothing. `now()` is a
  counter that grows from one transaction to the next. The partial unique indexes are part of
  the state (`CollectionStore.Store.byRow`) or of the stated invariant (`CatalogMerge.Inv`,
  `AliasTable.Sound`).
* A supersession row's id is the pair of the transaction that opened it and the item it
  supersedes: one transaction opens at most one row per item.
* Names and ids that are only compared are numbers; cursors, where their text matters, are
  strings. Sort keys are integer sequences in lexicographic order.
* SQL `ON CONFLICT DO NOTHING`, `COALESCE` and `RETURNING` are written out. Neo4j queries, the
  alias resolver and HTTP pages are parameters or are given by their specified results.
* Two releases with the same data are one value. The page of a pressing is that of the first
  such member, where `resolve_focus` takes the object itself.
* Predicates that bundle many clauses end in `var holds := ...; holds`, which keeps the
  verifier from proving each clause again at every use.

## Where the code does not do what is claimed of it

* `api/snapshot_store.py` says that after a rejected write no unaccounted snapshot key
  survives. An `EXPIRE` that is rejected after an `INCR` above the cap leaves the key.
  `SnapshotQuota.QuotaHolds` says exactly which snapshots are kept, `CapHolds` that the cap
  holds exactly when no save was stranded that way, and `RejectedExpireOverflows` gives a run
  that breaks it.
* `api/cache_budget.py` says concurrent writers overshoot the budget by about their own number.
  A writer that found its key in the index puts it back even if it was evicted meanwhile.
  `CacheWriters.OvershootBounded` bounds the overshoot by the other writers and the keys so put
  back; `TwoWritersOvershoot` drives it as high as one likes with two writers; and
  `BoundedIffAlone` proves that the number of writers bounds it exactly when there is one.
* `api/ledger_refresh.py` says the ledger is at most the quiet interval plus one poll interval
  stale after a load. `LedgerRefresh.RefreshedWithin` proves the quiet interval plus two gaps;
  `OneGapIff` proves that for polls on the beat every write is refreshed within one gap exactly
  when the quiet interval is a whole number of gaps.
* A second re-attachment run writes nothing when none failed, as long as each Discogs alias is
  held by an item of the alias's kind, which every run keeps so
  (`ReattachRun.SecondRunWritesNothing`, `StepsKeepHolder`). The job relies on the loaders for
  that: `lock_items` only compares the kinds of the two items.
  `ReattachExample.CrossKindSecondRunWrites` shows what happens when it is broken: the caches of
  the first run's merge are recomputed only in the tables of the item's own kind, so the second
  run writes.
* Repeating a sync with the same pages emits no event exactly when no key appears on two pages
  with different recorded values (`CollectionRepeat.RepeatIsQuiet`).
* A reference that was on the superseded item and is written back onto the survivor between a
  merge and its revert goes back with the merge (`MergeNested.MoveOntoSurvivorIsUndone`): the
  ledger cannot tell it from one that never left. `BracketRefsIff` gives the exact condition for
  one merge and revert, and `NestedMergesUndone` the exact set of such references for every nest.
* `credit_id` reads back exactly when no artist id holds `:` or `+` and the joined id is not
  empty (`StrataCursor.CreditRoundTrip`). For a pressing without a master whose credit reads as
  another one with a lane, `resolve_focus` raises; `BuildStrata` shows that as `Unheld`,
  `PressingLands` proves it happens in exactly that case, and `PlusIsMisread` gives a catalog.
  The id of a lane, a bucket or a lane's aggregate names its own set exactly when that one
  credit reads back (`StrataView.LaneCursor`, `BucketCursor`, `AggCursor`).
* The keyset of `run_reattachment` starts after the nil id. A row that is a candidate throughout
  is visited exactly when it is not under that id (`ReattachRun.VisitedIff`, `RunLeaves`), and
  `ReattachExample.NilIdIsPassedOver` gives tables whose only row, which a visit would
  re-attach, no run changes.
* The collision and third-holder checks of `reattach_item` never fire while each key has one
  current row (`Reattach.UnguardedIsRepaired`, `Reattach.HistoryKept`).

## Model

| member | source | states |
|---|---|---|
| `StrataResponse.BuildStrata` | api/strata.py:849-869 | For every catalog, marking, validated budget, focus text and page: an unfocused request is always drawn, a focused one exactly when the focus resolves, it crashes exactly on a misread pressing, and every drawn response keeps the four promises of the module, is the finest view that fits the given budget, and draws exactly the releases its strategy keeps. |
| `StrataResponse.Render` | api/strata.py:724-846 | Every view of a valid ladder keeps its budgets, drawn parents and conservation; its plan is the first level and mode that fit the given budget with the most masters kept, its release plane the finest strategy that fits; of a focused set it draws the page and no other member; and the cursor of each aggregate resolves exactly when its own credit reads back. |
| `StrataDrawn.DrawsByRule` | api/strata.py:638-689 | Outside the focus a release of a drawn master is a node exactly when everything fits, or the strategy keeps originals and it is the original of that master in the catalog, or it keeps state and the caller owns or wants it; a release of a lane the same way, without originals. |
| `StrataWhole.WholeWhenItFits` | api/strata.py:582-612 | Whenever every credit, master, lane and release fits its plane, an unfocused response folds nothing: each is drawn and there is no aggregate but the lanes. |
| `StrataResponse.PressingLands` | api/strata.py:490-507 | A pressing cursor resolves, to the page of its own set that draws the pressing whatever page was asked for, exactly when the pressing has a master or a readable credit; it crashes exactly when its credit reads as another with a lane. |
| `StrataResponse.PlusIsMisread` | api/strata.py:490-507 | Two masterless releases credited `a+b` and `a`, `b`: the first one's cursor crashes for every budget and page. |
| `StrataResponse.CursorWalk` | api/strata.py:457-494 | The responses to pages 0, 1, ... of a cursor each draw the page asked for and no other member of the set, and the pages together are the set, every member once, in order. |
| `StrataView.Fit` | api/strata.py:607-614 | A plan always exists, so the closing assertion is unreachable, and it is the finest level and mode that fit. |
| `StrataView.LaneCursor` | api/strata.py:509-539 | A lane's id names a set that holds the lane if and only if its credit reads back. |
| `StrataView.BucketCursor` | api/strata.py:509-539 | A bucket's id names the set of its credit and label if and only if that credit reads back. |
| `StrataView.AggCursor` | api/strata.py:654-689 | A release aggregate's id names a set that holds its releases if and only if they have a master or a credit that reads back. |
| `StrataCoarsest.CoarsestFits` | api/strata.py:148-154 | The floors of `Budget.validate` make the coarsest fallback fit all planes, with or without any accepted focus. |
| `StrataFit.CreditLevels` | api/strata.py:550-564 | The fallbacks in order: each draws or folds every credit once, keeps the parents the focus needs, fits the credit plane, and the last is the coarsest. |
| `StrataOrders.LevelsMean` | api/strata.py:550-564 | The first level fills the credit plane, each next one draws one credit less down to the base, and what a level folds is ranked below what it draws beyond the base. |
| `StrataMasters.PlanMasters` | api/strata.py:582-605 | None exactly when no prefix of the priority order fits; otherwise the plan of the largest prefix that fits both planes. |
| `StrataMasters.KeepCandidates` | api/strata.py:595-601 | The fold loop stops at the largest fitting prefix, its running counter always the number of distinct buckets of the folded suffix. |
| `StrataMasters.StatefulFoldLast` | api/strata.py:448-453 | No master with collector state is folded while a candidate without state is kept. |
| `StrataOrders.PriorityOrder` | api/strata.py:448-449 | The priority order is collector state first, then the most releases, then the id, as numbers where both ids are. |
| `StrataOrders.BucketMeans` | api/strata.py:451-453 | By decade two masters share a bucket label exactly when their years fall in one decade or neither has one; in the other mode all do. |
| `StrataMasters.BucketCount` | api/strata.py:602-605 | The buckets grouped in the plan are as many as the counter said. |
| `StrataReleasePlan.PlanReleases` | api/strata.py:616-652 | The release plane fits its budget, uses the finest rule that fits and draws under each open master and lane exactly what that rule keeps, loses nothing under the drawn masters and lanes, and draws each member of the focused set exactly as often as it is on the page; the last strategy always fits. |
| `StrataReleasePlan.ChooseRule` | api/strata.py:640-652 | The strategy loop ends with the finest rule that fits beside the fixed entries. |
| `StrataReleases.FoldMaster` | api/strata.py:654-672 | The items of one master that the rule keeps are drawn and the others held in one aggregate, each once, under that master, in as many entries as counted. |
| `StrataReleases.FoldLane` | api/strata.py:672-689 | The items of one lane that the rule keeps are drawn and the others held by decade or whole, each once, under that lane. |
| `StrataReleases.DrawFocus` | api/strata.py:616-636 | A focused release set becomes its page of nodes and one aggregate of exactly the rest. |
| `StrataConserve.MastersConserved` | api/strata.py:582-605 | Every master of a drawn credit is drawn, bucketed or in the focus remainder, once. |
| `StrataConserve.ItemsConserved` | api/strata.py:616-689 | Every release has exactly one home: the release plane, a bucket, the focus remainder or `c:other`. |
| `StrataFocus.PagesConcatenate` | api/strata.py:299-323 | The pages of a member set, one after the other, are the member set. |
| `StrataFocus.PageAndRest` | api/strata.py:316-323 | A page and its rest hold every member once between them. |
| `StrataFocus.PageOfIndex` | api/strata.py:491-494 | The page an index names draws that member. |
| `StrataFocus.ResolvedFocus` | api/strata.py:457-494 | Every accepted focus is a non-empty set of this ladder whose page size depends only on the set and the budget, with a page in range. |
| `StrataOrders.SizeIsMost` | api/strata.py:468-490 | The page size of a member set is the largest, up to eight, that fits beside one entry for each lane and bucket the view cannot drop and one for the rest of the set, or one if none fits. |
| `StrataOrders.PressingMeans` | api/strata.py:496-501 | `r:` names the last Discogs release of that id, `mb:` the last MusicBrainz one in any case, and nothing exactly when there is none. |
| `StrataOrders.LowerMeans` | api/strata.py:498-499 | Exactly the capital letters change, each to its small letter. |
| `StrataFocus.ParsedTarget` | api/strata.py:509-539 | Whatever a cursor text names is a non-empty member set of the ladder. |
| `StrataFocus.TargetIdParses` | api/strata.py:509-546 | A member set's own id parses back to that set. |
| `StrataCursor.CreditRoundTrip` | api/strata.py:216-218 | A credit id with an optional label reads back as made, if and only if its artist ids are readable. |
| `StrataLadder.Build` | api/strata.py:371-442 | For every catalog, the ladder holds exactly the releases on Discogs or with a master that is, each with its own year or else the year given to its master, the credit of its own or of the original, and the state its mark says; each master is at the credit of its original with its given or earliest year; groups and orders as the rules say. |
| `StrataLadder.PlaceAllIs` | api/strata.py:389-406 | The placed items are the releases that reach the ladder, in order, each with the year, credit and state the catalog and the marks give it. |
| `StrataOrders.OriginalOrder` | api/strata.py:385 | The original sorts by year, undated last, then by id. |
| `StrataOrders.ItemOrder` | api/strata.py:293-296 | Releases sort undated first, then by year, Discogs before MusicBrainz, then by id. |
| `StrataOrders.MasterOrder` | api/strata.py:426-429 | The masters of a credit sort undated first, then by year, then by id. |
| `StrataOrders.RankOrder` | api/strata.py:432-439 | Credits rank by the number of their releases, then by credit id as text. |
| `StrataOrders.DecadeMeans` | api/strata.py:225-226 | Two years have one label exactly when they fall in one decade, and none has the label of no year. |
| `StrataLadder.OriginalIsOriginal` | api/strata.py:377-388 | The chosen original is a Discogs release of the master that no other sorts before. |
| `StrataCatalog.Encode` | api/strata.py:234-258 | What is written decodes to the catalog it was given. |
| `StrataCatalog.DecodeRowsGrow` | api/strata.py:261-271 | Interning more credits leaves every earlier row readable as before. |
| `MergeForest.MergeKeepsInv` | api/catalog_merge.py:104-124 | A fresh merge and its chain compression keep the invariant of live rows. |
| `MergeForest.OpenRowMerges` | api/catalog_merge.py:113-124 | Exactly the rows `x` survived close, and one row opens for `x` and for each of their items. |
| `MergeMeaning.MergeIs` | api/catalog_merge.py:104-139 | A merge opens one row with the cause and decision of the caller, closes each row into the superseded item and opens one into the survivor with the same cause and decision under the new row; every reference of the superseded item is on the survivor and ledgered once, and nothing else changes. With a row already open only the references and the ledger move. |
| `MergeMeaning.MergedOnto` | api/catalog_merge.py:284-316 | The superseded item then has one open row, into the survivor, which has none; nothing is open into it, and no reference is on it. |
| `MergeMeaning.EveryMergeMoves` | api/catalog_merge.py:284-316 | In every reachable state a merge that passes the checks moves exactly the references of the superseded item to the survivor, to which it then resolves. |
| `MergeMeaning.EveryRefIsCurrent` | api/catalog_merge.py:29-34 | Over every run in which references are only written onto current items, no reference is ever on a superseded one. |
| `MergeRevert.OnePredecessorEach` | api/catalog_merge.py:170-180 | In every state of the invariant a revert finds exactly one predecessor per compressed row. |
| `MergeRevert.RevertSucceeds` | api/catalog_merge.py:347-357 | An open uncompressed row always reverts; the mismatch never fires. |
| `MergeRevert.RevertedRowIs` | api/catalog_merge.py:161-180 | A revert closes the row and the rows it compressed, re-opens the rows below them, and changes no other. |
| `MergeMeaning.RevertIs` | api/catalog_merge.py:319-361 | A revert closes the row and the rows compressed under it, re-opens for each the one row it replaced, puts back exactly the ledgered references still on the survivor, and changes nothing else. |
| `MergeRevert.RevertKeepsInv` | api/catalog_merge.py:319-361 | A revert keeps the invariant, for the stacks without the reverted merge. |
| `MergeRuns.EveryRunIsCompressed` | api/catalog_merge.py:29-34 | Over every run of merges, reverts and writes: at most one open row per item, no open survivor superseded, and one-hop resolution is following direct merges to the root. |
| `MergeRuns.EveryRevertDecided` | api/catalog_merge.py:319-361 | In every reachable state a revert succeeds exactly for an open row without `via_id`, and never ends in a mismatch. |
| `MergeRuns.StackIsPath` | api/catalog_merge.py:29-34 | The survivors along an item's live rows, one by one, are its path of direct merges to the root. |
| `MergeNested.NestedMergesUndone` | api/catalog_merge.py:319-361 | From every reachable state, every well-nested program of fresh merges, reverts and writes has no revert refused and leaves every open row as it was; each reference is at its last write in between, or where it began, but for exactly those written back onto a survivor. |
| `MergeNested.BracketRefsIff` | api/catalog_merge.py:182-194 | After one merge and revert every write in between stands if and only if none put a reference of the superseded item back onto the survivor. |
| `MergeNested.MoveOntoSurvivorIsUndone` | api/catalog_merge.py:182-194 | A reference of the superseded item moved back onto the survivor is taken back by the revert. |
| `MergeNested.RefsReturn` | api/catalog_merge.py:182-194 | A revert adds to the lost references exactly those of the superseded item written back onto the survivor. |
| `MergeStore.Store.MergeItems` | api/catalog_merge.py:284-316 | The statements in order leave what a merge means: rows opened and re-routed with their causes and decisions, every reference of the superseded item and no other on the survivor, each move ledgered; they keep the invariant. |
| `MergeStore.Store.RevertSupersession` | api/catalog_merge.py:319-361 | The statements in order leave what a revert means, row by row and reference by reference, or change nothing but the clock on a conflict that is never a mismatch. |
| `MergeStore.Store.OpenRowOf` | api/catalog_merge.py:253-272 | The open row of the pair, or the conflict. |
| `MergeStore.Store.LockPair` | api/catalog_merge.py:232-250 | The shared kind, or the first conflict in order. |
| `MergeStore.Store.OpenAndCompress` | api/catalog_merge.py:299-309 | Opens the row and one compressed row per survived row. |
| `MergeStore.Store.RepointAll` | api/catalog_merge.py:311-316 | Table by table, every reference to the superseded item is put on the survivor and ledgered once, and every other stays. |
| `AliasTable.OneHolder` | api/identity_ledger.py:81-84 | At most one row of a key is valid at any instant. |
| `AliasTable.HolderIs` | api/identity_ledger.py:159-163 | The first valid row found is the holder. |
| `AliasTable.PastHoldersKept` | api/reattach.py:316-331 | Closing and re-inserting an item's aliases changes no past instant's holder. |
| `AliasTable.CurrentHolders` | api/reattach.py:316-331 | The keys the item held are held by the other, and no other key changes hands. |
| `AliasTable.ReheldIs` | api/reattach.py:325-331 | Every closed alias is re-inserted; none collides. |
| `AliasTable.ReheldSound` | api/reattach.py:316-331 | The intervals of each key stay disjoint. |
| `AliasStore.Store.MoveAliases` | api/reattach.py:516-532 | The close and re-insert statements move every alias and leave none out. |
| `AliasStore.Store.CloseHeld` | api/reattach.py:316-321 | Closes exactly the item's current rows and returns them. |
| `AliasStore.Store.ReinsertFor` | api/reattach.py:325-331 | Re-inserts what is free and returns the keys left out. |
| `Reattach.HistoryKept` | api/reattach.py:481-555 | One item's transaction leaves every past holder and the set of held keys unchanged; each alias it opens continues a closed one with its source and confidence. |
| `Reattach.ItemOutcome` | api/reattach.py:497-555 | A transaction commits a whole repair or changes nothing, and a candidate is never found unchanged. |
| `Reattach.GuardedIff` | api/reattach.py:217-227 | A split is guarded exactly when it holds a current alias the catalog did not assert, or one that is neither an identifier nor the own MusicBrainz alias of the row. |
| `Reattach.CachesAfter` | api/catalog_merge.py:143-157 | After a repair the row is cached on the Discogs item, each other row of the kind cached on either item takes what its alias resolves to, and no other cache changes. |
| `Reattach.UnguardedIsRepaired` | api/reattach.py:515-555 | An unguarded split whose items can merge is always repaired, with every alias moved and no collision. |
| `ReattachMerge.ReattachMerges` | api/reattach.py:540-542 | Every committed re-attachment leaves its split with one open row, into the Discogs item and by this run if none was open before, nothing open into it, exactly its references moved, and the merge invariant. |
| `ReattachMerge.SplitIsReattached` | api/reattach.py:515-555 | An unguarded split whose items can merge ends with aliases, cache, references and open row all on the Discogs item. |
| `ReattachMerge.RunAbsorbs` | api/reattach.py:591-633 | After a run the split of every row it re-attached has no reference and resolves where the Discogs item of the row does, whatever later rows merged. |
| `ReattachMerge.RunAgrees` | api/reattach.py:591-633 | After an applying run every linked row outside the nil id has its aliases on one item and no cache that says otherwise, but for those visited and guarded or failed. |
| `ReattachRun.NoNewCandidate` | api/reattach.py:188-195 | No transaction makes any row a candidate, and a repaired row is one no longer. |
| `ReattachRun.RunLeaves` | api/reattach.py:591-633 | After a run the candidates left were candidates before; each was visited, and guarded or failed there, if and only if it is not under the nil id and the batch size is positive. |
| `ReattachRun.VisitedIff` | api/reattach.py:294-301 | A row that is a candidate throughout is visited if and only if it is not under the nil id and the batch size is positive. |
| `ReattachRun.VisitsCover` | api/reattach.py:294-301 | The keyset loop skips no row that stays a candidate. |
| `ReattachRun.RepairKeepsGuard` | api/reattach.py:217-227 | A guarded candidate stays guarded for as long as it is a candidate. |
| `ReattachRun.OtherLink` | api/catalog_merge.py:143-157 | A repair changes another row's link only in its cache, and only to its own alias. |
| `ReattachRun.SecondRunWritesNothing` | api/reattach.py:591-633 | While Discogs aliases are held by items of their kind: if none failed, a second run changes nothing, whatever ids the rows have, and the holders still are. |
| `ReattachRun.StepsKeepHolder` | api/reattach.py:497-555 | Over any sequence of transactions a Discogs alias held by an item of its kind stays so held. |
| `ReattachRun.EveryRunKeepsPast` | api/reattach.py:316-331 | Over every run of loaders and re-attachments, each key has one holder at every instant, past holders never change, and a held key stays held. |
| `ReattachExample.CrossKindSecondRunWrites` | api/catalog_merge.py:74-94 | With a Discogs alias held by an item of another kind: tables where no row fails and the second run still re-attaches one. |
| `ReattachExample.NilIdIsPassedOver` | api/reattach.py:591-600 | Tables whose one row, under the nil id, is an unguarded candidate that a visit re-attaches and no run changes. |
| `DiscoverySearch.Bfs` | api/explore_discovery.py:120-172 | Exactly the eligible nodes within `hops` are found, each at its shortest distance, with the least name sequence of all its shortest paths and a real path of those relationships. |
| `DiscoverySearch.Hop` | api/explore_discovery.py:126-156 | One hop extends an exact and complete search by one layer. |
| `DiscoverySearch.BatchesFollow` | api/explore_discovery.py:129-135 | Under the edge typing the pruned last hop follows every edge to an eligible node. |
| `DiscoveryGraph.LastHopIsComplete` | api/explore_discovery.py:46-48 | Only releases and masters by `BY`, `ON`, `IS`, or artists by `ALIAS_OF`, `MEMBER_OF`, are next to an eligible node. |
| `DiscoveryGraph.AdjacentIs` | api/explore_discovery.py:95-104 | Every edge joins its ends both ways, and nothing else joins. |
| `DiscoveryGraph.LeastThroughParent` | api/explore_discovery.py:88-92 | The least names of a node go through the neighbour, one step nearer, with the least names. |
| `DiscoveryBfs.Expand` | api/explore_discovery.py:95-117 | One row per neighbour with the least `index * 8 + code`. |
| `DiscoveryBfs.BestIsLeast` | api/explore_discovery.py:88-104 | The coded minimum names the member with the least path that reaches the node. |
| `DiscoveryBfs.AddRow` | api/explore_discovery.py:140-155 | A row finds its node, or keeps the smaller of the two parents' paths. |
| `DiscoveryBfs.PathOf` | api/explore_discovery.py:179-187 | Path reconstruction ends and returns the tree's own names along real edges. |
| `DiscoverySelect.SelectNearest` | api/explore_discovery.py:199-211 | The tiers choose the same artists and labels as one sort of them all, cut at 100, by distance and, inside one, by placeholder, popularity if the tier is cut, and id. |
| `DiscoverySelect.Select` | api/explore_discovery.py:194-214 | Every genre and style and those artists and labels, nearest first; within a distance genres and styles by label and name, then artists and labels as chosen. |
| `DiscoverySelect.HubTopIsTop` | api/explore_discovery.py:401-405 | Merging the two limited scans gives the top 100 of the full union. |
| `BackfillBounds.CreationBounds` | api/ledger_backfill.py:157-175 | The bucket fold and suffix minimum give c(k) for every candidate; sortedness is enough. |
| `BackfillBounds.Bound` | api/ledger_backfill.py:160-161 | c(k) is the least positive `last_updated` among rows with id at least k, or no time. |
| `BackfillBounds.BoundMonotone` | api/ledger_backfill.py:305-306 | A later row is never bounded earlier. |
| `BackfillPlan.Finalize` | api/ledger_backfill.py:267-352 | Fails exactly on a missing table or link type; otherwise one event per linked, dated, present release, at the least bound of its links, arrays aligned; each count is the size of its set: linked, undated, missing. |
| `BackfillPlan.DateReleases` | api/ledger_backfill.py:308-326 | The grouping loop dates each release once, by its lowest-id link. |
| `BackfillPlan.FirstIsEarliest` | api/ledger_backfill.py:305-306 | A release's lowest-id link attains its earliest bound. |
| `BackfillPlan.FindReleases` | api/ledger_backfill.py:328-335 | A release is found exactly when the table has it, with the gid of its last row. |
| `BackfillPlan.Candidates` | api/ledger_backfill.py:284-292 | The candidates are exactly the rows of a Discogs link type with a known URL. |
| `ReattachTrigger.ExactlyOnce` | api/reattach_trigger.py:140-222 | Over every interleaving, crash and lost session: one marker per extraction, each after a whole re-attachment and projection begun after it completed, and every decision_ref names an audit row. |
| `ReattachTrigger.NeverStuck` | api/reattach_trigger.py:140-222 | From every state, whatever crashed, failed or holds the lock, some run handles the newest extraction. |
| `ReattachTrigger.NewestIs` | api/reattach_trigger.py:99-105 | Whatever order extractions complete in, the version polled is the last created one, then the greatest version. |
| `ReattachTrigger.MarkKeeps` | api/reattach_trigger.py:207-212 | The marker's writer holds the lock and saw no marker under it. |
| `CacheBudget.Cache.Store` | api/cache_budget.py:91-149 | The index and cost set name the same keys within the budget; a write is stored exactly when counted already, when there is room, or when some entry is strictly cheaper, and evicts only one lightest entry of a full budget. |
| `CacheBudget.Cache.LiveWithinBudget` | api/cache_budget.py:126-149 | At every later time the live keys are within the budget. |
| `CacheBudget.Cache.EvictLightestBelow` | api/cache_budget.py:61-88 | Removes one lightest entry if strictly cheaper, else nothing. |
| `CacheBudget.Cache.Prune` | api/cache_budget.py:129-133 | Drops exactly the expired entries, also when the sets themselves expired. |
| `CacheWriters.OvershootBounded` | api/cache_budget.py:117-119 | `W` interleaved writers never take the index above `maxKeys + W - 1` by more than the keys put back after an eviction or expiry. |
| `CacheWriters.AbsentWritersBounded` | api/cache_budget.py:117-119 | When no key leaves the index between its check and its write, `W` writers stay within `maxKeys + W - 1`. |
| `CacheWriters.TwoWritersOvershoot` | api/cache_budget.py:136-143 | From any full cache two writers can reach an index larger by any number. |
| `CacheWriters.BoundedIffAlone` | api/cache_budget.py:117-119 | Every run stays within `maxKeys + W - 1` if and only if there is one writer. |
| `CacheWriters.LoneRun` | api/cache_budget.py:136-143 | A lone writer never exceeds the budget, whatever expires under it. |
| `LedgerRefresh.NoCountedWriteLost` | api/ledger_refresh.py:166-254 | Under every interleaving the views hold every write the stored watermark counted. |
| `LedgerRefresh.RefreshStores` | api/ledger_refresh.py:166-254 | A refresh that nothing interrupts, polled or inline, leaves the views with every committed write, the watermark with every counted one and the lock free. |
| `LedgerRefresh.RefreshedWithin` | api/ledger_refresh.py:207-254 | With gaps of at most G, a lone poller has refreshed within the quiet interval and 2G of the last write. |
| `LedgerRefresh.BeatRefresh` | api/ledger_refresh.py:198-222 | On the beat, the refresh comes exactly at the first poll a quiet interval after the one that saw the write. |
| `LedgerRefresh.OneGapIff` | api/ledger_refresh.py:46-49 | On the beat, every write is stored as refreshed by a poll within the quiet interval and one gap if and only if that interval is a whole number of gaps. |
| `LedgerRefresh.ChangeTracker.Observe` | api/ledger_refresh.py:198-204 | How long the watermark has held still, since the last change seen. |
| `SnapshotQuota.QuotaHolds` | api/snapshot_store.py:109-156 | Once settled, the counter is not below the number kept, the kept snapshots are exactly those counted within the cap, which fit it, and those stranded by a rejected EXPIRE, and a save rejected at SET or INCR holds nothing. |
| `SnapshotQuota.KeptIffBelowCap` | api/snapshot_store.py:109-156 | A save that nothing interrupts is kept exactly when the counter is below the cap, and otherwise leaves keys and counter as they were. |
| `SnapshotQuota.LoserGivesBack` | api/snapshot_store.py:146-156 | A save admitted below the cap and counted above it gives back its key and its slot. |
| `SnapshotQuota.CapHolds` | api/snapshot_store.py:146-156 | Once settled, the cap holds if and only if no save was stranded by a rejected EXPIRE. |
| `SnapshotQuota.RejectedExpireOverflows` | api/snapshot_store.py:146-148 | A run of two saves that keeps two snapshots under a cap of one. |
| `CollectionSync.Collection.Sync` | api/syncer.py:473-697 | For every sequence of replies: a completed run leaves exactly the fetched keys with one linked copy each, of the item of its row and acquired on the date of its row if it has one, and a snapshot of those copies; every other copy keeps its values; a failed one deletes nothing; replaying the events gives the copies held now. |
| `CollectionSync.Collection.FetchPages` | api/syncer.py:504-683 | The loop persists the named entries of each page up to an empty, last or refused reply. |
| `CollectionSync.FetchedAre` | api/syncer.py:504-683 | The pages that reach the store are the named entries of the replies, in order, up to the one that ends the run. |
| `CollectionSync.CompletesIff` | api/syncer.py:519-683 | The run completes exactly when an empty or last page comes before a refusal. |
| `CollectionSync.CompletedRun` | api/syncer.py:685-697 | The same, for every store, pages and order of the removal events, down to the item and date of each copy. |
| `CollectionSync.FailedRunDeletesNothing` | api/syncer.py:685-690 | Without the sweep every row and held copy stays. |
| `CollectionSync.Collection.PersistPage` | api/syncer.py:340-380 | Upsert, mint, link and diff one page: each row of it is linked to a copy of its item, acquired on its date or, without one, as before, and no other copy changes. |
| `CollectionSync.CollectPageEvents` | api/syncer.py:305-337 | The diff, key by key. |
| `CollectionSync.EventIs` | api/syncer.py:305-337 | A key not stored before is announced as added, one whose folder, rating or given date changed as updated in just those, and no other; each event names the item and copy of the row. |
| `CollectionSync.Collection.SweepStale` | api/syncer.py:700-748 | Deletes exactly the rows with an older stamp and announces their copies. |
| `CollectionStore.PersistIs` | api/syncer.py:265-297 | A page leaves its rows written, the others as they were, and one linked copy per row, with the item of the row and its date or, without one, the date the copy had; copies not linked to the page are unchanged. |
| `CollectionStore.UpsertAllWrote` | api/syncer.py:104-127 | The upserts write the page's rows and keep their ids and omitted dates. |
| `CollectionRepeat.RepeatIsQuiet` | api/syncer.py:305-337 | The same pages again remove nothing, and cause no event exactly when no key differs between pages. |
| `CollectionRepeat.QuietRun` | api/syncer.py:329-336 | A run over stored keys is quiet exactly when every entry agrees with what was stored when it began. |
| `CollectionRepeat.EditedBetweenPages` | api/syncer.py:329-336 | An item edited while pages are fetched makes the repeat emit an event, from every store. |

## Left out

- Labels, titles, spans, rollups, counts and the order of entries inside a rendered plane (`api/strata.py`), and the JSON text of the cached catalog: presentation.
- Unicode: `lower` and `isdigit` are modelled on ASCII; release dates and copy counts of a mark only matter through its state.
- The `gm_item_id` caches that no step reads back (Discogs tables, collection and wantlist rows), and the cache recompute of a revert: the MusicBrainz caches, which decide the candidates, are modelled.
- `reattach_item` and `run_reattachment` as in-place code: their alias statements and the merge are in place, the decision and the paging loop are on values, so the tally's mutation is not captured.
- The re-attachment census, its dependents and contested identifiers, and the audit entries of an applying run: reads and glue.
- Order in `dist` of the discovered nodes: it is a map here, and every list built from it is sorted again.
- The token lock, stages and retry times of hub building: single-branch.
- COPY-format parsing, URL and timestamp rules, streaming, digests and the event writer of the backfill; a 16-byte gid is one value.
- `SnapshotQuota.QuotaHolds`: one lifetime of the counter; a DECR that arrives after the counter expired is not modelled.
- `LedgerRefresh.RefreshedWithin`: refreshes succeed and take no time, and the lock is free, as the bound assumes.
- `CollectionSync.Collection.Sync`: every item has an instance id and a native id, and run stamps increase; the Neo4j half and the wantlist are not modelled. A page names an instance once: PostgreSQL refuses a repeat whenever the mint inserts or changes its copy, and the case where the copy is already right, which the code accepts with the later entry winning, is not modelled.
- Routers, configuration, telemetry, authentication, notifications and the performance runner.
- `common.identity`, `common.media` and `api/queries` are not part of this model.
