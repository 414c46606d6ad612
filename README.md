# Plan grouping, entity search and rule reordering of the cloud manager, in Dafny

This project models three small pieces of list logic from the cloud manager's web console and proves what they do.

- **Plan-class grouping.** The Linode create flow groups plan types into category tabs (`getPlanSelectionsByPlanType` in the plan-panel utilities). It merges nanode and standard plans into `shared`, keeps the keys in a fixed order and drops the empty ones. It then picks the tab to open first (`determineInitialPlanCategoryTab`) and lists the regions that offer a capability (`getRegionsWithCapability`). The plan tables use a second grouping of the same name, with eight fixed buckets. That one keeps nanode and standard apart and never drops a bucket.
- **Entity search.** `search` has a fast path for the empty query, matches two product shortcuts by whole label, and hands everything else to the matcher. The search state handler builds the list to be searched from seven kinds of fetched resources.
- **Rule reordering.** The rules table of a load-balancer route moves one rule to another position on a copy of the rule list: by the move-up and move-down buttons, or by drag and drop.

Module layout:

- `Wrappers` and `Seqs` (seqs.dfy) hold an `Option` type, an order-keeping `Filter` with its lemmas, and `IndexOf`.
- `LinodeTypes` holds the plan classes and plan types.
- `SelectPlanUtils` models the plan-panel utilities and `FilterPlanSelections` the eight-bucket grouping.
- `PlanGroupings` relates the two groupings.
- `SearchInterfaces` and `StoreSearch` model the search datatypes and `search` with its handler.
- `Rules` models the rules table.

The grouping in the plan-panel utilities is imperative in the console. It seeds a record with empty arrays, pushes each plan onto the array under its key, then deletes the empty keys. Each of these phases is a method with a loop. The record is a sequence of key/array entries in insertion order, since a JavaScript object keeps its string keys in that order, and every lookup `plans[key]` is a search for the key. Each method is proved equal to a specification function (`Grouped`, `PlansByType`). The properties of the grouping are lemmas about those functions.

The eight-bucket grouping is a loop whose `match` mirrors the `switch` of the source. It is proved equal to `Filtered`, which gives each bucket the input-order subsequence of its class.

Reordering copies the rules into a fresh array. It then performs `splice(sourceIndex, 1)` and `splice(destinationIndex, 0, removed)` in place on the copy, as shift loops. The result is proved equal to the function `Moved`, and the lemmas about `Moved` state the permutation, position and inverse properties. The table is a class. Its handlers leave `route.rules` unchanged, and a ghost log records the reordered copies they compute and then drop.

## Model

| member | source | states |
|---|---|---|
| Seqs.IndexOf | packages/manager/src/features/linodes/LinodesCreate/SelectPlanPanel/utils.ts:86 | `indexOf`: -1 exactly when the element is absent; otherwise the first position holding it |
| SelectPlanUtils.Rank | packages/manager/src/features/linodes/LinodesCreate/SelectPlanPanel/utils.ts:29-40 | every key occurs in `planTypeOrder`, at exactly one position |
| SelectPlanUtils.KeyOf | packages/manager/src/features/linodes/LinodesCreate/SelectPlanPanel/utils.ts:48-52 | the key a plan is pushed under: a key exactly for the eight known classes, and `shared` exactly for nanode and standard (the other classes' own keys are stated by `OwnClassBucket`) |
| SelectPlanUtils.Bucket | packages/manager/src/features/linodes/LinodesCreate/SelectPlanPanel/utils.ts:47-53 | the array under one key: only input plans whose class maps to that key, no more plans than the input (that it is all of them, in order, is stated by `BucketOrder`) |
| SelectPlanUtils.Grouped | packages/manager/src/features/linodes/LinodesCreate/SelectPlanPanel/utils.ts:42-53 | the record after the loop: exactly the seven keys of `planTypeOrder`, in that order (what each holds is stated by `BucketOrder`) |
| SelectPlanUtils.PlansByType | packages/manager/src/features/linodes/LinodesCreate/SelectPlanPanel/utils.ts:55-61 | the record returned: the grouped record without its empty keys, so no returned array is empty and at most seven keys remain |
| SelectPlanUtils.KeyPosition | packages/manager/src/features/linodes/LinodesCreate/SelectPlanPanel/utils.ts:49-57 | a key lookup in the record finds the first entry with that key, or reports that no entry has it |
| SelectPlanUtils.SeedKeys | packages/manager/src/features/linodes/LinodesCreate/SelectPlanPanel/utils.ts:42-45 | the `reduce` yields every key of `planTypeOrder`, in order, each with an empty array |
| SelectPlanUtils.GroupedSnoc | packages/manager/src/features/linodes/LinodesCreate/SelectPlanPanel/utils.ts:48-52 | pushing one plan appends it to the bucket of its own key and changes no other entry |
| SelectPlanUtils.PushPlans | packages/manager/src/features/linodes/LinodesCreate/SelectPlanPanel/utils.ts:47-53 | after the `for` loop each key holds exactly the plans of its classes, in input order |
| SelectPlanUtils.DeleteEmptyKeys | packages/manager/src/features/linodes/LinodesCreate/SelectPlanPanel/utils.ts:55-59 | deleting while iterating `Object.keys` removes exactly the empty entries and keeps the others in order |
| SelectPlanUtils.DeleteIfEmpty | packages/manager/src/features/linodes/LinodesCreate/SelectPlanPanel/utils.ts:56-58 | one pass of the `forEach`: the entry under the key is removed when its array is empty, and the record is unchanged otherwise |
| SelectPlanUtils.GetPlanSelectionsByPlanType | packages/manager/src/features/linodes/LinodesCreate/SelectPlanPanel/utils.ts:24-62 | the three phases together return the record `PlansByType`: the non-empty buckets in `planTypeOrder` order |
| SelectPlanUtils.DroppingEmptyKeepsSize | packages/manager/src/features/linodes/LinodesCreate/SelectPlanPanel/utils.ts:55-59 | deleting empty keys loses no plan |
| SelectPlanUtils.Conservation | packages/manager/src/features/linodes/LinodesCreate/SelectPlanPanel/utils.ts:42-53 | every plan lands in exactly one bucket, so the returned arrays hold as many plans as the input |
| SelectPlanUtils.BucketOrder | packages/manager/src/features/linodes/LinodesCreate/SelectPlanPanel/utils.ts:47-53 | a bucket is the plans whose class maps to its key, at increasing input positions, and no other plan |
| SelectPlanUtils.SharedBucket | packages/manager/src/features/linodes/LinodesCreate/SelectPlanPanel/utils.ts:48-49 | `shared` holds exactly the nanode and standard plans, in input order |
| SelectPlanUtils.OwnClassBucket | packages/manager/src/features/linodes/LinodesCreate/SelectPlanPanel/utils.ts:50-52 | every other class has a bucket named by itself, holding exactly its plans in input order |
| SelectPlanUtils.ReturnedEntries | packages/manager/src/features/linodes/LinodesCreate/SelectPlanPanel/utils.ts:55-59 | every returned key holds its full bucket, and no returned array is empty |
| SelectPlanUtils.KeyReturnedIffBucket | packages/manager/src/features/linodes/LinodesCreate/SelectPlanPanel/utils.ts:55-59 | a key is returned if and only if its bucket is non-empty |
| SelectPlanUtils.KeyPresence | packages/manager/src/features/linodes/LinodesCreate/SelectPlanPanel/utils.ts:47-59 | a key is returned if and only if some input plan maps to it |
| SelectPlanUtils.SharedPresence | packages/manager/src/features/linodes/LinodesCreate/SelectPlanPanel/utils.ts:48-59 | `shared` is returned if and only if some plan is a nanode or standard plan |
| SelectPlanUtils.KeyOrder | packages/manager/src/features/linodes/LinodesCreate/SelectPlanPanel/utils.ts:29-45 | the returned keys appear in strictly increasing `planTypeOrder` position |
| SelectPlanUtils.TabOrder | packages/manager/src/features/linodes/LinodesCreate/SelectPlanPanel/utils.ts:71-73 | `tabOrder`: tab i is the class of returned key i, with `shared` read as `standard`; so one tab per returned key, each a known class and never nanode |
| SelectPlanUtils.FindSelected | packages/manager/src/features/linodes/LinodesCreate/SelectPlanPanel/utils.ts:77-80 | `find` returns the first plan whose id is `selectedID` or whose heading is `currentPlanHeading`; it returns nothing exactly when no plan matches |
| SelectPlanUtils.SelectedClass | packages/manager/src/features/linodes/LinodesCreate/SelectPlanPanel/utils.ts:77-84 | the class of the first selected plan, `dedicated` when no plan is selected, with nanode read as standard |
| SelectPlanUtils.SelectedClassRecognised | packages/manager/src/features/linodes/LinodesCreate/SelectPlanPanel/utils.ts:77-84 | the class looked up is a known class and never nanode, which is read as standard |
| SelectPlanUtils.DetermineInitialPlanCategoryTab | packages/manager/src/features/linodes/LinodesCreate/SelectPlanPanel/utils.ts:64-89 | the initial tab is -1 or an index into the returned record |
| SelectPlanUtils.InitialTab | packages/manager/src/features/linodes/LinodesCreate/SelectPlanPanel/utils.ts:71-88 | the tab is a real index if and only if the selected class has plans, and then it is the position of that class's key (`shared` standing for `standard`) |
| SelectPlanUtils.SelectedPlanOnInitialTab | packages/manager/src/features/linodes/LinodesCreate/SelectPlanPanel/utils.ts:69-88 | when a plan is selected, the initial tab exists and lists that plan |
| SelectPlanUtils.NoSelectionNoDedicated | packages/manager/src/features/linodes/LinodesCreate/SelectPlanPanel/utils.ts:77-88 | with no plan selected and no dedicated plans, the initial tab is -1 |
| SelectPlanUtils.CapableLabels | packages/manager/src/features/linodes/LinodesCreate/SelectPlanPanel/utils.ts:95-100 | the labels handed to `arrayToList`: none when the region list is missing, otherwise only labels of regions with the capability |
| SelectPlanUtils.GetRegionsWithCapability | packages/manager/src/features/linodes/LinodesCreate/SelectPlanPanel/utils.ts:91-101 | a missing region list formats as the empty list; otherwise the labels `CapableLabels` picks are formatted |
| SelectPlanUtils.CapableLabelsInOrder | packages/manager/src/features/linodes/LinodesCreate/SelectPlanPanel/utils.ts:95-100 | the labels handed to the formatter are exactly those of the regions with the capability, in input order |
| FilterPlanSelections.OfClass | packages/manager/src/utilities/filterPlanSelectionsByType.ts:26-55 | the array for one class: input plans of exactly that class |
| FilterPlanSelections.Filtered | packages/manager/src/utilities/filterPlanSelectionsByType.ts:15-55 | the record returned: whatever class's array a plan sits in, it is an input plan of that class (that each array is all of them, in order, is stated by `BucketOrder`) |
| FilterPlanSelections.Switch | packages/manager/src/utilities/filterPlanSelectionsByType.ts:27-54 | one `switch`: the plan is appended to its own class's array, and the arrays grow by one exactly when the class is one of the eight |
| FilterPlanSelections.FilteredSnoc | packages/manager/src/utilities/filterPlanSelectionsByType.ts:26-55 | each `switch` case appends the plan to its own class's array only; an unknown class changes nothing |
| FilterPlanSelections.GetPlanSelectionsByPlanType | packages/manager/src/utilities/filterPlanSelectionsByType.ts:10-58 | the loop returns all eight arrays, each holding the plans of its class in input order |
| FilterPlanSelections.BucketOrder | packages/manager/src/utilities/filterPlanSelectionsByType.ts:26-55 | each array is the plans of exactly its class, at increasing input positions |
| FilterPlanSelections.UnrecognisedDropped | packages/manager/src/utilities/filterPlanSelectionsByType.ts:52-53 | a plan of any other class lands in no array |
| FilterPlanSelections.NanodeStandardApart | packages/manager/src/utilities/filterPlanSelectionsByType.ts:28-33 | the nanode and standard arrays are not merged: each holds only its own class |
| FilterPlanSelections.Conservation | packages/manager/src/utilities/filterPlanSelectionsByType.ts:15-57 | the arrays together hold as many plans as the input has plans of a known class |
| FilterPlanSelections.ConservationAllRecognised | packages/manager/src/utilities/filterPlanSelectionsByType.ts:15-57 | when every class is one of the eight, the arrays hold exactly as many plans as the input |
| PlanGroupings.OwnClassesAgree | packages/manager/src/features/linodes/LinodesCreate/SelectPlanPanel/utils.ts:50-52 | on every class but nanode and standard the two groupings give the same array |
| PlanGroupings.SharedInterleavesNanodeAndStandard | packages/manager/src/features/linodes/LinodesCreate/SelectPlanPanel/utils.ts:48-49 | `shared` interleaves the nanode and standard arrays of the eight-bucket grouping: it holds the same plans, and each class keeps its own order |
| PlanGroupings.SharedIsNotConcatenation | packages/manager/src/features/linodes/LinodesCreate/SelectPlanPanel/utils.ts:48-49 | `shared` is not nanode followed by standard: a standard plan listed before a nanode plan stays first |
| StoreSearch.ProductsMap | packages/manager/src/features/Search/withStoreSearch.tsx:31-44 | `productsMap`: the Linodes and Volumes shortcuts, in that order, with their paths as values |
| StoreSearch.LowerCase | packages/manager/src/features/Search/withStoreSearch.tsx:81 | `toLocaleLowerCase`, folding ASCII letters only: same length, each upper-case ASCII letter replaced by its lower-case letter (code point + 32), every other character unchanged |
| StoreSearch.LowerCaseIdempotent | packages/manager/src/features/Search/withStoreSearch.tsx:81 | lower-casing an already lower-cased string changes nothing |
| StoreSearch.MatchingProducts | packages/manager/src/features/Search/withStoreSearch.tsx:79-82 | the products offered: entries of `productsMap` whose lower-cased label equals the lower-cased query |
| StoreSearch.Search | packages/manager/src/features/Search/withStoreSearch.tsx:67-85 | only the empty query has no `products`, no results and the empty by-entity value; any other query goes to `refinedSearch`, is split by entity from those same results, and gets the matching products |
| StoreSearch.ProductsExactlyMatching | packages/manager/src/features/Search/withStoreSearch.tsx:79-82 | the products are exactly the `productsMap` entries whose lower-cased label equals the lower-cased query, in table order |
| StoreSearch.NoProductOfOtherLength | packages/manager/src/features/Search/withStoreSearch.tsx:79-82 | matching is whole-label equality: a query of another length matches no product |
| StoreSearch.VolumesShortcut | packages/manager/src/features/Search/withStoreSearch.tsx:31-44 | "volumes" and "VOLUMES" give the Volumes shortcut; "vol" gives none |
| StoreSearch.BlankQueryIsSearched | packages/manager/src/features/Search/withStoreSearch.tsx:71-75 | a blank query is not trimmed: it goes to `refinedSearch` and gets an empty product list |
| StoreSearch.SearchableEntities | packages/manager/src/features/Search/withStoreSearch.tsx:109-138 | the searched list is linodes, images, buckets, domains, volumes, clusters and nodebalancers in that order: its first five segments are `BeforeClusters`, then each cluster and each nodebalancer normalised at its own offset |
| StoreSearch.BeforeClusters | packages/manager/src/features/Search/withStoreSearch.tsx:109-135 | the first five segments of the searched list: linodes, images, buckets, domains and volumes, each normalised element by element at its own offset |
| StoreSearch.RegionsOnlyReachClusters | packages/manager/src/features/Search/withStoreSearch.tsx:122-124 | changing the regions changes no item outside the cluster segment, and nothing at all when there are no clusters |
| StoreSearch.SearchHandler | packages/manager/src/features/Search/withStoreSearch.tsx:141-147 | the handler returns `search`'s three fields unchanged |
| StoreSearch.EmptyQueryIgnoresSources | packages/manager/src/features/Search/withStoreSearch.tsx:129-147 | on the empty query the handler returns no results and no products, whatever resources it was given |
| Rules.Moved | packages/manager/src/features/LoadBalancers/LoadBalancerCreate/LoadBalancerSummary/EditLoadBalancerConfigurations/RulesTable.tsx:34-36 | the copy after the two splices: same length as the rules, with the source rule at the destination |
| Rules.MovedIsPermutation | packages/manager/src/features/LoadBalancers/LoadBalancerCreate/LoadBalancerSummary/EditLoadBalancerConfigurations/RulesTable.tsx:34-36 | the reordered list has the same length as the rules and is a permutation of them |
| Rules.MovedAt | packages/manager/src/features/LoadBalancers/LoadBalancerCreate/LoadBalancerSummary/EditLoadBalancerConfigurations/RulesTable.tsx:35-36 | the moved rule lands at the destination; rules outside the range between the two indices stay; those inside shift by one toward the source |
| Rules.MovedInPlace | packages/manager/src/features/LoadBalancers/LoadBalancerCreate/LoadBalancerSummary/EditLoadBalancerConfigurations/RulesTable.tsx:35-36 | moving a rule onto its own index changes nothing |
| Rules.MovedBack | packages/manager/src/features/LoadBalancers/LoadBalancerCreate/LoadBalancerSummary/EditLoadBalancerConfigurations/RulesTable.tsx:35-36 | moving back from the destination to the source undoes a move |
| Rules.SpliceRemove | packages/manager/src/features/LoadBalancers/LoadBalancerCreate/LoadBalancerSummary/EditLoadBalancerConfigurations/RulesTable.tsx:35 | `splice(i, 1)` returns the element at `i` and leaves the others in order |
| Rules.SpliceInsert | packages/manager/src/features/LoadBalancers/LoadBalancerCreate/LoadBalancerSummary/EditLoadBalancerConfigurations/RulesTable.tsx:36 | `splice(i, 0, x)` puts `x` at `i`, with the elements before it and after it unchanged and in order |
| Rules.Reorder | packages/manager/src/features/LoadBalancers/LoadBalancerCreate/LoadBalancerSummary/EditLoadBalancerConfigurations/RulesTable.tsx:34-36 | the copy, after the two splices, is the rules with the source rule moved to the destination; the rules are not modified |
| Rules.MoveUpSwaps | packages/manager/src/features/LoadBalancers/LoadBalancerCreate/LoadBalancerSummary/EditLoadBalancerConfigurations/RulesTable.tsx:39-41 | a move up by one swaps the rule with the one above |
| Rules.MoveDownSwaps | packages/manager/src/features/LoadBalancers/LoadBalancerCreate/LoadBalancerSummary/EditLoadBalancerConfigurations/RulesTable.tsx:43-45 | a move down by one swaps the rule with the one below |
| Rules.RulesTable.constructor | packages/manager/src/features/LoadBalancers/LoadBalancerCreate/LoadBalancerSummary/EditLoadBalancerConfigurations/RulesTable.tsx:25-27 | the table works on the route's rules and has computed no reorder yet |
| Rules.RulesTable.HandleRulesReorder | packages/manager/src/features/LoadBalancers/LoadBalancerCreate/LoadBalancerSummary/EditLoadBalancerConfigurations/RulesTable.tsx:30-37 | the route's rules are unchanged; the only thing computed is the moved copy, which is dropped |
| Rules.RulesTable.HandleMoveUp | packages/manager/src/features/LoadBalancers/LoadBalancerCreate/LoadBalancerSummary/EditLoadBalancerConfigurations/RulesTable.tsx:39-41 | a reorder from `i` to `i - 1`, leaving the rules unchanged |
| Rules.RulesTable.HandleMoveDown | packages/manager/src/features/LoadBalancers/LoadBalancerCreate/LoadBalancerSummary/EditLoadBalancerConfigurations/RulesTable.tsx:43-45 | a reorder from `i` to `i + 1`, leaving the rules unchanged |
| Rules.RulesTable.OnDragEnd | packages/manager/src/features/LoadBalancers/LoadBalancerCreate/LoadBalancerSummary/EditLoadBalancerConfigurations/RulesTable.tsx:47-58 | a drop outside the list or back onto its source computes nothing; any other drop is one reorder from source to destination; the rules never change |

The datatypes of packages/manager/src/features/Search/search.interfaces.ts (lines 1-41) are in `SearchInterfaces`:

- the seven entity types and the four search fields are closed enumerations;
- a by-entity result always has its seven lists;
- `products` is the only optional field of a result;
- a product's entity type and value are free strings, while an item has an entity-type enumeration and a number-or-string value.

## Left out

- Locale-sensitive lower-casing (`toLocaleLowerCase`): product matching folds ASCII letters only.
- JavaScript numbers are modelled as unbounded integers, and the untyped `data` of items and products as a JSON value.
- The matcher `refinedSearch`, `separateResultsByEntity`, `emptyResults`, the `*ToSearchableItem` normalisers and `arrayToList` live in other files of the console. Here they are parameters, and nothing is assumed about them.
- Rules.RulesTable.HandleRulesReorder: indices are required to lie within the rule list. The negative destination that move-up at index 0 produces would be counted from the end by `splice`; out-of-range and negative indices are not modelled. The same bound applies to `HandleMoveUp`, `HandleMoveDown`, `OnDragEnd` and `Reorder`.
- Rules.RulesTable.HandleRulesReorder: the handler is `async` in the source; the model runs it to completion synchronously, since it awaits nothing.
- SelectPlanUtils.GetPlanSelectionsByPlanType: every plan class is required to be one of the eight known classes. That is the type bound of the source; with another class the push would fail on a missing array at run time, which is not modelled. `DetermineInitialPlanCategoryTab` inherits the requirement.
- `IsSelected` compares optional `selectedID` and `currentPlanHeading` with plans that always have an id and a heading. A plan with no heading matched by an absent `currentPlanHeading` is not modelled.
- A plan type carries only its id, heading and class, and a region only its id, label and capabilities; the other fields play no part in this logic.
- The field `label` is named `labelText`, since `label` is a Dafny keyword.
- Only the empty string takes the fast path of `search` (withStoreSearch.tsx:71); a blank query is searched like any other (see `BlankQueryIsSearched`).
- React rendering, hooks and component state, the recompose state-handler wrapper, drag-and-drop wiring, media queries and the `planTabInfoContent` display strings are not part of this model.
- The currency formatter, the region multi-select, the transfer-success dialog, the volume-resize form and the rendering-only components are not part of this model. They hold number formatting, effects, clipboard and timer calls, form wiring or markup, and no list logic.
