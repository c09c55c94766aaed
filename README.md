# Vehicle-stats fleet statistics, modelled in Dafny

This project models the vehicle-stats domain of the reporter micro-service and its management front end.

On the back end it models three things:

- the dedup ledger `processed_vehicles`, which records the aids of vehicles already counted;
- the singleton fleet aggregate `real_time_fleet_stats`. Batch summaries are merged into it with `$inc`, `$min`, `$max` and `$set`. It is read back through a projection that derives `avg` and renames each decade key `d` to `decade<d>`;
- the `VehicleStats` entity documents, with their listing query, updates, replace and deletes, and the event-sourcing handler that rebuilds them from `VehicleStatsModified` events.

On the front end it models:

- the listing arguments and the action creators;
- the list-table logic: the selection toggle, select-all, the sort-direction rule and the slug of the detail-page path.

Modules follow the source files:

- `Wrappers` (Option and Result), `Sequences` (duplicate-free id sequences), `JsText` (the JavaScript white-space class, `trim`, ASCII `toLowerCase`, and the truthiness of optional strings and numbers), `GraphQLInputs` (the listing's `SortInput`, which the front end builds and the back end receives) and `Documents` (JSON-like documents and the effect of `$set` and upsert) are shared.
- `FleetStatistics` and `FleetProjection` hold the aggregate's algebra.
- `VehicleStatsDA` is the data-access object. It is a class `VehicleStatsStore` whose fields are the three collections, with a method per operation.
- `VehicleStatsES` is the event handler.
- `VehicleStatssActions` and `VehicleStatssTable` are the front end.

The class invariant `Valid()` has two parts:

- once the unique index exists, no two ledger entries share an aid;
- the stored aggregate never holds an `avg`.

Beyond one call, these are proved:

- Merging batches into the aggregate is order-independent, `lastUpdated` aside.
- Merging a sequence of batches equals one merge of their combined summary.
- The stored `min` never grows and the stored `max` never shrinks.
- Conservation: if every batch has each category's counts and `hpStats.count` summing to `totalVehicles`, the aggregate keeps that relation after any sequence of merges.
- The decade renaming loses no key and is undone by stripping the prefix.
- The read view derives `avg` with `avg * count == sum`.
- Replaying an event is idempotent.
- Checking an unselected row twice restores the selection.
- The slug contains no separator and no upper-case ASCII letter, and slugging it again changes nothing.

Clocks are parameters: `now` is the ISO timestamp or the `Date.now()` value the source reads.

Some behaviour of the code is worth stating outright:

- `insertProcessedAids$` is a plain `insertMany`. Once the unique index exists, it rejects a duplicate aid rather than skipping it, and the driver refuses an empty list of aids.
- The view of `updateFleetStatistics$` carries no `avg` when `count` is 0.
- A read of a stored aggregate keeps a truthy stored `avg` rather than recomputing it.
- The decade display key is `decade` followed by the raw label (`decade1980`).
- The read view with nothing stored has `min`, `max` and `avg` equal to 0.

## Model

| member | source | states |
|---|---|---|
| Documents.WithId | backend/reporter/bin/domain/vehicle-stats/data-access/VehicleStatsDA.js:35-37 | the result has the document's fields plus `_id` and `id`, both set to the key |
| Documents.SetWithMetadata | backend/reporter/bin/domain/vehicle-stats/data-access/VehicleStatsDA.js:113-125 | `$set` of the properties and of `metadata.updatedBy`/`metadata.updatedAt`. It fails exactly when the properties name `metadata` or the stored `metadata` is not an object. Otherwise it overwrites the named fields, keeps every other field and every other metadata subfield |
| Documents.UpsertSet | backend/reporter/bin/domain/vehicle-stats/data-access/VehicleStatsDA.js:138-148 | upsert `$set` creates the missing document from the properties alone, overwrites the named fields of an existing one, keeps its other fields and leaves other documents alone |
| Documents.UpsertSetIdempotent | backend/reporter/bin/domain/vehicle-stats/data-access/VehicleStatsDA.js:138-148 | the recovery upsert applied twice equals applying it once |
| JsText.IsJsSpace | frontend/reporter-ui/reporter-vehicle-stats-management/store/actions/VehicleStatss.actions.js:25 | a character is ECMAScript WhiteSpace or LineTerminator: the set `trim()` strips here and `\s` matches in the row path's pattern |
| JsText.AllSpace | frontend/reporter-ui/reporter-vehicle-stats-management/store/actions/VehicleStatss.actions.js:25 | every character of the string is white space in that sense, vacuously for the empty name |
| JsText.TruthyString | backend/reporter/bin/domain/vehicle-stats/data-access/VehicleStatsDA.js:44-47 | the truthiness `if (filter.name)` and `if (filter.organizationId)` test: defined and not the empty string |
| JsText.TruthyNumber | backend/reporter/bin/domain/vehicle-stats/data-access/VehicleStatsDA.js:324 | the JavaScript truthiness of the stored `avg` that `!stats.hpStats.avg` tests: defined and not 0 |
| JsText.TrimStart | frontend/reporter-ui/reporter-vehicle-stats-management/store/actions/VehicleStatss.actions.js:25 | the result is a suffix that starts with a non-space, and everything dropped is white space |
| JsText.TrimEnd | frontend/reporter-ui/reporter-vehicle-stats-management/store/actions/VehicleStatss.actions.js:25 | the result is a prefix that ends with a non-space, and everything dropped is white space |
| JsText.Trim | frontend/reporter-ui/reporter-vehicle-stats-management/store/actions/VehicleStatss.actions.js:25 | `String.prototype.trim`: both ends stripped. `TrimNonEmptyIff` states when it is empty |
| JsText.TrimNonEmptyIff | frontend/reporter-ui/reporter-vehicle-stats-management/store/actions/VehicleStatss.actions.js:25 | `name.trim().length > 0` holds exactly when the name has a character that is not white space |
| JsText.LowerChar | frontend/reporter-ui/reporter-vehicle-stats-management/vehicle-statss/VehicleStatssTable.js:58 | A-Z map to a-z (code point + 32); every other character is unchanged |
| JsText.ToLowerAscii | frontend/reporter-ui/reporter-vehicle-stats-management/vehicle-statss/VehicleStatssTable.js:58 | same length, lower-cased character by character |
| FleetStatistics.MinBound | backend/reporter/bin/domain/vehicle-stats/data-access/VehicleStatsDA.js:263-265 | the result is one of the two bounds and no greater than either (`$min`) |
| FleetStatistics.MaxBound | backend/reporter/bin/domain/vehicle-stats/data-access/VehicleStatsDA.js:266-268 | the result is one of the two bounds and no less than either (`$max`) |
| FleetStatistics.UpdateOf | backend/reporter/bin/domain/vehicle-stats/data-access/VehicleStatsDA.js:234-268 | definition of the update document: the batch's increments and `lastUpdated`, with `$min` omitted for a +Infinity minimum and `$max` omitted for a -Infinity maximum. `BuildUpdate` computes it and `MergeIncrements`/`MergeBounds` state its effect |
| FleetStatistics.ApplyMin | backend/reporter/bin/domain/vehicle-stats/data-access/VehicleStatsDA.js:263-265 | `$min`: no operand leaves the field alone and an absent field takes the operand. Otherwise the result is the smaller of the two |
| FleetStatistics.ApplyMax | backend/reporter/bin/domain/vehicle-stats/data-access/VehicleStatsDA.js:266-268 | `$max`: no operand leaves the field alone and an absent field takes the operand. Otherwise the result is the larger of the two |
| FleetStatistics.ApplyHp | backend/reporter/bin/domain/vehicle-stats/data-access/VehicleStatsDA.js:259-268 | definition of the upsert's effect on `hpStats`: two `$inc`, then the optional `$min` and `$max`. `ApplyHpTwice` relates two of them to one |
| FleetStatistics.Apply | backend/reporter/bin/domain/vehicle-stats/data-access/VehicleStatsDA.js:270-277 | definition of the upsert on the singleton document, starting from an absent document when none is stored. Its effect is stated by `MergeIncrements`, `MergeBounds` and `MergeIntoNothing` |
| FleetStatistics.Merge | backend/reporter/bin/domain/vehicle-stats/data-access/VehicleStatsDA.js:232-277 | definition of folding one batch into the aggregate: `Apply` of `UpdateOf`. The merge lemmas above are about it |
| FleetStatistics.MergeAll | backend/reporter/bin/domain/vehicle-stats/data-access/VehicleStatsDA.js:232-277 | a sequence of merges in order. Its own contract says only that an aggregate exists once a batch was merged; what the sequence computes is stated by `MergeAllIsCombinedMerge`, `MergeOrderIndependent` and `MergeAllConservesTotals` |
| FleetStatistics.Combine | backend/reporter/bin/domain/vehicle-stats/data-access/VehicleStatsDA.js:232-268 | definition of the summary of two batches together: counts add and bounds take the extremes. `MergeTwice` shows that one merge of it equals two merges |
| FleetStatistics.CombineAll | backend/reporter/bin/domain/vehicle-stats/data-access/VehicleStatsDA.js:232-268 | definition of the summary of a sequence of batches. `CombineAllAppend` and `MergeAllIsCombinedMerge` are about it |
| FleetStatistics.IncAll | backend/reporter/bin/domain/vehicle-stats/data-access/VehicleStatsDA.js:244-256 | `$inc` over a key map: the key set is the union, and every counter reads old + delta, a missing one counting as 0 |
| FleetStatistics.CopyIncrements | backend/reporter/bin/domain/vehicle-stats/data-access/VehicleStatsDA.js:244-256 | the loop that copies one `$inc` entry per category key yields exactly the batch's map |
| FleetStatistics.BuildUpdate | backend/reporter/bin/domain/vehicle-stats/data-access/VehicleStatsDA.js:234-268 | the update object built step by step is `UpdateOf(b, now)`. `$min` is present only when the batch minimum is not +Infinity, `$max` only when the maximum is not -Infinity |
| FleetStatistics.MergeIncrements | backend/reporter/bin/domain/vehicle-stats/data-access/VehicleStatsDA.js:232-277 | a merge adds the batch to `totalVehicles`, to every category counter, and to `hpStats.sum`/`count`. Keys absent from the batch keep their counts, `avg` is untouched and `lastUpdated` becomes `now` |
| FleetStatistics.MergeBounds | backend/reporter/bin/domain/vehicle-stats/data-access/VehicleStatsDA.js:263-277 | a sentinel bound leaves the stored bound as it was; a proper bound is set on an absent field and, on a stored one, gives exactly `MinBound`/`MaxBound` of the stored bound and the batch bound; a stored `min` never grows and a stored `max` never shrinks |
| FleetStatistics.MergeIntoNothing | backend/reporter/bin/domain/vehicle-stats/data-access/VehicleStatsDA.js:270-277 | an upsert with no stored aggregate stores the batch itself, with sentinel bounds left absent |
| FleetStatistics.MergeEmptyBatch | backend/reporter/bin/domain/vehicle-stats/data-access/VehicleStatsDA.js:232-277 | merging the summary of an empty batch changes only `lastUpdated` |
| FleetStatistics.IncAllCommutes | backend/reporter/bin/domain/vehicle-stats/data-access/VehicleStatsDA.js:244-256 | two `$inc` updates commute |
| FleetStatistics.ApplyMinCommutes | backend/reporter/bin/domain/vehicle-stats/data-access/VehicleStatsDA.js:263-265 | two `$min` updates commute |
| FleetStatistics.ApplyMaxCommutes | backend/reporter/bin/domain/vehicle-stats/data-access/VehicleStatsDA.js:266-268 | two `$max` updates commute |
| FleetStatistics.MergeCommutes | backend/reporter/bin/domain/vehicle-stats/data-access/VehicleStatsDA.js:232-277 | two merges in either order give the same aggregate, `lastUpdated` aside |
| FleetStatistics.MergeLeavesAvgUnset | backend/reporter/bin/domain/vehicle-stats/data-access/VehicleStatsDA.js:232-277 | the update never writes `avg`, so an unset `avg` stays unset |
| FleetStatistics.CombineAssociates | backend/reporter/bin/domain/vehicle-stats/data-access/VehicleStatsDA.js:232-268 | combining batch summaries is associative |
| FleetStatistics.CombineSymmetric | backend/reporter/bin/domain/vehicle-stats/data-access/VehicleStatsDA.js:232-268 | combining batch summaries is commutative |
| FleetStatistics.CombineIdentity | backend/reporter/bin/domain/vehicle-stats/data-access/VehicleStatsDA.js:263-268 | the empty batch, with bounds at +/-Infinity, is the unit of combining |
| FleetStatistics.MergeTwice | backend/reporter/bin/domain/vehicle-stats/data-access/VehicleStatsDA.js:232-277 | two successive merges equal one merge of the combined summary, `lastUpdated` aside |
| FleetStatistics.MergeIgnoresTimestamp | backend/reporter/bin/domain/vehicle-stats/data-access/VehicleStatsDA.js:232-277 | the merge result depends on no stored timestamp |
| FleetStatistics.MergeAllIsCombinedMerge | backend/reporter/bin/domain/vehicle-stats/data-access/VehicleStatsDA.js:232-277 | merging a sequence of batches equals one merge of their combined summary |
| FleetStatistics.CombineAllAppend | backend/reporter/bin/domain/vehicle-stats/data-access/VehicleStatsDA.js:232-268 | the combined summary of a concatenation is the combination of the two halves' summaries |
| FleetStatistics.MergeOrderIndependent | backend/reporter/bin/domain/vehicle-stats/data-access/VehicleStatsDA.js:232-277 | merging batches `xs` then `ys` equals merging `ys` then `xs`, `lastUpdated` aside |
| FleetStatistics.MergeAllBoundsMonotone | backend/reporter/bin/domain/vehicle-stats/data-access/VehicleStatsDA.js:263-277 | over any sequence of merges the stored `min` never grows and the stored `max` never shrinks |
| FleetStatistics.SumCountsIncAll | backend/reporter/bin/domain/vehicle-stats/data-access/VehicleStatsDA.js:244-256 | the `$inc` of a category map adds the batch's counter sum to the stored counter sum, for every pair of maps |
| FleetStatistics.MergeConservesTotals | backend/reporter/bin/domain/vehicle-stats/data-access/VehicleStatsDA.js:232-277 | when the stored aggregate and the batch both have each category summing to `totalVehicles` and `hpStats.count == totalVehicles`, so does the merged aggregate; a missing aggregate counts as consistent |
| FleetStatistics.MergeAllConservesTotals | backend/reporter/bin/domain/vehicle-stats/data-access/VehicleStatsDA.js:232-277 | the same relation survives any sequence of merges whose batches each keep it |
| FleetProjection.PrefixDecades | backend/reporter/bin/domain/vehicle-stats/data-access/VehicleStatsDA.js:287-294 | definition of the decade renaming. `PrefixDecadesSpec`, `PrefixDecadesSize` and `DecadeRoundTrip` state its properties |
| FleetProjection.ProjectUpdated | backend/reporter/bin/domain/vehicle-stats/data-access/VehicleStatsDA.js:279-298 | definition of the view the merge answers. `UpdatedViewOf` states its properties |
| FleetProjection.DefaultView | backend/reporter/bin/domain/vehicle-stats/data-access/VehicleStatsDA.js:311-321 | the zero view answered when nothing is stored. `ReadWithoutAggregate` states it |
| FleetProjection.ProjectRead | backend/reporter/bin/domain/vehicle-stats/data-access/VehicleStatsDA.js:310-339 | definition of the read view. `ReadWithoutAggregate` and `ReadOfStored` state its properties |
| FleetProjection.DecadeKey | backend/reporter/bin/domain/vehicle-stats/data-access/VehicleStatsDA.js:290 | the display key is `decade` followed by the raw label |
| FleetProjection.DecadeKeyInjective | backend/reporter/bin/domain/vehicle-stats/data-access/VehicleStatsDA.js:287-294 | two labels never collide on one display key |
| FleetProjection.PrefixDecadesSpec | backend/reporter/bin/domain/vehicle-stats/data-access/VehicleStatsDA.js:287-294 | every count sits under its display key, and every display key comes from a stored label |
| FleetProjection.PrefixDecadesSize | backend/reporter/bin/domain/vehicle-stats/data-access/VehicleStatsDA.js:287-294 | the renamed map has as many keys as the stored one |
| FleetProjection.DecadeRoundTrip | backend/reporter/bin/domain/vehicle-stats/data-access/VehicleStatsDA.js:287-294 | stripping the prefix from the renamed map gives back the stored decade counts |
| FleetProjection.Mean | backend/reporter/bin/domain/vehicle-stats/data-access/VehicleStatsDA.js:283 | `avg * count == sum` |
| FleetProjection.ReadWithoutAggregate | backend/reporter/bin/domain/vehicle-stats/data-access/VehicleStatsDA.js:311-321 | with nothing stored the read gives zero counts, empty maps, and `min`, `max`, `sum`, `count` and `avg` all 0 |
| FleetProjection.ReadOfStored | backend/reporter/bin/domain/vehicle-stats/data-access/VehicleStatsDA.js:305-341 | the read keeps every counter and bound, renames decade keys without losing any, and derives `avg` exactly when `count > 0` and no truthy `avg` is stored |
| FleetProjection.UpdatedViewOf | backend/reporter/bin/domain/vehicle-stats/data-access/VehicleStatsDA.js:279-298 | the merge's answer keeps every counter and bound, renames decade keys, and carries `avg` with `avg * count == sum` exactly when `count > 0` |
| FleetProjection.UpdatedViewIsReadView | backend/reporter/bin/domain/vehicle-stats/data-access/VehicleStatsDA.js:279-341 | the view a merge answers equals what a read right after it answers |
| FleetProjection.RemapDecades | backend/reporter/bin/domain/vehicle-stats/data-access/VehicleStatsDA.js:287-294 | the `forEach` loop builds exactly the renamed map |
| FleetProjection.ProjectAfterUpdate | backend/reporter/bin/domain/vehicle-stats/data-access/VehicleStatsDA.js:279-298 | the in-place tail of the merge computes the merge view |
| FleetProjection.ProjectOnRead | backend/reporter/bin/domain/vehicle-stats/data-access/VehicleStatsDA.js:310-339 | the in-place body of the read computes the read view |
| VehicleStatsDA.ProcessedAmong | backend/reporter/bin/domain/vehicle-stats/data-access/VehicleStatsDA.js:201-210 | an aid is in the answer exactly when it was asked for and is in the ledger |
| VehicleStatsDA.ProcessedAmongDistinct | backend/reporter/bin/domain/vehicle-stats/data-access/VehicleStatsDA.js:201-210 | under the unique index the answer has no duplicates and is no longer than the request |
| VehicleStatsDA.EntriesOf | backend/reporter/bin/domain/vehicle-stats/data-access/VehicleStatsDA.js:219 | one ledger document per aid, in order, each stamped with `now` |
| VehicleStatsDA.BuildEntries | backend/reporter/bin/domain/vehicle-stats/data-access/VehicleStatsDA.js:219 | the `map` over the aids builds exactly those documents |
| VehicleStatsDA.AdmittedInsert | backend/reporter/bin/domain/vehicle-stats/data-access/VehicleStatsDA.js:217-225 | an insert the unique index admits keeps aids distinct; afterwards the ledger holds exactly the old aids plus the new ones |
| VehicleStatsDA.ProcessedAfterInsert | backend/reporter/bin/domain/vehicle-stats/data-access/VehicleStatsDA.js:201-225 | after inserting a batch, asking for that batch returns every one of its aids |
| VehicleStatsDA.Admits | backend/reporter/bin/domain/vehicle-stats/data-access/VehicleStatsDA.js:217-225 | whether `insertMany` goes through: always without the unique index, and with it only when no aid repeats or is already recorded |
| VehicleStatsDA.OwnedBy | backend/reporter/bin/domain/vehicle-stats/data-access/VehicleStatsDA.js:30-32 | the `organizationId` part of the query `{ _id, organizationId }` |
| VehicleStatsDA.Matches | backend/reporter/bin/domain/vehicle-stats/data-access/VehicleStatsDA.js:43-52 | what the listing query selects: the name pattern, an equal organization and an equal `active` flag, each only when present |
| VehicleStatsDA.GenerateListingQuery | backend/reporter/bin/domain/vehicle-stats/data-access/VehicleStatsDA.js:42-54 | the query carries the name pattern exactly when the name is truthy, and the organization exactly when it is truthy; `active` is carried whenever it is defined |
| VehicleStatsDA.EmptyFilterMatchesAll | backend/reporter/bin/domain/vehicle-stats/data-access/VehicleStatsDA.js:42-54 | a filter without a truthy name or organization and without `active` selects every document |
| VehicleStatsDA.SortOf | backend/reporter/bin/domain/vehicle-stats/data-access/VehicleStatsDA.js:68-73 | the requested field with 1 exactly when `asc`, else `metadata.createdAt` descending |
| VehicleStatsDA.ListingRow | backend/reporter/bin/domain/vehicle-stats/data-access/VehicleStatsDA.js:61-78 | a listing row is `name` and `active` (when present) plus `_id` and `id` |
| VehicleStatsDA.Window | backend/reporter/bin/domain/vehicle-stats/data-access/VehicleStatsDA.js:63-66 | `skip` then `limit` on the ordered rows: a negative skip is refused, a limit of 0 keeps everything, a negative limit counts as its absolute value. It stands alone: no other contract names it, since the listing's page order is left out |
| VehicleStatsDA.VehicleStatsStore.GetProcessedAids | backend/reporter/bin/domain/vehicle-stats/data-access/VehicleStatsDA.js:201-210 | the loop over the ledger answers exactly the processed aids among those asked and changes nothing. The answer is in ledger order, which is a choice of the model |
| VehicleStatsDA.VehicleStatsStore.InsertProcessedAids | backend/reporter/bin/domain/vehicle-stats/data-access/VehicleStatsDA.js:217-225 | appends one entry per aid and answers the count. It fails, changing nothing, exactly when the batch is empty (the driver refuses an `insertMany` of no documents) or the unique index exists and an aid repeats or is already recorded; the error says which |
| VehicleStatsDA.VehicleStatsStore.CreateFleetStatisticsIndexes | backend/reporter/bin/domain/vehicle-stats/data-access/VehicleStatsDA.js:347-360 | it answers 2 and the unique index exists afterwards; the build is refused while the ledger holds a duplicate aid. Repeating it is harmless |
| VehicleStatsDA.VehicleStatsStore.UpdateFleetStatistics | backend/reporter/bin/domain/vehicle-stats/data-access/VehicleStatsDA.js:232-298 | the stored aggregate becomes the merge of the batch into the old one, and the answer is its projected view |
| VehicleStatsDA.VehicleStatsStore.GetFleetStatistics | backend/reporter/bin/domain/vehicle-stats/data-access/VehicleStatsDA.js:305-341 | answers the read view of what is stored |
| VehicleStatsDA.VehicleStatsStore.GetVehicleStats | backend/reporter/bin/domain/vehicle-stats/data-access/VehicleStatsDA.js:27-40 | the document with this id and organization, with `id`, or `{}` |
| VehicleStatsDA.VehicleStatsStore.GetVehicleStatsList | backend/reporter/bin/domain/vehicle-stats/data-access/VehicleStatsDA.js:56-80 | the cursor's query, projection, skip `count * page`, limit `count` (defaults 0 and 10) and sort, plus the projected rows of exactly the matching documents. The query carries the filter's own name and organization |
| VehicleStatsDA.VehicleStatsStore.UpdateVehicleStats | backend/reporter/bin/domain/vehicle-stats/data-access/VehicleStatsDA.js:111-129 | an existing document gets the `$set` with metadata and is answered with `id`. An unknown id answers undefined and changes nothing. A refused update answers its error and changes nothing |
| VehicleStatsDA.VehicleStatsStore.UpdateVehicleStatsFromRecovery | backend/reporter/bin/domain/vehicle-stats/data-access/VehicleStatsDA.js:136-152 | the collection becomes the upsert `$set`, and the answer is always undefined |
| VehicleStatsDA.VehicleStatsStore.ReplaceVehicleStats | backend/reporter/bin/domain/vehicle-stats/data-access/VehicleStatsDA.js:159-169 | an existing document is replaced by the properties and a missing one is not created; the answer is `{ id, ...properties }` |
| VehicleStatsDA.VehicleStatsStore.DeleteVehicleStats | backend/reporter/bin/domain/vehicle-stats/data-access/VehicleStatsDA.js:175-180 | removes the document; the deleted count is 1 exactly when it existed |
| VehicleStatsDA.VehicleStatsStore.DeleteVehicleStatss | backend/reporter/bin/domain/vehicle-stats/data-access/VehicleStatsDA.js:186-193 | removes every listed document; the answer is true exactly when at least one existed |
| VehicleStatsES.AggregateData | backend/reporter/bin/domain/vehicle-stats/VehicleStatsES.js:41-46 | version 0 throws, versions other than 0 and 1 have no mapper, and version 1 keeps the data with `modType` undefined |
| VehicleStatsES.IsDelete | backend/reporter/bin/domain/vehicle-stats/VehicleStatsES.js:48 | the event is a deletion exactly when `data.modType` is the string `DELETE` |
| VehicleStatsES.Replay | backend/reporter/bin/domain/vehicle-stats/VehicleStatsES.js:41-51 | definition of the replay: the mapper first, then the delete or the upsert. `ReplayVersionOne`, `ReplayOtherVersionsFail` and `ReplayIdempotent` state its properties |
| VehicleStatsES.ReplayVersionOne | backend/reporter/bin/domain/vehicle-stats/VehicleStatsES.js:40-54 | a version-1 DELETE removes the document; any other version-1 event upserts its data with `modType` undefined and leaves other documents alone |
| VehicleStatsES.ReplayOtherVersionsFail | backend/reporter/bin/domain/vehicle-stats/VehicleStatsES.js:41-46 | any other version fails before the store is touched, a DELETE included |
| VehicleStatsES.ReplayIdempotent | backend/reporter/bin/domain/vehicle-stats/VehicleStatsES.js:47-51 | replaying the same event twice gives the same collection as replaying it once |
| VehicleStatsES.HandleVehicleStatsModified | backend/reporter/bin/domain/vehicle-stats/VehicleStatsES.js:40-54 | the handler leaves the collection as `Replay` says, or reports the mapper's error and changes nothing; the ledger and the aggregate are untouched |
| VehicleStatssActions.GetListingQueryArguments | frontend/reporter-ui/reporter-vehicle-stats-management/store/actions/VehicleStatss.actions.js:19-32 | the organization is always present. The untrimmed name is present exactly when it is not blank, and `active` whenever it is not null. Page and count are as given, with the total count asked for exactly on page 0, and a sort exactly when a column id is set (`asc` iff the direction is `asc`) |
| VehicleStatssActions.HasSortColumn | frontend/reporter-ui/reporter-vehicle-stats-management/store/actions/VehicleStatss.actions.js:23 | the truthiness of `order.id` that decides whether a `sortInput` is sent: a column id that is set and not empty |
| VehicleStatssActions.SetVehicleStatssPage | frontend/reporter-ui/reporter-vehicle-stats-management/store/actions/VehicleStatss.actions.js:71-76 | action of the page type carrying the page |
| VehicleStatssActions.SetVehicleStatssRowsPerPage | frontend/reporter-ui/reporter-vehicle-stats-management/store/actions/VehicleStatss.actions.js:82-87 | action of the rows-per-page type carrying the count |
| VehicleStatssActions.SetVehicleStatssOrder | frontend/reporter-ui/reporter-vehicle-stats-management/store/actions/VehicleStatss.actions.js:93-98 | action of the order type carrying the order |
| VehicleStatssActions.SetVehicleStatssFilterName | frontend/reporter-ui/reporter-vehicle-stats-management/store/actions/VehicleStatss.actions.js:104-109 | action of the name-filter type carrying the name |
| VehicleStatssActions.SetVehicleStatssFilterActive | frontend/reporter-ui/reporter-vehicle-stats-management/store/actions/VehicleStatss.actions.js:115-120 | action of the active-filter type carrying the flag |
| VehicleStatssActions.SetVehicleStatssFilterOrganizationId | frontend/reporter-ui/reporter-vehicle-stats-management/store/actions/VehicleStatss.actions.js:126-131 | action of the organization-filter type carrying the id |
| VehicleStatssActions.ActionTypesDistinct | frontend/reporter-ui/reporter-vehicle-stats-management/store/actions/VehicleStatss.actions.js:8-13 | the six action types are pairwise different |
| VehicleStatssTable.IndexOf | frontend/reporter-ui/reporter-vehicle-stats-management/vehicle-statss/VehicleStatssTable.js:62 | the first position of the id, or -1 exactly when it is absent |
| VehicleStatssTable.IsSelected | frontend/reporter-ui/reporter-vehicle-stats-management/vehicle-statss/VehicleStatssTable.js:111 | a row is selected exactly when its id is in the selection |
| VehicleStatssTable.HandleCheck | frontend/reporter-ui/reporter-vehicle-stats-management/vehicle-statss/VehicleStatssTable.js:61-82 | an unselected id is appended; a selected one is removed at its first position, the others keeping their order |
| VehicleStatssTable.CheckTwiceRestores | frontend/reporter-ui/reporter-vehicle-stats-management/vehicle-statss/VehicleStatssTable.js:61-82 | checking an unselected row twice restores the selection |
| VehicleStatssTable.CheckToggles | frontend/reporter-ui/reporter-vehicle-stats-management/vehicle-statss/VehicleStatssTable.js:61-82 | on a selection without repeats, a check flips the row's membership, keeps every other id, and adds no repeats |
| VehicleStatssTable.HandleSelectAllClick | frontend/reporter-ui/reporter-vehicle-stats-management/vehicle-statss/VehicleStatssTable.js:49-55 | checked selects every row id in row order; unchecked clears the selection |
| VehicleStatssTable.SelectAllMarksRows | frontend/reporter-ui/reporter-vehicle-stats-management/vehicle-statss/VehicleStatssTable.js:49-55 | after select-all every row shows as selected; after clearing, none does |
| VehicleStatssTable.HandleRequestSort | frontend/reporter-ui/reporter-vehicle-stats-management/vehicle-statss/VehicleStatssTable.js:33-42 | the clicked column is selected, ascending exactly when it was already the column and descending |
| VehicleStatssTable.SortClickAlternates | frontend/reporter-ui/reporter-vehicle-stats-management/vehicle-statss/VehicleStatssTable.js:33-42 | clicking the same column again reverses the direction |
| VehicleStatssTable.SortClickDrivesListing | frontend/reporter-ui/reporter-vehicle-stats-management/vehicle-statss/VehicleStatssTable.js:33-42 | the order a click sets yields listing arguments sorted on that column, `asc` exactly when the direction is `asc` |
| VehicleStatssTable.IsSlugSeparator | frontend/reporter-ui/reporter-vehicle-stats-management/vehicle-statss/VehicleStatssTable.js:58 | the character class of the slug pattern: JavaScript white space or one of the punctuation characters listed in `SlugPunctuation` (`_`, `Â`, `·`, the bar and `!@#$%^&*(),.?":{}<>`) |
| VehicleStatssTable.CollapseRuns | frontend/reporter-ui/reporter-vehicle-stats-management/vehicle-statss/VehicleStatssTable.js:58 | definition of the global replacement of each maximal run of separators by one `-`. The lemmas below state its properties |
| VehicleStatssTable.Slug | frontend/reporter-ui/reporter-vehicle-stats-management/vehicle-statss/VehicleStatssTable.js:58 | definition of the path segment: separator runs collapsed, then lower-cased. `SlugIsNormal` and `SlugOfPlainName` state its properties |
| VehicleStatssTable.RowPath | frontend/reporter-ui/reporter-vehicle-stats-management/vehicle-statss/VehicleStatssTable.js:57-59 | definition of the route `handleClick` pushes. `RowPathShape` states its shape |
| VehicleStatssTable.RowPathShape | frontend/reporter-ui/reporter-vehicle-stats-management/vehicle-statss/VehicleStatssTable.js:57-59 | the route is the fixed prefix, the row id, `/` and a segment with no separators and no upper-case ASCII letters |
| VehicleStatssTable.RunLength | frontend/reporter-ui/reporter-vehicle-stats-management/vehicle-statss/VehicleStatssTable.js:58 | the length of the leading run of separators: all separators, followed by a non-separator or the end |
| VehicleStatssTable.CollapseLeavesNoRun | frontend/reporter-ui/reporter-vehicle-stats-management/vehicle-statss/VehicleStatssTable.js:58 | the replacement leaves no separator and never lengthens the name |
| VehicleStatssTable.CollapsePlain | frontend/reporter-ui/reporter-vehicle-stats-management/vehicle-statss/VehicleStatssTable.js:58 | a name without separators is unchanged |
| VehicleStatssTable.CollapseRun | frontend/reporter-ui/reporter-vehicle-stats-management/vehicle-statss/VehicleStatssTable.js:58 | a run of separators becomes a single `-` |
| VehicleStatssTable.RunLengthConcat | frontend/reporter-ui/reporter-vehicle-stats-management/vehicle-statss/VehicleStatssTable.js:58 | the leading run of a concatenation |
| VehicleStatssTable.CollapseConcat | frontend/reporter-ui/reporter-vehicle-stats-management/vehicle-statss/VehicleStatssTable.js:58 | the replacement distributes over a concatenation whose split point does not cut a run |
| VehicleStatssTable.LowerKeepsSeparators | frontend/reporter-ui/reporter-vehicle-stats-management/vehicle-statss/VehicleStatssTable.js:58 | lower-casing moves no character into or out of the separator class |
| VehicleStatssTable.SlugIsNormal | frontend/reporter-ui/reporter-vehicle-stats-management/vehicle-statss/VehicleStatssTable.js:58 | a slug has no separators and no upper-case ASCII letters, and slugging it again changes nothing |
| VehicleStatssTable.SlugOfPlainName | frontend/reporter-ui/reporter-vehicle-stats-management/vehicle-statss/VehicleStatssTable.js:58 | an already lower-case, separator-free name is its own slug |

## Left out

- Observables, the driver and `start$`: each call is modelled by its effect on the collections and its answer. Connection handling, errors the driver raises for its own reasons, and logging are not modelled.
- The batch summarizer (`batchStats` producer) and the ingestion pipeline are not part of this model. A batch summary is an input, and no relation between the category counts and `totalVehicles` is assumed of it; `FleetStatistics.MergeConservesTotals` states that a merge keeps that relation whenever the stored aggregate and the batch both have it.
- Concurrency between workers: each store call is one atomic step. The race between `getProcessedAids$` and `insertProcessedAids$` is captured only in that the unique index refuses the second insert.
- JavaScript numbers: counters and horsepower are unbounded integers, `avg` is an exact rational, and +/-Infinity are explicit bounds. Floating-point rounding, `NaN` and non-numeric values are not modelled.
- VehicleStatsDA.VehicleStatsStore.InsertProcessedAids: with the unique index the whole batch is refused on a duplicate. The driver's ordered `insertMany` would keep the documents before the first duplicate.
- VehicleStatsDA.VehicleStatsStore.GetVehicleStatsList: the contract gives the cursor and the projected matching rows by id, not the page in sort order. BSON comparison order is not modelled; `VehicleStatsDA.Window` states what skip and limit do to rows once ordered.
- VehicleStatsDA.Matches: the case-insensitive `$regex` test on `name` is a parameter `nameMatches`. Regular-expression semantics are not modelled.
- Category keys and property names are flat names. A key containing `.`, starting with `$` or empty would address a nested path (or be refused) in `$inc`, in the `$set` of `Documents.SetWithMetadata` and `Documents.UpsertSet`, and in the replacement of `VehicleStatsDA.VehicleStatsStore.ReplaceVehicleStats`; that is not modelled. The callers send only GraphQL input field names (`backend/reporter/bin/domain/vehicle-stats/VehicleStatsCRUD.js:115`), which cannot contain such characters.
- The aggregate's maps are always present (as empty maps) in the model. An upsert that creates no key of a category leaves the stored document without that field, and the `if (stats.vehiclesByDecade)` guard then has nothing to rename; both give an empty map here.
- The listing filter's `active: null` is treated like an absent `active`: only a boolean is carried into the query.
- A `_id` inside the properties of an update, a replace or a recovery upsert is treated like any other field.
- `undefined` is kept as a value (`modType: undefined` in the recovery upsert, and the absent-result answers). Its BSON serialization, as `null` or as omission, is not modelled.
- FleetStatistics.MergeAll: applies one timestamp to every merge of the sequence; only `lastUpdated` depends on it, and the sequence lemmas ignore that field.
- JsText.ToLowerAscii: lower-cases ASCII letters only; `String.prototype.toLowerCase` on other scripts is not modelled.
- The constant key `_id: 'real_time_fleet_stats'` of the fleet aggregate is not a field of `FleetAggregate`: the default view, both projections and the GraphQL query carry it, but the model leaves this fixed key out of the view.
- VehicleStatsDA.VehicleStatsStore.GetProcessedAids: answers in ledger order. `find` without a sort promises no order, so this order is a choice of the model; the contract on membership does not depend on it.
- Organization ids are strings; the source does not fix their type.
- `createVehicleStats$` and `getVehicleStatsSize$` are not part of this model.
- The `getVehicleStatss` and `removeVehicleStatss` thunks are GraphQL network calls followed by a dispatch. Only the listing arguments they send are modelled.
- `VehicleStatsCRUD.js`, the React rendering, the GraphQL documents and the reducers are not part of this model.
