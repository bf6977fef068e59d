# thinkhazard_processing, modelled in Dafny

This project models the back-end pipeline of ThinkHazard. The pipeline has five stages:

- **Harvesting** reads hazard layers from a GeoNode catalogue into a `Layer` and `HazardSet` database.
- **Completing** marks a hazardset complete once its layers are present and downloaded. It copies their locality, dates and qualities onto the hazardset.
- **Processing** classifies every regional administrative division with the hazardset's three rasters (HIG, MED, LOW). It writes one `Output` row per division that gets a level.
- **The decision tree** publishes one hazard category per division and hazard type. It picks the preferred hazardset's output at regional level, then takes the most severe child category up to the provinces and then the countries.
- **The older processing script** (`scripts/process.py`) works on its own schema. It gives a division the level of the last raster that is hot inside it, or 4 if none is.

The database session is a class with one sequence per table.
- `Schema.Session` serves the current schema and `LegacyProcess.LegacyDb` the older one.
- A commit keeps the tables; an abort or rollback restores a snapshot.
- Each source function that changes the session is a method. Its `ensures` ties the new tables to a pure function on `Tables`, such as `ProcessStep`, `HarvestStep`, `CompleteStep`, `TreeRelation` or `ExecuteStep`.
- The lemmas state the properties of those functions.

Files, one module each:
- `types.dfy`: Option, Result, hazard levels, search and filter.
- `schema.dfy`: rows, settings, session.
- `classifier.dfy`: the per-division band loop.
- `processing.dfy`
- `decisiontree.dfy`
- `titles.dfy`: title sort.
- `harvesting.dfy`
- `completing.dfy`
- `legacy.dfy`

Raster reading, rasterisation, reprojection and PostGIS intersection are foreign libraries. They are parameters:
- `Processing.Scene` gives each band's bounds, the window each band yields over a division, and the intersection test.
- `LegacyProcess.RasterIo` gives a layer's pixels and a division's mask.
- The clock (`now`) is a parameter of the harvest.

## Model

| member | source | states |
|---|---|---|
| Classifier.ScanWindow | thinkhazard_processing/processing.py:154-177 | `valid` holds iff some pixel is both unmasked and inside the division, i.e. the masked maximum is not `masked`; `hot` holds iff such a pixel is strictly above the threshold |
| Classifier.Classify | thinkhazard_processing/processing.py:147-179 | the band loop fails only with an unknown-unit error, naming the unit of a band whose threshold lookup fails |
| Classifier.ClassifyDivision | thinkhazard_processing/processing.py:139-179 | the imperative band loop, with its `continue`s, `break`s and VLO assignment, returns exactly the level `Classify` defines, starting with no level |
| Classifier.NoIntersectionNoLevel | thinkhazard_processing/processing.py:151-152 | a division that does not intersect the coverage keeps the level it started with, whatever the rasters hold |
| Classifier.FirstHotBandWins | thinkhazard_processing/processing.py:147-179 | after bands that were passed, the first band with a hot in-division pixel sets its layer's level, and later bands are never consulted |
| Classifier.BlockedBandStops | thinkhazard_processing/processing.py:171-172 | a non-empty window with every pixel masked ends the loop; the level is what the earlier bands recorded, possibly none |
| Classifier.AllPassedGivesVeryLow | thinkhazard_processing/processing.py:173-175 | when every band is passed, the level is VLO if one band had valid pixels; a recorded level is never downgraded |
| Classifier.UnknownUnitRaises | thinkhazard_processing/processing.py:159 | a band with a window whose unit has no configured threshold raises, carrying that unit |
| Classifier.LevelComesFromBands | thinkhazard_processing/processing.py:147-179 | the level is the starting level, VLO, or the level of one of the bands |
| Processing.PolygonFromBounds | thinkhazard_processing/processing.py:200-206 | a closed ring of five points whose consecutive points share a coordinate |
| Processing.EnvelopeOfPolygonFromBounds | thinkhazard_processing/processing.py:200-206 | for ordered bounds, the envelope of the ring is exactly the bounds it was built from |
| Processing.Selected | thinkhazard_processing/processing.py:37-43 | exactly the complete hazardsets, restricted to the given id, and to unprocessed ones unless forced |
| Processing.BandLayers | thinkhazard_processing/processing.py:84-91 | succeeds iff each of HIG, MED and LOW has exactly one layer of the hazardset (`.one()`); the value is those layers in that order; otherwise the error names the first level whose count is not one, and that count |
| Processing.LoadBandLayers | thinkhazard_processing/processing.py:84-91 | the loop over HIG, MED, LOW returns what `BandLayers` defines |
| Processing.ProcessStep | thinkhazard_processing/processing.py:51-73 | a missing hazardset raises; a processed one without force raises; on success only the hazardset's `processed` flag becomes true, and layers, divisions, categories and published rows are unchanged |
| Processing.Candidates | thinkhazard_processing/processing.py:110-123 | the REG divisions the query yields, and for a local hazardset only those with a geometry meeting the coverage; `LocalPrefilterChangesNothing` shows the extra filter changes no output |
| Processing.DivisionOutputs | thinkhazard_processing/processing.py:125-183 | the rows the division loop adds, in division order: null geometries and divisions without a level add nothing, and the first raised error ends the loop; its properties are `DivisionOutputsSound`, `DivisionOutputsComplete` and `DivisionOutputsRaiseUnknownUnit` |
| Processing.EmitOutputs | thinkhazard_processing/processing.py:125-183 | the division loop appends exactly the rows `DivisionOutputs` defines, or fails with its error; no other table changes |
| Processing.ProcessHazardset | thinkhazard_processing/processing.py:51-194 | the session ends as `ProcessStep` says; on an error nothing is committed |
| Processing.ProcessAll | thinkhazard_processing/processing.py:47-48 | the batch over the selected hazardsets: each step's tables feed the next, and the first error ends it with the earlier steps kept; `Process` is proved to compute it |
| Processing.Process | thinkhazard_processing/processing.py:37-48 | runs `ProcessStep` over the selected hazardsets in order, committing each; the first error stops the batch |
| Processing.DivisionOutputsSound | thinkhazard_processing/processing.py:127-183 | every emitted row carries the hazardset's id and coverage 100, and belongs to a division with geometry whose band loop gave that level |
| Processing.DivisionOutputsComplete | thinkhazard_processing/processing.py:131-183 | every division with geometry is classified without error, and it has a row exactly when it got a level |
| Processing.LocalPrefilterChangesNothing | thinkhazard_processing/processing.py:115-123 | the extra intersection filter of local hazardsets yields the same rows as visiting every regional division, because the band loop skips non-intersecting divisions anyway |
| Processing.ProcessStepSucceeds | thinkhazard_processing/processing.py:58-91 | the step succeeds iff the hazardset exists, is unprocessed or forced, has settings and its three layers, and the division loop succeeds; the outputs are then the other hazardsets' rows followed by the new ones |
| Processing.ProcessStepOutputs | thinkhazard_processing/processing.py:69-73 | rows of other hazardsets are kept exactly; every new row is for a regional division with geometry, with the band loop's level and coverage 100 |
| Processing.ForcedRerunIsIdempotent | thinkhazard_processing/processing.py:62-73 | a forced rerun after a successful run gives the same tables |
| Processing.ProcessStepKeepsOthers | thinkhazard_processing/processing.py:191 | a step leaves every other hazardset's row where and as it was |
| Processing.BatchNeverFindsProcessed | thinkhazard_processing/processing.py:37-48 | with unique ids, the batch over the selected hazardsets never fails with the already-processed error |
| Processing.BatchStepsNeverFindProcessed | thinkhazard_processing/processing.py:42-48 | a batch over distinct, unprocessed (or forced) hazardsets never meets the already-processed error, since each step only touches its own row |
| Processing.SelectedUniqueIds | thinkhazard_processing/processing.py:37-43 | the selection keeps ids unique |
| Processing.DivisionOutputsRaiseUnknownUnit | thinkhazard_processing/processing.py:159 | the division loop can fail only on a unit with no threshold |
| DecisionTree.FirstValue | thinkhazard_processing/decisiontree.py:52-61 | `first_value` over a partition: a row of the partition whose rank is no later than any other row's |
| DecisionTree.Parts | thinkhazard_processing/decisiontree.py:52-55 | the partitions: each listed once, and every row's partition among them |
| DecisionTree.PartsAreInhabited | thinkhazard_processing/decisiontree.py:52-55 | no partition is empty, so each has a `first_value` |
| DecisionTree.WindowSelect | thinkhazard_processing/decisiontree.py:41-44 | `SELECT DISTINCT` over the window: no two published rows share a (division, hazard type) slot |
| DecisionTree.WindowSelectCovers | thinkhazard_processing/decisiontree.py:41-55 | every row's partition gets a published row |
| DecisionTree.WindowSelectPicksFirst | thinkhazard_processing/decisiontree.py:43-44 | each published row is a row of minimal rank in its partition |
| DecisionTree.RegRankIsPreference | thinkhazard_processing/decisiontree.py:56-60 | the rank order is the lexicographic order: calculation quality, then scientific quality, each descending; then local first; then latest data date |
| DecisionTree.JoinOutput | thinkhazard_processing/decisiontree.py:45-51 | every hazardset joining the output on its id and an existing category yields its row |
| DecisionTree.JoinOutputSound | thinkhazard_processing/decisiontree.py:45-51 | every row of the join comes from such a hazardset |
| DecisionTree.RegRows | thinkhazard_processing/decisiontree.py:45-51 | every (output, hazardset) pair joined on id and category is a row |
| DecisionTree.RegRowsSound | thinkhazard_processing/decisiontree.py:45-51 | every row comes from a joined pair |
| DecisionTree.RegLevel | thinkhazard_processing/decisiontree.py:34-64 | the REG query: the window selection over the join of outputs, hazardsets and categories; its properties are `RegWinnerIsPreferred`, `RegCoversEveryOutput` and `HigherCalcQualityWins` |
| DecisionTree.RegWinnerIsPreferred | thinkhazard_processing/decisiontree.py:41-61 | a published regional row is the category (hazard type, output level) and source of a joined hazardset preferred to every other one for the same division and hazard type |
| DecisionTree.RegCoversEveryOutput | thinkhazard_processing/decisiontree.py:41-55 | exactly one published row per (division, hazard type) pair present in the joined outputs |
| DecisionTree.HigherCalcQualityWins | thinkhazard_processing/decisiontree.py:56-57 | a strictly higher calculation-method quality wins, whatever the other keys |
| DecisionTree.ParentRows | thinkhazard_processing/decisiontree.py:84-88 | every parent of the target level type whose code is the child's parent code yields a row |
| DecisionTree.ParentRowsSound | thinkhazard_processing/decisiontree.py:84-88 | every such row comes from such a parent |
| DecisionTree.ChildRows | thinkhazard_processing/decisiontree.py:84-88 | every (child, parent) pair the published row lifts yields a row |
| DecisionTree.ChildRowsSound | thinkhazard_processing/decisiontree.py:84-88 | every such row comes from such a pair |
| DecisionTree.UpRows | thinkhazard_processing/decisiontree.py:78-88 | every published row, child and parent joined as in the query gives an upscaling row |
| DecisionTree.UpRowsSound | thinkhazard_processing/decisiontree.py:78-88 | every upscaling row comes from such a join |
| DecisionTree.Upscale | thinkhazard_processing/decisiontree.py:67-98 | the upscaling query for one level type: the window selection over the child-to-parent join; its properties are the three `Upscale` lemmas |
| DecisionTree.UpscaleComesFromChild | thinkhazard_processing/decisiontree.py:74-88 | every upscaled row is a parent of the target level type carrying a child's category and that same child's source, so a parent without a child row gets nothing |
| DecisionTree.UpscaleCoversParents | thinkhazard_processing/decisiontree.py:74-92 | each parent with a child row gets a row for that hazard type |
| DecisionTree.UpscaleAtLeastAsSevere | thinkhazard_processing/decisiontree.py:89-95 | the upscaled category's level order is no larger than that of any child row of the same hazard type |
| DecisionTree.ProLevel | thinkhazard_processing/decisiontree.py:15-16 | the PRO pass reads the REG rows |
| DecisionTree.CouLevel | thinkhazard_processing/decisiontree.py:14-18 | the COU pass reads the REG rows and the PRO rows just inserted |
| DecisionTree.TreeRelation | thinkhazard_processing/decisiontree.py:7-18 | the relation after the purge: REG rows, then PRO, then COU; `ApplyDecisionTree` is proved to publish it |
| DecisionTree.CountryAtLeastAsSevereAsRegions | thinkhazard_processing/decisiontree.py:14-18 | since the country pass reads the province rows, a country is at least as severe as each of its regions |
| DecisionTree.ApplyDecisionTree | thinkhazard_processing/decisiontree.py:7-25 | clear, REG, PRO, COU in one transaction: the published table becomes exactly the derived relation, or everything is rolled back on a dry run |
| Titles.Insert | thinkhazard_processing/harvesting.py:71 | insertion keeps the multiset and sortedness |
| Titles.SortBy | thinkhazard_processing/harvesting.py:71 | `sorted(..., key=title)`: a permutation, sorted by title |
| Titles.InsertKeepsOrderWithinKey | thinkhazard_processing/harvesting.py:71 | inserting into a sorted list puts the element first among those of its key |
| Titles.SortByIsStable | thinkhazard_processing/harvesting.py:71 | the sort is stable: objects with equal titles keep their catalogue order |
| Harvesting.HazardtypeFromGeonode | thinkhazard_processing/harvesting.py:257-261 | None iff no configured type carries the GeoNode name; otherwise the first entry that does |
| Harvesting.Trunc | thinkhazard_processing/harvesting.py:189 | `int(float(x))` truncates toward zero |
| Harvesting.ScanPeriods | thinkhazard_processing/harvesting.py:145-154 | the return-period scan over LOW, MED, HIG, a range match ending it and a single-period match carrying on; its properties are the `RangeMatchWins` to `ScanSound` lemmas |
| Harvesting.LevelForPeriod | thinkhazard_processing/harvesting.py:143-157 | the loop over LOW, MED, HIG returns what `ScanPeriods` defines |
| Harvesting.RangeMatchWins | thinkhazard_processing/harvesting.py:147-151 | the first range containing the period decides the level and ends the scan |
| Harvesting.LastScalarMatchWins | thinkhazard_processing/harvesting.py:152-154 | without a range match, the last equal scalar decides |
| Harvesting.NothingMatchesKeepsLevel | thinkhazard_processing/harvesting.py:145-154 | a period no rule matches leaves the level unset |
| Harvesting.LevelMatchesItsRule | thinkhazard_processing/harvesting.py:145-157 | no level iff no rule matches; a level found is that of a matching rule |
| Harvesting.ScanSound | thinkhazard_processing/harvesting.py:145-154 | the scan only ever yields the starting level or a level whose rule matches |
| Harvesting.Vet | thinkhazard_processing/harvesting.py:94-200 | an accepted object has a hazard set, a configured type with a process configuration, srid EPSG:4326, qualities and a URL; its draft carries its ids, the configured mnemonic, `'GLOBAL' not in id` locality, the dates or `now` where absent, the qualities as `int(float(x))`, and for a non-preprocessed type the level its period maps to (never VLO), its period and unit; rejections never count as harvested |
| Harvesting.VetAcceptsExactly | thinkhazard_processing/harvesting.py:94-200 | an object is accepted iff it meets every condition of the check chain, taken in no order; the dates and the clock never decide |
| Harvesting.VetRejectsUnconfigured | thinkhazard_processing/harvesting.py:103-157 | an unsupported hazard type, a null `preprocessed` and a period that maps to no level are each skipped with that reason |
| Harvesting.Store | thinkhazard_processing/harvesting.py:202-254 | the database part of one harvest: the hazardset lookup or creation, then the first replaceable layer skipped, overwritten or a new one appended; its rule is stated by `StoreReplacesFirstMatch` and `StoreAppendsWithoutMatch` |
| Harvesting.HarvestStep | thinkhazard_processing/harvesting.py:86-254 | the harvest of one object: a rejection by the check chain leaves the tables, an accepted object is stored; `HarvestLayer` is proved to compute it |
| Harvesting.VetObject | thinkhazard_processing/harvesting.py:94-200 | the checks before any database access, with their early `return False`s, reject or accept exactly as `Vet` defines |
| Harvesting.StoreDraft | thinkhazard_processing/harvesting.py:202-254 | the hazardset lookup or creation and the layer lookup, skip or fill leave the session and verdict that `Store` defines |
| Harvesting.HarvestLayer | thinkhazard_processing/harvesting.py:86-254 | vetting then storing: the session and verdict are exactly `HarvestStep`'s |
| Harvesting.WithHazardSetKeepsAttached | thinkhazard_processing/harvesting.py:202-210 | looking up or creating the hazardset keeps the layers, keeps them attached, and leaves the hazardset present |
| Harvesting.StoreShape | thinkhazard_processing/harvesting.py:202-254 | storing changes hazardsets only as the lookup or creation does, never drops a layer, and touches only layers of the draft's hazardset |
| Harvesting.StoreKeepsLayersAttached | thinkhazard_processing/harvesting.py:202-254 | storing keeps every layer attached to a hazardset row of its id |
| Harvesting.StoreFindsItsLayer | thinkhazard_processing/harvesting.py:216-254 | a stored draft leaves its hazardset present and its fields in the first layer it replaces |
| Harvesting.StoreTwiceIsSkipped | thinkhazard_processing/harvesting.py:216-230 | storing the same draft again finds the layer holding its GeoNode id, returns False and changes nothing |
| Harvesting.StoreReplacesFirstMatch | thinkhazard_processing/harvesting.py:216-254 | for the first layer of the hazardset (at the draft's level unless preprocessed): the same GeoNode id is skipped, a larger return period than the stored one is skipped for the stored one, a missing level raises, and otherwise that layer is overwritten in place keeping its download flag; a skip writes at most the new hazardset |
| Harvesting.StoreAppendsWithoutMatch | thinkhazard_processing/harvesting.py:216-254 | with no such layer a new one is appended, not yet downloaded, and the object is harvested |
| Harvesting.RejectionWritesNothing | thinkhazard_processing/harvesting.py:94-235 | every rejection returns before writing, or after creating only a hazardset that already existed |
| Harvesting.HarvestKeepsLayersAttached | thinkhazard_processing/harvesting.py:202-254 | every layer keeps a hazardset row of its id |
| Harvesting.HarvestedLayerIsStored | thinkhazard_processing/harvesting.py:216-254 | after a harvest the hazardset exists, and the first layer the object replaces carries its GeoNode id, level and URL |
| Harvesting.ReharvestIsSkipped | thinkhazard_processing/harvesting.py:228-230 | harvesting the same object again is rejected as the same GeoNode layer and changes nothing |
| Harvesting.HarvestAll | thinkhazard_processing/harvesting.py:73-83 | the object loop: a harvested object is committed (aborted on a dry run), a skipped one leaves its writes pending, a raise ends the run with them lost |
| Harvesting.Harvest | thinkhazard_processing/harvesting.py:44-83 | optional purge, then objects in title order, each harvested object committed (or aborted on a dry run) |
| Harvesting.DryRunChangesNothing | thinkhazard_processing/harvesting.py:73-79 | a dry run commits nothing |
| Completing.LayerByLevel | thinkhazard_processing/completing.py:83 | a found layer belongs to the hazardset and has the level |
| Completing.LayerByLevelMissing | thinkhazard_processing/completing.py:83-86 | None exactly when the hazardset has no layer at that level |
| Completing.RequiredLayers | thinkhazard_processing/completing.py:75-87 | preprocessed: exactly the hazardset's first layer, None iff it has none; otherwise its layers at LOW, MED, HIG, None iff one level is missing |
| Completing.CollectRequired | thinkhazard_processing/completing.py:75-87 | the preprocessed branch and the LOW, MED, HIG loop with its early return give what `RequiredLayers` defines |
| Completing.AllDownloaded | thinkhazard_processing/completing.py:89-92 | the loop returns false iff some required layer is not downloaded |
| Completing.MinOf | thinkhazard_processing/completing.py:96-99 | SQL `min`: a member no larger than any element |
| Completing.Completed | thinkhazard_processing/completing.py:94-113 | the hazardset with the grouped statistics written onto it and `complete` set; its properties are `CompletedStatistics` |
| Completing.CompleteStep | thinkhazard_processing/completing.py:65-117 | one completion: the missing-hazardset and missing-settings raises, False for a missing or undownloaded required layer, the mixed-locality raise of `.one()`, otherwise the completed row and True; its properties are `CompletionCondition` and the lemmas after it |
| Completing.CompleteHazardset | thinkhazard_processing/completing.py:65-117 | the loops and early returns reach exactly `CompleteStep`'s result and tables; an exception leaves the tables as they were |
| Completing.ResetProcessed | thinkhazard_processing/completing.py:29-31 | every hazardset with `processed` false and nothing else changed |
| Completing.ClearAll | thinkhazard_processing/completing.py:27-32 | resets `processed` on all hazardsets |
| Completing.PendingIds | thinkhazard_processing/completing.py:47-51 | exactly the ids of the incomplete hazardsets (all when forced), restricted to the given id |
| Completing.CompleteAll | thinkhazard_processing/completing.py:52-62 | the id loop: each completion committed, or aborted on a dry run or an error, and the loop goes on |
| Completing.Complete | thinkhazard_processing/completing.py:35-62 | forced clear committed unless dry run, then each pending id completed and committed, or aborted on a dry run or an exception, and the loop goes on |
| Completing.CompletingStep | thinkhazard_processing/completing.py:94-113 | a completing step replaces only the hazardset's row by its statistics over uniformly local layers |
| Completing.CompletedStatistics | thinkhazard_processing/completing.py:94-113 | the statistics row is complete, keeps id and type, has the layers' locality, and each of its two dates and two qualities is the minimum over the layers: no larger than any layer's and attained by one |
| Completing.CompletionTakesLayerStatistics | thinkhazard_processing/completing.py:94-113 | a completion marks the hazardset complete with its layers' common locality and, for each date and quality, the minimum over its layers (a lower bound attained by one), and changes nothing else |
| Completing.CompletionCondition | thinkhazard_processing/completing.py:75-106 | a known, configured hazardset completes iff its required layers exist, are downloaded, and agree on locality; returns False iff a required layer is missing or not downloaded; raises iff they are ready but mixed |
| Completing.CompletionIsIdempotent | thinkhazard_processing/completing.py:65-117 | completing a completed hazardset again yields the same tables and True |
| Completing.DryRunChangesNothing | thinkhazard_processing/completing.py:52-59 | a dry run commits nothing |
| Completing.CompletionOnlyTouchesHazardsets | thinkhazard_processing/completing.py:108-114 | the run changes only hazardset rows and never their number |
| LegacyProcess.FirstLayer | thinkhazard_processing/scripts/process.py:73-78 | the first layer of the dataset with that return period |
| LegacyProcess.FirstLayerMissing | thinkhazard_processing/scripts/process.py:73-78 | no layer iff none of the dataset carries the period |
| LegacyProcess.FirstLayerAt | thinkhazard_processing/scripts/process.py:73-78 | `.first()` returns the layer at the first position matching the dataset and period |
| LegacyProcess.LevelOfPeriod | thinkhazard_processing/scripts/process.py:72 | `index(rp) + 1`: one more than the first position holding that period |
| LegacyProcess.DistinctPeriodsGivePositions | thinkhazard_processing/scripts/process.py:71-72 | with distinct periods, position i carries level i+1 |
| LegacyProcess.Binarize | thinkhazard_processing/scripts/process.py:88 | `(src_data > threshold)`: a pixel is set iff strictly above the threshold |
| LegacyProcess.LoadedRasters | thinkhazard_processing/scripts/process.py:69-89 | each raster is its period's first layer's pixels binarised with `> threshold`, with its level |
| LegacyProcess.LoadedRastersFailure | thinkhazard_processing/scripts/process.py:73-85 | loading succeeds iff every period has a layer; it fails at the first period without one |
| LegacyProcess.LevelAfter | thinkhazard_processing/scripts/process.py:118-125 | level 4 if no raster is hot inside the division, otherwise the level of the last hot raster; fails iff some raster's size differs from the mask's while the mask is not a single pixel, which `masked_array` resizes |
| LegacyProcess.OnePixelMaskFitsAll | thinkhazard_processing/scripts/process.py:111-125 | a one-pixel division mask never raises, whatever the rasters' sizes, and a pixel outside the division leaves level 4 |
| LegacyProcess.AnyHot | thinkhazard_processing/scripts/process.py:123-124 | `numpy.max(masked) > 0` on a binarised raster: true iff some pixel inside the division is set, a one-pixel mask covering every pixel |
| LegacyProcess.LevelOfDivision | thinkhazard_processing/scripts/process.py:118-125 | the raster loop returns what `LevelAfter` defines |
| LegacyProcess.LoadRasters | thinkhazard_processing/scripts/process.py:69-89 | the period loop returns what `LoadedRasters` defines |
| LegacyProcess.DivisionOutputs | thinkhazard_processing/scripts/process.py:104-127 | the division loop fails only when no raster grid exists or a mask does not fit a raster |
| LegacyProcess.EmitOutputs | thinkhazard_processing/scripts/process.py:102-130 | appends exactly the rows `DivisionOutputs` defines |
| LegacyProcess.ExecuteStep | thinkhazard_processing/scripts/process.py:44-137 | the whole run: the dataset checks, the raster loading, the output table replaced, the dataset marked processed; its properties are `ExecuteRefuses` and `ExecuteSucceeds` |
| LegacyProcess.Execute | thinkhazard_processing/scripts/process.py:44-137 | the committed tables end as `ExecuteStep` says; on an error nothing is committed |
| LegacyProcess.ExecuteRefuses | thinkhazard_processing/scripts/process.py:47-58 | raises for a missing dataset iff none has the id; raises already-processed iff it is processed and not forced |
| LegacyProcess.ExecuteSucceeds | thinkhazard_processing/scripts/process.py:52-65 | a successful run marks the dataset processed, replaces the whole output table with this run's rows, and keeps every other table |
| LegacyProcess.OutputPerDivision | thinkhazard_processing/scripts/process.py:104-127 | one row per visited division with geometry, in order, with the dataset's id |
| LegacyProcess.OutputLevels | thinkhazard_processing/scripts/process.py:107-127 | each row's level is the raster loop's level for its division |
| LegacyProcess.OneHotLevel | thinkhazard_processing/scripts/process.py:118-125 | with each raster's level one above its position and only raster i hot, the level is i+1; with none hot, 4 |
| LegacyProcess.OneHotRaster | thinkhazard_processing/scripts/process.py:118-125 | with distinct periods and only raster i hot, the level is i+1; with none hot, 4 |
| LegacyProcess.FixtureLevels | thinkhazard_processing/tests/test_process.py:32-83 | on the tests' database a forced run gives the second-level division 1, 2, 3 for a hot first, second or third raster and 4 for nodata, and marks the dataset processed |

## Left out

- Raster I/O, rasterisation, reprojection, `cascaded_union` and PostGIS intersection are abstracted. In `Processing.Scene` and `LegacyProcess.RasterIo` they are given functions, windows and masks. Pixels are integers or reals, and float32 and NaN are not modelled.
- The catalogue HTTP fetch, the `hazard_type` URL parameter, JSON decoding and `downloading.py` are left out. The harvest takes the list of catalogue objects as a parameter.
- Logging, printing, progress percentages, chronometers and the `current` counters are left out. `datetime.now()` is the `now` parameter.
- Transaction failures at commit time are not modelled. A commit always succeeds, so the `except` of `harvest` (harvesting.py:80-83) is not reachable in the model.
- `scripts/*.py` `main` wrappers, argument parsing, settings loading, `initializedb` and packaging are left out.
- `DecisionTree.FirstValue`: rows of equal rank are unordered in SQL. The model takes the earliest row, and the lemmas only rely on minimality.
- `DecisionTree.WindowSelect`: the rows are produced per partition. The `ORDER BY admin_id` insertion order of the query is not modelled.
- `Types.Order`: the `order` values of the hazard level enumeration (HIG 1, MED 2, LOW 3, VLO 4) are assumed, since that table is defined outside these files. `DecisionTree.UpRow` ranks by them, so `DecisionTree.UpscaleAtLeastAsSevere` and `DecisionTree.CountryAtLeastAsSevereAsRegions` rest on them.
- `Completing.LayerByLevel`: `HazardSet.layerByLevel` is not part of this model. It is taken to return the hazardset's first layer at that level, or None.
- `Harvesting.HazardtypeFromGeonode`: a Python dict has no fixed iteration order. The model scans the settings list in order, and `HazardType.get` is assumed to find every configured mnemonic.
- `Harvesting.NewHazardSet`: the fields a new hazardset leaves NULL until completion get placeholder values.
- `Processing.ProcessStep`: `coverage_ratio` is the constant 100, as in the source. Classification errors are not annotated with the division.
- `Processing.Process`: the source has no `try` around each hazardset, so the first failing hazardset ends the batch. The model follows the code.
- `Harvesting.Store`: replacing a preprocessed layer formats `hazardlevel.mnemonic` with no level (harvesting.py:237-238). That raises, and the model keeps it as a raised error.
- `LegacyProcess.ExecuteStep`: the delete at scripts/process.py:63 compares the argument with itself. In the model, as in the code, it empties the whole output table.
- `LegacyProcess.ExecuteStep`: line 79 tests the dataset instead of the layer. A missing layer then fails on `layer.path()`, modelled as `NoLayer`. `Layer.path` is not part of this model, so reading a layer's raster is `RasterIo.read`.
- `LegacyProcess.ExecuteStep`: with no return periods configured, the last raster's grid used at scripts/process.py:113 does not exist. The model then raises `NoGrid`.
- Uncommitted work at an error: the scripts exit without committing, so the model restores the snapshot taken before the run.
- Mask layers, categorical pixel classification of preprocessed hazardsets, and memory-capped splitting of geometries do not appear in these files. They are not modelled.
- Settings: every key the code reads is taken to be present: `preprocessed` (harvesting.py:109), `return_periods` per level (harvesting.py:146) and `thresholds` (processing.py:77). A missing key raises `KeyError`, and at harvesting.py:109 it would escape `harvest`, whose `try` covers only the commit. `preprocessed` is taken to be True, False or null. Any other value matches none of the `is` tests at harvesting.py:130-142.
- `Processing.LocalPrefilterChangesNothing`: one `Scene.intersects` stands for two tests. One is PostGIS `ST_Intersects` on the division reprojected to EPSG:4326 (processing.py:115-123). The other is shapely's `intersects` on the pyproj reprojection (processing.py:151). The model takes them to agree.
- `DecisionTree.ApplyDecisionTree`: the SQL statements never fail in the model, so the `except` that rolls back and re-raises (decisiontree.py:23-25) has no counterpart.
