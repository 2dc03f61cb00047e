# Sakura map: a verified model of the viewport, the spot data and the data scripts

This project models, in Dafny, the logic of a map of cherry-blossom viewing spots in Japan:

- **The view transform** (`PanZoomTransform`): clamping the scale, zooming about a screen point
  so that the content under it stays put, and centring a content point in the viewport.
- **Picking and drawing markers** (`SpotHitTest`, `SpotMarker`, `MapMarkers`): the radius and
  colour of a spot's marker, the nearest-marker hit test with a zoom-independent slop, and the
  markers pass of the canvas, which culls off-screen markers and paints the groups in a fixed
  order with the hover and selection rings on top.
- **The gesture and animation engine of the prefecture map** (`MapViewport`,
  `MapViewportProperties`): a class whose fields are the view transform, the drag session (the
  pointer id, start point and transform, `didPan`, the pan samples), the pending frame requests,
  the momentum and tween state, and the selection. Every pointer, wheel and frame handler is a
  method. Each method is proved to move the state exactly as a pure transition function says.
  The properties module proves what those transitions promise: the click/drag threshold,
  deselect-once, the bounded sample buffer, momentum gating and the speed cap, and redraw
  coalescing. It also proves that the eased tween lands exactly on its target.
- **The filters and the pinned spot** (`SakuraSpotFilters`, `PinnedSpotUrl`): filtering by
  prefecture and collection, and the `spot` query parameter, with the query as a map.
- **The data schemas** (`JsonValue`, `SakuraSpotSchema`, `SakuraSpotPredictSchema`): each
  schema is a decoder from the parsed document to typed records. A validity predicate describes
  exactly what it accepts, shown by a decode/encode round trip. The predict schema includes
  the rewrite of the older flat prediction format.
- **Assembling the datasets** (`YamlSource`, `SakuraSpotsDataset`,
  `SakuraSpotPredictionsDataset`, `StableSort`): reading the prefecture files, rejecting
  duplicate spot ids, attaching each spot's prefecture, the stable sort by prefecture, and the
  merge of predictions into spots.
- **The data scripts** (`JmcApi`, `JmcForecastParser`, `JmcForecastIndex`,
  `WeathernewsForecastParser`, `AddJmcSources`, `UpdateSpotsPredictJmc`,
  `ExportJmcMappingLists`, `MigratePredictWeathernews`, `SpotSources`, `JsText`):
  - parsing the JMC (Japan Meteorological Corporation) forecast and the Weathernews spot page;
  - matching spots to JMC points and upserting their JMC source;
  - merging new JMC predictions into a predict file;
  - the TSV mapping lists and their report;
  - the line-based migration of predict files to the `weathernews` layout.

Numbers are exact reals, so JavaScript's NaN and Infinity do not arise. Parsed YAML and JSON
are a `Json` datatype. A thrown error becomes the `Err` case of a `Result` carrying the
source's message. Clock readings, the fetch result, `Math.hypot`, `Math.exp` and the
great-circle distance are inputs.

Where the code and its stale tests disagree, the model follows the code:

- The marker colour has no Weathernews-top-10 branch.
- A legacy prediction is nested under `weathernews`.

The model also keeps one behaviour of the map code as written. Pointer-up does not compare the
pointer id before the click path (src/components/JapanPrefectureMap.tsx:558-581). So a release
of any pointer, while no pan is under way, picks the spot under it.

## Model

| member | source | states |
|---|---|---|
| PanZoomTransform.Clamp | src/lib/panZoomTransform.ts:12-14 | the result never exceeds `max`, is at least `min` when `min <= max`, equals the value when it lies between them, and is always one of value, `min`, `max` |
| PanZoomTransform.CenterTransformAtPoint | src/lib/panZoomTransform.ts:16-30 | fails with the scale error exactly when the scale is not positive; otherwise keeps the scale and maps the point to the viewport's centre |
| PanZoomTransform.ZoomTransformAtPoint | src/lib/panZoomTransform.ts:32-54 | fails exactly when the current scale is not positive; the new scale is the requested one clamped to the bounds (1 and 16 by default); an unchanged scale returns the transform itself; the content point under `origin` stays under it |
| PanZoomTransform.ZoomRoundTrip | src/lib/panZoomTransform.ts:32-54 | zooming within the bounds and then back to the old scale about the same origin gives back the original transform |
| SpotMarker.MarkerRadiusFromTrees | src/lib/spotMarker.ts:6-11 | the radius is 4, 6 or 8; 4 without a tree count or under 500 trees, 8 from 2000 trees |
| SpotMarker.MarkerRadiusMonotone | src/lib/spotMarker.ts:6-11 | more trees never give a smaller marker |
| SpotMarker.SpotMarkerRadius | src/lib/spotMarker.ts:13-15 | a spot's radius is the radius of its tree count |
| SpotMarker.SpotMarkerColor | src/lib/spotMarker.ts:17-23 | the colour is the pink one exactly for a spot in the `sakura100` collection, the blue one otherwise |
| SpotMarker.SpotMarkerColorClass | src/lib/spotMarker.ts:17-27 | the class is `fill-pink-400` exactly for a `sakura100` spot, `fill-blue-400` otherwise |
| SpotMarker.ColorAndClassAgree | src/lib/spotMarker.ts:21-27 | the marker colour is pink exactly when the colour class is the pink class |
| SpotHitTest.MeasureDist2 | src/lib/spotHitTest.ts:41-47 | the squared screen distance between the point and the marker's centre under the transform, never negative |
| SpotHitTest.PickSpotAtPoint | src/lib/spotHitTest.ts:29-55 | returns nothing exactly when no marker is within its radius plus the hit slop (2 by default); otherwise the spot of a hit marker that is nearest, the first of equally near ones |
| SakuraSpotFilters.Keep | src/lib/sakuraSpotFilters.ts:16-24 | keeps exactly the spots matching the prefecture and the collection filter, in the input's order and each as often as it occurs there (a subsequence of as many spots as match), taking nothing else |
| SakuraSpotFilters.KeepIsFilter | src/lib/sakuraSpotFilters.ts:16-24 | the filter callback's result is the generic order-keeping filter with `Matches`, so each matching spot keeps its multiplicity |
| SakuraSpotFilters.FilterSakuraSpots | src/lib/sakuraSpotFilters.ts:8-25 | with no filter set the input is returned as it is; otherwise every kept spot matches and every matching spot is kept; either way the result holds exactly as many spots as match |
| SakuraSpotFilters.FilterIsSubsequence | src/lib/sakuraSpotFilters.ts:8-25 | the filtered list keeps the input's order (it is a subsequence) |
| SakuraSpotFilters.FilterIsGenericFilter | src/lib/sakuraSpotFilters.ts:8-25 | whatever the filters, the result is the generic order-keeping filter with `Matches` (with no filter set, that is the whole list) |
| SakuraSpotFilters.FilterIdempotent | src/lib/sakuraSpotFilters.ts:8-25 | filtering twice with the same filters gives what filtering once gives |
| PinnedSpotUrl.GetPinnedSpotIdFromUrl | src/lib/pinnedSpotUrl.ts:3-7 | no id without the `spot` parameter or when it is blank; otherwise the trimmed, non-empty value |
| PinnedSpotUrl.GetUrlWithPinnedSpotId | src/lib/pinnedSpotUrl.ts:9-19 | a non-empty id is set as `spot`, otherwise `spot` is removed; every other parameter, the base and the hash are kept |
| PinnedSpotUrl.ReadBackPinnedSpotId | src/lib/pinnedSpotUrl.ts:3-19 | an id written into the URL (non-empty, without surrounding blanks) is read back unchanged |
| PinnedSpotUrl.ReadBackCleared | src/lib/pinnedSpotUrl.ts:3-19 | after clearing the pinned id, none is read |
| SakuraSpotSchema.DecodeCollection | src/data/sakuraSpotSchema.ts:5-10 | accepts exactly the four collection names, and a decoded collection encodes back to the same string |
| SakuraSpotSchema.DecodeLat | src/data/sakuraSpotSchema.ts:36 | accepts exactly the numbers from -90 to 90, unchanged |
| SakuraSpotSchema.DecodeLng | src/data/sakuraSpotSchema.ts:37 | accepts exactly the numbers from -180 to 180, unchanged |
| SakuraSpotSchema.DecodeTrees | src/data/sakuraSpotSchema.ts:39 | accepts exactly the positive integers, unchanged |
| SakuraSpotSchema.DecodeRank | src/data/sakuraSpotSchema.ts:53 | accepts exactly the integers from 1, unchanged |
| SakuraSpotSchema.DecodePrefectureId | src/data/sakuraSpotSchema.ts:62 | accepts exactly the integers from 1 to 47, unchanged |
| SakuraSpotSchema.DecodePhoto | src/data/sakuraSpotSchema.ts:12-17 | a decoded photo comes from an object and meets the schema (non-empty url and optional texts) |
| SakuraSpotSchema.DecodeSource | src/data/sakuraSpotSchema.ts:19-22 | a decoded source comes from an object and meets the schema |
| SakuraSpotSchema.DecodeLocation | src/data/sakuraSpotSchema.ts:28-34 | a decoded location comes from an object and meets the schema |
| SakuraSpotSchema.DecodeGeo | src/data/sakuraSpotSchema.ts:35-38 | a decoded position comes from an object whose `lat` and `lng` are those numbers, within range |
| SakuraSpotSchema.DecodeLinks | src/data/sakuraSpotSchema.ts:44-50 | decoded links come from an object and meet the schema |
| SakuraSpotSchema.DecodeTop | src/data/sakuraSpotSchema.ts:51-55 | a decoded ranking comes from an object and meets the schema |
| SakuraSpotSchema.DecodeSpeciesList | src/data/sakuraSpotSchema.ts:40 | every decoded species name is non-empty |
| SakuraSpotSchema.DecodePhotoList | src/data/sakuraSpotSchema.ts:42 | every decoded photo meets the photo schema |
| SakuraSpotSchema.DecodeSourceList | src/data/sakuraSpotSchema.ts:43 | every decoded source meets the source schema |
| SakuraSpotSchema.DecodeCollectionList | src/data/sakuraSpotSchema.ts:56 | a decoded list has one collection per array item, and every item is one of the four names |
| SakuraSpotSchema.DecodeSpot | src/data/sakuraSpotSchema.ts:24-58 | a decoded spot comes from an object, meets every field's constraint, and its `id` and `name_ja` are the object's strings |
| SakuraSpotSchema.DecodePrefecture | src/data/sakuraSpotSchema.ts:61-65 | a decoded prefecture meets the schema and its id is the object's `id` |
| SakuraSpotSchema.DecodePrefectureFile | src/data/sakuraSpotSchema.ts:60-67 | a decoded prefecture file meets the schema (prefecture and every spot) |
| SakuraSpotSchema.DecodeEncodePhoto | src/data/sakuraSpotSchema.ts:12-17 | every photo the schema allows is encoded to an object that decodes back to it |
| SakuraSpotSchema.DecodeEncodeSource | src/data/sakuraSpotSchema.ts:19-22 | the same round trip for a source |
| SakuraSpotSchema.DecodeEncodeLocation | src/data/sakuraSpotSchema.ts:28-34 | the same round trip for a location |
| SakuraSpotSchema.DecodeEncodeLinks | src/data/sakuraSpotSchema.ts:44-50 | the same round trip for the links |
| SakuraSpotSchema.DecodeEncodeTop | src/data/sakuraSpotSchema.ts:51-55 | the same round trip for the ranking |
| SakuraSpotSchema.DecodeEncodePhotoList | src/data/sakuraSpotSchema.ts:42 | the same round trip for a photo list |
| SakuraSpotSchema.DecodeEncodeSourceList | src/data/sakuraSpotSchema.ts:43 | the same round trip for a source list |
| SakuraSpotSchema.DecodeEncodeSpot | src/data/sakuraSpotSchema.ts:24-58 | every spot the schema allows, with any optional fields absent or present, decodes back from its encoding: the validity predicate describes exactly what the schema accepts |
| SakuraSpotSchema.DecodeEncodePrefecture | src/data/sakuraSpotSchema.ts:61-65 | the same round trip for a prefecture |
| SakuraSpotSchema.DecodeEncodePrefectureFile | src/data/sakuraSpotSchema.ts:60-67 | the same round trip for a whole prefecture file |
| SakuraSpotPredictSchema.DecodeIsoDate | src/data/sakuraSpotPredictSchema.ts:3-5 | accepts exactly the strings of the form `dddd-dd-dd`, unchanged |
| SakuraSpotPredictSchema.DecodePrediction | src/data/sakuraSpotPredictSchema.ts:7-16 | a decoded prediction comes from an object, has only ISO dates, and at least one of the four date keys is present |
| SakuraSpotPredictSchema.DecodeEncodePrediction | src/data/sakuraSpotPredictSchema.ts:7-16 | every prediction the schema allows decodes back from its encoding |
| SakuraSpotPredictSchema.DecodeSources | src/data/sakuraSpotPredictSchema.ts:18-27 | decoded sources come from an object with no key but `weathernews` and `jmc` (strict), and at least one source is set |
| SakuraSpotPredictSchema.DecodeEncodeSources | src/data/sakuraSpotPredictSchema.ts:18-27 | every source pair the schema allows decodes back from its encoding |
| SakuraSpotPredictSchema.NormalizeLegacyPredict | src/data/sakuraSpotPredictSchema.ts:36-49 | an object without `weathernews` and `jmc` that has a legacy date key, none of them null, is wrapped as `{weathernews: obj}`; everything else passes unchanged |
| SakuraSpotPredictSchema.NormalizeLegacyPredictIdempotent | src/data/sakuraSpotPredictSchema.ts:36-49 | normalising twice gives what normalising once gives |
| SakuraSpotPredictSchema.DecodePredict | src/data/sakuraSpotPredictSchema.ts:36-50 | what the preprocessed schema accepts is a valid pair of sources |
| SakuraSpotPredictSchema.LegacyPredictReadsAsWeathernews | src/data/sakuraSpotPredictSchema.ts:36-50 | a legacy prediction object (pre-2026-03 format) reads as that prediction under `weathernews` |
| SakuraSpotPredictSchema.LegacyPredictWithNullRejected | src/data/sakuraSpotPredictSchema.ts:42-50 | a legacy-looking object with a null date key is not wrapped, and is then rejected by the strict schema |
| SakuraSpotPredictSchema.DecodePredictSpot | src/data/sakuraSpotPredictSchema.ts:52-55 | a decoded entry meets the schema and its `id` is the object's string |
| SakuraSpotPredictSchema.DecodePredictFile | src/data/sakuraSpotPredictSchema.ts:57-64 | a decoded predict file meets the schema |
| SakuraSpotPredictSchema.DecodeEncodePredictSpot | src/data/sakuraSpotPredictSchema.ts:52-55 | every entry the schema allows decodes back from its encoding |
| SakuraSpotPredictSchema.DecodeEncodePredictFile | src/data/sakuraSpotPredictSchema.ts:57-64 | every predict file the schema allows decodes back from its encoding |
| JsonValue.DecodeNonEmptyString | src/data/sakuraSpotSchema.ts:13-26 | `z.string().min(1)`: accepts exactly the strings with at least one character, unchanged |
| JsonValue.Required | src/data/sakuraSpotSchema.ts:25-35 | a required key decodes only when present in the object, to what its value decodes to |
| JsonValue.Optional | src/data/sakuraSpotSchema.ts:14-27 | `.optional()`: an absent key is accepted as absent; a present key is accepted exactly when its value decodes, and to that value |
| JsonValue.DecodeArray | src/data/sakuraSpotSchema.ts:40-43 | `z.array(...)`: a decoded array comes from an array with one decoded item per element, in order |
| JsonValue.DecodeItems | src/data/sakuraSpotSchema.ts:40-43 | the items decode together exactly when each one decodes; a failure names an item that does not decode |
| JsonValue.DecodeArrayOfEncoded | src/data/sakuraSpotSchema.ts:40-43 | an array of encoded values decodes back to the values when each one round-trips |
| YamlSource.ReadYaml | src/data/sakuraSpotsDataset.ts:18-27 | a YAML syntax error is reported as such with its message; a schema mismatch exactly when the document parses but the schema rejects it; otherwise the decoded data |
| YamlSource.FileData | src/data/sakuraSpotsDataset.ts:14-28 | a file yields its data exactly when it decodes; a syntax error becomes a YAML error and a mismatch the "Invalid YAML schema in <path>" error of that file |
| YamlSource.AllDataPrefix | src/data/sakuraSpotsDataset.ts:37-38 | the data of the first files read are the first items of the data of all files |
| SakuraSpotsDataset.ReadPrefectureFile | src/data/sakuraSpotsDataset.ts:14-28 | a prefecture file is read exactly when its YAML parses and the prefecture-file schema accepts it, and what is read meets the schema |
| SakuraSpotsDataset.FileSpots | src/data/sakuraSpotsDataset.ts:41-50 | one output spot per spot of the file, in order, each carrying the file's prefecture and no prediction |
| SakuraSpotsDataset.BuildSakuraSpotsData | src/data/sakuraSpotsDataset.ts:30-57 | success only when every file reads, and whenever every file reads and no id repeats; the prefectures and the spots are those of the files, stably sorted by prefecture id; the first unreadable file is the one reported; a reported duplicate really repeats; with non-empty paths the ids of a successful build are distinct |
| SakuraSpotsDataset.AddFileSpots | src/data/sakuraSpotsDataset.ts:41-50 | without a duplicate the file's spots are appended and every id is recorded; a reported duplicate names this file, a non-empty earlier path and an id that really repeats |
| SakuraSpotsDataset.ReadOneMore | src/data/sakuraSpotsDataset.ts:37-39 | reading one more file appends its prefecture and its spots to what the earlier files gave |
| SakuraSpotsDataset.DuplicateInAll | src/data/sakuraSpotsDataset.ts:41-47 | an id repeated among the first files is repeated among all of them |
| SakuraSpotsDataset.SpotsOfLength | src/data/sakuraSpotsDataset.ts:41-50 | the assembled spot list has as many spots as the files together |
| SakuraSpotsDataset.SpotsOfPrefecture | src/data/sakuraSpotsDataset.ts:49 | every assembled spot is a spot of some file, carrying that file's prefecture |
| SakuraSpotsDataset.BuildOutputProperties | src/data/sakuraSpotsDataset.ts:53-56 | the output has one prefecture per file and every spot, both sorted by prefecture id, and within one prefecture the spots keep their file order |
| SakuraSpotsDataset.BuildOutputSpotOrigin | src/data/sakuraSpotsDataset.ts:49-54 | every output spot is a spot of some file, with that file's prefecture |
| StableSort.SortBy | src/data/sakuraSpotsDataset.ts:53-54 | the sorted list is a permutation of the input and ascending by the key |
| StableSort.SortByStable | src/data/sakuraSpotsDataset.ts:53-54 | the sort is stable: the items of any one key keep their input order |
| StableSort.SortBySorted | src/data/sakuraSpotsDataset.ts:53-54 | an input already in key order is returned unchanged |
| SakuraSpotPredictionsDataset.ReadPredictFile | src/data/sakuraSpotPredictionsDataset.ts:10-24 | a predict file is read exactly when its YAML parses and the predict-file schema accepts it, and what is read meets the schema |
| SakuraSpotPredictionsDataset.BuildSakuraSpotPredictionsMap | src/data/sakuraSpotPredictionsDataset.ts:26-49 | success only when every file reads, and whenever every file reads and no id repeats; the map is the one the entries of all files give; the first unreadable file is the one reported; a reported duplicate really repeats; with non-empty paths the ids are distinct on success |
| SakuraSpotPredictionsDataset.AddFileEntries | src/data/sakuraSpotPredictionsDataset.ts:35-46 | without a duplicate the file's entries are recorded and each prediction is put in the map; a reported duplicate names this file, a non-empty earlier path and an id that really repeats |
| SakuraSpotPredictionsDataset.PredictionMapKeys | src/data/sakuraSpotPredictionsDataset.ts:42-44 | an id is in the map exactly when some entry with that id has a prediction |
| SakuraSpotPredictionsDataset.PredictionMapEntry | src/data/sakuraSpotPredictionsDataset.ts:44 | with distinct ids, an entry's prediction is what the map holds for its id |
| SakuraSpotPredictionsDataset.EntryDuplicateInAll | src/data/sakuraSpotPredictionsDataset.ts:35-41 | an id repeated among the first files is repeated among all of them |
| SakuraSpotPredictionsDataset.MergeSakuraSpotPredictions | src/data/sakuraSpotPredictionsDataset.ts:51-62 | an empty map returns the spots as they are; otherwise every spot keeps its fields and position, takes the map's prediction for its id, and is unchanged when its id has none |
| SakuraSpotPredictionsDataset.MergeIdempotent | src/data/sakuraSpotPredictionsDataset.ts:51-62 | merging the same predictions twice gives what merging once gives |
| SakuraSpotPredictionsDataset.MergedPrediction | src/data/sakuraSpotPredictionsDataset.ts:26-62 | a spot named by a predict entry with a prediction ends up with that prediction |
| SakuraSpotPredictionsDataset.MergedUnchanged | src/data/sakuraSpotPredictionsDataset.ts:26-62 | a spot that no entry gives a prediction is left unchanged |
| MapMarkers.MarkerKindOf | src/components/JapanPrefectureMap.tsx:217-221 | a spot is in the sakura100 group exactly when it is a sakura100 spot, in the top-10 group exactly when it is a weathernews top-10 spot and not sakura100, and otherwise in the "other" group |
| MapMarkers.MarkerKindAgreesWithColor | src/components/JapanPrefectureMap.tsx:217-218 | the map's sakura100 group holds exactly the spots the list paints in the sakura100 colour |
| MapMarkers.ProjectSpots | src/components/JapanPrefectureMap.tsx:201-225 | every projected marker is a spot at its projected point with its marker radius, and every spot the projection places has its marker; the markers' spots are the placed spots in input order, each as often as in the input |
| MapMarkers.LabelOps | src/components/JapanPrefectureMap.tsx:257-265 | at most one label per prefecture, and only labels whose anchor is on screen (within 80 pixels horizontally and 40 vertically) |
| MapMarkers.LabelOpsComplete | src/components/JapanPrefectureMap.tsx:257-265 | every label whose anchor is on screen is drawn, at its transformed position |
| MapMarkers.GroupOps | src/components/JapanPrefectureMap.tsx:272-290 | a group pass draws only discs of that group whose bounding box meets the viewport, at most one per marker |
| MapMarkers.GroupOpsComplete | src/components/JapanPrefectureMap.tsx:272-290 | every marker of the group that is on screen is drawn at its transformed centre with its radius |
| MapMarkers.FindMarker | src/components/JapanPrefectureMap.tsx:300-314 | `markers.find`: nothing exactly when no marker has the id; otherwise the first marker with it |
| MapMarkers.RingOps | src/components/JapanPrefectureMap.tsx:300-325 | one ring exactly when the spot has a marker, none otherwise |
| MapMarkers.DrawLabels | src/components/JapanPrefectureMap.tsx:257-265 | the labels loop draws exactly the on-screen labels, in order |
| MapMarkers.DrawLabel | src/components/JapanPrefectureMap.tsx:258-264 | one pass of the labels loop: the label at its screen position, unless culled |
| MapMarkers.DrawGroup | src/components/JapanPrefectureMap.tsx:272-290 | `drawGroup` draws exactly the group's on-screen discs, in marker order |
| MapMarkers.DrawCircle | src/components/JapanPrefectureMap.tsx:275-284 | one pass of `drawGroup`: the marker's disc, unless it is of another group or off screen |
| MapMarkers.DrawRing | src/components/JapanPrefectureMap.tsx:300-325 | the ring three pixels outside the spot's marker, if the spot has one |
| MapMarkers.DrawMarkers | src/components/JapanPrefectureMap.tsx:227-327 | nothing on an empty canvas; otherwise labels, the "other", top-10 and sakura100 groups, the hover ring (for a hovered spot that is not the selected one) and the selection ring, in that order |
| MapMarkers.FlattenLayered | src/components/JapanPrefectureMap.tsx:245-326 | painting the layers in order never paints an operation of a lower layer after one of a higher layer |
| MapMarkers.LayersOfInLayers | src/components/JapanPrefectureMap.tsx:245-326 | each pass only paints operations of its own layer, and the selection layer is non-empty exactly when a selected spot has a marker |
| MapMarkers.DrawOrder | src/components/JapanPrefectureMap.tsx:292-326 | the sakura100 discs are painted above the top-10 discs, those above the others, all above the labels, and the rings on top |
| MapMarkers.DrawnOnScreen | src/components/JapanPrefectureMap.tsx:261-281 | every label and disc that is painted is on screen |
| MapMarkers.OnScreenDrawn | src/components/JapanPrefectureMap.tsx:272-294 | on a non-empty canvas every on-screen marker is painted in its group |
| MapMarkers.FlattenTopLayer | src/components/JapanPrefectureMap.tsx:313-326 | a top-layer operation is painted exactly when the selection layer is non-empty |
| MapMarkers.SelectionRingDrawn | src/components/JapanPrefectureMap.tsx:313-326 | on a non-empty canvas a selection ring is painted exactly when a spot is selected and has a marker |
| MapViewport.StaleFrom | src/components/JapanPrefectureMap.tsx:484-487 | the eviction loop drops only stale samples (older than 120 ms) from the front, never leaves fewer than two of at least two, and stops at the first fresh sample while more than two remain |
| MapViewport.RecordSample | src/components/JapanPrefectureMap.tsx:480-491 | the new sample is always the last one kept |
| MapViewport.RecordSampleBounds | src/components/JapanPrefectureMap.tsx:480-491 | the buffer keeps a suffix of the samples, at most eight and at least two when there are two, and every dropped sample was stale or overflowed the buffer |
| MapViewport.ScheduleOnce | src/components/JapanPrefectureMap.tsx:416-422 | after scheduling a frame is pending; scheduling twice requests only one frame; the transform and the animation are untouched |
| MapViewport.TweenFraction | src/components/JapanPrefectureMap.tsx:378-379 | the tween's progress is at most 1, is 1 for a zero duration or once the duration has elapsed, and is not negative once the tween has started |
| MapViewport.MapViewport.constructor | src/components/JapanPrefectureMap.tsx:474-478 | a viewport starts at the given transform with no press, pan, samples, frame, animation or hover, in a valid state |
| MapViewport.MapViewport.RecordPanSample | src/components/JapanPrefectureMap.tsx:480-491 | `recordPanSample` appends the current offset and time to the buffer and evicts as `RecordSample` says; nothing else changes |
| MapViewport.MapViewport.ScheduleTransform | src/components/JapanPrefectureMap.tsx:416-422 | `scheduleTransform` requests a frame only when none is pending |
| MapViewport.MapViewport.TransformFrame | src/components/JapanPrefectureMap.tsx:418-421 | the frame callback clears the pending frame and changes nothing else |
| MapViewport.MapViewport.StopTransformAnimation | src/components/JapanPrefectureMap.tsx:360-364 | `stopTransformAnimation` cancels the running animation and changes nothing else |
| MapViewport.MapViewport.ClearSelection | src/components/JapanPrefectureMap.tsx:543-546 | a selected spot is cleared through the callback (reporting no spot); without a selection nothing changes |
| MapViewport.MapViewport.PointerDown | src/components/JapanPrefectureMap.tsx:493-513 | `handlePointerDown` behaves as `PointerDownSpec`, whose meaning `PointerDownStartsGesture` states |
| MapViewport.MapViewport.Press | src/components/JapanPrefectureMap.tsx:497-507 | a press stops the animation, marks the pointer down and active, remembers the press point and the transform's offset, and resets the pan flag and the samples |
| MapViewport.MapViewport.UpdateHover | src/components/JapanPrefectureMap.tsx:516-532 | the hovered id becomes the id of the returned spot; nothing is hovered exactly when no marker is within the hover slop 6, and otherwise the spot is that of the nearest hit marker, the first among equally near ones |
| MapViewport.MapViewport.PanBy | src/components/JapanPrefectureMap.tsx:549-555 | the transform becomes its start offset plus the pointer's offset at the same scale, a sample is recorded and a frame scheduled |
| MapViewport.MapViewport.PointerMove | src/components/JapanPrefectureMap.tsx:515-556 | `handlePointerMove` behaves as `PointerMoveSpec`; without a press, at the pointer's canvas point, nothing is hovered exactly when no marker is within the hover slop, and otherwise the spot of the nearest hit marker (the first among equally near ones) is hovered |
| MapViewport.MapViewport.BeginPan | src/components/JapanPrefectureMap.tsx:542-546 | the press becomes a pan and the selection is cleared |
| MapViewport.MapViewport.StartInertia | src/components/JapanPrefectureMap.tsx:424-471 | `startInertia` behaves as `StartInertiaSpec`, whose meaning `StartInertiaGate` and `InertiaClamp` state |
| MapViewport.MapViewport.PointerUp | src/components/JapanPrefectureMap.tsx:558-593 | `handlePointerUp` behaves as `PointerUpSpec`; after a press without a pan, at the pointer's canvas point, nothing is picked exactly when no marker is within the click slop, and otherwise the spot of the nearest hit marker (the first among equally near ones) |
| MapViewport.MapViewport.Click | src/components/JapanPrefectureMap.tsx:569-581 | a click appends the picked spot to the selection log and changes nothing else; nothing is picked exactly when no marker is within the click slop 4, and otherwise the spot of the nearest hit marker, the first among equally near ones |
| MapViewport.MapViewport.Fling | src/components/JapanPrefectureMap.tsx:582-589 | with two samples spanning some time, inertia starts at the average pan velocity; otherwise nothing changes |
| MapViewport.MapViewport.PointerLeave | src/components/JapanPrefectureMap.tsx:595-601 | `handlePointerLeave` forgets the hovered spot and changes nothing else |
| MapViewport.MapViewport.Wheel | src/components/JapanPrefectureMap.tsx:603-624 | `handleWheel` behaves as `WheelSpec`, reporting whether the zoom threw; `WheelStopsAndDeselects` and `WheelZoomsAboutPointer` state its meaning |
| MapViewport.MapViewport.MomentumTick | src/components/JapanPrefectureMap.tsx:446-469 | one momentum frame behaves as `MomentumTickSpec`, whose meaning `MomentumFrame` and `MomentumDecays` state |
| MapViewport.MapViewport.AnimateTransform | src/components/JapanPrefectureMap.tsx:366-400 | `animateTransform` replaces the animation by a tween from the current transform, as `AnimateStartsTween` states |
| MapViewport.MapViewport.TweenTick | src/components/JapanPrefectureMap.tsx:377-398 | one tween frame behaves as `TweenTickSpec`, whose meaning `TweenLandsOnTarget` and `TweenStaysBetween` state |
| MapViewportProperties.PointerDownStartsGesture | src/components/JapanPrefectureMap.tsx:493-513 | a press of another button or a non-primary pointer changes nothing; a primary main-button press starts a gesture at the press point with one sample of the current offset, stops the animation and clears the hover, keeping the transform, the selection and the frame state |
| MapViewportProperties.MoveWithoutPan | src/components/JapanPrefectureMap.tsx:516-541 | without a press a move only updates the hovered id; a move of another pointer, or one under 3 pixels (by the sum of the offsets) before a pan, changes nothing |
| MapViewportProperties.PanFollowsPointer | src/components/JapanPrefectureMap.tsx:537-555 | once panning, the transform is the start offset plus the pointer's offset at the same scale, a frame is pending and the newest sample is the new offset |
| MapViewportProperties.DeselectOnlyOnPanStart | src/components/JapanPrefectureMap.tsx:539-547 | a move clears the selection exactly when it starts a pan while a spot is selected, and a pan once started stays a pan |
| MapViewportProperties.PointerUpClick | src/components/JapanPrefectureMap.tsx:569-581 | a release without a pan reports the picked spot as the selection and leaves the transform and animation alone |
| MapViewportProperties.PointerUpAfterPan | src/components/JapanPrefectureMap.tsx:582-589 | a release after a pan selects nothing; momentum starts exactly when there are two samples spanning some time and the average velocity reaches the start speed 0.06 |
| MapViewportProperties.PointerUpEndsGesture | src/components/JapanPrefectureMap.tsx:559-592 | every release resets the pan flag and the samples; only the active pointer's release ends the press |
| MapViewportProperties.StartInertiaGate | src/components/JapanPrefectureMap.tsx:424-442 | inertia starts exactly when the speed is at least 0.06, timed from now; otherwise the animation is stopped; nothing else changes |
| MapViewportProperties.InertiaClamp | src/components/JapanPrefectureMap.tsx:438-442 | a speed up to 4 keeps the velocity; a faster one is scaled to speed 4 in the same direction |
| MapViewportProperties.MomentumFrame | src/components/JapanPrefectureMap.tsx:446-461 | a momentum frame moves the transform by the velocity times the frame time clamped to 64 ms, keeps the scale, decays the velocity and changes nothing else |
| MapViewportProperties.MomentumDecays | src/components/JapanPrefectureMap.tsx:457-466 | the velocity is multiplied by the decay factor, and the momentum stops exactly when the decayed speed is below 0.01 |
| MapViewportProperties.MomentumSlowsDown | src/components/JapanPrefectureMap.tsx:457-459 | with a decay factor between 0 and 1 the velocity never grows |
| MapViewportProperties.EaseShape | src/components/JapanPrefectureMap.tsx:380 | the cubic ease-out goes from 0 to 1 and never decreases |
| MapViewportProperties.AnimateStartsTween | src/components/JapanPrefectureMap.tsx:371-376 | a tween from the current transform to the target starts now, lasting 180 ms by default and never a negative time; nothing else changes |
| MapViewportProperties.TweenLandsOnTarget | src/components/JapanPrefectureMap.tsx:379-395 | a zero duration or an elapsed duration lands exactly on the target and stops; earlier frames keep the tween running |
| MapViewportProperties.TweenStaysBetween | src/components/JapanPrefectureMap.tsx:377-386 | during a tween each coordinate of the transform stays between its start and target values |
| MapViewportProperties.WheelStopsAndDeselects | src/components/JapanPrefectureMap.tsx:603-622 | a wheel event stops the animation and clears the selection (reporting it once); it throws exactly when the scale is not positive, and then changes nothing more |
| MapViewportProperties.WheelZoomsAboutPointer | src/components/JapanPrefectureMap.tsx:611-623 | with a positive scale the new scale is the wheel factor times the old one clamped to [1, 16], the content point under the pointer stays under it, and a frame is pending |
| MapViewportProperties.PointerDownKeepsValid | src/components/JapanPrefectureMap.tsx:493-513 | a press keeps the sample buffer bounded, the active pointer set exactly during a press and a pan only during a press |
| MapViewportProperties.PointerMoveKeepsValid | src/components/JapanPrefectureMap.tsx:515-556 | a move keeps the same invariant |
| MapViewportProperties.PanStepKeepsValid | src/components/JapanPrefectureMap.tsx:515-556 | recording a pan sample and scheduling a frame during a press keep the state well formed |
| MapViewportProperties.ReleaseAndWheelKeepValid | src/components/JapanPrefectureMap.tsx:558-624 | a release, a leave and a wheel event keep the same invariant |
| MapViewportProperties.FramesKeepValid | src/components/JapanPrefectureMap.tsx:366-471 | scheduling and running frames, and starting, ticking and decaying animations keep the same invariant |
| MapViewportProperties.EventsKeepValid | src/components/JapanPrefectureMap.tsx:360-624 | every handler and every frame keeps the viewport's invariant |
| JmcApi.NumberString | scripts/update-spots-predict-jmc.mjs:26 | `String(n)`: the decimal digits of `n`, after a minus sign when negative |
| JmcApi.Pad2 | scripts/update-spots-predict-jmc.mjs:25-27 | `pad2`: `String(n)` preceded by zeros up to a length of two, and never shortened |
| JmcApi.Pad2TwoDigits | scripts/add-jmc-sources-to-spots.mjs:21-23 | a number from 0 to 99 becomes exactly two digits that read back as the number; from 10 on nothing is padded |
| JmcApi.Pad2Injective | scripts/add-jmc-sources-to-spots.mjs:21-23 | different numbers from 0 to 99 are padded to different strings |
| JmcApi.UrlsDistinguishPrefectures | scripts/add-jmc-sources-to-spots.mjs:51-59 | different prefecture numbers give different page addresses and different API addresses (the same API address `buildJmcPrefectureApiUrl` builds at scripts/update-spots-predict-jmc.mjs:105-108) |
| JmcForecastParser.IsoDateFromJstDateTime | scripts/jmcPrefectureForecastParser.mjs:17-23 | succeeds exactly for a non-blank string whose first ten characters are a `dddd-dd-dd` date, returning them; otherwise fails with the "expected non-empty string" or "expected JST datetime" message |
| JmcForecastParser.IsoDateOfDateTime | scripts/jmcPrefectureForecastParser.mjs:17-23 | a date followed by any time part reads as that date |
| JmcForecastParser.OptionalJstDate | scripts/jmcPrefectureForecastParser.mjs:43-54 | a falsy value gives no date; a truthy one gives the date `isoDateFromJstDateTime` reads, or its error |
| JmcForecastParser.ParseRow | scripts/jmcPrefectureForecastParser.mjs:38-57 | a row that is not an object, or lacks a non-blank code or name, fails with its message in that order; otherwise the first date error, then the second, is the result, and with both dates read the row parses; a parsed point has the row's code and name, and each date is exactly what reading its datetime gives (none when it is falsy, the ISO date otherwise) |
| JmcForecastParser.ParseJmcPrefectureForecastJson | scripts/jmcPrefectureForecastParser.mjs:25-60 | a non-object root, a missing `result_list`, a bad update datetime and a missing `jr_data` array fail with their messages in that order; past those, parsing succeeds exactly when every row parses, and otherwise fails with the first bad row's error; on success the forecast date is the update datetime's date and the points are the parsed rows of `jr_data` |
| JmcForecastParser.ParsedForecastIsWellFormed | scripts/jmcPrefectureForecastParser.mjs:25-60 | a parsed forecast has an ISO date and one point per row, each with a non-blank code and name and ISO dates |
| JmcForecastParser.FirstWithCode | scripts/jmcPrefectureForecastParser.mjs:66 | nothing exactly when no point has the code; otherwise the first point with it |
| JmcForecastParser.WithName | scripts/jmcPrefectureForecastParser.mjs:72 | the points named `name`, and only those; it is a subsequence of the input (order kept) and as long as the number of such elements, which together fix it as the filter (`Sequences.FilterDetermined`) |
| JmcForecastParser.WithNameIsFilter | scripts/jmcPrefectureForecastParser.mjs:72 | the recursive name filter equals the generic filter, so each named point occurs as often as in the list |
| JmcForecastParser.WithNameSingle | scripts/jmcPrefectureForecastParser.mjs:72-77 | exactly one point carries the name exactly when one index holds it alone, and the filter is then that point |
| JmcForecastParser.FindJmcPointForSpot | scripts/jmcPrefectureForecastParser.mjs:62-78 | a non-blank code finds the first point with that code or fails with "Missing ... point code"; otherwise a missing name fails, and a name finds a point exactly when exactly one point carries it, failing otherwise with "Expected 1 ... point named ..., got n" where n counts the points with that name |
| JmcForecastIndex.IndexRow | scripts/update-spots-predict-jmc.mjs:124-139 | a row that is not an object, or lacks a non-blank code or name, fails with its message in that order; a code seen before fails with the duplicate-code message; an unseen code yields the first date error, else the second, else an indexed point; that point is new, has the row's code and name, and each date is exactly what reading its datetime gives |
| JmcForecastIndex.IndexedPoints | scripts/update-spots-predict-jmc.mjs:124-151 | an indexed list has one point per row |
| JmcForecastIndex.ByCode | scripts/update-spots-predict-jmc.mjs:146 | the map by code has exactly the points' codes as keys |
| JmcForecastIndex.ForecastRows | scripts/update-spots-predict-jmc.mjs:114-120 | a non-object root, a missing `result_list`, a bad update datetime and a missing `jr_data` array fail with their messages in that order; otherwise the result is the update datetime's date and the `jr_data` rows |
| JmcForecastIndex.IndexJmcPrefectureForecast | scripts/update-spots-predict-jmc.mjs:110-154 | the indexing loop of `fetchJmcPrefectureForecast` gives the index `ForecastIndexOf` describes: the points by code and by name, or the first error |
| JmcForecastIndex.IndexStep | scripts/update-spots-predict-jmc.mjs:124-151 | one row either fails the whole index with its error or adds its point to the list, sets it under its code and appends it under its name |
| JmcForecastIndex.IndexedPrefixErr | scripts/update-spots-predict-jmc.mjs:124-131 | an error in the first rows is the error of the whole list |
| JmcForecastIndex.IndexedRows | scripts/update-spots-predict-jmc.mjs:124-151 | every point of an indexed list is its row's point, read against the codes before it |
| JmcForecastIndex.IndexedDistinctCodes | scripts/update-spots-predict-jmc.mjs:129-131 | an indexed list has distinct codes, each the code of its row |
| JmcForecastIndex.DuplicateCodeRejected | scripts/update-spots-predict-jmc.mjs:129-131 | two rows with the same non-blank code make indexing fail |
| JmcForecastIndex.ByCodeLookup | scripts/update-spots-predict-jmc.mjs:146 | with distinct codes the map holds each point under its code, and what it holds is the first point with that code, as the parser's lookup finds it |
| JmcForecastIndex.WithNameAppend | scripts/update-spots-predict-jmc.mjs:148-150 | appending a point adds it to the points of its name only |
| JmcForecastIndex.ByNameIsFilter | scripts/update-spots-predict-jmc.mjs:148-150 | the list stored under a name is the points with that name, in row order, as the parser's filter gives |
| WeathernewsForecastParser.EscapeRegExp | scripts/weathernewsSpotForecastParser.mjs:1-3 | the escaped text is at least as long and keeps every ordinary character |
| WeathernewsForecastParser.EscapedIsLiteral | scripts/weathernewsSpotForecastParser.mjs:1-3 | the escaped text, read as a pattern, matches exactly the original text |
| WeathernewsForecastParser.ExtractYearFromTitle | scripts/weathernewsSpotForecastParser.mjs:5-11 | a year exactly when the title holds four digits between 2000 and 2100, and it is their value |
| WeathernewsForecastParser.MonthDayAt | scripts/weathernewsSpotForecastParser.mjs:14 | no match at a position exactly when no one- or two-digit month and day with 月 and 日 start there; otherwise their values |
| WeathernewsForecastParser.FirstMonthDay | scripts/weathernewsSpotForecastParser.mjs:14 | the match at the leftmost position where one starts, or nothing when none does |
| WeathernewsForecastParser.ParseMonthDay | scripts/weathernewsSpotForecastParser.mjs:13-23 | the leftmost month-day match, kept only when the month is 1 to 12 and the day 1 to 31 |
| WeathernewsForecastParser.ToIsoDateRoundTrip | scripts/weathernewsSpotForecastParser.mjs:25-27 | `toIsoDate` gives a `dddd-dd-dd` string whose parts read back as the year, month and day |
| WeathernewsForecastParser.BlockDate | scripts/weathernewsSpotForecastParser.mjs:55-76 | a block gives a date exactly when its text was captured and holds a valid month and day |
| WeathernewsForecastParser.ParseWeathernewsSpotForecastHtml | scripts/weathernewsSpotForecastParser.mjs:46-87 | nothing for an empty page or a page without a valid title year; otherwise the four block dates in that year, and nothing when none of first bloom, full bloom and fubuki is found |
| WeathernewsForecastParser.BlockDateIsIsoDate | scripts/weathernewsSpotForecastParser.mjs:55-76 | a block date is an ISO date carrying the title's year and the block's month and day |
| WeathernewsForecastParser.ParsedPredictionIsValid | scripts/weathernewsSpotForecastParser.mjs:78-86 | every prediction the parser returns meets the prediction schema |
| AddJmcSources.StripDropped | scripts/add-jmc-sources-to-spots.mjs:28-33 | the result keeps none of the characters the replacements drop; it is a subsequence of the input (order kept) and as long as the number of such elements, which together fix it as the filter (`Sequences.FilterDetermined`) |
| AddJmcSources.StripDroppedIsFilter | scripts/add-jmc-sources-to-spots.mjs:28-33 | stripping equals the generic filter on kept characters, so each kept character occurs as often as in the text, in its order |
| AddJmcSources.StripDroppedNoop | scripts/add-jmc-sources-to-spots.mjs:28-33 | a text without such characters is left unchanged |
| AddJmcSources.NormalizeName | scripts/add-jmc-sources-to-spots.mjs:25-35 | a missing or blank value normalises to the empty name |
| AddJmcSources.NormalizedNameChars | scripts/add-jmc-sources-to-spots.mjs:25-35 | a normalised name holds no whitespace, no dropped punctuation and no small ヶ |
| AddJmcSources.NormalizeNormalName | scripts/add-jmc-sources-to-spots.mjs:25-35 | a non-empty name already in normal form is kept unchanged |
| AddJmcSources.NormalizeNameIdempotent | scripts/add-jmc-sources-to-spots.mjs:25-35 | normalising a normalised name changes nothing |
| AddJmcSources.MatchPointOf | scripts/add-jmc-sources-to-spots.mjs:99-105 | a point read from a `jr_data` row keeps its code, name and position, and its normalised name is `normalizeName` of the name: only normal characters, and normalising it again changes nothing |
| AddJmcSources.Candidates | scripts/add-jmc-sources-to-spots.mjs:141-143 | the candidates are exactly the points whose normalised name contains the spot's or is contained in it; it is a subsequence of the input (order kept) and as long as the number of such elements, which together fix it as the filter (`Sequences.FilterDetermined`) |
| AddJmcSources.WithSpecies | scripts/add-jmc-sources-to-spots.mjs:159-162 | exactly the candidates whose name contains a non-blank species of the spot; it is a subsequence of the input (order kept) and as long as the number of such elements, which together fix it as the filter (`Sequences.FilterDetermined`) |
| AddJmcSources.FindUniqueMatch | scripts/add-jmc-sources-to-spots.mjs:137-176 | no match for an empty normalised name or no candidate; one candidate within the distance limit is a unique match with its distance, one too far none; among several candidates, one species match within the limit is a species match with its distance, one too far none; otherwise the result is ambiguous and lists all candidates |
| AddJmcSources.MatchIsPlausible | scripts/add-jmc-sources-to-spots.mjs:137-176 | a matched point is one of the points, its name overlaps the spot's and it lies within the limit; every ambiguous candidate overlaps the spot's name |
| AddJmcSources.NoNearCandidateNoMatch | scripts/add-jmc-sources-to-spots.mjs:145-156 | when no overlapping point lies within the limit and there is at most one candidate, nothing matches |
| AddJmcSources.DesiredEntries | scripts/add-jmc-sources-to-spots.mjs:113-118 | the desired entries are, in order, label "jmc", the page address and the point's code, then the point's name exactly when it differs from the spot's `name_ja`; the keys are distinct |
| AddJmcSources.ApplyEntriesMeaning | scripts/add-jmc-sources-to-spots.mjs:125-134 | after the update loop every desired entry holds, extra fields are kept, no other key appears, and it reports a change exactly when some entry did not hold |
| AddJmcSources.ApplyEntriesAgain | scripts/add-jmc-sources-to-spots.mjs:125-134 | running the update loop again changes nothing and reports no change |
| AddJmcSources.SpotRecord.constructor | scripts/add-jmc-sources-to-spots.mjs:218 | a spot record holds the spot's fields |
| AddJmcSources.SpotRecord.UpsertJmcSource | scripts/add-jmc-sources-to-spots.mjs:109-135 | `upsertJmcSource` updates the spot as `UpsertSpec` describes and returns whether it changed |
| AddJmcSources.UpsertTouchesOnlySources | scripts/add-jmc-sources-to-spots.mjs:109-135 | only the spot's `sources` changes, and it is an array afterwards |
| AddJmcSources.UpsertAppends | scripts/add-jmc-sources-to-spots.mjs:120-123 | without a jmc source the desired source is appended and a change is reported |
| AddJmcSources.UpsertOverwrites | scripts/add-jmc-sources-to-spots.mjs:125-134 | with a jmc source only the first one changes: it takes every desired entry and keeps its extra fields, and a change is reported exactly when some entry differed |
| AddJmcSources.UpsertIdempotent | scripts/add-jmc-sources-to-spots.mjs:109-135 | a second upsert with the same match changes nothing and reports no change |
| AddJmcSources.UpsertNoop | scripts/add-jmc-sources-to-spots.mjs:125-134 | when the first jmc source already holds every desired entry, the spot is left as it is and no change is reported |
| UpdateSpotsPredictJmc.NormalizePredictSources | scripts/update-spots-predict-jmc.mjs:73-93 | an absent or null value gives nothing; a non-object fails, then a non-object `weathernews`, then a non-object `jmc`, each with its message; otherwise the two sources that are present, or nothing when neither is |
| UpdateSpotsPredictJmc.NormalizeEncoded | scripts/update-spots-predict-jmc.mjs:73-93 | a valid pair of sources written as an object normalises back to itself |
| UpdateSpotsPredictJmc.TrimmedName | scripts/update-spots-predict-jmc.mjs:205-207 | the trimmed name is non-blank, has no surrounding whitespace, and trimming it again changes nothing |
| UpdateSpotsPredictJmc.ReadSpotRow | scripts/update-spots-predict-jmc.mjs:197-211 | a non-object spot and a blank id fail with their messages; otherwise the row has the spot's id, whether it has a jmc source, the source's non-blank code, and as name the source's trimmed name, else the spot's trimmed `name_ja` when non-blank |
| UpdateSpotsPredictJmc.ReadSpotRows | scripts/update-spots-predict-jmc.mjs:197-211 | the rows are read exactly when every spot is an object with a non-blank id, one row per spot carrying its id and whether it has a jmc source |
| UpdateSpotsPredictJmc.WithJmcSource | scripts/update-spots-predict-jmc.mjs:213-214 | exactly the rows with a jmc source; it is empty exactly when no fetch is needed; it is a subsequence of the input (order kept) and as long as the number of such elements, which together fix it as the filter (`Sequences.FilterDetermined`) |
| UpdateSpotsPredictJmc.WithJmcSourceIsFilter | scripts/update-spots-predict-jmc.mjs:213-214 | the recursive filter equals the generic filter, so each row with a jmc source occurs as often as in the input |
| UpdateSpotsPredictJmc.TruthyDate | scripts/update-spots-predict-jmc.mjs:159-160 | a date is kept exactly when it is a non-empty string |
| UpdateSpotsPredictJmc.BuildJmcSpotPrediction | scripts/update-spots-predict-jmc.mjs:156-169 | fails with "JMC prediction object is empty" exactly when neither the forecast date nor a truthy bloom date is non-blank; otherwise the forecast date with the truthy bloom dates |
| UpdateSpotsPredictJmc.JmcPredictionIsValid | scripts/update-spots-predict-jmc.mjs:156-169 | with ISO dates the prediction is built, meets the prediction schema and survives being written and read back |
| UpdateSpotsPredictJmc.LookupPoint | scripts/update-spots-predict-jmc.mjs:239-255 | a truthy code finds its point in the code index or fails with "Missing JMC point code"; without a code a missing name fails; a name finds a point exactly when exactly one point has it |
| UpdateSpotsPredictJmc.LookupAgreesWithParser | scripts/update-spots-predict-jmc.mjs:239-255 | over a well-formed index the script's lookup succeeds exactly when the parser's `findJmcPointForSpot` does (scripts/jmcPrefectureForecastParser.mjs:62-78), and with the same point |
| UpdateSpotsPredictJmc.LookupByCodeAgrees | scripts/update-spots-predict-jmc.mjs:241-246 | the same agreement for a row with a code |
| UpdateSpotsPredictJmc.LookupByNameAgrees | scripts/update-spots-predict-jmc.mjs:247-255 | the same agreement for a row with a name and no code |
| UpdateSpotsPredictJmc.CollectJmcPredictions | scripts/update-spots-predict-jmc.mjs:236-263 | the collecting loop gives what `CollectedPredictions` describes: each row's prediction under its id, or the first error |
| UpdateSpotsPredictJmc.CollectedPrefixErr | scripts/update-spots-predict-jmc.mjs:238-262 | an error in the first rows is the error of the whole loop |
| UpdateSpotsPredictJmc.CollectedStep | scripts/update-spots-predict-jmc.mjs:238-262 | one more row either fails with its error or sets its prediction under its id |
| UpdateSpotsPredictJmc.CollectedOk | scripts/update-spots-predict-jmc.mjs:238-262 | collecting succeeds exactly when every row's prediction can be built |
| UpdateSpotsPredictJmc.CollectedKeys | scripts/update-spots-predict-jmc.mjs:261 | a successful collection has exactly the rows' ids as keys |
| UpdateSpotsPredictJmc.CollectedLastWins | scripts/update-spots-predict-jmc.mjs:261 | the prediction kept for an id is that of its last row |
| UpdateSpotsPredictJmc.MergeSpot | scripts/update-spots-predict-jmc.mjs:265-282 | the output entry keeps the existing weathernews prediction; its jmc prediction is the existing one after a failure, otherwise the new one or none; after a failure the entry is exactly the existing one |
| UpdateSpotsPredictJmc.MergeAll | scripts/update-spots-predict-jmc.mjs:265-282 | one merged entry per row, in order |
| UpdateSpotsPredictJmc.ExistingEntry | scripts/update-spots-predict-jmc.mjs:186-193 | a non-object entry and a blank id fail with their messages; otherwise the entry's id and its normalised sources |
| UpdateSpotsPredictJmc.ExistingPredicts | scripts/update-spots-predict-jmc.mjs:186-194 | every existing prediction that is read is a valid pair of sources |
| UpdateSpotsPredictJmc.ExistingPredictsOf | scripts/update-spots-predict-jmc.mjs:181-195 | no existing file gives no existing predictions; what is read is valid |
| UpdateSpotsPredictJmc.ReadExistingPredicts | scripts/update-spots-predict-jmc.mjs:181-195 | reading the existing file gives what `ExistingPredictsOf` describes |
| UpdateSpotsPredictJmc.ReadExistingSpots | scripts/update-spots-predict-jmc.mjs:186-194 | the loop over the existing entries gives what `ExistingPredicts` describes |
| UpdateSpotsPredictJmc.AddExisting | scripts/update-spots-predict-jmc.mjs:187-193 | one pass: the entry's error, or its sources set under its id when it has any |
| UpdateSpotsPredictJmc.ExistingExtend | scripts/update-spots-predict-jmc.mjs:186-194 | reading one more entry fails with its error or adds its sources under its id |
| UpdateSpotsPredictJmc.ExistingPrefixErr | scripts/update-spots-predict-jmc.mjs:186-194 | an error in the first entries is the error of the whole loop |
| UpdateSpotsPredictJmc.SourceFileOf | scripts/update-spots-predict-jmc.mjs:172-179 | a non-object root fails with its message; reading succeeds exactly when the root holds a `prefecture` object with an integer id and a non-blank Japanese name, and a `spots` array; the result carries that id and name, the non-blank English name if any, and the `spots` items |
| UpdateSpotsPredictJmc.FetchStage | scripts/update-spots-predict-jmc.mjs:216-234 | without a jmc spot nothing is fetched and nothing fails; a fetched forecast is indexed, and a rejected one counts as a failure; a failed fetch counts as a failure except a 400 for Okinawa (47) |
| UpdateSpotsPredictJmc.BuildPrefecturePredictFile | scripts/update-spots-predict-jmc.mjs:171-296 | `buildPrefecturePredictFile` gives what `BuildSpec` describes |
| UpdateSpotsPredictJmc.AssembleFile | scripts/update-spots-predict-jmc.mjs:213-295 | the stages after reading give what `Assemble` describes |
| UpdateSpotsPredictJmc.BuildReads | scripts/update-spots-predict-jmc.mjs:171-296 | a successful build read the spots file, the existing file and every spot row, and its outcome is the assembly of those |
| UpdateSpotsPredictJmc.AssembleKeepsSpots | scripts/update-spots-predict-jmc.mjs:265-295 | the output keeps the prefecture and one entry per spot with its id and its existing weathernews prediction; after a failure every entry is the existing one |
| UpdateSpotsPredictJmc.NoJmcSpotsNoFetch | scripts/update-spots-predict-jmc.mjs:213-219 | without a jmc spot the fetch outcome does not matter, nothing fails, nothing is updated and no entry has a jmc prediction |
| UpdateSpotsPredictJmc.FailedFetchOutcome | scripts/update-spots-predict-jmc.mjs:219-234 | a failed fetch updates nothing and is a failure exactly unless it is Okinawa's 400 |
| UpdateSpotsPredictJmc.RejectedForecastOutcome | scripts/update-spots-predict-jmc.mjs:219-234 | a forecast the index rejects is a failure that updates nothing |
| UpdateSpotsPredictJmc.CombineWithoutForecast | scripts/update-spots-predict-jmc.mjs:236-295 | without a forecast the entries are merged with no new predictions and nothing is updated |
| UpdateSpotsPredictJmc.FetchedSucceeds | scripts/update-spots-predict-jmc.mjs:236-263 | with a forecast the build succeeds exactly when every jmc spot's prediction can be built |
| UpdateSpotsPredictJmc.FetchedOutcome | scripts/update-spots-predict-jmc.mjs:236-295 | after a successful fetch nothing failed, the updated count is the number of distinct jmc spot ids, and an entry has a jmc prediction exactly when its spot has a jmc source |
| UpdateSpotsPredictJmc.IndexedForecastStage | scripts/update-spots-predict-jmc.mjs:219-263 | a fetched forecast that indexes is combined as that index, with no failure |
| ExportJmcMappingLists.AsTsvCell | scripts/export-jmc-mapping-lists.mjs:32-35 | a missing value becomes the empty cell; otherwise the cell has the value's length, every tab and newline replaced by a space and every other character kept, so no cell holds a tab or newline |
| ExportJmcMappingLists.AsTsvCellPlain | scripts/export-jmc-mapping-lists.mjs:32-35 | a value without tabs or newlines is written unchanged |
| ExportJmcMappingLists.RowLines | scripts/export-jmc-mapping-lists.mjs:38 | one line per row, each the row's cells joined by tabs |
| ExportJmcMappingLists.BuildTsv | scripts/export-jmc-mapping-lists.mjs:37-39 | the text starts with the header and a newline and ends with a newline |
| ExportJmcMappingLists.TsvRoundTrip | scripts/export-jmc-mapping-lists.mjs:37-39 | splitting the body of a TSV built from escaped rows at newlines and each line at tabs gives back exactly the rows |
| ExportJmcMappingLists.TrimmedOrEmpty | scripts/export-jmc-mapping-lists.mjs:104-112 | a non-blank string field is trimmed; anything else gives the empty string |
| ExportJmcMappingLists.ExportSpotLine | scripts/export-jmc-mapping-lists.mjs:100-127 | a spot that is not an object, or has no non-blank id, is an error with the source's message and only those are; otherwise six escaped cells: the id, the trimmed name_ja, city_ja and address_ja (empty when absent), the JMC code and the trimmed JMC name of the spot's first JMC source |
| ExportJmcMappingLists.SpotCells | scripts/export-jmc-mapping-lists.mjs:120-127 | six escaped cells holding, in order, the id, name, city, address, JMC code and JMC name |
| ExportJmcMappingLists.EscapeCells | scripts/export-jmc-mapping-lists.mjs:120-127 | each value is escaped in place as a TSV cell |
| ExportJmcMappingLists.ExportSpotLines | scripts/export-jmc-mapping-lists.mjs:99-128 | the loop over the spots returns exactly the rows and used-code list of the specification, or its first error |
| ExportJmcMappingLists.AddSpotLine | scripts/export-jmc-mapping-lists.mjs:100-127 | one spot appends its row and adds its non-empty code to the used codes, or fails with the spot's error |
| ExportJmcMappingLists.SpotLinesPrefixErr | scripts/export-jmc-mapping-lists.mjs:100-102 | once a spot fails the whole list fails with that error |
| ExportJmcMappingLists.SpotLinesStep | scripts/export-jmc-mapping-lists.mjs:99-128 | the rows of n+1 spots are those of the first n plus the last spot's row |
| ExportJmcMappingLists.SpotLinesExtend | scripts/export-jmc-mapping-lists.mjs:99-128 | a successful prefix extends by one spot as the loop body does |
| ExportJmcMappingLists.SpotLinesUsedStep | scripts/export-jmc-mapping-lists.mjs:118 | the used codes after a spot are those before it with the spot's code added |
| ExportJmcMappingLists.SpotLinesRows | scripts/export-jmc-mapping-lists.mjs:100-128 | a successful export has one escaped row per spot |
| ExportJmcMappingLists.SpotCodes | scripts/export-jmc-mapping-lists.mjs:114-115 | the JMC code of each spot, position by position |
| ExportJmcMappingLists.AddCodesMeaning | scripts/export-jmc-mapping-lists.mjs:99-118 | the set-like list of used codes has no repeats and holds exactly the non-empty codes |
| ExportJmcMappingLists.SpotLinesUsedCodes | scripts/export-jmc-mapping-lists.mjs:99-128 | the used codes of a successful export are the spots' codes added in order |
| ExportJmcMappingLists.SpotLinesUsed | scripts/export-jmc-mapping-lists.mjs:99-128 | the used codes have no repeats and are exactly the non-empty JMC codes of the spots |
| ExportJmcMappingLists.ReadJmcListSpot | scripts/export-jmc-mapping-lists.mjs:152-155 | a JMC list entry is accepted exactly when it is an object with non-blank code and name_ja, and then carries those two strings |
| ExportJmcMappingLists.ReadJmcList | scripts/export-jmc-mapping-lists.mjs:152-160 | the JMC list is read exactly when every entry passes its checks, one point per entry in order; otherwise the first failing entry's error |
| ExportJmcMappingLists.JmcLine | scripts/export-jmc-mapping-lists.mjs:156-160 | three escaped cells whose third is "yes" exactly when a spot uses the code and "no" exactly when none does |
| ExportJmcMappingLists.JmcLines | scripts/export-jmc-mapping-lists.mjs:152-161 | one JMC TSV line per point, in list order |
| ExportJmcMappingLists.UnmappedCodes | scripts/export-jmc-mapping-lists.mjs:167 | exactly the JMC points whose code no spot uses; it is a subsequence of the input (order kept) and as long as the number of such elements, which together fix it as the filter (`Sequences.FilterDetermined`) |
| ExportJmcMappingLists.ExtraCodes | scripts/export-jmc-mapping-lists.mjs:166-168 | exactly the used codes that the prefecture's JMC list lacks; it is a subsequence of the input (order kept) and as long as the number of such elements, which together fix it as the filter (`Sequences.FilterDetermined`); the used codes are in the order spots first used them |
| Sequences.Filter | scripts/export-jmc-mapping-lists.mjs:167-168 | `filter`: the elements satisfying the predicate, each in the input, every satisfying element present, in input order, as many as the input has |
| Sequences.FilterMultiset | scripts/export-jmc-mapping-lists.mjs:167-168 | a filtered list holds each element satisfying the predicate exactly as often as the input, and no other element |
| Sequences.FilterDetermined | scripts/export-jmc-mapping-lists.mjs:167-168 | the contract of the filter fixes its result: a subsequence of the input made of satisfying elements and as long as their count is the filter |
| Sequences.CountWhereExtremes | scripts/export-jmc-mapping-lists.mjs:175 | no element counts exactly when none satisfies the predicate, all count exactly when all do |
| ExportJmcMappingLists.MappingPartition | scripts/export-jmc-mapping-lists.mjs:159-168 | a JMC point's list says "yes" exactly when it is not reported unmapped; a used code is in the JMC list exactly when it is not reported extra |
| ExportJmcMappingLists.CountWithJmc | scripts/export-jmc-mapping-lists.mjs:175 | the count is the number of spots with a JMC source, counted spot by spot; it is 0 exactly when no spot has one and the number of spots exactly when all have one |
| ExportJmcMappingLists.SortReportRows | scripts/export-jmc-mapping-lists.mjs:183 | the report rows are a permutation of the input ordered by prefecture id |
| ExportJmcMappingLists.SortReportRowsStable | scripts/export-jmc-mapping-lists.mjs:183 | rows of one prefecture id keep their relative order |
| ExportJmcMappingLists.ExportPrefecture | scripts/export-jmc-mapping-lists.mjs:91-180 | the export succeeds exactly when the spot lines and every JMC list entry are read, failing with the first error in that order; the spots TSV is built from the spot lines, the JMC TSV from one `JmcLine` per JMC point, and the report row carries the prefecture, the file name, the spot and JMC counts, the number of used codes and the unmapped and extra lists |
| ExportJmcMappingLists.ExportCounts | scripts/export-jmc-mapping-lists.mjs:166-180 | the mapped count is the number of distinct JMC codes the spots use, unmapped points have unused codes, extra codes are used ones |
| ExportJmcMappingLists.TsvNameAsWrittenKeepsYml | scripts/export-jmc-mapping-lists.mjs:130 | the output-name pattern as written needs a backslash before `yml`, so any file name without a backslash, "01.yml" included, is not renamed and the lists keep the `.yml` name |
| MigratePredictWeathernews.IndentWidth | scripts/migrate-spots-predict-weathernews.mjs:14-17 | the leading run is white space and is followed by a non-white character or the end of the line |
| MigratePredictWeathernews.Spaces | scripts/migrate-spots-predict-weathernews.mjs:48 | n spaces |
| MigratePredictWeathernews.EndsBlockMeaning | scripts/migrate-spots-predict-weathernews.mjs:64-66 | a line ends a block exactly when it is not blank after trimming and is indented no deeper than `predict:` |
| MigratePredictWeathernews.BlockEnd | scripts/migrate-spots-predict-weathernews.mjs:63-71 | the end of a block lies between its first line and the end of the file |
| MigratePredictWeathernews.BlockEndMeaning | scripts/migrate-spots-predict-weathernews.mjs:63-71 | no line before the block's end ends it, and the line at the end (if any) does |
| MigratePredictWeathernews.IndentAll | scripts/migrate-spots-predict-weathernews.mjs:70 | every block line, in order, moved two spaces right |
| MigratePredictWeathernews.MigrateFrom | scripts/migrate-spots-predict-weathernews.mjs:31-72 | a successful migration writes each input line once, plus one `weathernews:` line per migrated block |
| MigratePredictWeathernews.NoMigrationCopies | scripts/migrate-spots-predict-weathernews.mjs:31-72 | with no block migrated, the output lines are the input lines |
| MigratePredictWeathernews.UnchangedTextKept | scripts/migrate-spots-predict-weathernews.mjs:115-121 | a migration reporting no change returns the file's text as it was, so not writing it loses nothing |
| MigratePredictWeathernews.MigratedLinesKept | scripts/migrate-spots-predict-weathernews.mjs:42-49 | lines whose every `predict:` is already followed by its `weathernews:` line are copied without error or migration |
| MigratePredictWeathernews.MigratedFileKept | scripts/migrate-spots-predict-weathernews.mjs:26-75 | a file already in the new layout (no legacy block) is reported unchanged with its own text; this is not idempotence in general, since a legacy block holding a nested `predict:` line migrates to a file the next run rejects |
| MigratePredictWeathernews.AfterPrepend | scripts/migrate-spots-predict-weathernews.mjs:28-40 | output gathered before a line and the line's own output combine in order |
| MigratePredictWeathernews.CopyStep | scripts/migrate-spots-predict-weathernews.mjs:34-49 | a line that is not `predict:`, or is followed by its `weathernews:` line, is copied as it is |
| MigratePredictWeathernews.BlockStep | scripts/migrate-spots-predict-weathernews.mjs:59-71 | a legacy block becomes the `predict:` line, the `weathernews:` line and the block's lines indented, up to the line that ends it |
| MigratePredictWeathernews.ScanBlock | scripts/migrate-spots-predict-weathernews.mjs:62-71 | the inner loop stops at the block's end and returns its lines indented |
| MigratePredictWeathernews.MigrateLine | scripts/migrate-spots-predict-weathernews.mjs:31-72 | one pass of the outer loop advances past the line and writes what the specification writes for it, or fails with the specification's error (EOF after `predict:`, or a line after it that is neither `weathernews:` nor a legacy key) |
| MigratePredictWeathernews.MigratePredictBlocks | scripts/migrate-spots-predict-weathernews.mjs:26-75 | the method returns exactly the specification's result |
| SpotSources.SourcesOf | scripts/export-jmc-mapping-lists.mjs:23 | the spot's `sources` array when it is one, and no sources otherwise |
| SpotSources.FirstJmcSource | scripts/export-jmc-mapping-lists.mjs:22-30 | none exactly when no source is a JMC object; otherwise the first JMC source's index |
| SpotSources.FindSpotJmcSource | scripts/update-spots-predict-jmc.mjs:95-103 | none exactly when no source is a JMC object; otherwise the first source that is one |
| SpotSources.NonBlankField | scripts/export-jmc-mapping-lists.mjs:115 | a value exactly when the object is present and the field is a non-blank string, and then that string |
| JsText.Trim | scripts/update-spots-predict-jmc.mjs:13-15 | the result is a piece of the input with only white space around it, and neither starts nor ends with white space |
| JsText.TrimEmptyIffAllWhitespace | scripts/update-spots-predict-jmc.mjs:13-15 | trimming gives the empty string exactly when the input is all white space |
| JsText.TrimIdempotent | scripts/export-jmc-mapping-lists.mjs:104 | trimming twice is trimming once |
| JsText.TrimNoWhitespace | scripts/add-jmc-sources-to-spots.mjs:34 | a string without white space is its own trim |
| JsText.NonBlankIffSomeNonWhitespace | scripts/update-spots-predict-jmc.mjs:13-15 | a string is non-blank exactly when some character is not white space |
| JsText.NatToDecimal | scripts/weathernewsSpotForecastParser.mjs:26 | a digit string without a leading zero whose value is the number |
| JsText.PadStart | scripts/weathernewsSpotForecastParser.mjs:26 | the input ends the result, preceded by fill characters up to the width |
| JsText.ZeroPaddedNumeral | scripts/weathernewsSpotForecastParser.mjs:26 | a number below 10^w padded to width w is w digits whose value is the number |
| JsText.ReplaceChar | scripts/export-jmc-mapping-lists.mjs:34 | same length, each occurrence of the character replaced and every other character kept |
| JsText.Split | scripts/migrate-spots-predict-weathernews.mjs:27 | at least one part, none holding the separator |
| JsText.JoinSplit | scripts/migrate-spots-predict-weathernews.mjs:27-74 | joining the parts of a split gives back the text |
| JsText.SplitJoin | scripts/migrate-spots-predict-weathernews.mjs:27-74 | splitting a join of separator-free parts gives back the parts |

## Left out

- Network access: `fetchJsonWithRetry`, `fetchTextWithRetry` and their back-off, the topojson fetch and the promise cache of the spot loader. A fetch result is an input (`UpdateSpotsPredictJmc.FetchOutcome`, the JMC points in `AddJmcSources`).
- The file system and every script's `main`: directory listings, the 47-file count checks, reading and writing files, console output and exit codes. Each script is modelled per file or per prefecture, on text or parsed values.
- The JMC index checks in the export's `main` and the header lines of the two TSV files: the headers are parameters of `ExportJmcMappingLists.ExportPrefecture`.
- The export's output file names (scripts/export-jmc-mapping-lists.mjs:130,163) are file handling. `ExportJmcMappingLists.TsvNameAsWrittenKeepsYml` records that the pattern as written does not rename `.yml` names.
- The report's markdown text (scripts/export-jmc-mapping-lists.mjs:184-206): only the report rows and their order are modelled.
- `validatePredictFile` of the migration script: it re-parses the YAML, which is not modelled.
- YAML parsing and stringifying and the zod runtime. The parsed document is an input. A schema failure keeps only the "Invalid YAML schema in <path>" prefix of the message, not zod's issue text.
- The regular expressions that find the Weathernews title year and the dt/dd blocks: their captures are inputs. The month/day pattern, range checks and date formatting are modelled.
- `Math.hypot`, `Math.exp` (the momentum decay and wheel scale) and the haversine distance are functions passed in, with only the ranges the code relies on.
- The `Number.isFinite` checks: in exact reals every value is finite, so only their "not positive" halves remain.
- `requestAnimationFrame` and `performance.now()`: a frame is a method call carrying its timestamp, and a request is a flag.
- Canvas styles and sizing (`devicePixelRatio`), cursor classes, pointer capture, React effects, the popover and carousel. The d3 projection and topojson features are an input function from longitude and latitude to an optional point.
- Click: the spot it picks is reported through the selection callback, which is appended to `selectionLog`. The parent's state and its prop that flows back into `selected` are React glue outside the map, so `Click` never sets `selected` itself.
- animateTransform's early return when the map layer is not mounted: the model always has its layer.
- `String()` of values that are not strings or naturals, and the key order of JavaScript objects: objects are maps.
- JavaScript's UTF-16 strings: strings are sequences of Unicode scalar values, and white space is the `\s`/`trim` set of ECMA-262.
- scripts/scrape-jmc-prefecture-spots.mjs, scripts/update-spots-predict-weathernews.mjs and scripts/build-spots-json.mjs are not part of this model (I/O, concurrency, or a copy of the dataset logic).
