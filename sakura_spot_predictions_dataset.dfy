/** Assembling the bloom predictions from the prefecture predict files: each file is checked
    against the predict-file schema, a spot id seen twice is an error, and every spot that has
    a prediction contributes an entry to a map keyed by spot id. The map is then merged into
    the spot list. */
module SakuraSpotPredictionsDataset {
  import opened Wrappers
  import opened YamlSource
  import opened SakuraSpotPredictSchema
  import opened SakuraSpots
  import opened Sequences

  /** `parseSakuraPrefecturePredictFileYaml`: the parsed document checked against the predict
      file schema. Whatever it accepts is a valid predict file. */
  function ReadPredictFile(filePath: string, parsed: ParsedYaml): (f: SourceFile<PredictFile>)
    ensures f.filePath == filePath
    ensures f.outcome.Decoded? ==> ValidPredictFile(f.outcome.data)
    ensures f.outcome.Decoded? <==> parsed.Parsed? && DecodePredictFile(parsed.doc).Some?
  {
    SourceFile(filePath, ReadYaml(parsed, DecodePredictFile))
  }

  /** The spot entries of all files, in file order and then in order within a file. */
  function EntriesOf(pfs: seq<PredictFile>): seq<PredictSpot> {
    if |pfs| == 0 then [] else EntriesOf(pfs[..|pfs| - 1]) + pfs[|pfs| - 1].spots
  }

  function EntryIds(entries: seq<PredictSpot>): (ids: seq<string>)
    ensures |ids| == |entries|
    ensures forall k :: 0 <= k < |entries| ==> ids[k] == entries[k].id
  {
    seq(|entries|, k requires 0 <= k < |entries| => entries[k].id)
  }

  /** The map the entries produce, read in order: an entry with a prediction sets its id. */
  function PredictionMap(entries: seq<PredictSpot>): map<string, PredictSources> {
    if |entries| == 0 then map[]
    else
      var last := entries[|entries| - 1];
      var m := PredictionMap(entries[..|entries| - 1]);
      if last.predict.Some? then m[last.id := last.predict.value] else m
  }

  /** `buildSakuraSpotPredictionsMap`. On success the result is the map the entries of all files
      produce. The first file that cannot be read is reported; a duplicate id is reported only
      when it really repeats, and without repeats (and with every file readable) the build
      succeeds. As in the spot build, a repeat whose first occurrence has an empty file path
      goes unnoticed; with non-empty paths the ids are distinct on success. */
  method BuildSakuraSpotPredictionsMap(files: seq<SourceFile<PredictFile>>) returns (r: Result<map<string, PredictSources>, DatasetError>)
    ensures r.Ok? ==> AllRead(files) && r.value == PredictionMap(EntriesOf(AllData(files)))
    ensures r.Ok? && NonEmptyPaths(files) ==> Distinct(EntryIds(EntriesOf(AllData(files))))
    ensures AllRead(files) && Distinct(EntryIds(EntriesOf(AllData(files)))) ==> r.Ok?
    ensures r.Err? && (r.error.YamlError? || r.error.InvalidSchema?) ==> exists i :: FirstUnreadable(files, i, r.error)
    ensures r.Err? && r.error.DuplicateSpotId? ==>
      |r.error.existing| > 0 && exists n :: EntryRepeatWithin(files, n, r.error.filePath, r.error.id)
  {
    var spotIdToFile: map<string, string> := map[];
    var predictions: map<string, PredictSources> := map[];
    for i := 0 to |files|
      invariant AllRead(files[..i])
      invariant predictions == PredictionMap(EntriesOf(AllData(files[..i])))
      invariant forall id :: id in spotIdToFile <==> id in EntryIds(EntriesOf(AllData(files[..i])))
      invariant NonEmptyPaths(files) ==> forall id :: id in spotIdToFile ==> |spotIdToFile[id]| > 0
      invariant NonEmptyPaths(files) ==> Distinct(EntryIds(EntriesOf(AllData(files[..i]))))
    {
      var parsed := FileData(files[i]);
      if parsed.Err? {
        assert FirstUnreadable(files, i, parsed.error);
        return Err(parsed.error);
      }
      var fileData := parsed.value;
      ghost var seen := EntriesOf(AllData(files[..i]));
      ReadPredictOneMore(files, i);
      var duplicate;
      duplicate, spotIdToFile, predictions := AddFileEntries(files[i].filePath, fileData, seen, spotIdToFile, predictions, NonEmptyPaths(files));
      if duplicate.Some? {
        if AllRead(files) {
          EntryDuplicateInAll(files, i + 1);
        }
        assert EntryRepeatWithin(files, i, files[i].filePath, duplicate.value.id);
        return Err(duplicate.value);
      }
    }
    assert files[..|files|] == files;
    return Ok(predictions);
  }

  /** The inner loop of `buildSakuraSpotPredictionsMap` over the entries of one file; `seen`
      are the entries read before. Each id is recorded with the file's path and, when the entry
      has a prediction, mapped to it, unless the id is already recorded with a non-empty path. */
  method AddFileEntries(filePath: string, fileData: PredictFile, ghost seen: seq<PredictSpot>,
                        spotIdToFile0: map<string, string>, predictions0: map<string, PredictSources>, ghost checkPaths: bool)
    returns (duplicate: Option<DatasetError>, spotIdToFile: map<string, string>, predictions: map<string, PredictSources>)
    requires forall id :: id in spotIdToFile0 <==> id in EntryIds(seen)
    requires predictions0 == PredictionMap(seen)
    requires checkPaths ==> |filePath| > 0 && Distinct(EntryIds(seen))
    requires checkPaths ==> forall id :: id in spotIdToFile0 ==> |spotIdToFile0[id]| > 0
    ensures duplicate.None? ==> predictions == PredictionMap(seen + fileData.spots)
    ensures duplicate.None? ==> forall id :: id in spotIdToFile <==> id in EntryIds(seen + fileData.spots)
    ensures duplicate.None? && checkPaths ==> Distinct(EntryIds(seen + fileData.spots))
    ensures duplicate.None? && checkPaths ==> forall id :: id in spotIdToFile ==> |spotIdToFile[id]| > 0
    ensures duplicate.Some? ==> duplicate.value.DuplicateSpotId? && duplicate.value.filePath == filePath
    ensures duplicate.Some? ==> |duplicate.value.existing| > 0
    ensures duplicate.Some? ==> duplicate.value.id in EntryIds(seen + fileData.spots)
    ensures duplicate.Some? ==> !Distinct(EntryIds(seen + fileData.spots))
  {
    spotIdToFile, predictions := spotIdToFile0, predictions0;
    assert seen + fileData.spots[..0] == seen;
    for j := 0 to |fileData.spots|
      invariant forall id :: id in spotIdToFile <==> id in EntryIds(seen + fileData.spots[..j])
      invariant predictions == PredictionMap(seen + fileData.spots[..j])
      invariant checkPaths ==> forall id :: id in spotIdToFile ==> |spotIdToFile[id]| > 0
      invariant checkPaths ==> Distinct(EntryIds(seen + fileData.spots[..j]))
    {
      var spot := fileData.spots[j];
      if spot.id in spotIdToFile && |spotIdToFile[spot.id]| > 0 {
        EntryDuplicateReported(seen, fileData.spots, j);
        return Some(DuplicateSpotId(spot.id, filePath, spotIdToFile[spot.id])), spotIdToFile, predictions;
      }
      AppendEntry(seen, fileData.spots, j);
      if checkPaths {
        DistinctAppend(EntryIds(seen + fileData.spots[..j]), spot.id);
      }
      spotIdToFile := spotIdToFile[spot.id := filePath];
      if spot.predict.Some? {
        predictions := predictions[spot.id := spot.predict.value];
      }
    }
    assert fileData.spots[..|fileData.spots|] == fileData.spots;
    return None, spotIdToFile, predictions;
  }

  /** File `n` is named `filePath`, and `id` repeats among the entries of the files up to it. */
  predicate EntryRepeatWithin(files: seq<SourceFile<PredictFile>>, n: int, filePath: string, id: string) {
    && 0 <= n < |files|
    && files[n].filePath == filePath
    && AllRead(files[..n + 1])
    && id in EntryIds(EntriesOf(AllData(files[..n + 1])))
    && !Distinct(EntryIds(EntriesOf(AllData(files[..n + 1]))))
  }

  lemma ReadPredictOneMore(files: seq<SourceFile<PredictFile>>, i: int)
    requires 0 <= i < |files| && AllRead(files[..i]) && files[i].outcome.Decoded?
    ensures AllRead(files[..i + 1])
    ensures EntriesOf(AllData(files[..i + 1])) == EntriesOf(AllData(files[..i])) + files[i].outcome.data.spots
  {
    assert files[..i + 1][..i] == files[..i];
    var pfs1 := AllData(files[..i + 1]);
    assert pfs1[..|pfs1| - 1] == AllData(files[..i]);
  }

  /** Reading entry `j` extends the ids and the map by that entry. */
  lemma AppendEntry(seen: seq<PredictSpot>, entries: seq<PredictSpot>, j: int)
    requires 0 <= j < |entries|
    ensures seen + entries[..j + 1] == (seen + entries[..j]) + [entries[j]]
    ensures EntryIds(seen + entries[..j + 1]) == EntryIds(seen + entries[..j]) + [entries[j].id]
    ensures PredictionMap(seen + entries[..j + 1]) ==
      if entries[j].predict.Some? then PredictionMap(seen + entries[..j])[entries[j].id := entries[j].predict.value]
      else PredictionMap(seen + entries[..j])
  {
    var s := seen + entries[..j + 1];
    assert s == (seen + entries[..j]) + [entries[j]];
    assert s[..|s| - 1] == seen + entries[..j];
  }

  /** The duplicate reported at entry `j` repeats once the file's entries are appended. */
  lemma EntryDuplicateReported(seen: seq<PredictSpot>, entries: seq<PredictSpot>, j: int)
    requires 0 <= j < |entries|
    requires entries[j].id in EntryIds(seen + entries[..j])
    ensures entries[j].id in EntryIds(seen + entries)
    ensures !Distinct(EntryIds(seen + entries))
  {
    var all := seen + entries;
    var read := seen + entries[..j];
    var k :| 0 <= k < |read| && EntryIds(read)[k] == entries[j].id;
    assert read[k] == all[k];
    assert EntryIds(all)[k] == EntryIds(all)[|seen| + j];
  }

  /** The entries of the first `n` files come first among the entries of all files. */
  lemma {:induction false} EntriesOfPrefix(pfs: seq<PredictFile>, n: int)
    requires 0 <= n <= |pfs|
    ensures |EntriesOf(pfs[..n])| <= |EntriesOf(pfs)|
    ensures EntriesOf(pfs[..n]) == EntriesOf(pfs)[..|EntriesOf(pfs[..n])|]
    decreases |pfs|
  {
    if n < |pfs| {
      var p := pfs[..|pfs| - 1];
      assert p[..n] == pfs[..n];
      EntriesOfPrefix(p, n);
    } else {
      assert pfs[..n] == pfs;
    }
  }

  /** A repeat among the entries of the first `n` files is a repeat among those of all files. */
  lemma EntryDuplicateInAll(files: seq<SourceFile<PredictFile>>, n: int)
    requires AllRead(files) && 0 <= n <= |files|
    requires !Distinct(EntryIds(EntriesOf(AllData(files[..n]))))
    ensures !Distinct(EntryIds(EntriesOf(AllData(files))))
  {
    AllDataPrefix(files, n);
    var pre := EntryIds(EntriesOf(AllData(files[..n])));
    EntriesOfPrefix(AllData(files), n);
    var whole := EntryIds(EntriesOf(AllData(files)));
    var a, b :| 0 <= a < b < |pre| && pre[a] == pre[b];
    assert whole[a] == pre[a] && whole[b] == pre[b];
  }

  /** The keys of the map are exactly the ids of the entries that have a prediction. */
  lemma {:induction false} PredictionMapKeys(entries: seq<PredictSpot>, id: string)
    ensures id in PredictionMap(entries) <==> exists k :: 0 <= k < |entries| && entries[k].id == id && entries[k].predict.Some?
  {
    if |entries| > 0 {
      var init := entries[..|entries| - 1];
      PredictionMapKeys(init, id);
      if exists k :: 0 <= k < |init| && init[k].id == id && init[k].predict.Some? {
        var k :| 0 <= k < |init| && init[k].id == id && init[k].predict.Some?;
        assert entries[k] == init[k];
      }
      if exists k :: 0 <= k < |entries| && entries[k].id == id && entries[k].predict.Some? {
        var k :| 0 <= k < |entries| && entries[k].id == id && entries[k].predict.Some?;
        if k < |init| {
          assert init[k] == entries[k];
        }
      }
    }
  }

  /** With distinct ids, every entry with a prediction is in the map with that prediction. */
  lemma {:induction false} PredictionMapEntry(entries: seq<PredictSpot>, k: int)
    requires Distinct(EntryIds(entries))
    requires 0 <= k < |entries| && entries[k].predict.Some?
    ensures entries[k].id in PredictionMap(entries)
    ensures PredictionMap(entries)[entries[k].id] == entries[k].predict.value
  {
    var init := entries[..|entries| - 1];
    if k < |entries| - 1 {
      assert EntryIds(init) == EntryIds(entries)[..|entries| - 1];
      assert EntryIds(entries)[k] != EntryIds(entries)[|entries| - 1];
      assert init[k] == entries[k];
      PredictionMapEntry(init, k);
    }
  }

  /** `mergeSakuraSpotPredictions`: each spot whose id has an entry takes that prediction; the
      others, and all spots when the map is empty, are left as they are. */
  function MergeSakuraSpotPredictions(spots: seq<SakuraSpot>, predictions: map<string, PredictSources>): (r: seq<SakuraSpot>)
    ensures |predictions| == 0 ==> r == spots
    ensures |r| == |spots|
    ensures forall k :: 0 <= k < |spots| ==> r[k].spot == spots[k].spot && r[k].prefecture == spots[k].prefecture
    ensures forall k :: 0 <= k < |spots| && spots[k].Id() in predictions ==> r[k].predict == Some(predictions[spots[k].Id()])
    ensures forall k :: 0 <= k < |spots| && spots[k].Id() !in predictions ==> r[k] == spots[k]
  {
    if |predictions| == 0 then spots
    else
      seq(|spots|, k requires 0 <= k < |spots| =>
        var spot := spots[k];
        if spot.Id() in predictions then spot.(predict := Some(predictions[spot.Id()])) else spot)
  }

  /** Merging the same map twice changes nothing more. */
  lemma MergeIdempotent(spots: seq<SakuraSpot>, predictions: map<string, PredictSources>)
    ensures MergeSakuraSpotPredictions(MergeSakuraSpotPredictions(spots, predictions), predictions)
         == MergeSakuraSpotPredictions(spots, predictions)
  {
    var once := MergeSakuraSpotPredictions(spots, predictions);
    var twice := MergeSakuraSpotPredictions(once, predictions);
    forall k | 0 <= k < |spots| ensures twice[k] == once[k] {
      assert once[k].Id() == spots[k].Id();
    }
  }

  /** After merging the map built from entries with distinct ids, a spot for which an entry
      has a prediction carries that prediction. */
  lemma MergedPrediction(spots: seq<SakuraSpot>, entries: seq<PredictSpot>, k: int, e: int)
    requires Distinct(EntryIds(entries))
    requires 0 <= k < |spots| && 0 <= e < |entries|
    requires entries[e].id == spots[k].Id() && entries[e].predict.Some?
    ensures MergeSakuraSpotPredictions(spots, PredictionMap(entries))[k].predict == entries[e].predict
  {
    PredictionMapEntry(entries, e);
  }

  /** A spot for which no entry has a prediction is left as it is by the merge. */
  lemma MergedUnchanged(spots: seq<SakuraSpot>, entries: seq<PredictSpot>, k: int)
    requires 0 <= k < |spots|
    ensures (forall e :: 0 <= e < |entries| && entries[e].id == spots[k].Id() ==> entries[e].predict.None?) ==>
      MergeSakuraSpotPredictions(spots, PredictionMap(entries))[k] == spots[k]
  {
    PredictionMapKeys(entries, spots[k].Id());
  }
}
