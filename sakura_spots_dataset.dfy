/** Assembling the spot dataset from the prefecture files: each file is checked against the
    schema, every spot gets the prefecture of its file, a spot id seen twice is an error, and
    prefectures and spots are sorted by prefecture id. */
module SakuraSpotsDataset {
  import opened Wrappers
  import opened YamlSource
  import opened SakuraSpotSchema
  import opened SakuraSpots
  import opened StableSort
  import opened Sequences

  /** `parseSakuraPrefectureFileYaml`: the parsed document checked against the prefecture file
      schema. Whatever it accepts is a valid prefecture file. */
  function ReadPrefectureFile(filePath: string, parsed: ParsedYaml): (f: SourceFile<PrefectureFile>)
    ensures f.filePath == filePath
    ensures f.outcome.Decoded? ==> ValidPrefectureFile(f.outcome.data)
    ensures f.outcome.Decoded? <==> parsed.Parsed? && DecodePrefectureFile(parsed.doc).Some?
  {
    SourceFile(filePath, ReadYaml(parsed, DecodePrefectureFile))
  }

  datatype SakuraSpotsData = SakuraSpotsData(prefectures: seq<Prefecture>, spots: seq<SakuraSpot>)

  /** The spots of one file, each with the file's prefecture attached. */
  function FileSpots(data: PrefectureFile): (r: seq<SakuraSpot>)
    ensures |r| == |data.spots|
    ensures forall k :: 0 <= k < |r| ==> r[k].spot == data.spots[k] && r[k].prefecture == data.prefecture && r[k].predict.None?
  {
    seq(|data.spots|, k requires 0 <= k < |data.spots| => SakuraSpot(data.spots[k], data.prefecture, None))
  }

  /** The prefecture of each file, in file order. */
  function PrefecturesOf(pfs: seq<PrefectureFile>): (r: seq<Prefecture>)
    ensures |r| == |pfs|
    ensures forall i :: 0 <= i < |pfs| ==> r[i] == pfs[i].prefecture
  {
    seq(|pfs|, i requires 0 <= i < |pfs| => pfs[i].prefecture)
  }

  /** The spots of all files, in file order and then in order within a file. */
  function SpotsOf(pfs: seq<PrefectureFile>): seq<SakuraSpot> {
    if |pfs| == 0 then [] else SpotsOf(pfs[..|pfs| - 1]) + FileSpots(pfs[|pfs| - 1])
  }

  /** The total number of spots in the files. */
  function SpotCount(pfs: seq<PrefectureFile>): nat {
    if |pfs| == 0 then 0 else SpotCount(pfs[..|pfs| - 1]) + |pfs[|pfs| - 1].spots|
  }

  function SpotIds(spots: seq<SakuraSpot>): (ids: seq<string>)
    ensures |ids| == |spots|
    ensures forall k :: 0 <= k < |spots| ==> ids[k] == spots[k].Id()
  {
    seq(|spots|, k requires 0 <= k < |spots| => spots[k].Id())
  }

  function PrefectureKey(p: Prefecture): real {
    p.id
  }

  function SpotPrefectureKey(s: SakuraSpot): real {
    s.prefecture.id
  }

  /** File `n` is named `filePath`, and `id` repeats among the spots of the files up to it. */
  predicate RepeatWithin(files: seq<SourceFile<PrefectureFile>>, n: int, filePath: string, id: string) {
    && 0 <= n < |files|
    && files[n].filePath == filePath
    && AllRead(files[..n + 1])
    && id in SpotIds(SpotsOf(AllData(files[..n + 1])))
    && !Distinct(SpotIds(SpotsOf(AllData(files[..n + 1]))))
  }

  /** `buildSakuraSpotsData`. On success the prefectures are the files' prefectures and the spots
      the files' spots, each stably sorted by prefecture id. The first file that cannot be read
      is reported. A duplicate id is reported only when it really repeats, and without repeats
      (and with every file readable) the build succeeds. The first occurrence's file path is
      recorded and tested for truthiness, so with an empty path a repeat goes unnoticed; with
      non-empty paths the output ids are distinct. */
  method BuildSakuraSpotsData(files: seq<SourceFile<PrefectureFile>>) returns (r: Result<SakuraSpotsData, DatasetError>)
    ensures r.Ok? ==> AllRead(files)
    ensures r.Ok? && NonEmptyPaths(files) ==> Distinct(SpotIds(SpotsOf(AllData(files))))
    ensures AllRead(files) && Distinct(SpotIds(SpotsOf(AllData(files)))) ==> r.Ok?
    ensures r.Ok? ==> r.value.prefectures == SortBy(PrefecturesOf(AllData(files)), PrefectureKey)
    ensures r.Ok? ==> r.value.spots == SortBy(SpotsOf(AllData(files)), SpotPrefectureKey)
    ensures r.Err? && (r.error.YamlError? || r.error.InvalidSchema?) ==> exists i :: FirstUnreadable(files, i, r.error)
    ensures r.Err? && r.error.DuplicateSpotId? ==>
      |r.error.existing| > 0 && exists n :: RepeatWithin(files, n, r.error.filePath, r.error.id)
  {
    var prefectures: seq<Prefecture> := [];
    var spots: seq<SakuraSpot> := [];
    var spotIdToFile: map<string, string> := map[];
    for i := 0 to |files|
      invariant AllRead(files[..i])
      invariant prefectures == PrefecturesOf(AllData(files[..i]))
      invariant spots == SpotsOf(AllData(files[..i]))
      invariant forall id :: id in spotIdToFile <==> id in SpotIds(spots)
      invariant NonEmptyPaths(files) ==> forall id :: id in spotIdToFile ==> |spotIdToFile[id]| > 0
      invariant NonEmptyPaths(files) ==> Distinct(SpotIds(spots))
    {
      var parsed := FileData(files[i]);
      if parsed.Err? {
        assert FirstUnreadable(files, i, parsed.error);
        return Err(parsed.error);
      }
      var fileData := parsed.value;
      ReadOneMore(files, i);
      prefectures := prefectures + [fileData.prefecture];
      var duplicate;
      duplicate, spots, spotIdToFile := AddFileSpots(files[i].filePath, fileData, spots, spotIdToFile, NonEmptyPaths(files));
      if duplicate.Some? {
        if AllRead(files) {
          DuplicateInAll(files, i + 1);
        }
        assert RepeatWithin(files, i, files[i].filePath, duplicate.value.id);
        return Err(duplicate.value);
      }
    }
    assert files[..|files|] == files;
    prefectures := SortBy(prefectures, PrefectureKey);
    spots := SortBy(spots, SpotPrefectureKey);
    return Ok(SakuraSpotsData(prefectures, spots));
  }

  /** The inner loop of `buildSakuraSpotsData`: the spots of one file are appended, each with
      the file's prefecture, and each id is recorded with the file's path, unless an id is
      already recorded with a non-empty path. Such a duplicate really repeats, and without
      repeats none is reported. `checkPaths` holds when every path is non-empty; the ids are
      then kept distinct. */
  method AddFileSpots(filePath: string, fileData: PrefectureFile, spots0: seq<SakuraSpot>, spotIdToFile0: map<string, string>, ghost checkPaths: bool)
    returns (duplicate: Option<DatasetError>, spots: seq<SakuraSpot>, spotIdToFile: map<string, string>)
    requires forall id :: id in spotIdToFile0 <==> id in SpotIds(spots0)
    requires checkPaths ==> |filePath| > 0 && Distinct(SpotIds(spots0))
    requires checkPaths ==> forall id :: id in spotIdToFile0 ==> |spotIdToFile0[id]| > 0
    ensures duplicate.None? ==> spots == spots0 + FileSpots(fileData)
    ensures duplicate.None? ==> forall id :: id in spotIdToFile <==> id in SpotIds(spots)
    ensures duplicate.None? && checkPaths ==> Distinct(SpotIds(spots))
    ensures duplicate.None? && checkPaths ==> forall id :: id in spotIdToFile ==> |spotIdToFile[id]| > 0
    ensures duplicate.Some? ==> duplicate.value.DuplicateSpotId? && duplicate.value.filePath == filePath
    ensures duplicate.Some? ==> |duplicate.value.existing| > 0
    ensures duplicate.Some? ==> duplicate.value.id in SpotIds(spots0 + FileSpots(fileData))
    ensures duplicate.Some? ==> !Distinct(SpotIds(spots0 + FileSpots(fileData)))
  {
    spots, spotIdToFile := spots0, spotIdToFile0;
    for j := 0 to |fileData.spots|
      invariant spots == spots0 + FileSpots(fileData)[..j]
      invariant forall id :: id in spotIdToFile <==> id in SpotIds(spots)
      invariant checkPaths ==> forall id :: id in spotIdToFile ==> |spotIdToFile[id]| > 0
      invariant checkPaths ==> Distinct(SpotIds(spots))
    {
      var spot := fileData.spots[j];
      if spot.id in spotIdToFile && |spotIdToFile[spot.id]| > 0 {
        DuplicateReported(spots0, fileData, j);
        return Some(DuplicateSpotId(spot.id, filePath, spotIdToFile[spot.id])), spots, spotIdToFile;
      }
      AppendSpot(spots, fileData, j);
      if checkPaths {
        DistinctAppend(SpotIds(spots), spot.id);
      }
      spotIdToFile := spotIdToFile[spot.id := filePath];
      spots := spots + [FileSpots(fileData)[j]];
    }
    assert FileSpots(fileData)[..|fileData.spots|] == FileSpots(fileData);
    return None, spots, spotIdToFile;
  }

  /** One more file read: the data, prefectures and spots each grow by that file's share. */
  lemma ReadOneMore(files: seq<SourceFile<PrefectureFile>>, i: int)
    requires 0 <= i < |files| && AllRead(files[..i]) && files[i].outcome.Decoded?
    ensures AllRead(files[..i + 1])
    ensures AllData(files[..i + 1]) == AllData(files[..i]) + [files[i].outcome.data]
    ensures PrefecturesOf(AllData(files[..i + 1])) == PrefecturesOf(AllData(files[..i])) + [files[i].outcome.data.prefecture]
    ensures SpotsOf(AllData(files[..i + 1])) == SpotsOf(AllData(files[..i])) + FileSpots(files[i].outcome.data)
  {
    assert files[..i + 1][..i] == files[..i];
    var pfs1 := AllData(files[..i + 1]);
    assert pfs1[..|pfs1| - 1] == AllData(files[..i]);
  }

  /** Appending spot `j` of a file adds its id at the end of the id list. */
  lemma AppendSpot(spots: seq<SakuraSpot>, data: PrefectureFile, j: int)
    requires 0 <= j < |data.spots|
    ensures FileSpots(data)[j].Id() == data.spots[j].id
    ensures SpotIds(spots + [FileSpots(data)[j]]) == SpotIds(spots) + [data.spots[j].id]
    ensures FileSpots(data)[..j + 1] == FileSpots(data)[..j] + [FileSpots(data)[j]]
  {
  }

  /** The duplicate reported while reading spot `j` of a file repeats once the file's spots
      are appended. */
  lemma DuplicateReported(before: seq<SakuraSpot>, data: PrefectureFile, j: int)
    requires 0 <= j < |data.spots|
    requires data.spots[j].id in SpotIds(before + FileSpots(data)[..j])
    ensures data.spots[j].id in SpotIds(before + FileSpots(data))
    ensures !Distinct(SpotIds(before + FileSpots(data)))
  {
    var all := before + FileSpots(data);
    var read := before + FileSpots(data)[..j];
    var k :| 0 <= k < |read| && SpotIds(read)[k] == data.spots[j].id;
    assert read[k] == all[k];
    assert SpotIds(all)[k] == SpotIds(all)[|before| + j];
  }

  /** A repeat among the spots of the first `n` files is a repeat among the spots of all files. */
  lemma DuplicateInAll(files: seq<SourceFile<PrefectureFile>>, n: int)
    requires AllRead(files) && 0 <= n <= |files|
    requires !Distinct(SpotIds(SpotsOf(AllData(files[..n]))))
    ensures !Distinct(SpotIds(SpotsOf(AllData(files))))
  {
    AllDataPrefix(files, n);
    var pre := SpotIds(SpotsOf(AllData(files[..n])));
    SpotsOfPrefix(AllData(files), n);
    var whole := SpotIds(SpotsOf(AllData(files)));
    var a, b :| 0 <= a < b < |pre| && pre[a] == pre[b];
    assert whole[a] == pre[a] && whole[b] == pre[b];
  }

  /** The spots of the first `n` files come first among the spots of all files. */
  lemma {:induction false} SpotsOfPrefix(pfs: seq<PrefectureFile>, n: int)
    requires 0 <= n <= |pfs|
    ensures |SpotsOf(pfs[..n])| <= |SpotsOf(pfs)|
    ensures SpotsOf(pfs[..n]) == SpotsOf(pfs)[..|SpotsOf(pfs[..n])|]
    decreases |pfs|
  {
    if n < |pfs| {
      var p := pfs[..|pfs| - 1];
      assert p[..n] == pfs[..n];
      SpotsOfPrefix(p, n);
    } else {
      assert pfs[..n] == pfs;
    }
  }

  /** The spot count is the sum of the files' spot counts. */
  lemma {:induction false} SpotsOfLength(pfs: seq<PrefectureFile>)
    ensures |SpotsOf(pfs)| == SpotCount(pfs)
  {
    if |pfs| > 0 {
      SpotsOfLength(pfs[..|pfs| - 1]);
    }
  }

  /** Every spot of the files carries the prefecture of a file that lists it. */
  lemma {:induction false} SpotsOfPrefecture(pfs: seq<PrefectureFile>, s: SakuraSpot)
    requires s in SpotsOf(pfs)
    ensures exists i :: 0 <= i < |pfs| && s.prefecture == pfs[i].prefecture && s.spot in pfs[i].spots
  {
    var last := |pfs| - 1;
    var data := pfs[last];
    if s in FileSpots(data) {
      var k :| 0 <= k < |FileSpots(data)| && FileSpots(data)[k] == s;
      assert s.spot == data.spots[k];
    } else {
      var p := pfs[..last];
      SpotsOfPrefecture(p, s);
      var i :| 0 <= i < |p| && s.prefecture == p[i].prefecture && s.spot in p[i].spots;
      assert p[i] == pfs[i];
    }
  }

  /** What a successful build promises about its output: the prefectures, one per file, are
      sorted by id; the spots, one per spot of the files, are sorted by prefecture id and keep
      the file order among spots of the same prefecture. */
  lemma BuildOutputProperties(pfs: seq<PrefectureFile>, data: SakuraSpotsData)
    requires data.prefectures == SortBy(PrefecturesOf(pfs), PrefectureKey)
    requires data.spots == SortBy(SpotsOf(pfs), SpotPrefectureKey)
    ensures |data.prefectures| == |pfs| && SortedBy(data.prefectures, PrefectureKey)
    ensures |data.spots| == SpotCount(pfs) && SortedBy(data.spots, SpotPrefectureKey)
    ensures forall c :: WithKey(data.spots, SpotPrefectureKey, c) == WithKey(SpotsOf(pfs), SpotPrefectureKey, c)
  {
    SpotsOfLength(pfs);
    forall c ensures WithKey(data.spots, SpotPrefectureKey, c) == WithKey(SpotsOf(pfs), SpotPrefectureKey, c) {
      SortByStable(SpotsOf(pfs), SpotPrefectureKey, c);
    }
  }

  /** Every output spot carries the prefecture of a file that lists it. */
  lemma BuildOutputSpotOrigin(pfs: seq<PrefectureFile>, data: SakuraSpotsData, s: SakuraSpot)
    requires data.spots == SortBy(SpotsOf(pfs), SpotPrefectureKey)
    requires s in data.spots
    ensures exists i :: 0 <= i < |pfs| && s.prefecture == pfs[i].prefecture && s.spot in pfs[i].spots
  {
    assert s in multiset(data.spots);
    SpotsOfPrefecture(pfs, s);
  }
}
