/** The JMC prediction update of one prefecture predict file: the spots of the prefecture file
    are looked up in the prefecture's JMC forecast, and each spot's new JMC prediction is merged
    with the predictions already in the predict file. The forecast fetch is an input
    (`FetchOutcome`); the YAML text is read and written elsewhere. */
module UpdateSpotsPredictJmc {
  import opened Wrappers
  import JsText
  import opened JsonValue
  import opened Sequences
  import opened SakuraSpotSchema
  import opened SakuraSpotPredictSchema
  import opened SpotSources
  import JmcApi
  import opened JmcForecastParser
  import opened JmcForecastIndex

  // ----- Existing predict sources -----

  /** The `weathernews` and `jmc` objects of a predict block, kept as they were read. */
  datatype RawSources = RawSources(weathernews: Option<Json>, jmc: Option<Json>)

  predicate ValidRawSources(s: RawSources) {
    && (s.weathernews.Some? || s.jmc.Some?)
    && (s.weathernews.Some? ==> s.weathernews.value.JObj?)
    && (s.jmc.Some? ==> s.jmc.value.JObj?)
  }

  /** An absent key or a plain object: what `"key" in value` followed by `isPlainObject` lets through. */
  predicate AbsentOrObject(v: Json, key: string) {
    Get(v, key).None? || IsPlainObject(Get(v, key))
  }

  /** `normalizePredictSources`: `null` for a missing block, the `weathernews` and `jmc` objects
      otherwise (every other key is dropped), `null` again when neither is there. */
  function NormalizePredictSources(value: Option<Json>, ctx: string): (r: Result<Option<RawSources>, string>)
    ensures !IsPresent(value) ==> r == Ok(None)
    ensures IsPresent(value) && !value.value.JObj? ==> r == Err("Invalid " + ctx + " (expected object)")
    ensures IsPlainObject(value) && !AbsentOrObject(value.value, "weathernews")
      ==> r == Err("Invalid " + ctx + ".weathernews (expected object)")
    ensures IsPlainObject(value) && AbsentOrObject(value.value, "weathernews") && !AbsentOrObject(value.value, "jmc")
      ==> r == Err("Invalid " + ctx + ".jmc (expected object)")
    ensures IsPlainObject(value) ==> (r.Ok? <==> AbsentOrObject(value.value, "weathernews") && AbsentOrObject(value.value, "jmc"))
    ensures r.Ok? && IsPresent(value) ==>
      r.value == (var s := RawSources(Get(value.value, "weathernews"), Get(value.value, "jmc"));
                  if s.weathernews.Some? || s.jmc.Some? then Some(s) else None)
    ensures r.Ok? && r.value.Some? ==> ValidRawSources(r.value.value)
  {
    if !IsPresent(value) then Ok(None)
    else if !value.value.JObj? then Err("Invalid " + ctx + " (expected object)")
    else if !AbsentOrObject(value.value, "weathernews") then Err("Invalid " + ctx + ".weathernews (expected object)")
    else if !AbsentOrObject(value.value, "jmc") then Err("Invalid " + ctx + ".jmc (expected object)")
    else
      var sources := RawSources(Get(value.value, "weathernews"), Get(value.value, "jmc"));
      if sources.weathernews.Some? || sources.jmc.Some? then Ok(Some(sources)) else Ok(None)
  }

  function PutJson(m: map<string, Json>, key: string, v: Option<Json>): map<string, Json> {
    if v.Some? then m[key := v.value] else m
  }

  /** A predict block as it is written out. */
  function EncodeRawSources(s: RawSources): Json {
    JObj(PutJson(PutJson(map[], "weathernews", s.weathernews), "jmc", s.jmc))
  }

  /** Reading back a written predict block gives the same sources: the next run sees what this
      one wrote. */
  lemma NormalizeEncoded(s: RawSources, ctx: string)
    requires ValidRawSources(s)
    ensures NormalizePredictSources(Some(EncodeRawSources(s)), ctx) == Ok(Some(s))
  {
    var v := EncodeRawSources(s);
    assert Get(v, "weathernews") == s.weathernews;
    assert Get(v, "jmc") == s.jmc;
  }

  // ----- Spot rows -----

  /** What the update needs of a spot: its id, the code and name of its JMC source, and
      whether it has one. */
  datatype SpotRow = SpotRow(id: string, jmcCode: Option<string>, jmcName: Option<string>, hasJmcSource: bool)

  predicate ValidSpotRow(row: SpotRow) {
    && JsText.NonBlank(row.id)
    && (row.jmcCode.Some? ==> row.hasJmcSource && JsText.NonBlank(row.jmcCode.value))
    && (row.jmcName.Some? ==> JsText.NonBlank(row.jmcName.value) && JsText.Trim(row.jmcName.value) == row.jmcName.value)
  }

  /** A non-blank string, trimmed, stays non-blank. */
  function TrimmedName(s: string): (r: string)
    requires JsText.NonBlank(s)
    ensures JsText.NonBlank(r) && JsText.Trim(r) == r && r == JsText.Trim(s)
  {
    JsText.TrimIdempotent(s);
    JsText.NonBlankIffSomeNonWhitespace(JsText.Trim(s));
    JsText.Trim(s)
  }

  /** The spot-row map of `buildPrefecturePredictFile`: the JMC code is the source's non-blank
      `code`; the name is the source's non-blank `name`, else the spot's `name_ja`, trimmed. */
  function ReadSpotRow(spot: Json, fileName: string): (r: Result<SpotRow, string>)
    ensures !spot.JObj? ==> r == Err("Invalid spot entry in " + fileName)
    ensures spot.JObj? && !IsNonEmptyString(Get(spot, "id")) ==> r == Err("Invalid spot.id in " + fileName)
    ensures r.Ok? <==> spot.JObj? && IsNonEmptyString(Get(spot, "id"))
    ensures r.Ok? ==> (&& ValidSpotRow(r.value) && Get(spot, "id") == Some(JStr(r.value.id))
                       && r.value.hasJmcSource == FindSpotJmcSource(spot).Some?
                       && r.value.jmcCode == NonBlankField(FindSpotJmcSource(spot), "code"))
    ensures r.Ok? && NonBlankField(FindSpotJmcSource(spot), "name").Some? ==>
      r.value.jmcName == Some(JsText.Trim(NonBlankField(FindSpotJmcSource(spot), "name").value))
    ensures r.Ok? && NonBlankField(FindSpotJmcSource(spot), "name").None? ==>
      (r.value.jmcName.Some? <==> IsNonEmptyString(Get(spot, "name_ja")))
  {
    if !spot.JObj? then Err("Invalid spot entry in " + fileName)
    else if !IsNonEmptyString(Get(spot, "id")) then Err("Invalid spot.id in " + fileName)
    else
      var source := FindSpotJmcSource(spot);
      var sourceName := NonBlankField(source, "name");
      var spotName := NonBlankField(Some(spot), "name_ja");
      var jmcName :=
        if sourceName.Some? then Some(TrimmedName(sourceName.value))
        else if spotName.Some? then Some(TrimmedName(spotName.value))
        else None;
      Ok(SpotRow(spot.fields["id"].s, NonBlankField(source, "code"), jmcName, source.Some?))
  }

  /** `spots.map(...)` into spot rows, stopping at the first spot that is rejected; the rows
      carry the spots' ids and JMC sources in order. */
  function ReadSpotRows(spots: seq<Json>, fileName: string): (r: Result<seq<SpotRow>, string>)
    ensures r.Ok? <==> forall k :: 0 <= k < |spots| ==> spots[k].JObj? && IsNonEmptyString(Get(spots[k], "id"))
    ensures r.Ok? ==> |r.value| == |spots|
    ensures r.Ok? ==> forall k :: 0 <= k < |spots| ==>
      Get(spots[k], "id") == Some(JStr(r.value[k].id)) && r.value[k].hasJmcSource == FindSpotJmcSource(spots[k]).Some?
  {
    var rows := MapUntilError(spots, spot => ReadSpotRow(spot, fileName));
    assert rows.Ok? ==> forall k :: 0 <= k < |spots| ==> ReadSpotRow(spots[k], fileName) == Ok(rows.value[k]);
    rows
  }

  /** `spotRows.filter((s) => s.hasJmcSource)`. */
  function WithJmcSource(rows: seq<SpotRow>): (r: seq<SpotRow>)
    ensures forall x :: x in r <==> x in rows && x.hasJmcSource
    ensures |r| == 0 <==> forall i :: 0 <= i < |rows| ==> !rows[i].hasJmcSource
    ensures IsSubsequence(r, rows)
    ensures |r| == CountWhere(rows, (x: SpotRow) => x.hasJmcSource)
  {
    if |rows| == 0 then []
    else
      var rest := WithJmcSource(rows[1..]);
      assert forall i :: 1 <= i < |rows| ==> rows[i] == rows[1..][i - 1];
      assert forall x :: x in rows[1..] ==> x in rows;
      FilterStep(rows[0], rows[0].hasJmcSource, rest, rows[1..]);
      if rows[0].hasJmcSource then [rows[0]] + rest else rest
  }

  /** The recursive filter is the generic one, so each row with a JMC source occurs in it as
      often as in `rows`. */
  lemma WithJmcSourceIsFilter(rows: seq<SpotRow>)
    ensures WithJmcSource(rows) == Filter(rows, (x: SpotRow) => x.hasJmcSource)
  {
    FilterDetermined(WithJmcSource(rows), rows, (x: SpotRow) => x.hasJmcSource);
  }

  // ----- The JMC prediction of a spot -----

  /** A date field is written only when it is truthy. */
  function TruthyDate(d: Option<string>): (r: Option<string>)
    ensures r.Some? <==> d.Some? && |d.value| > 0
    ensures r.Some? ==> r == d
  {
    if d.Some? && |d.value| > 0 then d else None
  }

  predicate NonBlankDate(d: Option<string>) {
    d.Some? && JsText.NonBlank(d.value)
  }

  /** `buildJmcSpotPrediction`: `forecasted_at` always, the two bloom dates when truthy, and an
      error when no value is a non-blank string. */
  function BuildJmcSpotPrediction(forecastedAt: string, point: JmcPoint): (r: Result<Prediction, string>)
    ensures r.Ok? <==> JsText.NonBlank(forecastedAt) || NonBlankDate(TruthyDate(point.firstBloomDate))
                       || NonBlankDate(TruthyDate(point.fullBloomDate))
    ensures r.Err? ==> r.error == "JMC prediction object is empty"
    ensures r.Ok? ==> (&& r.value.forecastedAt == Some(forecastedAt) && r.value.fubukiDate.None?
                       && r.value.firstBloomDate == TruthyDate(point.firstBloomDate)
                       && r.value.fullBloomDate == TruthyDate(point.fullBloomDate))
  {
    var prediction := Prediction(Some(forecastedAt), TruthyDate(point.firstBloomDate), TruthyDate(point.fullBloomDate), None);
    if JsText.NonBlank(forecastedAt) || NonBlankDate(prediction.firstBloomDate) || NonBlankDate(prediction.fullBloomDate) then
      Ok(prediction)
    else Err("JMC prediction object is empty")
  }

  lemma IsoDateNonBlank(d: string)
    requires IsIsoDate(d)
    ensures JsText.NonBlank(d) && |d| > 0
  {
    assert JsText.IsDigit(d[0]) && !JsText.IsWhitespace(d[0]);
    JsText.NonBlankIffSomeNonWhitespace(d);
  }

  /** For a forecast and point as the parser produces them, the prediction is built, keeps both
      dates, satisfies the predict schema and reads back unchanged from the written object. */
  lemma JmcPredictionIsValid(forecastedAt: string, point: JmcPoint)
    requires IsIsoDate(forecastedAt) && OptIsoDate(point.firstBloomDate) && OptIsoDate(point.fullBloomDate)
    ensures BuildJmcSpotPrediction(forecastedAt, point).Ok?
    ensures var p := BuildJmcSpotPrediction(forecastedAt, point).value;
      && p == Prediction(Some(forecastedAt), point.firstBloomDate, point.fullBloomDate, None)
      && ValidPrediction(p) && DecodePrediction(EncodePrediction(p)) == Some(p)
  {
    IsoDateNonBlank(forecastedAt);
    if point.firstBloomDate.Some? { IsoDateNonBlank(point.firstBloomDate.value); }
    if point.fullBloomDate.Some? { IsoDateNonBlank(point.fullBloomDate.value); }
    DecodeEncodePrediction(BuildJmcSpotPrediction(forecastedAt, point).value);
  }

  // ----- Lookup of the spots' points -----

  /** A truthy string (`if (row.jmcCode)`). */
  predicate TruthyString(s: Option<string>) {
    s.Some? && |s.value| > 0
  }

  /** The lookup of a spot's point: by code when it has one, otherwise by a name that exactly
      one point carries. */
  function LookupPoint(row: SpotRow, forecast: ForecastIndex, fileName: string): (r: Result<JmcPoint, string>)
    ensures TruthyString(row.jmcCode) ==>
      r == if row.jmcCode.value in forecast.pointsByCode then Ok(forecast.pointsByCode[row.jmcCode.value])
           else Err("Missing JMC point code \"" + row.jmcCode.value + "\" for " + fileName + " (" + row.id + ")")
    ensures !TruthyString(row.jmcCode) && !TruthyString(row.jmcName) ==>
      r == Err("Missing JMC name for " + fileName + " (" + row.id + ")")
    ensures !TruthyString(row.jmcCode) && TruthyString(row.jmcName) ==>
      (r.Ok? <==> |NamedIn(forecast.pointsByName, row.jmcName.value)| == 1)
      && (r.Ok? ==> r.value == NamedIn(forecast.pointsByName, row.jmcName.value)[0])
  {
    if TruthyString(row.jmcCode) then
      var code := row.jmcCode.value;
      if code in forecast.pointsByCode then Ok(forecast.pointsByCode[code])
      else Err("Missing JMC point code \"" + code + "\" for " + fileName + " (" + row.id + ")")
    else if !TruthyString(row.jmcName) then Err("Missing JMC name for " + fileName + " (" + row.id + ")")
    else
      var name := row.jmcName.value;
      var candidates := NamedIn(forecast.pointsByName, name);
      if |candidates| == 1 then Ok(candidates[0])
      else Err("Expected 1 JMC point named \"" + name + "\", got " + JsText.NatToDecimal(|candidates|)
               + " (" + fileName + " " + row.id + ")")
  }

  function JsonString(s: Option<string>): Option<Json> {
    if s.Some? then Some(JStr(s.value)) else None
  }

  /** On an indexed forecast, the update's lookup finds the point `findJmcPointForSpot` finds
      for the same code and name, and fails exactly when it fails. */
  lemma LookupAgreesWithParser(row: SpotRow, points: seq<JmcPoint>, forecast: ForecastIndex, fileName: string)
    requires ValidSpotRow(row) && DistinctCodes(points)
    requires forecast.pointsByCode == ByCode(points) && forecast.pointsByName == ByName(points)
    ensures var found := FindJmcPointForSpot(points, JsonString(row.jmcCode), JsonString(row.jmcName), "JMC");
      && (LookupPoint(row, forecast, fileName).Ok? <==> found.Ok?)
      && (found.Ok? ==> LookupPoint(row, forecast, fileName).value == found.value)
  {
    if row.jmcCode.Some? {
      LookupByCodeAgrees(row, points, forecast, fileName);
    } else if row.jmcName.Some? {
      LookupByNameAgrees(row, points, forecast, fileName);
    }
  }

  /** The code case of `LookupAgreesWithParser`. */
  lemma LookupByCodeAgrees(row: SpotRow, points: seq<JmcPoint>, forecast: ForecastIndex, fileName: string)
    requires ValidSpotRow(row) && DistinctCodes(points) && row.jmcCode.Some?
    requires forecast.pointsByCode == ByCode(points)
    ensures var found := FindJmcPointForSpot(points, JsonString(row.jmcCode), JsonString(row.jmcName), "JMC");
      && (LookupPoint(row, forecast, fileName).Ok? <==> found.Ok?)
      && (found.Ok? ==> LookupPoint(row, forecast, fileName).value == found.value)
  {
    var found := FindJmcPointForSpot(points, JsonString(row.jmcCode), JsonString(row.jmcName), "JMC");
    var code := row.jmcCode.value;
    JsText.NonBlankIffSomeNonWhitespace(code);
    assert TruthyString(row.jmcCode) && IsNonEmptyString(JsonString(row.jmcCode));
    ByCodeLookup(points);
    if found.Ok? {
      var i :| 0 <= i < |points| && points[i] == found.value && points[i].code == code
               && forall j :: 0 <= j < i ==> points[j].code != code;
      assert code in CodesOf(points);
      assert FirstWithCode(points, code) == Some(i);
    } else {
      assert code !in CodesOf(points);
    }
  }

  /** The name case of `LookupAgreesWithParser`. */
  lemma LookupByNameAgrees(row: SpotRow, points: seq<JmcPoint>, forecast: ForecastIndex, fileName: string)
    requires ValidSpotRow(row) && row.jmcCode.None? && row.jmcName.Some?
    requires forecast.pointsByName == ByName(points)
    ensures var found := FindJmcPointForSpot(points, JsonString(row.jmcCode), JsonString(row.jmcName), "JMC");
      && (LookupPoint(row, forecast, fileName).Ok? <==> found.Ok?)
      && (found.Ok? ==> LookupPoint(row, forecast, fileName).value == found.value)
  {
    var found := FindJmcPointForSpot(points, JsonString(row.jmcCode), JsonString(row.jmcName), "JMC");
    JsText.NonBlankIffSomeNonWhitespace(row.jmcName.value);
    assert TruthyString(row.jmcName) && IsNonEmptyString(JsonString(row.jmcName));
    ByNameIsFilter(points, row.jmcName.value);
    WithNameSingle(points, row.jmcName.value);
    if found.Ok? {
      var i :| OnlyNamed(points, row.jmcName.value, i);
      assert WithName(points, row.jmcName.value) == [points[i]];
    }
  }

  /** The prediction a spot with a JMC source receives, or the error that stops the file. */
  function SpotPrediction(row: SpotRow, forecast: ForecastIndex, fileName: string): Result<Prediction, string> {
    var point :- LookupPoint(row, forecast, fileName);
    BuildJmcSpotPrediction(forecast.forecastedAt, point)
  }

  /** `jmcPredictionBySpotId` after the given rows: a later row with the same id replaces an
      earlier one's prediction. */
  function CollectedPredictions(rows: seq<SpotRow>, forecast: ForecastIndex, fileName: string)
    : (r: Result<map<string, Prediction>, string>)
  {
    if |rows| == 0 then Ok(map[])
    else
      var before :- CollectedPredictions(rows[..|rows| - 1], forecast, fileName);
      var last := rows[|rows| - 1];
      var prediction :- SpotPrediction(last, forecast, fileName);
      Ok(before[last.id := prediction])
  }

  /** The lookup loop over the spots with a JMC source. */
  method CollectJmcPredictions(rows: seq<SpotRow>, forecast: ForecastIndex, fileName: string)
    returns (r: Result<map<string, Prediction>, string>)
    ensures r == CollectedPredictions(rows, forecast, fileName)
  {
    var predictions: map<string, Prediction> := map[];
    var i := 0;
    while i < |rows|
      invariant 0 <= i <= |rows|
      invariant CollectedPredictions(rows[..i], forecast, fileName) == Ok(predictions)
    {
      var row := rows[i];
      assert rows[..i + 1][..i] == rows[..i];
      var prediction := SpotPrediction(row, forecast, fileName);
      if prediction.Err? {
        CollectedPrefixErr(rows, i + 1, forecast, fileName);
        return Err(prediction.error);
      }
      predictions := predictions[row.id := prediction.value];
      i := i + 1;
    }
    assert rows[..i] == rows;
    return Ok(predictions);
  }

  lemma {:induction false} CollectedPrefixErr(rows: seq<SpotRow>, n: nat, forecast: ForecastIndex, fileName: string)
    requires n <= |rows| && CollectedPredictions(rows[..n], forecast, fileName).Err?
    ensures CollectedPredictions(rows, forecast, fileName) == CollectedPredictions(rows[..n], forecast, fileName)
    decreases |rows|
  {
    if n < |rows| {
      var init := rows[..|rows| - 1];
      assert init[..n] == rows[..n];
      CollectedPrefixErr(init, n, forecast, fileName);
    } else {
      assert rows[..n] == rows;
    }
  }

  /** One step of `CollectedPredictions` when the rows before the last succeed. */
  lemma CollectedStep(rows: seq<SpotRow>, forecast: ForecastIndex, fileName: string)
    requires |rows| > 0
    ensures var init := rows[..|rows| - 1];
      var last := rows[|rows| - 1];
      CollectedPredictions(rows, forecast, fileName) ==
        if CollectedPredictions(init, forecast, fileName).Err? then CollectedPredictions(init, forecast, fileName)
        else if SpotPrediction(last, forecast, fileName).Err? then Err(SpotPrediction(last, forecast, fileName).error)
        else Ok(CollectedPredictions(init, forecast, fileName).value[last.id := SpotPrediction(last, forecast, fileName).value])
  {
  }

  /** The loop succeeds exactly when every spot's prediction does. */
  lemma {:induction false} CollectedOk(rows: seq<SpotRow>, forecast: ForecastIndex, fileName: string)
    ensures CollectedPredictions(rows, forecast, fileName).Ok?
      <==> forall i :: 0 <= i < |rows| ==> SpotPrediction(rows[i], forecast, fileName).Ok?
  {
    if |rows| > 0 {
      var init := rows[..|rows| - 1];
      CollectedOk(init, forecast, fileName);
      CollectedStep(rows, forecast, fileName);
      assert forall i :: 0 <= i < |init| ==> init[i] == rows[i];
    }
  }

  /** The ids of some spot rows. */
  function IdsOf(rows: seq<SpotRow>): (r: set<string>)
    ensures forall id :: id in r <==> exists i :: 0 <= i < |rows| && rows[i].id == id
  {
    set i | 0 <= i < |rows| :: rows[i].id
  }

  /** On success the map holds one entry per spot id. */
  lemma {:induction false} CollectedKeys(rows: seq<SpotRow>, forecast: ForecastIndex, fileName: string)
    requires CollectedPredictions(rows, forecast, fileName).Ok?
    ensures CollectedPredictions(rows, forecast, fileName).value.Keys == IdsOf(rows)
  {
    if |rows| > 0 {
      var init := rows[..|rows| - 1];
      var last := rows[|rows| - 1];
      CollectedStep(rows, forecast, fileName);
      CollectedKeys(init, forecast, fileName);
      assert forall i :: 0 <= i < |init| ==> init[i] == rows[i];
      assert IdsOf(rows) == IdsOf(init) + {last.id} by {
        assert rows == init + [last];
      }
    }
  }

  /** On success the entry of a spot id is the prediction of the last spot with that id. */
  lemma {:induction false} CollectedLastWins(rows: seq<SpotRow>, forecast: ForecastIndex, fileName: string, i: nat)
    requires CollectedPredictions(rows, forecast, fileName).Ok?
    requires i < |rows| && forall j :: i < j < |rows| ==> rows[j].id != rows[i].id
    ensures rows[i].id in CollectedPredictions(rows, forecast, fileName).value
    ensures SpotPrediction(rows[i], forecast, fileName) == Ok(CollectedPredictions(rows, forecast, fileName).value[rows[i].id])
  {
    CollectedStep(rows, forecast, fileName);
    if i < |rows| - 1 {
      var init := rows[..|rows| - 1];
      assert forall j :: i < j < |init| ==> init[j] == rows[j];
      CollectedLastWins(init, forecast, fileName, i);
    }
  }

  // ----- Merging with the existing predict file -----

  /** A spot of the written predict file; `predict` is omitted when it would be empty. */
  datatype OutSpot = OutSpot(id: string, predict: Option<RawSources>)

  function ExistingOf(existing: map<string, RawSources>, id: string): RawSources {
    if id in existing then existing[id] else RawSources(None, None)
  }

  predicate ValidExisting(existing: map<string, RawSources>) {
    forall id :: id in existing ==> ValidRawSources(existing[id])
  }

  /** The merge of `buildPrefecturePredictFile`: a copy of the spot's existing sources whose
      `jmc` is replaced by the new prediction or deleted, unless the fetch failed, and then
      only the truthy sources are written. */
  function MergeSpot(id: string, existing: map<string, RawSources>, predictions: map<string, Prediction>,
                     hadFailure: bool): (r: OutSpot)
    ensures r.id == id
    ensures ValidExisting(existing) ==> (
      var predict := r.predict.GetOr(RawSources(None, None));
      && predict.weathernews == ExistingOf(existing, id).weathernews
      && predict.jmc == (if hadFailure then ExistingOf(existing, id).jmc
                         else if id in predictions then Some(EncodePrediction(predictions[id])) else None)
      && (r.predict.Some? ==> ValidRawSources(r.predict.value)))
    ensures ValidExisting(existing) && hadFailure ==> r.predict == (if id in existing then Some(existing[id]) else None)
  {
    var merged := ExistingOf(existing, id);
    var merged := if hadFailure then merged
                  else if id in predictions then merged.(jmc := Some(EncodePrediction(predictions[id])))
                  else merged.(jmc := None);
    var predict := RawSources(if Truthy(merged.weathernews) then merged.weathernews else None,
                              if Truthy(merged.jmc) then merged.jmc else None);
    OutSpot(id, if predict.weathernews.Some? || predict.jmc.Some? then Some(predict) else None)
  }

  /** The `jmc` prediction a written spot carries. */
  function JmcOf(spot: OutSpot): Option<Json> {
    if spot.predict.Some? then spot.predict.value.jmc else None
  }

  /** `spotRows.map(...)` into the written spots. */
  function MergeAll(rows: seq<SpotRow>, existing: map<string, RawSources>, predictions: map<string, Prediction>,
                    hadFailure: bool): (r: seq<OutSpot>)
    ensures |r| == |rows|
    ensures forall k :: 0 <= k < |rows| ==> r[k] == MergeSpot(rows[k].id, existing, predictions, hadFailure)
  {
    seq(|rows|, k requires 0 <= k < |rows| => MergeSpot(rows[k].id, existing, predictions, hadFailure))
  }

  // ----- Reading the existing predict file -----

  function PredictContext(fileName: string, id: string): string {
    "spot.predict in spots_predict/" + fileName + " (" + id + ")"
  }

  /** One spot of the existing predict file: its id and normalised sources. */
  function ExistingEntry(spot: Json, fileName: string): (r: Result<(string, Option<RawSources>), string>)
    ensures !spot.JObj? ==> r == Err("Invalid spot entry in spots_predict/" + fileName)
    ensures spot.JObj? && !IsNonEmptyString(Get(spot, "id")) ==> r == Err("Invalid spot.id in spots_predict/" + fileName)
    ensures r.Ok? ==> && Get(spot, "id") == Some(JStr(r.value.0))
                      && NormalizePredictSources(Get(spot, "predict"), PredictContext(fileName, r.value.0)) == Ok(r.value.1)
  {
    if !spot.JObj? then Err("Invalid spot entry in spots_predict/" + fileName)
    else if !IsNonEmptyString(Get(spot, "id")) then Err("Invalid spot.id in spots_predict/" + fileName)
    else
      var id := spot.fields["id"].s;
      var normalized := NormalizePredictSources(Get(spot, "predict"), PredictContext(fileName, id));
      if normalized.Err? then Err(normalized.error) else Ok((id, normalized.value))
  }

  /** `existingPredictBySpotId` after the given spots: spots without sources add nothing, and a
      later spot with the same id replaces an earlier one. */
  function ExistingPredicts(spots: seq<Json>, fileName: string): (r: Result<map<string, RawSources>, string>)
    ensures r.Ok? ==> ValidExisting(r.value)
  {
    if |spots| == 0 then Ok(map[])
    else
      var before :- ExistingPredicts(spots[..|spots| - 1], fileName);
      var entry :- ExistingEntry(spots[|spots| - 1], fileName);
      if entry.1.Some? then Ok(before[entry.0 := entry.1.value]) else Ok(before)
  }

  /** The existing predict file, if there is one (an empty file counts as none). */
  function ExistingPredictsOf(existing: Option<Json>, fileName: string): (r: Result<map<string, RawSources>, string>)
    ensures r.Ok? ==> ValidExisting(r.value)
    ensures existing.None? ==> r == Ok(map[])
  {
    if existing.None? then Ok(map[])
    else if !existing.value.JObj? then Err("Invalid YAML root object in spots_predict/" + fileName)
    else
      var spots := Get(existing.value, "spots");
      if !(spots.Some? && spots.value.JArr?) then Err("Missing \"spots\" array in spots_predict/" + fileName)
      else ExistingPredicts(spots.value.items, fileName)
  }

  /** The loop that fills `existingPredictBySpotId`. */
  method ReadExistingPredicts(existing: Option<Json>, fileName: string) returns (r: Result<map<string, RawSources>, string>)
    ensures r == ExistingPredictsOf(existing, fileName)
  {
    if existing.None? {
      return Ok(map[]);
    }
    if !existing.value.JObj? {
      return Err("Invalid YAML root object in spots_predict/" + fileName);
    }
    var spotsField := Get(existing.value, "spots");
    if !(spotsField.Some? && spotsField.value.JArr?) {
      return Err("Missing \"spots\" array in spots_predict/" + fileName);
    }
    r := ReadExistingSpots(spotsField.value.items, fileName);
  }

  /** The loop over the existing file's spots. */
  method ReadExistingSpots(spots: seq<Json>, fileName: string) returns (r: Result<map<string, RawSources>, string>)
    ensures r == ExistingPredicts(spots, fileName)
  {
    var byId: map<string, RawSources> := map[];
    var i := 0;
    while i < |spots|
      invariant 0 <= i <= |spots|
      invariant ExistingPredicts(spots[..i], fileName) == Ok(byId)
    {
      ExistingExtend(spots, i, fileName);
      var next := AddExisting(spots[i], fileName, byId);
      if next.Err? {
        ExistingPrefixErr(spots, i + 1, fileName);
        return next;
      }
      byId := next.value;
      i := i + 1;
    }
    assert spots[..i] == spots;
    return Ok(byId);
  }

  /** One spot of the existing file: its sources, when it has some, are stored under its id. */
  method AddExisting(spot: Json, fileName: string, byId: map<string, RawSources>)
    returns (r: Result<map<string, RawSources>, string>)
    ensures var entry := ExistingEntry(spot, fileName);
      r == if entry.Err? then Err(entry.error)
           else if entry.value.1.Some? then Ok(byId[entry.value.0 := entry.value.1.value]) else Ok(byId)
  {
    var entry := ExistingEntry(spot, fileName);
    if entry.Err? {
      return Err(entry.error);
    }
    if entry.value.1.Some? {
      return Ok(byId[entry.value.0 := entry.value.1.value]);
    }
    return Ok(byId);
  }

  /** `ExistingPredicts` on the prefix of length `i + 1`, after a successful prefix of length `i`. */
  lemma ExistingExtend(spots: seq<Json>, i: nat, fileName: string)
    requires i < |spots| && ExistingPredicts(spots[..i], fileName).Ok?
    ensures var before := ExistingPredicts(spots[..i], fileName).value;
      var entry := ExistingEntry(spots[i], fileName);
      ExistingPredicts(spots[..i + 1], fileName) ==
        if entry.Err? then Err(entry.error)
        else if entry.value.1.Some? then Ok(before[entry.value.0 := entry.value.1.value]) else Ok(before)
  {
    assert spots[..i + 1][..i] == spots[..i];
  }

  lemma {:induction false} ExistingPrefixErr(spots: seq<Json>, n: nat, fileName: string)
    requires n <= |spots| && ExistingPredicts(spots[..n], fileName).Err?
    ensures ExistingPredicts(spots, fileName) == ExistingPredicts(spots[..n], fileName)
    decreases |spots|
  {
    if n < |spots| {
      var init := spots[..|spots| - 1];
      assert init[..n] == spots[..n];
      ExistingPrefixErr(init, n, fileName);
    } else {
      assert spots[..n] == spots;
    }
  }

  // ----- The whole file -----

  /** What the forecast fetch gave: the parsed answer, or a failure with its HTTP status if any. */
  datatype FetchOutcome = Fetched(json: Json) | FetchFailed(status: Option<real>)

  datatype PredictFileOut = PredictFileOut(prefecture: Prefecture, spots: seq<OutSpot>)

  datatype BuildOutcome = BuildOutcome(file: PredictFileOut, hadFailure: bool, updatedSpotCount: nat)

  /** The prefecture and spot list of the source file, checked in the script's order; the
      written prefecture keeps `name_en` only when it is non-blank. */
  function SourceFileOf(parsed: Json, fileName: string): (r: Result<(Prefecture, seq<Json>), string>)
    ensures r.Ok? ==> && IsInteger(r.value.0.id) && JsText.NonBlank(r.value.0.nameJa)
                      && Get(parsed, "spots") == Some(JArr(r.value.1))
    ensures r.Ok? <==>
      && parsed.JObj? && IsPlainObject(Get(parsed, "prefecture"))
      && Get(parsed, "spots").Some? && parsed.fields["spots"].JArr?
      && var prefecture := parsed.fields["prefecture"];
      && Get(prefecture, "id").Some? && prefecture.fields["id"].JNum? && IsInteger(prefecture.fields["id"].n)
      && IsNonEmptyString(Get(prefecture, "name_ja"))
    ensures r.Ok? ==>
      var prefecture := parsed.fields["prefecture"];
      && Get(prefecture, "id") == Some(JNum(r.value.0.id))
      && Get(prefecture, "name_ja") == Some(JStr(r.value.0.nameJa))
      && r.value.0.nameEn == NonBlankField(Some(prefecture), "name_en")
    ensures !parsed.JObj? ==> r == Err("Invalid YAML root object in " + fileName)
  {
    if !parsed.JObj? then Err("Invalid YAML root object in " + fileName)
    else if !IsPlainObject(Get(parsed, "prefecture")) then Err("Missing \"prefecture\" in " + fileName)
    else if !(Get(parsed, "spots").Some? && parsed.fields["spots"].JArr?) then Err("Missing \"spots\" array in " + fileName)
    else
      var prefecture := parsed.fields["prefecture"];
      var id := Get(prefecture, "id");
      if !(id.Some? && id.value.JNum? && IsInteger(id.value.n)) then Err("Invalid prefecture.id in " + fileName)
      else if !IsNonEmptyString(Get(prefecture, "name_ja")) then Err("Invalid prefecture.name_ja in " + fileName)
      else
        Ok((Prefecture(id.value.n, prefecture.fields["name_ja"].s, NonBlankField(Some(prefecture), "name_en")),
            parsed.fields["spots"].items))
  }

  /** The forecast after the script's try/catch, and whether the fetch counts as a failure:
      a failed fetch or a rejected answer is a failure, except HTTP 400 for prefecture 47,
      which means there is no JMC data. */
  function FetchStage(needsFetch: bool, prefectureId: real, fetch: FetchOutcome): (r: (Option<ForecastIndex>, bool))
    ensures !needsFetch ==> r == (None, false)
    ensures needsFetch && fetch.Fetched? ==>
      r == (var indexed := ForecastIndexOf(JmcApi.PrefectureApiUrl(prefectureId.Floor), fetch.json);
            if indexed.Ok? then (Some(indexed.value), false) else (None, true))
    ensures needsFetch && fetch.FetchFailed? ==> r == (None, !(prefectureId == 47.0 && fetch.status == Some(400.0)))
  {
    if !needsFetch then (None, false)
    else
      match fetch
      case Fetched(json) =>
        var indexed := ForecastIndexOf(JmcApi.PrefectureApiUrl(prefectureId.Floor), json);
        if indexed.Ok? then (Some(indexed.value), false) else (None, true)
      case FetchFailed(status) =>
        if prefectureId == 47.0 && status == Some(400.0) then (None, false) else (None, true)
  }

  /** Everything after the reads: the fetch, the lookups and the merge. */
  function Assemble(prefecture: Prefecture, rows: seq<SpotRow>, before: map<string, RawSources>,
                    fetch: FetchOutcome, fileName: string): Result<BuildOutcome, string>
  {
    Combine(prefecture, rows, before, FetchStage(|WithJmcSource(rows)| > 0, prefecture.id, fetch), fileName)
  }

  /** The lookups and the merge, once the fetch stage has given its forecast and failure flag. */
  function Combine(prefecture: Prefecture, rows: seq<SpotRow>, before: map<string, RawSources>,
                   stage: (Option<ForecastIndex>, bool), fileName: string): Result<BuildOutcome, string>
  {
    var (forecast, hadFailure) := stage;
    var predictions :- if forecast.Some? then CollectedPredictions(WithJmcSource(rows), forecast.value, fileName) else Ok(map[]);
    Ok(BuildOutcome(PredictFileOut(prefecture, MergeAll(rows, before, predictions, hadFailure)),
                    hadFailure, |predictions|))
  }

  /** `buildPrefecturePredictFile` with the fetch as an input. */
  function BuildSpec(fileName: string, parsed: Json, existing: Option<Json>, fetch: FetchOutcome)
    : Result<BuildOutcome, string>
  {
    var (prefecture, spots) :- SourceFileOf(parsed, fileName);
    var before :- ExistingPredictsOf(existing, fileName);
    var rows :- ReadSpotRows(spots, fileName);
    Assemble(prefecture, rows, before, fetch, fileName)
  }

  /** `buildPrefecturePredictFile`: reads the existing predictions, fetches the forecast only
      when some spot has a JMC source, looks every such spot up and merges. */
  method BuildPrefecturePredictFile(fileName: string, parsed: Json, existing: Option<Json>, fetch: FetchOutcome)
    returns (r: Result<BuildOutcome, string>)
    ensures r == BuildSpec(fileName, parsed, existing, fetch)
  {
    var source := SourceFileOf(parsed, fileName);
    if source.Err? {
      return Err(source.error);
    }
    var (prefecture, spots) := source.value;
    var existingById := ReadExistingPredicts(existing, fileName);
    if existingById.Err? {
      return Err(existingById.error);
    }
    var rows := ReadSpotRows(spots, fileName);
    if rows.Err? {
      return Err(rows.error);
    }
    r := AssembleFile(prefecture, rows.value, existingById.value, fetch, fileName);
  }

  /** The fetch, lookup and merge steps of `buildPrefecturePredictFile`. */
  method AssembleFile(prefecture: Prefecture, rows: seq<SpotRow>, before: map<string, RawSources>,
                      fetch: FetchOutcome, fileName: string) returns (r: Result<BuildOutcome, string>)
    ensures r == Assemble(prefecture, rows, before, fetch, fileName)
  {
    var jmcRows := WithJmcSource(rows);
    var forecast: Option<ForecastIndex> := None;
    var hadFailure := false;
    if |jmcRows| > 0 {
      match fetch {
        case Fetched(json) =>
          var indexed := IndexJmcPrefectureForecast(JmcApi.PrefectureApiUrl(prefecture.id.Floor), json);
          if indexed.Ok? {
            forecast := Some(indexed.value);
          } else {
            hadFailure := true;
          }
        case FetchFailed(status) =>
          if !(prefecture.id == 47.0 && status == Some(400.0)) {
            hadFailure := true;
          }
      }
    }
    assert (forecast, hadFailure) == FetchStage(|jmcRows| > 0, prefecture.id, fetch);
    var predictions: map<string, Prediction> := map[];
    if forecast.Some? {
      var collected := CollectJmcPredictions(jmcRows, forecast.value, fileName);
      if collected.Err? {
        return Err(collected.error);
      }
      predictions := collected.value;
    }
    var predictSpots := MergeAll(rows, before, predictions, hadFailure);
    return Ok(BuildOutcome(PredictFileOut(prefecture, predictSpots), hadFailure, |predictions|));
  }

  // ----- What the build promises -----

  /** A successful build read the source header, the existing predictions and every spot row
      (whose ids and JMC sources `ReadSpotRows` relates to the spots), and assembled the file
      from them. */
  lemma BuildReads(fileName: string, parsed: Json, existing: Option<Json>, fetch: FetchOutcome)
    requires BuildSpec(fileName, parsed, existing, fetch).Ok?
    ensures SourceFileOf(parsed, fileName).Ok? && ExistingPredictsOf(existing, fileName).Ok?
    ensures ReadSpotRows(SourceFileOf(parsed, fileName).value.1, fileName).Ok?
    ensures BuildSpec(fileName, parsed, existing, fetch)
         == Assemble(SourceFileOf(parsed, fileName).value.0, ReadSpotRows(SourceFileOf(parsed, fileName).value.1, fileName).value,
                     ExistingPredictsOf(existing, fileName).value, fetch, fileName)
  {
  }

  /** The written file has the prefecture and one spot per row, with the same ids in the same
      order; every spot keeps its `weathernews` prediction, and a failed fetch leaves every
      spot's predictions exactly as they were. */
  lemma AssembleKeepsSpots(prefecture: Prefecture, rows: seq<SpotRow>, before: map<string, RawSources>,
                           fetch: FetchOutcome, fileName: string)
    requires ValidExisting(before) && Assemble(prefecture, rows, before, fetch, fileName).Ok?
    ensures var out := Assemble(prefecture, rows, before, fetch, fileName).value;
      && out.file.prefecture == prefecture && |out.file.spots| == |rows|
      && (forall k :: 0 <= k < |rows| ==> out.file.spots[k].id == rows[k].id)
      && (forall k :: 0 <= k < |rows| ==>
            out.file.spots[k].predict.GetOr(RawSources(None, None)).weathernews == ExistingOf(before, rows[k].id).weathernews)
      && (out.hadFailure ==> forall k :: 0 <= k < |rows| ==>
            out.file.spots[k].predict == if rows[k].id in before then Some(before[rows[k].id]) else None)
  {
  }

  /** A prefecture none of whose spots has a JMC source is not fetched: the result is the same
      whatever the fetch would have given, nothing fails, nothing is updated and every spot's
      `jmc` prediction is removed. */
  lemma NoJmcSpotsNoFetch(prefecture: Prefecture, rows: seq<SpotRow>, before: map<string, RawSources>,
                          fetch: FetchOutcome, other: FetchOutcome, fileName: string)
    requires forall k :: 0 <= k < |rows| ==> !rows[k].hasJmcSource
    ensures Assemble(prefecture, rows, before, other, fileName) == Assemble(prefecture, rows, before, fetch, fileName)
    ensures var out := Assemble(prefecture, rows, before, fetch, fileName);
      && out.Ok? && !out.value.hadFailure && out.value.updatedSpotCount == 0
      && forall k :: 0 <= k < |out.value.file.spots| ==> out.value.file.spots[k].predict.GetOr(RawSources(None, None)).jmc.None?
  {
    assert WithJmcSource(rows) == [];
  }

  /** A failed fetch for a prefecture with JMC spots marks the file as failed, except HTTP 400
      for prefecture 47, which means there is no JMC data; either way nothing is updated. */
  lemma FailedFetchOutcome(prefecture: Prefecture, rows: seq<SpotRow>, before: map<string, RawSources>,
                           status: Option<real>, fileName: string)
    requires exists k :: 0 <= k < |rows| && rows[k].hasJmcSource
    ensures var out := Assemble(prefecture, rows, before, FetchFailed(status), fileName);
      && out.Ok? && out.value.updatedSpotCount == 0
      && (out.value.hadFailure <==> !(prefecture.id == 47.0 && status == Some(400.0)))
  {
    var k :| 0 <= k < |rows| && rows[k].hasJmcSource;
    assert rows[k] in WithJmcSource(rows);
  }

  /** A fetched answer that the index rejects is a failure too. */
  lemma RejectedForecastOutcome(prefecture: Prefecture, rows: seq<SpotRow>, before: map<string, RawSources>,
                                json: Json, fileName: string)
    requires exists k :: 0 <= k < |rows| && rows[k].hasJmcSource
    requires ForecastIndexOf(JmcApi.PrefectureApiUrl(prefecture.id.Floor), json).Err?
    ensures var out := Assemble(prefecture, rows, before, Fetched(json), fileName);
      out.Ok? && out.value.hadFailure && out.value.updatedSpotCount == 0
  {
    var k :| 0 <= k < |rows| && rows[k].hasJmcSource;
    assert rows[k] in WithJmcSource(rows);
    assert FetchStage(|WithJmcSource(rows)| > 0, prefecture.id, Fetched(json)) == (None, true);
    CombineWithoutForecast(prefecture, rows, before, true, fileName);
  }

  /** Without a forecast there are no lookups: the merge runs on no predictions. */
  lemma CombineWithoutForecast(prefecture: Prefecture, rows: seq<SpotRow>, before: map<string, RawSources>,
                               hadFailure: bool, fileName: string)
    ensures Combine(prefecture, rows, before, (None, hadFailure), fileName)
      == Ok(BuildOutcome(PredictFileOut(prefecture, MergeAll(rows, before, map[], hadFailure)), hadFailure, 0))
  {
  }

  /** When the forecast was indexed, the build succeeds exactly when every spot with a JMC
      source finds its point. */
  lemma FetchedSucceeds(prefecture: Prefecture, rows: seq<SpotRow>, before: map<string, RawSources>,
                        forecast: ForecastIndex, fileName: string)
    ensures Combine(prefecture, rows, before, (Some(forecast), false), fileName).Ok?
      <==> CollectedPredictions(WithJmcSource(rows), forecast, fileName).Ok?
    ensures CollectedPredictions(WithJmcSource(rows), forecast, fileName).Ok?
      <==> forall i :: 0 <= i < |WithJmcSource(rows)| ==> SpotPrediction(WithJmcSource(rows)[i], forecast, fileName).Ok?
  {
    CollectedOk(WithJmcSource(rows), forecast, fileName);
  }

  /** After a successful lookup of an indexed forecast, the spots updated are exactly the ids
      of the spots with a JMC source, and a written spot has a `jmc` prediction exactly when its
      id is one of them. */
  lemma FetchedOutcome(prefecture: Prefecture, rows: seq<SpotRow>, before: map<string, RawSources>,
                       forecast: ForecastIndex, fileName: string)
    requires ValidExisting(before)
    requires Combine(prefecture, rows, before, (Some(forecast), false), fileName).Ok?
    ensures var out := Combine(prefecture, rows, before, (Some(forecast), false), fileName).value;
      var ids := IdsOf(WithJmcSource(rows));
      && !out.hadFailure && out.updatedSpotCount == |ids|
      && forall k :: 0 <= k < |rows| ==> (JmcOf(out.file.spots[k]).Some? <==> rows[k].id in ids)
  {
    var jmcRows := WithJmcSource(rows);
    var m := CollectedPredictions(jmcRows, forecast, fileName).value;
    assert Combine(prefecture, rows, before, (Some(forecast), false), fileName)
      == Ok(BuildOutcome(PredictFileOut(prefecture, MergeAll(rows, before, m, false)), false, |m|));
    CollectedKeys(jmcRows, forecast, fileName);
  }

  /** An indexed forecast reaches the lookups with no failure. */
  lemma IndexedForecastStage(prefecture: Prefecture, rows: seq<SpotRow>, before: map<string, RawSources>,
                             json: Json, fileName: string)
    requires exists k :: 0 <= k < |rows| && rows[k].hasJmcSource
    requires ForecastIndexOf(JmcApi.PrefectureApiUrl(prefecture.id.Floor), json).Ok?
    ensures Assemble(prefecture, rows, before, Fetched(json), fileName)
      == Combine(prefecture, rows, before,
                 (Some(ForecastIndexOf(JmcApi.PrefectureApiUrl(prefecture.id.Floor), json).value), false), fileName)
  {
    var k :| 0 <= k < |rows| && rows[k].hasJmcSource;
    assert rows[k] in WithJmcSource(rows);
  }
}
