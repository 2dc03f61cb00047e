/** The update script's reading of a JMC forecast answer: the same row checks as the parser,
    plus a rejection of repeated point codes, with the points indexed by code and by name. */
module JmcForecastIndex {
  import opened Wrappers
  import JsText
  import opened JsonValue
  import opened SakuraSpotPredictSchema
  import opened JmcForecastParser

  /** The forecast of one prefecture as the lookups see it. */
  datatype ForecastIndex = ForecastIndex(
    apiUrl: string,
    forecastedAt: string,
    pointsByCode: map<string, JmcPoint>,
    pointsByName: map<string, seq<JmcPoint>>)

  function CodesOf(points: seq<JmcPoint>): set<string> {
    set i | 0 <= i < |points| :: points[i].code
  }

  /** No two points share a code. */
  predicate DistinctCodes(points: seq<JmcPoint>) {
    forall a, b :: 0 <= a < b < |points| ==> points[a].code != points[b].code
  }

  /** The assertions on one `jr_data` row, given the codes already indexed: object, non-blank
      code and name, an unseen code, then the two optional dates. */
  function IndexRow(row: Json, apiUrl: string, seen: set<string>): (r: Result<JmcPoint, string>)
    ensures !row.JObj? ==> r == Err("Invalid jr_data row for " + apiUrl)
    ensures row.JObj? && IsNonEmptyString(Get(row, "code")) && IsNonEmptyString(Get(row, "name"))
            && row.fields["code"].s in seen
      ==> r == Err("Duplicate jr_data.code \"" + row.fields["code"].s + "\" for " + apiUrl)
    ensures r.Ok? ==> (&& row.JObj? && r.value.code !in seen
                       && Get(row, "code") == Some(JStr(r.value.code)) && JsText.NonBlank(r.value.code)
                       && Get(row, "name") == Some(JStr(r.value.nameJa)) && JsText.NonBlank(r.value.nameJa)
                       && OptIsoDate(r.value.firstBloomDate) && OptIsoDate(r.value.fullBloomDate))
    ensures r.Ok? ==>
      && OptionalJstDate(Get(row, "bloom_forecast_datetime"), BloomCtx(apiUrl, r.value.code)) == Ok(r.value.firstBloomDate)
      && OptionalJstDate(Get(row, "full_forecast_datetime"), FullCtx(apiUrl, r.value.code)) == Ok(r.value.fullBloomDate)
    ensures row.JObj? && !IsNonEmptyString(Get(row, "code")) ==> r == Err("Invalid jr_data.code for " + apiUrl)
    ensures row.JObj? && IsNonEmptyString(Get(row, "code")) && !IsNonEmptyString(Get(row, "name"))
      ==> r == Err("Invalid jr_data.name for " + apiUrl)
    ensures row.JObj? && IsNonEmptyString(Get(row, "code")) && IsNonEmptyString(Get(row, "name"))
            && row.fields["code"].s !in seen ==>
      var first := OptionalJstDate(Get(row, "bloom_forecast_datetime"), BloomCtx(apiUrl, row.fields["code"].s));
      var full := OptionalJstDate(Get(row, "full_forecast_datetime"), FullCtx(apiUrl, row.fields["code"].s));
      && (first.Err? ==> r == Err(first.error))
      && (first.Ok? && full.Err? ==> r == Err(full.error))
      && (first.Ok? && full.Ok? ==> r.Ok?)
  {
    if !row.JObj? then Err("Invalid jr_data row for " + apiUrl)
    else if !IsNonEmptyString(Get(row, "code")) then Err("Invalid jr_data.code for " + apiUrl)
    else if !IsNonEmptyString(Get(row, "name")) then Err("Invalid jr_data.name for " + apiUrl)
    else
      var code := row.fields["code"].s;
      if code in seen then Err("Duplicate jr_data.code \"" + code + "\" for " + apiUrl)
      else
        var bloomDate :- OptionalJstDate(Get(row, "bloom_forecast_datetime"), BloomCtx(apiUrl, code));
        var fullDate :- OptionalJstDate(Get(row, "full_forecast_datetime"), FullCtx(apiUrl, code));
        Ok(JmcPoint(code, row.fields["name"].s, bloomDate, fullDate))
  }

  /** The context of a row's first-bloom date in error messages. */
  function BloomCtx(apiUrl: string, code: string): string {
    "bloom_forecast_datetime for " + apiUrl + " (" + code + ")"
  }

  /** The context of a row's full-bloom date in error messages. */
  function FullCtx(apiUrl: string, code: string): string {
    "full_forecast_datetime for " + apiUrl + " (" + code + ")"
  }

  /** The points indexed after the given rows, or the error of the first row rejected. */
  function IndexedPoints(rows: seq<Json>, apiUrl: string): (r: Result<seq<JmcPoint>, string>)
    ensures r.Ok? ==> |r.value| == |rows|
  {
    if |rows| == 0 then Ok([])
    else
      var before :- IndexedPoints(rows[..|rows| - 1], apiUrl);
      var point :- IndexRow(rows[|rows| - 1], apiUrl, CodesOf(before));
      Ok(before + [point])
  }

  /** `pointsByCode` after the given points. */
  function ByCode(points: seq<JmcPoint>): (r: map<string, JmcPoint>)
    ensures r.Keys == CodesOf(points)
  {
    if |points| == 0 then map[]
    else
      var last := points[|points| - 1];
      assert forall i :: 0 <= i < |points| - 1 ==> points[..|points| - 1][i] == points[i];
      ByCode(points[..|points| - 1])[last.code := last]
  }

  /** `pointsByName.get(name) ?? []`. */
  function NamedIn(byName: map<string, seq<JmcPoint>>, name: string): seq<JmcPoint> {
    if name in byName then byName[name] else []
  }

  /** `pointsByName` after the given points: each name's points in row order. */
  function ByName(points: seq<JmcPoint>): map<string, seq<JmcPoint>> {
    if |points| == 0 then map[]
    else
      var last := points[|points| - 1];
      var byName := ByName(points[..|points| - 1]);
      byName[last.nameJa := NamedIn(byName, last.nameJa) + [last]]
  }

  /** `result_list.update_datetime` and the `jr_data` rows of a forecast answer. */
  function ForecastRows(json: Json, apiUrl: string): (r: Result<(string, seq<Json>), string>)
    ensures !json.JObj? ==> r == Err("Invalid JSON root for " + apiUrl)
    ensures json.JObj? && !IsPlainObject(Get(json, "result_list")) ==> r == Err("Missing result_list for " + apiUrl)
    ensures r.Ok? ==> (&& IsPlainObject(Get(json, "result_list"))
                       && var result := json.fields["result_list"];
                       && IsoDateFromJstDateTime(Get(result, "update_datetime"),
                            "result_list.update_datetime for " + apiUrl) == Ok(r.value.0)
                       && Get(result, "jr_data") == Some(JArr(r.value.1)))
    ensures json.JObj? && IsPlainObject(Get(json, "result_list")) ==>
      var result := json.fields["result_list"];
      var forecastedAt := IsoDateFromJstDateTime(Get(result, "update_datetime"), "result_list.update_datetime for " + apiUrl);
      var rows := Get(result, "jr_data");
      && (forecastedAt.Err? ==> r == Err(forecastedAt.error))
      && (forecastedAt.Ok? && !(rows.Some? && rows.value.JArr?) ==> r == Err("Missing result_list.jr_data for " + apiUrl))
      && (forecastedAt.Ok? && rows.Some? && rows.value.JArr? ==> r == Ok((forecastedAt.value, rows.value.items)))
  {
    if !json.JObj? then Err("Invalid JSON root for " + apiUrl)
    else if !IsPlainObject(Get(json, "result_list")) then Err("Missing result_list for " + apiUrl)
    else
      var result := json.fields["result_list"];
      var forecastedAt :- IsoDateFromJstDateTime(Get(result, "update_datetime"),
                                                 "result_list.update_datetime for " + apiUrl);
      var rows := Get(result, "jr_data");
      if rows.Some? && rows.value.JArr? then Ok((forecastedAt, rows.value.items))
      else Err("Missing result_list.jr_data for " + apiUrl)
  }

  /** The forecast the script builds from an answer, or the error it throws. */
  function ForecastIndexOf(apiUrl: string, json: Json): Result<ForecastIndex, string> {
    var (forecastedAt, rows) :- ForecastRows(json, apiUrl);
    var points :- IndexedPoints(rows, apiUrl);
    Ok(ForecastIndex(apiUrl, forecastedAt, ByCode(points), ByName(points)))
  }

  /** `fetchJmcPrefectureForecast` after the fetch: the checks of the answer and the indexing
      loop that fills `pointsByCode` and `pointsByName`. */
  method IndexJmcPrefectureForecast(apiUrl: string, json: Json) returns (r: Result<ForecastIndex, string>)
    ensures r == ForecastIndexOf(apiUrl, json)
  {
    var head := ForecastRows(json, apiUrl);
    if head.Err? {
      return Err(head.error);
    }
    var (forecastedAt, rows) := head.value;
    var pointsByCode: map<string, JmcPoint> := map[];
    var pointsByName: map<string, seq<JmcPoint>> := map[];
    ghost var points: seq<JmcPoint> := [];
    var i := 0;
    while i < |rows|
      invariant 0 <= i <= |rows|
      invariant IndexedPoints(rows[..i], apiUrl) == Ok(points)
      invariant pointsByCode == ByCode(points) && pointsByName == ByName(points)
    {
      var point := IndexRow(rows[i], apiUrl, pointsByCode.Keys);
      IndexStep(rows, i, apiUrl, points);
      if point.Err? {
        IndexedPrefixErr(rows, i + 1, apiUrl);
        return Err(point.error);
      }
      pointsByCode := pointsByCode[point.value.code := point.value];
      var list := if point.value.nameJa in pointsByName then pointsByName[point.value.nameJa] else [];
      pointsByName := pointsByName[point.value.nameJa := list + [point.value]];
      points := points + [point.value];
      i := i + 1;
    }
    assert rows[..i] == rows;
    return Ok(ForecastIndex(apiUrl, forecastedAt, pointsByCode, pointsByName));
  }

  /** One more row: its checks extend the indexed points and both maps, or reject the prefix. */
  lemma IndexStep(rows: seq<Json>, i: nat, apiUrl: string, points: seq<JmcPoint>)
    requires i < |rows| && IndexedPoints(rows[..i], apiUrl) == Ok(points)
    ensures var point := IndexRow(rows[i], apiUrl, CodesOf(points));
      && (point.Err? ==> IndexedPoints(rows[..i + 1], apiUrl) == Err(point.error))
      && (point.Ok? ==> && IndexedPoints(rows[..i + 1], apiUrl) == Ok(points + [point.value])
                        && ByCode(points + [point.value]) == ByCode(points)[point.value.code := point.value]
                        && ByName(points + [point.value])
                           == ByName(points)[point.value.nameJa := NamedIn(ByName(points), point.value.nameJa) + [point.value]])
  {
    assert rows[..i + 1][..i] == rows[..i];
    var point := IndexRow(rows[i], apiUrl, CodesOf(points));
    if point.Ok? {
      assert (points + [point.value])[..|points|] == points;
    }
  }

  /** A rejected prefix of the rows rejects all of them, with the same error. */
  lemma {:induction false} IndexedPrefixErr(rows: seq<Json>, n: nat, apiUrl: string)
    requires n <= |rows| && IndexedPoints(rows[..n], apiUrl).Err?
    ensures IndexedPoints(rows, apiUrl) == IndexedPoints(rows[..n], apiUrl)
    decreases |rows|
  {
    if n < |rows| {
      var init := rows[..|rows| - 1];
      assert init[..n] == rows[..n];
      IndexedPrefixErr(init, n, apiUrl);
    } else {
      assert rows[..n] == rows;
    }
  }

  /** Every indexed point is what its row's checks produced, given the codes before it. */
  lemma {:induction false} IndexedRows(rows: seq<Json>, apiUrl: string)
    requires IndexedPoints(rows, apiUrl).Ok?
    ensures var points := IndexedPoints(rows, apiUrl).value;
      forall i :: 0 <= i < |rows| ==> IndexRow(rows[i], apiUrl, CodesOf(points[..i])) == Ok(points[i])
  {
    if |rows| > 0 {
      var init := rows[..|rows| - 1];
      IndexedRows(init, apiUrl);
      var points := IndexedPoints(rows, apiUrl).value;
      var before := IndexedPoints(init, apiUrl).value;
      assert points == before + [points[|rows| - 1]];
      forall i | 0 <= i < |rows|
        ensures IndexRow(rows[i], apiUrl, CodesOf(points[..i])) == Ok(points[i])
      {
        if i < |rows| - 1 {
          assert points[..i] == before[..i];
          assert rows[i] == init[i];
        } else {
          assert points[..i] == before;
        }
      }
    }
  }

  /** Indexed points have pairwise different codes, each the code of its row: a code that
      occurs on two well-formed rows is rejected. */
  lemma IndexedDistinctCodes(rows: seq<Json>, apiUrl: string)
    requires IndexedPoints(rows, apiUrl).Ok?
    ensures DistinctCodes(IndexedPoints(rows, apiUrl).value)
    ensures forall i :: 0 <= i < |rows| ==>
      Get(rows[i], "code") == Some(JStr(IndexedPoints(rows, apiUrl).value[i].code))
  {
    var points := IndexedPoints(rows, apiUrl).value;
    IndexedRows(rows, apiUrl);
    forall a, b | 0 <= a < b < |points| ensures points[a].code != points[b].code {
      assert points[..b][a] == points[a];
      assert points[a].code in CodesOf(points[..b]);
      assert IndexRow(rows[b], apiUrl, CodesOf(points[..b])) == Ok(points[b]);
    }
  }

  /** Two well-formed rows with the same code make the whole answer rejected. */
  lemma DuplicateCodeRejected(rows: seq<Json>, apiUrl: string, a: nat, b: nat)
    requires a < b < |rows|
    requires IsNonEmptyString(Get(rows[a], "code")) && Get(rows[a], "code") == Get(rows[b], "code")
    ensures IndexedPoints(rows, apiUrl).Err?
  {
    if IndexedPoints(rows, apiUrl).Ok? {
      IndexedDistinctCodes(rows, apiUrl);
    }
  }

  /** With distinct codes, looking a code up in `pointsByCode` finds the one point that has it,
      which is also the first point with that code. */
  lemma {:induction false} ByCodeLookup(points: seq<JmcPoint>)
    requires DistinctCodes(points)
    ensures forall i :: 0 <= i < |points| ==> ByCode(points)[points[i].code] == points[i]
    ensures forall c :: c in ByCode(points) ==>
      FirstWithCode(points, c).Some? && ByCode(points)[c] == points[FirstWithCode(points, c).value]
  {
    if |points| > 0 {
      var init := points[..|points| - 1];
      ByCodeLookup(init);
      forall i | 0 <= i < |points| ensures ByCode(points)[points[i].code] == points[i] {
        if i < |points| - 1 {
          assert init[i] == points[i];
        }
      }
      forall c | c in ByCode(points)
        ensures FirstWithCode(points, c).Some? && ByCode(points)[c] == points[FirstWithCode(points, c).value]
      {
        var k :| 0 <= k < |points| && points[k].code == c;
        var f := FirstWithCode(points, c).value;
        assert f == k;
      }
    }
  }

  /** Filtering by name, one point more. */
  lemma {:induction false} WithNameAppend(points: seq<JmcPoint>, x: JmcPoint, name: string)
    ensures WithName(points + [x], name) == WithName(points, name) + (if x.nameJa == name then [x] else [])
  {
    if |points| > 0 {
      assert (points + [x])[1..] == points[1..] + [x];
      WithNameAppend(points[1..], x, name);
    }
  }

  /** `pointsByName.get(name) ?? []` holds exactly the points with that name, in row order. */
  lemma {:induction false} ByNameIsFilter(points: seq<JmcPoint>, name: string)
    ensures NamedIn(ByName(points), name) == WithName(points, name)
  {
    if |points| > 0 {
      var init := points[..|points| - 1];
      ByNameIsFilter(init, name);
      assert points == init + [points[|points| - 1]];
      WithNameAppend(init, points[|points| - 1], name);
    }
  }
}
