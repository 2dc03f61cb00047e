/** The JMC (Japan Meteorological Corporation) prefecture forecast: the JSON answer of the
    forecast API read into a list of forecast points, and the lookup of the point a spot is
    mapped to, by code or else by its unique name. Every `assert` of the script that throws
    becomes an `Err` carrying the script's message. */
module JmcForecastParser {
  import opened Wrappers
  import JsText
  import opened JsonValue
  import opened SakuraSpotPredictSchema
  import opened Sequences

  /** `String.prototype.slice(0, n)`: the first `n` characters, or all of a shorter string. */
  function Prefix(s: string, n: nat): (r: string)
    ensures |r| == (if |s| < n then |s| else n)
    ensures r == s[..|r|]
  {
    if |s| < n then s else s[..n]
  }

  /** `isoDateFromJstDateTime`: the date part of a JST date-time such as
      `2026-02-26T00:00:00+09:00`, that is its first ten characters, which must have the
      `YYYY-MM-DD` digit shape. */
  function IsoDateFromJstDateTime(value: Option<Json>, ctx: string): (r: Result<string, string>)
    ensures r.Ok? <==> IsNonEmptyString(value) && |value.value.s| >= 10 && IsIsoDate(value.value.s[..10])
    ensures r.Ok? ==> r.value == value.value.s[..10] && IsIsoDate(r.value)
    ensures !IsNonEmptyString(value) ==> r == Err("Invalid " + ctx + " (expected non-empty string)")
    ensures IsNonEmptyString(value) && r.Err? ==> r == Err("Invalid " + ctx + " (expected JST datetime)")
  {
    if !IsNonEmptyString(value) then Err("Invalid " + ctx + " (expected non-empty string)")
    else
      var date := Prefix(value.value.s, 10);
      if IsIsoDate(date) then Ok(date) else Err("Invalid " + ctx + " (expected JST datetime)")
  }

  /** A date followed by any time and offset reads back as that date: the extraction inverts
      writing a date-time as `<date>T<time><offset>`. */
  lemma IsoDateOfDateTime(date: string, rest: string, ctx: string)
    requires IsIsoDate(date)
    ensures IsoDateFromJstDateTime(Some(JStr(date + rest)), ctx) == Ok(date)
  {
    assert (date + rest)[..10] == date;
    assert JsText.IsDigit(date[0]) && !JsText.IsWhitespace(date[0]);
    JsText.NonBlankIffSomeNonWhitespace(date + rest);
  }

  // ----- Forecast points -----

  /** One `jr_data` row as the parser returns it. */
  datatype JmcPoint = JmcPoint(
    code: string,
    nameJa: string,
    firstBloomDate: Option<string>,
    fullBloomDate: Option<string>)

  datatype JmcForecast = JmcForecast(forecastedAt: string, points: seq<JmcPoint>)

  /** A falsy date-time field reads as no date; a truthy one must be a JST date-time. */
  function OptionalJstDate(value: Option<Json>, ctx: string): (r: Result<Option<string>, string>)
    ensures !Truthy(value) ==> r == Ok(None)
    ensures Truthy(value) ==> r.Ok? == IsoDateFromJstDateTime(value, ctx).Ok?
    ensures Truthy(value) && r.Ok? ==> r.value == Some(IsoDateFromJstDateTime(value, ctx).value)
    ensures Truthy(value) && r.Err? ==> r.error == IsoDateFromJstDateTime(value, ctx).error
  {
    if Truthy(value) then
      var date :- IsoDateFromJstDateTime(value, ctx);
      Ok(Some(date))
    else Ok(None)
  }

  /** The assertions on one row, in the order the script makes them. */
  function ParseRow(row: Json, ctx: string): (r: Result<JmcPoint, string>)
    ensures !row.JObj? ==> r == Err("Invalid " + ctx + ".result_list.jr_data row")
    ensures row.JObj? && !IsNonEmptyString(Get(row, "code")) ==> r == Err("Invalid " + ctx + ".jr_data.code")
    ensures row.JObj? && IsNonEmptyString(Get(row, "code")) && !IsNonEmptyString(Get(row, "name"))
      ==> r == Err("Invalid " + ctx + ".jr_data.name")
    ensures r.Ok? ==>
      && IsNonEmptyString(Get(row, "code")) && r.value.code == row.fields["code"].s
      && IsNonEmptyString(Get(row, "name")) && r.value.nameJa == row.fields["name"].s
      && (r.value.firstBloomDate.Some? <==> Truthy(Get(row, "bloom_forecast_datetime")))
      && (r.value.fullBloomDate.Some? <==> Truthy(Get(row, "full_forecast_datetime")))
      && OptIsoDate(r.value.firstBloomDate) && OptIsoDate(r.value.fullBloomDate)
    ensures r.Ok? ==>
      && OptionalJstDate(Get(row, "bloom_forecast_datetime"), FirstBloomCtx(ctx, r.value.code)) == Ok(r.value.firstBloomDate)
      && OptionalJstDate(Get(row, "full_forecast_datetime"), FullBloomCtx(ctx, r.value.code)) == Ok(r.value.fullBloomDate)
    ensures row.JObj? && IsNonEmptyString(Get(row, "code")) && IsNonEmptyString(Get(row, "name")) ==>
      var first := OptionalJstDate(Get(row, "bloom_forecast_datetime"), FirstBloomCtx(ctx, row.fields["code"].s));
      var full := OptionalJstDate(Get(row, "full_forecast_datetime"), FullBloomCtx(ctx, row.fields["code"].s));
      && (first.Err? ==> r == Err(first.error))
      && (first.Ok? && full.Err? ==> r == Err(full.error))
      && (first.Ok? && full.Ok? ==> r.Ok?)
  {
    if !row.JObj? then Err("Invalid " + ctx + ".result_list.jr_data row")
    else if !IsNonEmptyString(Get(row, "code")) then Err("Invalid " + ctx + ".jr_data.code")
    else if !IsNonEmptyString(Get(row, "name")) then Err("Invalid " + ctx + ".jr_data.name")
    else
      var code := row.fields["code"].s;
      var firstBloom :- OptionalJstDate(Get(row, "bloom_forecast_datetime"), FirstBloomCtx(ctx, code));
      var fullBloom :- OptionalJstDate(Get(row, "full_forecast_datetime"), FullBloomCtx(ctx, code));
      Ok(JmcPoint(code, row.fields["name"].s, firstBloom, fullBloom))
  }

  /** The context of a row's first-bloom date in error messages. */
  function FirstBloomCtx(ctx: string, code: string): string {
    ctx + ".jr_data.bloom_forecast_datetime (" + code + ")"
  }

  /** The context of a row's full-bloom date in error messages. */
  function FullBloomCtx(ctx: string, code: string): string {
    ctx + ".jr_data.full_forecast_datetime (" + code + ")"
  }

  /** `parseJmcPrefectureForecastJson`: the root and `result_list` must be objects, the update
      time a JST date-time and `jr_data` an array of valid rows. */
  function ParseJmcPrefectureForecastJson(json: Json, ctx: string): (r: Result<JmcForecast, string>)
    ensures !json.JObj? ==> r == Err("Invalid " + ctx + " JSON root (expected object)")
    ensures json.JObj? && !IsPlainObject(Get(json, "result_list")) ==> r == Err("Missing " + ctx + ".result_list")
    ensures r.Ok? ==>
      && IsPlainObject(Get(json, "result_list"))
      && var result := json.fields["result_list"];
      && IsoDateFromJstDateTime(Get(result, "update_datetime"), ctx + ".result_list.update_datetime")
           == Ok(r.value.forecastedAt)
      && Get(result, "jr_data").Some? && result.fields["jr_data"].JArr?
      && MapUntilError(result.fields["jr_data"].items, row => ParseRow(row, ctx)) == Ok(r.value.points)
    ensures json.JObj? && IsPlainObject(Get(json, "result_list")) ==>
      var result := json.fields["result_list"];
      var forecastedAt := IsoDateFromJstDateTime(Get(result, "update_datetime"), ctx + ".result_list.update_datetime");
      var rows := Get(result, "jr_data");
      && (forecastedAt.Err? ==> r == Err(forecastedAt.error))
      && (forecastedAt.Ok? && !(rows.Some? && rows.value.JArr?) ==> r == Err("Missing " + ctx + ".result_list.jr_data"))
      && (forecastedAt.Ok? && rows.Some? && rows.value.JArr? ==>
            (r.Ok? <==> forall i :: 0 <= i < |rows.value.items| ==> ParseRow(rows.value.items[i], ctx).Ok?))
      && (forecastedAt.Ok? && rows.Some? && rows.value.JArr? && r.Err? ==>
            exists i :: FirstError(rows.value.items, row => ParseRow(row, ctx), i)
                        && r.error == ParseRow(rows.value.items[i], ctx).error)
  {
    if !json.JObj? then Err("Invalid " + ctx + " JSON root (expected object)")
    else if !IsPlainObject(Get(json, "result_list")) then Err("Missing " + ctx + ".result_list")
    else
      var result := json.fields["result_list"];
      var forecastedAt :- IsoDateFromJstDateTime(Get(result, "update_datetime"), ctx + ".result_list.update_datetime");
      var rows := Get(result, "jr_data");
      if !(rows.Some? && rows.value.JArr?) then Err("Missing " + ctx + ".result_list.jr_data")
      else
        var points :- MapUntilError(rows.value.items, row => ParseRow(row, ctx));
        Ok(JmcForecast(forecastedAt, points))
  }

  /** Every parsed forecast has an ISO update date and one point per row, each with a non-blank
      code and name and ISO bloom dates. */
  lemma ParsedForecastIsWellFormed(json: Json, ctx: string)
    requires ParseJmcPrefectureForecastJson(json, ctx).Ok?
    ensures var f := ParseJmcPrefectureForecastJson(json, ctx).value;
      && IsIsoDate(f.forecastedAt)
      && |f.points| == |json.fields["result_list"].fields["jr_data"].items|
      && forall i :: 0 <= i < |f.points| ==>
           && JsText.NonBlank(f.points[i].code) && JsText.NonBlank(f.points[i].nameJa)
           && OptIsoDate(f.points[i].firstBloomDate) && OptIsoDate(f.points[i].fullBloomDate)
  {
    var f := ParseJmcPrefectureForecastJson(json, ctx).value;
    var rows := json.fields["result_list"].fields["jr_data"].items;
    forall i | 0 <= i < |f.points|
      ensures JsText.NonBlank(f.points[i].code) && JsText.NonBlank(f.points[i].nameJa)
      ensures OptIsoDate(f.points[i].firstBloomDate) && OptIsoDate(f.points[i].fullBloomDate)
    {
      assert ParseRow(rows[i], ctx) == Ok(f.points[i]);
    }
  }

  // ----- Point lookup -----

  /** `points.find((p) => p.code === code)`, as an index. */
  function FirstWithCode(points: seq<JmcPoint>, code: string): (r: Option<nat>)
    ensures r.None? <==> forall i :: 0 <= i < |points| ==> points[i].code != code
    ensures r.Some? ==> (r.value < |points| && points[r.value].code == code
      && forall j :: 0 <= j < r.value ==> points[j].code != code)
  {
    if |points| == 0 then None
    else if points[0].code == code then Some(0)
    else
      var rest := FirstWithCode(points[1..], code);
      if rest.None? then
        assert forall i :: 1 <= i < |points| ==> points[i] == points[1..][i - 1];
        None
      else
        assert forall j :: 1 <= j < rest.value + 1 ==> points[j] == points[1..][j - 1];
        Some(rest.value + 1)
  }

  /** `points.filter((p) => p.name_ja === name)`. */
  function WithName(points: seq<JmcPoint>, name: string): (r: seq<JmcPoint>)
    ensures |r| <= |points|
    ensures forall p :: p in r <==> p in points && p.nameJa == name
    ensures IsSubsequence(r, points)
    ensures |r| == CountWhere(points, (p: JmcPoint) => p.nameJa == name)
  {
    if |points| == 0 then []
    else
      var rest := WithName(points[1..], name);
      FilterStep(points[0], points[0].nameJa == name, rest, points[1..]);
      if points[0].nameJa == name then [points[0]] + rest else rest
  }

  /** The recursive filter is the generic one, so each point named `name` occurs in it as
      often as in `points`. */
  lemma WithNameIsFilter(points: seq<JmcPoint>, name: string)
    ensures WithName(points, name) == Filter(points, (p: JmcPoint) => p.nameJa == name)
  {
    FilterDetermined(WithName(points, name), points, (p: JmcPoint) => p.nameJa == name);
  }

  /** Exactly one point is named `name`, at index `i`. */
  predicate OnlyNamed(points: seq<JmcPoint>, name: string, i: int) {
    && 0 <= i < |points| && points[i].nameJa == name
    && forall j :: 0 <= j < |points| && points[j].nameJa == name ==> j == i
  }

  /** The filter has one element exactly when one index carries the name, and that element
      is the point at that index. */
  lemma {:induction false} WithNameSingle(points: seq<JmcPoint>, name: string)
    ensures |WithName(points, name)| == 1 <==> exists i :: OnlyNamed(points, name, i)
    ensures forall i :: OnlyNamed(points, name, i) ==> WithName(points, name) == [points[i]]
  {
    if |points| == 0 {
    } else {
      var tail := points[1..];
      WithNameSingle(tail, name);
      assert forall i :: 1 <= i < |points| ==> points[i] == tail[i - 1];
      if points[0].nameJa == name {
        if |WithName(tail, name)| == 0 {
          forall j | 1 <= j < |points| ensures points[j].nameJa != name {
            assert tail[j - 1] in tail;
          }
          assert OnlyNamed(points, name, 0);
        } else {
          var p := WithName(tail, name)[0];
          assert p in WithName(tail, name);
          var k :| 0 <= k < |tail| && tail[k] == p;
          forall i | 0 <= i < |points| ensures !OnlyNamed(points, name, i) {
            assert points[0].nameJa == name && points[k + 1].nameJa == name;
          }
        }
      } else {
        forall i | OnlyNamed(points, name, i) ensures i >= 1 && OnlyNamed(tail, name, i - 1) {
          forall j | 0 <= j < |tail| && tail[j].nameJa == name ensures j == i - 1 {
            assert points[j + 1].nameJa == name;
          }
        }
        forall i | OnlyNamed(tail, name, i) ensures OnlyNamed(points, name, i + 1) {
          forall j | 0 <= j < |points| && points[j].nameJa == name ensures j == i + 1 {
            assert j >= 1 && tail[j - 1].nameJa == name;
          }
        }
      }
    }
  }

  /** `findJmcPointForSpot`: a non-blank code selects the first point with that code; only
      without one is the point found by name, and then the name must be non-blank and carried
      by exactly one point. */
  function FindJmcPointForSpot(points: seq<JmcPoint>, code: Option<Json>, name: Option<Json>, ctx: string)
    : (r: Result<JmcPoint, string>)
    ensures IsNonEmptyString(code) ==>
      && (r.Ok? <==> exists i :: 0 <= i < |points| && points[i].code == code.value.s)
      && (r.Ok? ==> exists i :: 0 <= i < |points| && points[i] == r.value && points[i].code == code.value.s
                      && forall j :: 0 <= j < i ==> points[j].code != code.value.s)
      && (r.Err? ==> r.error == "Missing " + ctx + " point code \"" + code.value.s + "\"")
    ensures !IsNonEmptyString(code) && !IsNonEmptyString(name) ==> r == Err("Missing " + ctx + " point name")
    ensures !IsNonEmptyString(code) && IsNonEmptyString(name) ==>
      && (r.Ok? <==> exists i :: OnlyNamed(points, name.value.s, i))
      && (forall i :: OnlyNamed(points, name.value.s, i) ==> r == Ok(points[i]))
      && (r.Err? ==> r.error == "Expected 1 " + ctx + " point named \"" + name.value.s + "\", got "
                                + JsText.NatToDecimal(|WithName(points, name.value.s)|))
  {
    if IsNonEmptyString(code) then
      var found := FirstWithCode(points, code.value.s);
      if found.Some? then Ok(points[found.value])
      else Err("Missing " + ctx + " point code \"" + code.value.s + "\"")
    else if !IsNonEmptyString(name) then Err("Missing " + ctx + " point name")
    else
      var candidates := WithName(points, name.value.s);
      WithNameSingle(points, name.value.s);
      if |candidates| == 1 then Ok(candidates[0])
      else Err("Expected 1 " + ctx + " point named \"" + name.value.s + "\", got "
               + JsText.NatToDecimal(|candidates|))
  }
}
