/** The shape of a prefecture predict file: bloom predictions per spot, grouped by source
    (Weathernews, JMC), with the rewrite of the older flat format into the grouped one. */
module SakuraSpotPredictSchema {
  import opened Wrappers
  import opened JsonValue
  import JsText
  import opened SakuraSpotSchema

  /** The ISO date pattern `^\d{4}-\d{2}-\d{2}$`: only the digit shape, not calendar ranges
      (the `full-date` layout of section 5.6 of RFC 3339). */
  predicate IsIsoDate(s: string) {
    && |s| == 10
    && JsText.AllDigits(s[..4]) && s[4] == '-'
    && JsText.AllDigits(s[5..7]) && s[7] == '-'
    && JsText.AllDigits(s[8..])
  }

  function DecodeIsoDate(v: Json): (r: Option<string>)
    ensures r.Some? <==> v.JStr? && IsIsoDate(v.s)
    ensures r.Some? ==> r.value == v.s
  {
    if v.JStr? && IsIsoDate(v.s) then Some(v.s) else None
  }

  // ----- A prediction -----

  datatype Prediction = Prediction(
    forecastedAt: Option<string>,
    firstBloomDate: Option<string>,
    fullBloomDate: Option<string>,
    fubukiDate: Option<string>)

  predicate OptIsoDate(d: Option<string>) {
    d.None? || IsIsoDate(d.value)
  }

  /** Every present date is an ISO date, and at least one of the four is present. */
  predicate ValidPrediction(p: Prediction) {
    && OptIsoDate(p.forecastedAt) && OptIsoDate(p.firstBloomDate)
    && OptIsoDate(p.fullBloomDate) && OptIsoDate(p.fubukiDate)
    && (p.forecastedAt.Some? || p.firstBloomDate.Some? || p.fullBloomDate.Some? || p.fubukiDate.Some?)
  }

  /** The four keys of a prediction (also the keys of the flat legacy format). */
  const PredictionKeys: seq<string> := ["forecasted_at", "first_bloom_date", "full_bloom_date", "fubuki_date"]

  /** A prediction object; unknown keys are dropped. */
  function DecodePrediction(v: Json): (r: Option<Prediction>)
    ensures r.Some? ==> v.JObj? && ValidPrediction(r.value)
    ensures r.Some? ==> exists i :: 0 <= i < |PredictionKeys| && PredictionKeys[i] in v.fields
  {
    if !v.JObj? then None
    else
      var forecastedAt := Optional(v, "forecasted_at", DecodeIsoDate);
      var firstBloom := Optional(v, "first_bloom_date", DecodeIsoDate);
      var fullBloom := Optional(v, "full_bloom_date", DecodeIsoDate);
      var fubuki := Optional(v, "fubuki_date", DecodeIsoDate);
      if forecastedAt.Some? && firstBloom.Some? && fullBloom.Some? && fubuki.Some? then
        var p := Prediction(forecastedAt.value, firstBloom.value, fullBloom.value, fubuki.value);
        if p.forecastedAt.Some? || p.firstBloomDate.Some? || p.fullBloomDate.Some? || p.fubukiDate.Some? then
          assert p.forecastedAt.Some? ==> PredictionKeys[0] in v.fields;
          assert p.firstBloomDate.Some? ==> PredictionKeys[1] in v.fields;
          assert p.fullBloomDate.Some? ==> PredictionKeys[2] in v.fields;
          assert p.fubukiDate.Some? ==> PredictionKeys[3] in v.fields;
          Some(p)
        else None
      else None
  }

  function EncodePrediction(p: Prediction): (v: Json)
    ensures v.JObj?
  {
    JObj(PutOptional(PutOptional(PutOptional(PutOptional(map[],
      "forecasted_at", p.forecastedAt, Str), "first_bloom_date", p.firstBloomDate, Str),
      "full_bloom_date", p.fullBloomDate, Str), "fubuki_date", p.fubukiDate, Str))
  }

  lemma DecodeEncodePrediction(p: Prediction)
    requires ValidPrediction(p)
    ensures DecodePrediction(EncodePrediction(p)) == Some(p)
  {
  }

  // ----- Prediction sources -----

  datatype PredictSources = PredictSources(weathernews: Option<Prediction>, jmc: Option<Prediction>)

  /** At least one source, each a valid prediction. */
  predicate ValidSources(p: PredictSources) {
    && (p.weathernews.Some? || p.jmc.Some?)
    && (p.weathernews.None? || ValidPrediction(p.weathernews.value))
    && (p.jmc.None? || ValidPrediction(p.jmc.value))
  }

  /** The sources object is strict: a key other than `weathernews` and `jmc` rejects it. */
  function DecodeSources(v: Json): (r: Option<PredictSources>)
    ensures r.Some? ==> v.JObj? && v.fields.Keys <= {"weathernews", "jmc"} && ValidSources(r.value)
  {
    if !v.JObj? || !(v.fields.Keys <= {"weathernews", "jmc"}) then None
    else
      var weathernews := Optional(v, "weathernews", DecodePrediction);
      var jmc := Optional(v, "jmc", DecodePrediction);
      if weathernews.Some? && jmc.Some? && (weathernews.value.Some? || jmc.value.Some?) then
        Some(PredictSources(weathernews.value, jmc.value))
      else None
  }

  function EncodeSources(p: PredictSources): (v: Json)
    ensures v.JObj?
  {
    JObj(PutOptional(PutOptional(map[], "weathernews", p.weathernews, EncodePrediction), "jmc", p.jmc, EncodePrediction))
  }

  lemma DecodeEncodeSources(p: PredictSources)
    requires ValidSources(p)
    ensures DecodeSources(EncodeSources(p)) == Some(p)
  {
    if p.weathernews.Some? { DecodeEncodePrediction(p.weathernews.value); }
    if p.jmc.Some? { DecodeEncodePrediction(p.jmc.value); }
  }

  // ----- The legacy flat format -----

  /** The flat format: some prediction key is present, and no present one holds `null`. */
  predicate IsLegacyPredict(fields: map<string, Json>) {
    && (exists i :: 0 <= i < |PredictionKeys| && PredictionKeys[i] in fields)
    && (forall i :: 0 <= i < |PredictionKeys| ==> PredictionKeys[i] !in fields || fields[PredictionKeys[i]] != JNull)
  }

  /** The preprocess step: a flat legacy object with neither `weathernews` nor `jmc` is wrapped
      as `{weathernews: obj}`; anything else (non-objects, arrays, `null`, grouped objects, flat
      objects holding a `null` date) passes through unchanged. */
  function NormalizeLegacyPredict(v: Json): (r: Json)
    ensures v.JObj? && "weathernews" !in v.fields && "jmc" !in v.fields && IsLegacyPredict(v.fields)
            ==> r == JObj(map["weathernews" := v])
    ensures !(v.JObj? && "weathernews" !in v.fields && "jmc" !in v.fields && IsLegacyPredict(v.fields))
            ==> r == v
  {
    if !v.JObj? then v
    else if "weathernews" !in v.fields && "jmc" !in v.fields && IsLegacyPredict(v.fields) then
      JObj(map["weathernews" := v])
    else v
  }

  /** A rewritten value is in the grouped format, so the rewrite is idempotent. */
  lemma NormalizeLegacyPredictIdempotent(v: Json)
    ensures NormalizeLegacyPredict(NormalizeLegacyPredict(v)) == NormalizeLegacyPredict(v)
  {
    var r := NormalizeLegacyPredict(v);
    if r != v {
      assert "weathernews" in r.fields;
    }
  }

  /** The `predict` value of a spot: the preprocess, then the strict sources schema. */
  function DecodePredict(v: Json): (r: Option<PredictSources>)
    ensures r.Some? ==> ValidSources(r.value)
  {
    DecodeSources(NormalizeLegacyPredict(v))
  }

  /** A flat legacy object with valid dates reads as a Weathernews-only prediction. */
  lemma LegacyPredictReadsAsWeathernews(v: Json, p: Prediction)
    requires v.JObj? && "weathernews" !in v.fields && "jmc" !in v.fields
    requires DecodePrediction(v) == Some(p)
    ensures DecodePredict(v) == Some(PredictSources(Some(p), None))
  {
    var i :| 0 <= i < |PredictionKeys| && PredictionKeys[i] in v.fields;
    assert IsLegacyPredict(v.fields) by {
      forall j | 0 <= j < |PredictionKeys| && PredictionKeys[j] in v.fields
        ensures v.fields[PredictionKeys[j]] != JNull
      {
        assert j == 0 || j == 1 || j == 2 || j == 3;
      }
    }
    var w := JObj(map["weathernews" := v]);
    assert w.fields.Keys == {"weathernews"};
  }

  /** A flat object holding a `null` date is not rewritten, and the strict sources schema then
      rejects it: the `null` is reported instead of being hidden under `weathernews`. */
  lemma LegacyPredictWithNullRejected(v: Json, i: int)
    requires v.JObj? && "weathernews" !in v.fields && "jmc" !in v.fields
    requires 0 <= i < |PredictionKeys| && PredictionKeys[i] in v.fields && v.fields[PredictionKeys[i]] == JNull
    ensures NormalizeLegacyPredict(v) == v
    ensures DecodePredict(v).None?
  {
    assert !(v.fields.Keys <= {"weathernews", "jmc"}) by {
      assert PredictionKeys[i] in v.fields.Keys;
    }
  }

  // ----- The predict file -----

  datatype PredictSpot = PredictSpot(id: string, predict: Option<PredictSources>)

  datatype PredictFile = PredictFile(prefecture: Prefecture, spots: seq<PredictSpot>)

  predicate ValidPredictSpot(s: PredictSpot) {
    NonEmpty(s.id) && (s.predict.None? || ValidSources(s.predict.value))
  }

  predicate ValidPredictFile(f: PredictFile) {
    ValidPrefecture(f.prefecture) && forall i :: 0 <= i < |f.spots| ==> ValidPredictSpot(f.spots[i])
  }

  function DecodePredictSpot(v: Json): (r: Option<PredictSpot>)
    ensures r.Some? ==> v.JObj? && ValidPredictSpot(r.value)
    ensures r.Some? ==> "id" in v.fields && v.fields["id"] == JStr(r.value.id)
  {
    if !v.JObj? then None
    else
      var id := Required(v, "id", DecodeNonEmptyString);
      var predict := Optional(v, "predict", DecodePredict);
      if id.Some? && predict.Some? then Some(PredictSpot(id.value, predict.value)) else None
  }

  /** A whole predict file: a valid prefecture header and valid spot entries. */
  function DecodePredictFile(v: Json): (r: Option<PredictFile>)
    ensures r.Some? ==> ValidPredictFile(r.value)
  {
    if !v.JObj? then None
    else
      var prefecture := Required(v, "prefecture", DecodePrefecture);
      var spots := Required(v, "spots", (s: Json) => DecodeArray(s, DecodePredictSpot));
      if prefecture.Some? && spots.Some? then Some(PredictFile(prefecture.value, spots.value)) else None
  }

  function EncodePredictSpot(s: PredictSpot): Json {
    JObj(PutOptional(map["id" := Str(s.id)], "predict", s.predict, EncodeSources))
  }

  lemma DecodeEncodePredictSpot(s: PredictSpot)
    requires ValidPredictSpot(s)
    ensures DecodePredictSpot(EncodePredictSpot(s)) == Some(s)
  {
    if s.predict.Some? {
      var e := EncodeSources(s.predict.value);
      DecodeEncodeSources(s.predict.value);
      assert "weathernews" in e.fields || "jmc" in e.fields;
      assert NormalizeLegacyPredict(e) == e;
    }
  }

  function EncodePredictFile(f: PredictFile): Json {
    JObj(map["prefecture" := EncodePrefecture(f.prefecture), "spots" := EncodeArray(f.spots, EncodePredictSpot)])
  }

  /** The predict-file schema accepts exactly the valid files. */
  lemma DecodeEncodePredictFile(f: PredictFile)
    requires ValidPredictFile(f)
    ensures DecodePredictFile(EncodePredictFile(f)) == Some(f)
  {
    DecodeEncodePrefecture(f.prefecture);
    forall i | 0 <= i < |f.spots| ensures DecodePredictSpot(EncodePredictSpot(f.spots[i])) == Some(f.spots[i]) {
      DecodeEncodePredictSpot(f.spots[i]);
    }
    DecodeArrayOfEncoded(f.spots, EncodePredictSpot, DecodePredictSpot);
  }
}
