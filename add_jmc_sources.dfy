/** The matching of spots to JMC forecast points and the upsert of a spot's JMC source, from the
    script that adds JMC sources to the spot files. The page and API addresses and `pad2` are
    those of `JmcApi`; the point fetch, the great-circle distance and the file loop are inputs
    or left out. */
module AddJmcSources {
  import opened Wrappers
  import opened JsText
  import opened JsonValue
  import opened Sequences
  import opened SpotSources

  // ----- Name normalisation -----

  /** The characters the name normalisation removes besides white space: middle dots, quotes,
      round, square and lenticular brackets, and Japanese punctuation. */
  const Punctuation: set<char> :=
    {'・', '･', '“', '”', '"', '\'', '’', '(', ')', '（', '）', '[', ']', '【', '】', '。', '、', '，', '．'}

  predicate Dropped(c: char) {
    IsWhitespace(c) || c in Punctuation
  }

  /** The five `replace(/.../g, "")` steps at once: removing characters never creates a new
      occurrence of another, so removing the union of the classes is the same as removing them
      one class after the other. */
  function StripDropped(s: string): (r: string)
    ensures |r| <= |s|
    ensures forall i :: 0 <= i < |r| ==> !Dropped(r[i])
    ensures IsSubsequence(r, s)
    ensures |r| == CountWhere(s, (c: char) => !Dropped(c))
  {
    if |s| == 0 then []
    else
      var rest := StripDropped(s[1..]);
      FilterStep(s[0], !Dropped(s[0]), rest, s[1..]);
      assert s == [s[0]] + s[1..];
      if Dropped(s[0]) then rest else [s[0]] + rest
  }

  /** Stripping is the generic filter on kept characters, so each kept character occurs as
      often as in `s`. */
  lemma StripDroppedIsFilter(s: string)
    ensures StripDropped(s) == Filter(s, (c: char) => !Dropped(c))
  {
    FilterDetermined(StripDropped(s), s, (c: char) => !Dropped(c));
  }

  lemma {:induction false} StripDroppedNoop(s: string)
    requires forall i :: 0 <= i < |s| ==> !Dropped(s[i])
    ensures StripDropped(s) == s
  {
    if |s| > 0 {
      StripDroppedNoop(s[1..]);
    }
  }

  /** A character a normalised name may contain. */
  predicate NormalChar(c: char) {
    !IsWhitespace(c) && c !in Punctuation && c != 'ヶ'
  }

  /** `normalizeName`: "" for anything but a non-blank string; otherwise the string without
      white space and the listed punctuation, with ヶ written ケ. */
  function NormalizeName(value: Option<Json>): (r: string)
    ensures !IsNonEmptyString(value) ==> r == ""
  {
    if !IsNonEmptyString(value) then ""
    else Trim(ReplaceChar(StripDropped(value.value.s), 'ヶ', 'ケ'))
  }

  /** A normalised name holds no white space, no listed punctuation and no ヶ. */
  lemma NormalizedNameChars(value: Option<Json>)
    ensures forall i :: 0 <= i < |NormalizeName(value)| ==> NormalChar(NormalizeName(value)[i])
  {
    if IsNonEmptyString(value) {
      var stripped := StripDropped(value.value.s);
      var replaced := ReplaceChar(stripped, 'ヶ', 'ケ');
      forall i | 0 <= i < |replaced| ensures NormalChar(replaced[i]) {
        assert !Dropped(stripped[i]);
      }
      TrimNoWhitespace(replaced);
    }
  }

  /** A non-blank name made only of characters the normalisation keeps is its own
      normalisation. */
  lemma NormalizeNormalName(s: string)
    requires |s| > 0 && forall i :: 0 <= i < |s| ==> NormalChar(s[i])
    ensures NormalizeName(Some(JStr(s))) == s
  {
    NonBlankIffSomeNonWhitespace(s);
    StripDroppedNoop(s);
    assert ReplaceChar(s, 'ヶ', 'ケ') == s;
    TrimNoWhitespace(s);
  }

  /** Normalising twice is normalising once. */
  lemma NormalizeNameIdempotent(value: Option<Json>)
    ensures NormalizeName(Some(JStr(NormalizeName(value)))) == NormalizeName(value)
  {
    var r := NormalizeName(value);
    if |r| > 0 {
      NormalizedNameChars(value);
      NormalizeNormalName(r);
    } else {
      assert !NonBlank(r);
    }
  }

  // ----- Matching a spot to a JMC point -----

  /** A forecast point as the script keeps it: code, name, normalised name and position. */
  datatype JmcMatchPoint = JmcMatchPoint(code: string, nameJa: string, nameNorm: string, lat: real, lon: real)

  /** A point as the script builds it from a `jr_data` row: `nameNorm` is always the
      normalised `nameJa`, so it holds only normal characters and normalises to itself. */
  function MatchPointOf(code: string, name: string, lat: real, lon: real): (p: JmcMatchPoint)
    ensures p.code == code && p.nameJa == name && p.lat == lat && p.lon == lon
    ensures p.nameNorm == NormalizeName(Some(JStr(name)))
    ensures forall i :: 0 <= i < |p.nameNorm| ==> NormalChar(p.nameNorm[i])
    ensures NormalizeName(Some(JStr(p.nameNorm))) == p.nameNorm
  {
    NormalizedNameChars(Some(JStr(name)));
    NormalizeNameIdempotent(Some(JStr(name)));
    JmcMatchPoint(code, name, NormalizeName(Some(JStr(name))), lat, lon)
  }

  /** What `findUniqueMatch` returns when it does not return `null`. */
  datatype MatchResult =
    | Unique(point: JmcMatchPoint, distanceKm: real)
    | BySpecies(point: JmcMatchPoint, distanceKm: real)
    | Ambiguous(candidates: seq<JmcMatchPoint>)

  /** One of the two normalised names contains the other. */
  predicate NamesOverlap(spotNameNorm: string, p: JmcMatchPoint) {
    Contains(p.nameNorm, spotNameNorm) || Contains(spotNameNorm, p.nameNorm)
  }

  function Candidates(spotNameNorm: string, points: seq<JmcMatchPoint>): (r: seq<JmcMatchPoint>)
    ensures forall i :: 0 <= i < |r| ==> r[i] in points && NamesOverlap(spotNameNorm, r[i])
    ensures forall i :: 0 <= i < |points| && NamesOverlap(spotNameNorm, points[i]) ==> points[i] in r
    ensures IsSubsequence(r, points)
    ensures |r| == CountWhere(points, p => NamesOverlap(spotNameNorm, p))
  {
    Filter(points, p => NamesOverlap(spotNameNorm, p))
  }

  /** `Array.isArray(spot.species_ja) ? spot.species_ja : []`. */
  function SpeciesOf(spot: Json): seq<Json> {
    var species := Get(spot, "species_ja");
    if species.Some? && species.value.JArr? then species.value.items else []
  }

  /** The point's name contains one of the spot's non-blank species names. */
  predicate NamesSpecies(p: JmcMatchPoint, species: seq<Json>) {
    exists j :: 0 <= j < |species| && IsNonEmptyString(Some(species[j])) && Contains(p.nameJa, species[j].s)
  }

  function WithSpecies(candidates: seq<JmcMatchPoint>, species: seq<Json>): (r: seq<JmcMatchPoint>)
    ensures forall i :: 0 <= i < |r| ==> r[i] in candidates && NamesSpecies(r[i], species)
    ensures forall i :: 0 <= i < |candidates| && NamesSpecies(candidates[i], species) ==> candidates[i] in r
    ensures IsSubsequence(r, candidates)
    ensures |r| == CountWhere(candidates, p => NamesSpecies(p, species))
  {
    Filter(candidates, p => NamesSpecies(p, species))
  }

  /** `findUniqueMatch`, with the distance from the spot to a point as an input: the only point
      whose normalised name overlaps the spot's, or the only such point naming one of the
      spot's species, when it lies within `maxDistanceKm`; all overlapping points when neither
      singles one out; `None` otherwise. */
  function FindUniqueMatch(spot: Json, points: seq<JmcMatchPoint>, distanceKm: JmcMatchPoint -> real,
                           maxDistanceKm: real): (r: Option<MatchResult>)
    ensures NormalizeName(Get(spot, "name_ja")) == "" ==> r.None?
    ensures r.Some? && r.value.Unique? ==>
      && Candidates(NormalizeName(Get(spot, "name_ja")), points) == [r.value.point]
      && r.value.distanceKm == distanceKm(r.value.point) <= maxDistanceKm
    ensures r.Some? && r.value.BySpecies? ==>
      && |Candidates(NormalizeName(Get(spot, "name_ja")), points)| >= 2
      && WithSpecies(Candidates(NormalizeName(Get(spot, "name_ja")), points), SpeciesOf(spot)) == [r.value.point]
      && r.value.distanceKm == distanceKm(r.value.point) <= maxDistanceKm
    ensures r.Some? && r.value.Ambiguous? ==>
      && r.value.candidates == Candidates(NormalizeName(Get(spot, "name_ja")), points)
      && |r.value.candidates| >= 2
      && |WithSpecies(r.value.candidates, SpeciesOf(spot))| != 1
    ensures var c := Candidates(NormalizeName(Get(spot, "name_ja")), points);
      NormalizeName(Get(spot, "name_ja")) != "" && |c| == 0 ==> r.None?
    ensures var c := Candidates(NormalizeName(Get(spot, "name_ja")), points);
      NormalizeName(Get(spot, "name_ja")) != "" && |c| == 1 && distanceKm(c[0]) <= maxDistanceKm ==>
        r == Some(Unique(c[0], distanceKm(c[0])))
    ensures var c := Candidates(NormalizeName(Get(spot, "name_ja")), points);
      var w := WithSpecies(c, SpeciesOf(spot));
      NormalizeName(Get(spot, "name_ja")) != "" && |c| >= 2 && |w| == 1 && distanceKm(w[0]) <= maxDistanceKm ==>
        r == Some(BySpecies(w[0], distanceKm(w[0])))
    ensures var c := Candidates(NormalizeName(Get(spot, "name_ja")), points);
      NormalizeName(Get(spot, "name_ja")) != "" && |c| >= 2 && |WithSpecies(c, SpeciesOf(spot))| != 1 ==>
        r == Some(Ambiguous(c))
  {
    var spotNameNorm := NormalizeName(Get(spot, "name_ja"));
    if spotNameNorm == "" then None
    else
      var candidates := Candidates(spotNameNorm, points);
      if |candidates| == 0 then None
      else if |candidates| == 1 then
        var candidate := candidates[0];
        if distanceKm(candidate) > maxDistanceKm then None else Some(Unique(candidate, distanceKm(candidate)))
      else
        var bySpecies := WithSpecies(candidates, SpeciesOf(spot));
        if |bySpecies| == 1 then
          var candidate := bySpecies[0];
          if distanceKm(candidate) > maxDistanceKm then None else Some(BySpecies(candidate, distanceKm(candidate)))
        else Some(Ambiguous(candidates))
  }

  /** A matched point is one of the points, its name and the spot's overlap, and it lies within
      the distance limit; a species match also names one of the spot's species; an ambiguous
      answer lists only overlapping points. A spot without a usable name never matches. */
  lemma MatchIsPlausible(spot: Json, points: seq<JmcMatchPoint>, distanceKm: JmcMatchPoint -> real, maxDistanceKm: real)
    ensures var r := FindUniqueMatch(spot, points, distanceKm, maxDistanceKm);
      var name := NormalizeName(Get(spot, "name_ja"));
      && (r.Some? ==> IsNonEmptyString(Get(spot, "name_ja")) && |name| > 0)
      && (r.Some? && !r.value.Ambiguous? ==>
            && r.value.point in points && NamesOverlap(name, r.value.point)
            && distanceKm(r.value.point) <= maxDistanceKm)
      && (r.Some? && r.value.BySpecies? ==> NamesSpecies(r.value.point, SpeciesOf(spot)))
      && (r.Some? && r.value.Ambiguous? ==>
            forall i :: 0 <= i < |r.value.candidates| ==>
              r.value.candidates[i] in points && NamesOverlap(name, r.value.candidates[i]))
  {
    var name := NormalizeName(Get(spot, "name_ja"));
    var r := FindUniqueMatch(spot, points, distanceKm, maxDistanceKm);
    if r.Some? && r.value.Unique? {
      assert Candidates(name, points)[0] == r.value.point;
    } else if r.Some? && r.value.BySpecies? {
      var candidates := Candidates(name, points);
      assert WithSpecies(candidates, SpeciesOf(spot))[0] == r.value.point;
      assert r.value.point in candidates;
    }
  }

  /** A spot with no overlapping point, or whose only overlapping point is too far, is not
      matched. */
  lemma NoNearCandidateNoMatch(spot: Json, points: seq<JmcMatchPoint>, distanceKm: JmcMatchPoint -> real,
                               maxDistanceKm: real)
    requires forall i :: 0 <= i < |points| ==>
      !NamesOverlap(NormalizeName(Get(spot, "name_ja")), points[i]) || distanceKm(points[i]) > maxDistanceKm
    requires |Candidates(NormalizeName(Get(spot, "name_ja")), points)| <= 1
    ensures FindUniqueMatch(spot, points, distanceKm, maxDistanceKm).None?
  {
    var candidates := Candidates(NormalizeName(Get(spot, "name_ja")), points);
    if |candidates| == 1 {
      assert candidates[0] in points;
    }
  }

  // ----- Upserting the JMC source -----

  /** The keys of the desired source, in `Object.entries` order: `label`, `url`, `code`, and
      `name` only when the point's name is not the spot's `name_ja`. */
  function DesiredEntries(spot: map<string, Json>, pageUrl: string, point: JmcMatchPoint): (r: seq<(string, Json)>)
    ensures 3 <= |r| <= 4 && r[0] == ("label", JStr("jmc"))
    ensures r[1] == ("url", JStr(pageUrl)) && r[2] == ("code", JStr(point.code))
    ensures |r| == 4 ==> r[3] == ("name", JStr(point.nameJa))
    ensures Distinct(KeysOf(r))
    ensures (exists i :: 0 <= i < |r| && r[i].0 == "name") <==> Get(JObj(spot), "name_ja") != Some(JStr(point.nameJa))
  {
    var base := [("label", JStr("jmc")), ("url", JStr(pageUrl)), ("code", JStr(point.code))];
    assert "label" != "name" && "url" != "name";
    assert "code"[0] != "name"[0];
    assert forall i :: 0 <= i < |base| ==> base[i].0 != "name";
    if Get(JObj(spot), "name_ja") != Some(JStr(point.nameJa)) then
      var r := base + [("name", JStr(point.nameJa))];
      assert r[3].0 == "name";
      r
    else base
  }

  function KeysOf(entries: seq<(string, Json)>): (r: seq<string>)
    ensures |r| == |entries| && forall i :: 0 <= i < |entries| ==> r[i] == entries[i].0
  {
    seq(|entries|, i requires 0 <= i < |entries| => entries[i].0)
  }

  /** The loop over `Object.entries(desired)`: each key whose value differs is overwritten and
      marks the source as changed. */
  function ApplyEntries(obj: map<string, Json>, entries: seq<(string, Json)>): (map<string, Json>, bool)
  {
    if |entries| == 0 then (obj, false)
    else
      var (m, changed) := ApplyEntries(obj, entries[..|entries| - 1]);
      var (key, value) := entries[|entries| - 1];
      if key in m && m[key] == value then (m, changed) else (m[key := value], true)
  }

  /** The entry already holds in the object. */
  predicate Holds(obj: map<string, Json>, entry: (string, Json)) {
    entry.0 in obj && obj[entry.0] == entry.1
  }

  /** With distinct keys, the loop sets every entry, keeps every other key, and reports a
      change exactly when some entry did not already hold. */
  lemma {:induction false} ApplyEntriesMeaning(obj: map<string, Json>, entries: seq<(string, Json)>)
    requires Distinct(KeysOf(entries))
    ensures var (m, changed) := ApplyEntries(obj, entries);
      && (forall i :: 0 <= i < |entries| ==> Holds(m, entries[i]))
      && (forall k :: k in m <==> k in obj || k in KeysOf(entries))
      && (forall k :: k in obj && k !in KeysOf(entries) ==> m[k] == obj[k])
      && (changed <==> exists i :: 0 <= i < |entries| && !Holds(obj, entries[i]))
  {
    if |entries| > 0 {
      var init := entries[..|entries| - 1];
      var last := entries[|entries| - 1];
      assert KeysOf(init) == KeysOf(entries)[..|entries| - 1];
      assert KeysOf(entries) == KeysOf(init) + [last.0];
      ApplyEntriesMeaning(obj, init);
      var (m0, c0) := ApplyEntries(obj, init);
      assert last.0 !in KeysOf(init);
      assert last.0 in m0 ==> m0[last.0] == obj[last.0];
      forall i | 0 <= i < |init| ensures init[i].0 != last.0 {
        assert KeysOf(entries)[i] == init[i].0;
      }
    }
  }

  /** Running the loop again over its own result changes nothing. */
  lemma ApplyEntriesAgain(obj: map<string, Json>, entries: seq<(string, Json)>)
    requires Distinct(KeysOf(entries))
    ensures ApplyEntries(ApplyEntries(obj, entries).0, entries) == (ApplyEntries(obj, entries).0, false)
  {
    var m := ApplyEntries(obj, entries).0;
    ApplyEntriesMeaning(obj, entries);
    ApplyEntriesMeaning(m, entries);
    var (m2, c2) := ApplyEntries(m, entries);
    assert m2 == m;
  }

  /** The desired source as an object. */
  function DesiredSource(spot: map<string, Json>, pageUrl: string, point: JmcMatchPoint): Json {
    JObj(ApplyEntries(map[], DesiredEntries(spot, pageUrl, point)).0)
  }

  /** `upsertJmcSource` on the spot's fields: the new fields and the returned flag. */
  function UpsertSpec(spot: map<string, Json>, pageUrl: string, point: JmcMatchPoint): (map<string, Json>, bool) {
    var sources := SourcesOf(JObj(spot));
    var existing := FirstJmcSource(sources);
    if existing.None? then
      (spot["sources" := JArr(sources + [DesiredSource(spot, pageUrl, point)])], true)
    else
      var (fields, changed) := ApplyEntries(sources[existing.value].fields, DesiredEntries(spot, pageUrl, point));
      (spot["sources" := JArr(sources[existing.value := JObj(fields)])], changed)
  }

  /** A spot read from a YAML file, changed in place by the upsert. */
  class SpotRecord {
    var fields: map<string, Json>

    constructor (fields: map<string, Json>)
      ensures this.fields == fields
    {
      this.fields := fields;
    }

    /** `upsertJmcSource`: appends the desired source when the spot has no JMC source;
        otherwise overwrites the desired keys of the first one and reports whether any
        differed. */
    method UpsertJmcSource(pageUrl: string, point: JmcMatchPoint) returns (changed: bool)
      modifies this
      ensures (fields, changed) == UpsertSpec(old(fields), pageUrl, point)
    {
      var sources := SourcesOf(JObj(fields));
      var desired := DesiredEntries(fields, pageUrl, point);
      var index := FirstJmcSource(sources);
      if index.None? {
        fields := fields["sources" := JArr(sources + [DesiredSource(fields, pageUrl, point)])];
        return true;
      }
      var existing := sources[index.value].fields;
      changed := false;
      var k := 0;
      while k < |desired|
        invariant 0 <= k <= |desired|
        invariant ApplyEntries(sources[index.value].fields, desired[..k]) == (existing, changed)
      {
        assert desired[..k + 1][..k] == desired[..k];
        var (key, value) := desired[k];
        if !(key in existing && existing[key] == value) {
          existing := existing[key := value];
          changed := true;
        }
        k := k + 1;
      }
      assert desired[..k] == desired;
      fields := fields["sources" := JArr(sources[index.value := JObj(existing)])];
    }
  }

  /** The upsert touches only `sources`. */
  lemma UpsertTouchesOnlySources(spot: map<string, Json>, pageUrl: string, point: JmcMatchPoint)
    ensures var m := UpsertSpec(spot, pageUrl, point).0;
      && "sources" in m && m["sources"].JArr?
      && forall k :: k != "sources" ==> (k in m <==> k in spot) && (k in spot ==> m[k] == spot[k])
  {
  }

  /** Without a JMC source, the desired source is appended after the existing ones, and the
      upsert reports a change. */
  lemma UpsertAppends(spot: map<string, Json>, pageUrl: string, point: JmcMatchPoint)
    requires FirstJmcSource(SourcesOf(JObj(spot))).None?
    ensures var (m, changed) := UpsertSpec(spot, pageUrl, point);
      && changed && m["sources"].items == SourcesOf(JObj(spot)) + [DesiredSource(spot, pageUrl, point)]
      && IsJmcSource(DesiredSource(spot, pageUrl, point))
  {
    var desired := DesiredEntries(spot, pageUrl, point);
    ApplyEntriesMeaning(map[], desired);
    assert Holds(ApplyEntries(map[], desired).0, desired[0]);
  }

  /** With a JMC source, only that source changes: the desired keys take the desired values,
      its other keys are kept, and the upsert reports a change exactly when some desired value
      differed. */
  lemma UpsertOverwrites(spot: map<string, Json>, pageUrl: string, point: JmcMatchPoint)
    requires FirstJmcSource(SourcesOf(JObj(spot))).Some?
    ensures var sources := SourcesOf(JObj(spot));
      var i := FirstJmcSource(sources).value;
      var desired := DesiredEntries(spot, pageUrl, point);
      var (m, changed) := UpsertSpec(spot, pageUrl, point);
      && |m["sources"].items| == |sources|
      && (forall j :: 0 <= j < |sources| && j != i ==> m["sources"].items[j] == sources[j])
      && m["sources"].items[i].JObj?
      && (forall e :: 0 <= e < |desired| ==> Holds(m["sources"].items[i].fields, desired[e]))
      && (forall k :: k in sources[i].fields && k !in KeysOf(desired) ==>
            k in m["sources"].items[i].fields && m["sources"].items[i].fields[k] == sources[i].fields[k])
      && (changed <==> exists e :: 0 <= e < |desired| && !Holds(sources[i].fields, desired[e]))
  {
    var sources := SourcesOf(JObj(spot));
    var i := FirstJmcSource(sources).value;
    ApplyEntriesMeaning(sources[i].fields, DesiredEntries(spot, pageUrl, point));
  }

  /** A JMC source with none before it is the first one. */
  lemma FirstJmcSourceAt(sources: seq<Json>, k: nat)
    requires k < |sources| && IsJmcSource(sources[k])
    requires forall j :: 0 <= j < k ==> !IsJmcSource(sources[j])
    ensures FirstJmcSource(sources) == Some(k)
  {
  }

  /** An upsert whose first JMC source already holds every desired entry is a no-op. */
  lemma UpsertNoop(m: map<string, Json>, pageUrl: string, point: JmcMatchPoint, i: nat)
    requires "sources" in m && m["sources"].JArr?
    requires FirstJmcSource(m["sources"].items) == Some(i)
    requires var fields := m["sources"].items[i].fields;
      ApplyEntries(fields, DesiredEntries(m, pageUrl, point)) == (fields, false)
    ensures UpsertSpec(m, pageUrl, point) == (m, false)
  {
    var after := m["sources"].items;
    assert SourcesOf(JObj(m)) == after;
    assert after[i := JObj(after[i].fields)] == after;
    assert m["sources" := JArr(after)] == m;
  }

  /** A second identical upsert changes nothing and returns `false`. */
  lemma UpsertIdempotent(spot: map<string, Json>, pageUrl: string, point: JmcMatchPoint)
    ensures var m := UpsertSpec(spot, pageUrl, point).0;
      UpsertSpec(m, pageUrl, point) == (m, false)
  {
    var sources := SourcesOf(JObj(spot));
    var desired := DesiredEntries(spot, pageUrl, point);
    var m := UpsertSpec(spot, pageUrl, point).0;
    var after := m["sources"].items;
    assert Get(JObj(m), "name_ja") == Get(JObj(spot), "name_ja");
    assert DesiredEntries(m, pageUrl, point) == desired;
    var index := FirstJmcSource(sources);
    if index.None? {
      UpsertAppends(spot, pageUrl, point);
      assert forall j :: 0 <= j < |sources| ==> after[j] == sources[j] && !IsJmcSource(after[j]);
      assert IsJmcSource(after[|sources|]);
      FirstJmcSourceAt(after, |sources|);
      ApplyEntriesAgain(map[], desired);
      UpsertNoop(m, pageUrl, point, |sources|);
    } else {
      var i := index.value;
      var merged := ApplyEntries(sources[i].fields, desired).0;
      ApplyEntriesMeaning(sources[i].fields, desired);
      assert after == sources[i := JObj(merged)];
      assert Holds(merged, desired[0]);
      assert IsJmcSource(after[i]);
      assert forall j :: 0 <= j < i ==> after[j] == sources[j] && !IsJmcSource(after[j]);
      FirstJmcSourceAt(after, i);
      ApplyEntriesAgain(sources[i].fields, desired);
      UpsertNoop(m, pageUrl, point, i);
    }
  }
}
