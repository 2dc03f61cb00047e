/** The shape of a prefecture spots file: the spot record, its nested objects and the
    prefecture header, as a decoder from the parsed document to typed records.

    A decoder returns `None` exactly where schema validation fails. Objects are not strict:
    unknown keys are dropped. An optional key may be absent, but a key holding `null` is
    rejected. Each record type has a validity predicate listing the schema's constraints;
    every decoded record satisfies it, and every record satisfying it survives an
    encode/decode round trip, so the predicate describes exactly what the schema accepts. */
module SakuraSpotSchema {
  import opened Wrappers
  import opened JsonValue

  // ----- Collections -----

  datatype Collection = Sakura100 | Navitime | Weathernews | WeathernewsTop10

  function CollectionName(c: Collection): (name: string)
    ensures |name| >= 1
  {
    match c
    case Sakura100 => "sakura100"
    case Navitime => "navitime"
    case Weathernews => "weathernews"
    case WeathernewsTop10 => "weathernews_top10"
  }

  /** The collection enum: one of four strings. */
  function DecodeCollection(v: Json): (r: Option<Collection>)
    ensures r.Some? <==> v.JStr? && v.s in {"sakura100", "navitime", "weathernews", "weathernews_top10"}
    ensures r.Some? ==> v == JStr(CollectionName(r.value))
  {
    if v == JStr("sakura100") then Some(Sakura100)
    else if v == JStr("navitime") then Some(Navitime)
    else if v == JStr("weathernews") then Some(Weathernews)
    else if v == JStr("weathernews_top10") then Some(WeathernewsTop10)
    else None
  }

  // ----- Records -----

  datatype Photo = Photo(url: string, sourceUrl: Option<string>, credit: Option<string>, note: Option<string>)
  datatype Source = Source(url: string, labelText: Option<string>)
  datatype Location = Location(cityJa: Option<string>, areaJa: Option<string>, addressJa: Option<string>)
  datatype Geo = Geo(lat: real, lng: real)
  datatype Links = Links(navitime: Option<string>, weathernews: Option<string>, wikipedia: Option<string>)
  datatype Top = Top(weathernews: Option<real>)

  datatype SpotInFile = SpotInFile(
    id: string,
    nameJa: string,
    nameEn: Option<string>,
    location: Option<Location>,
    geo: Geo,
    trees: Option<real>,
    speciesJa: Option<seq<string>>,
    descriptionJa: Option<string>,
    photos: Option<seq<Photo>>,
    sources: Option<seq<Source>>,
    links: Option<Links>,
    top: Option<Top>,
    collections: Option<seq<Collection>>,
    note: Option<string>)

  datatype Prefecture = Prefecture(id: real, nameJa: string, nameEn: Option<string>)

  datatype PrefectureFile = PrefectureFile(prefecture: Prefecture, spots: seq<SpotInFile>)

  // ----- Validity -----

  predicate NonEmpty(s: string) {
    |s| >= 1
  }

  predicate OptNonEmpty(s: Option<string>) {
    s.None? || NonEmpty(s.value)
  }

  predicate ValidPhoto(p: Photo) {
    NonEmpty(p.url) && OptNonEmpty(p.sourceUrl) && OptNonEmpty(p.credit) && OptNonEmpty(p.note)
  }

  predicate ValidSource(s: Source) {
    NonEmpty(s.url) && OptNonEmpty(s.labelText)
  }

  predicate ValidLocation(l: Location) {
    OptNonEmpty(l.cityJa) && OptNonEmpty(l.areaJa) && OptNonEmpty(l.addressJa)
  }

  predicate ValidGeo(g: Geo) {
    -90.0 <= g.lat <= 90.0 && -180.0 <= g.lng <= 180.0
  }

  predicate ValidLinks(l: Links) {
    OptNonEmpty(l.navitime) && OptNonEmpty(l.weathernews) && OptNonEmpty(l.wikipedia)
  }

  /** A Weathernews ranking is an integer of at least 1. */
  predicate ValidRank(n: real) {
    IsInteger(n) && n >= 1.0
  }

  predicate ValidTop(t: Top) {
    t.weathernews.None? || ValidRank(t.weathernews.value)
  }

  /** A tree count is a positive integer. */
  predicate ValidTrees(n: real) {
    IsInteger(n) && n > 0.0
  }

  /** A prefecture id is an integer from 1 to 47. */
  predicate ValidPrefectureId(n: real) {
    IsInteger(n) && 1.0 <= n <= 47.0
  }

  predicate ValidSpot(s: SpotInFile) {
    && NonEmpty(s.id) && NonEmpty(s.nameJa) && OptNonEmpty(s.nameEn)
    && (s.location.None? || ValidLocation(s.location.value))
    && ValidGeo(s.geo)
    && (s.trees.None? || ValidTrees(s.trees.value))
    && (s.speciesJa.None? || forall i :: 0 <= i < |s.speciesJa.value| ==> NonEmpty(s.speciesJa.value[i]))
    && OptNonEmpty(s.descriptionJa)
    && (s.photos.None? || forall i :: 0 <= i < |s.photos.value| ==> ValidPhoto(s.photos.value[i]))
    && (s.sources.None? || forall i :: 0 <= i < |s.sources.value| ==> ValidSource(s.sources.value[i]))
    && (s.links.None? || ValidLinks(s.links.value))
    && (s.top.None? || ValidTop(s.top.value))
    && OptNonEmpty(s.note)
  }

  predicate ValidPrefecture(p: Prefecture) {
    ValidPrefectureId(p.id) && NonEmpty(p.nameJa) && OptNonEmpty(p.nameEn)
  }

  predicate ValidPrefectureFile(f: PrefectureFile) {
    ValidPrefecture(f.prefecture) && forall i :: 0 <= i < |f.spots| ==> ValidSpot(f.spots[i])
  }

  // ----- Decoders -----

  function DecodeNumberWhere(v: Json, ok: real -> bool): (r: Option<real>)
    ensures r.Some? <==> v.JNum? && ok(v.n)
    ensures r.Some? ==> r.value == v.n
  {
    if v.JNum? && ok(v.n) then Some(v.n) else None
  }

  function DecodeLat(v: Json): (r: Option<real>)
    ensures r.Some? ==> -90.0 <= r.value <= 90.0 && v == JNum(r.value)
    ensures v.JNum? && -90.0 <= v.n <= 90.0 ==> r == Some(v.n)
  {
    DecodeNumberWhere(v, n => -90.0 <= n <= 90.0)
  }

  function DecodeLng(v: Json): (r: Option<real>)
    ensures r.Some? ==> -180.0 <= r.value <= 180.0 && v == JNum(r.value)
    ensures v.JNum? && -180.0 <= v.n <= 180.0 ==> r == Some(v.n)
  {
    DecodeNumberWhere(v, n => -180.0 <= n <= 180.0)
  }

  function DecodeTrees(v: Json): (r: Option<real>)
    ensures r.Some? ==> ValidTrees(r.value) && v == JNum(r.value)
    ensures v.JNum? && ValidTrees(v.n) ==> r == Some(v.n)
  {
    DecodeNumberWhere(v, ValidTrees)
  }

  function DecodeRank(v: Json): (r: Option<real>)
    ensures r.Some? ==> ValidRank(r.value) && v == JNum(r.value)
    ensures v.JNum? && ValidRank(v.n) ==> r == Some(v.n)
  {
    DecodeNumberWhere(v, ValidRank)
  }

  function DecodePrefectureId(v: Json): (r: Option<real>)
    ensures r.Some? ==> ValidPrefectureId(r.value) && v == JNum(r.value)
    ensures v.JNum? && ValidPrefectureId(v.n) ==> r == Some(v.n)
  {
    DecodeNumberWhere(v, ValidPrefectureId)
  }

  function DecodePhoto(v: Json): (r: Option<Photo>)
    ensures r.Some? ==> v.JObj? && ValidPhoto(r.value)
  {
    if !v.JObj? then None
    else
      var url := Required(v, "url", DecodeNonEmptyString);
      var sourceUrl := Optional(v, "source_url", DecodeNonEmptyString);
      var credit := Optional(v, "credit", DecodeNonEmptyString);
      var note := Optional(v, "note", DecodeNonEmptyString);
      if url.Some? && sourceUrl.Some? && credit.Some? && note.Some? then
        Some(Photo(url.value, sourceUrl.value, credit.value, note.value))
      else None
  }

  function DecodeSource(v: Json): (r: Option<Source>)
    ensures r.Some? ==> v.JObj? && ValidSource(r.value)
  {
    if !v.JObj? then None
    else
      var url := Required(v, "url", DecodeNonEmptyString);
      var labelText := Optional(v, "label", DecodeNonEmptyString);
      if url.Some? && labelText.Some? then Some(Source(url.value, labelText.value)) else None
  }

  function DecodeLocation(v: Json): (r: Option<Location>)
    ensures r.Some? ==> v.JObj? && ValidLocation(r.value)
  {
    if !v.JObj? then None
    else
      var city := Optional(v, "city_ja", DecodeNonEmptyString);
      var area := Optional(v, "area_ja", DecodeNonEmptyString);
      var address := Optional(v, "address_ja", DecodeNonEmptyString);
      if city.Some? && area.Some? && address.Some? then
        Some(Location(city.value, area.value, address.value))
      else None
  }

  function DecodeGeo(v: Json): (r: Option<Geo>)
    ensures r.Some? ==> v.JObj? && ValidGeo(r.value)
    ensures r.Some? ==> "lat" in v.fields && v.fields["lat"] == JNum(r.value.lat)
    ensures r.Some? ==> "lng" in v.fields && v.fields["lng"] == JNum(r.value.lng)
  {
    if !v.JObj? then None
    else
      var lat := Required(v, "lat", DecodeLat);
      var lng := Required(v, "lng", DecodeLng);
      if lat.Some? && lng.Some? then Some(Geo(lat.value, lng.value)) else None
  }

  function DecodeLinks(v: Json): (r: Option<Links>)
    ensures r.Some? ==> v.JObj? && ValidLinks(r.value)
  {
    if !v.JObj? then None
    else
      var navitime := Optional(v, "navitime", DecodeNonEmptyString);
      var weathernews := Optional(v, "weathernews", DecodeNonEmptyString);
      var wikipedia := Optional(v, "wikipedia", DecodeNonEmptyString);
      if navitime.Some? && weathernews.Some? && wikipedia.Some? then
        Some(Links(navitime.value, weathernews.value, wikipedia.value))
      else None
  }

  function DecodeTop(v: Json): (r: Option<Top>)
    ensures r.Some? ==> v.JObj? && ValidTop(r.value)
  {
    if !v.JObj? then None
    else
      var weathernews := Optional(v, "weathernews", DecodeRank);
      if weathernews.Some? then Some(Top(weathernews.value)) else None
  }

  function DecodeSpeciesList(v: Json): (r: Option<seq<string>>)
    ensures r.Some? ==> forall i :: 0 <= i < |r.value| ==> NonEmpty(r.value[i])
  {
    DecodeArray(v, DecodeNonEmptyString)
  }

  function DecodePhotoList(v: Json): (r: Option<seq<Photo>>)
    ensures r.Some? ==> forall i :: 0 <= i < |r.value| ==> ValidPhoto(r.value[i])
  {
    DecodeArray(v, DecodePhoto)
  }

  function DecodeSourceList(v: Json): (r: Option<seq<Source>>)
    ensures r.Some? ==> forall i :: 0 <= i < |r.value| ==> ValidSource(r.value[i])
  {
    DecodeArray(v, DecodeSource)
  }

  /** Every element of an accepted collections list is one of the four collection names. */
  function DecodeCollectionList(v: Json): (r: Option<seq<Collection>>)
    ensures r.Some? ==> v.JArr? && |r.value| == |v.items|
    ensures r.Some? ==> forall i :: 0 <= i < |v.items| ==>
      v.items[i] in {JStr("sakura100"), JStr("navitime"), JStr("weathernews"), JStr("weathernews_top10")}
  {
    var r := DecodeArray(v, DecodeCollection);
    assert r.Some? ==> forall i :: 0 <= i < |v.items| ==> DecodeCollection(v.items[i]).Some?;
    r
  }

  /** A spot record of a prefecture file. */
  function DecodeSpot(v: Json): (r: Option<SpotInFile>)
    ensures r.Some? ==> v.JObj? && ValidSpot(r.value)
    ensures r.Some? ==> "id" in v.fields && v.fields["id"] == JStr(r.value.id)
    ensures r.Some? ==> "name_ja" in v.fields && v.fields["name_ja"] == JStr(r.value.nameJa)
  {
    if !v.JObj? then None
    else
      var id := Required(v, "id", DecodeNonEmptyString);
      var nameJa := Required(v, "name_ja", DecodeNonEmptyString);
      var nameEn := Optional(v, "name_en", DecodeNonEmptyString);
      var location := Optional(v, "location", DecodeLocation);
      var geo := Required(v, "geo", DecodeGeo);
      var trees := Optional(v, "trees", DecodeTrees);
      var species := Optional(v, "species_ja", DecodeSpeciesList);
      var description := Optional(v, "description_ja", DecodeNonEmptyString);
      var photos := Optional(v, "photos", DecodePhotoList);
      var sources := Optional(v, "sources", DecodeSourceList);
      var links := Optional(v, "links", DecodeLinks);
      var top := Optional(v, "top", DecodeTop);
      var collections := Optional(v, "collections", DecodeCollectionList);
      var note := Optional(v, "note", DecodeNonEmptyString);
      if && id.Some? && nameJa.Some? && nameEn.Some? && location.Some? && geo.Some?
         && trees.Some? && species.Some? && description.Some? && photos.Some?
         && sources.Some? && links.Some? && top.Some? && collections.Some? && note.Some?
      then
        Some(SpotInFile(id.value, nameJa.value, nameEn.value, location.value, geo.value,
                        trees.value, species.value, description.value, photos.value,
                        sources.value, links.value, top.value, collections.value, note.value))
      else None
  }

  /** The `prefecture` header object, shared by spots files and predict files. */
  function DecodePrefecture(v: Json): (r: Option<Prefecture>)
    ensures r.Some? ==> v.JObj? && ValidPrefecture(r.value)
    ensures r.Some? ==> "id" in v.fields && v.fields["id"] == JNum(r.value.id)
  {
    if !v.JObj? then None
    else
      var id := Required(v, "id", DecodePrefectureId);
      var nameJa := Required(v, "name_ja", DecodeNonEmptyString);
      var nameEn := Optional(v, "name_en", DecodeNonEmptyString);
      if id.Some? && nameJa.Some? && nameEn.Some? then Some(Prefecture(id.value, nameJa.value, nameEn.value))
      else None
  }

  /** A whole prefecture spots file. */
  function DecodePrefectureFile(v: Json): (r: Option<PrefectureFile>)
    ensures r.Some? ==> ValidPrefectureFile(r.value)
  {
    if !v.JObj? then None
    else
      var prefecture := Required(v, "prefecture", DecodePrefecture);
      var spots := Required(v, "spots", (s: Json) => DecodeArray(s, DecodeSpot));
      if prefecture.Some? && spots.Some? then Some(PrefectureFile(prefecture.value, spots.value)) else None
  }

  // ----- Encoders: the document a record is read from -----

  function Str(s: string): Json {
    JStr(s)
  }

  function Num(n: real): Json {
    JNum(n)
  }

  function EncodePhoto(p: Photo): Json {
    JObj(PutOptional(PutOptional(PutOptional(map["url" := Str(p.url)],
      "source_url", p.sourceUrl, Str), "credit", p.credit, Str), "note", p.note, Str))
  }

  function EncodeSource(s: Source): Json {
    JObj(PutOptional(map["url" := Str(s.url)], "label", s.labelText, Str))
  }

  function EncodeLocation(l: Location): Json {
    JObj(PutOptional(PutOptional(PutOptional(map[],
      "city_ja", l.cityJa, Str), "area_ja", l.areaJa, Str), "address_ja", l.addressJa, Str))
  }

  function EncodeGeo(g: Geo): Json {
    JObj(map["lat" := Num(g.lat), "lng" := Num(g.lng)])
  }

  function EncodeLinks(l: Links): Json {
    JObj(PutOptional(PutOptional(PutOptional(map[],
      "navitime", l.navitime, Str), "weathernews", l.weathernews, Str), "wikipedia", l.wikipedia, Str))
  }

  function EncodeTop(t: Top): Json {
    JObj(PutOptional(map[], "weathernews", t.weathernews, Num))
  }

  function EncodeCollection(c: Collection): Json {
    JStr(CollectionName(c))
  }

  function EncodeSpeciesList(xs: seq<string>): Json {
    EncodeArray(xs, Str)
  }

  function EncodePhotoList(xs: seq<Photo>): Json {
    EncodeArray(xs, EncodePhoto)
  }

  function EncodeSourceList(xs: seq<Source>): Json {
    EncodeArray(xs, EncodeSource)
  }

  function EncodeCollectionList(xs: seq<Collection>): Json {
    EncodeArray(xs, EncodeCollection)
  }

  function EncodeSpot(s: SpotInFile): (v: Json)
  {
    var m0 := map["id" := Str(s.id), "name_ja" := Str(s.nameJa), "geo" := EncodeGeo(s.geo)];
    var m1 := PutOptional(m0, "name_en", s.nameEn, Str);
    var m2 := PutOptional(m1, "location", s.location, EncodeLocation);
    var m3 := PutOptional(m2, "trees", s.trees, Num);
    var m4 := PutOptional(m3, "species_ja", s.speciesJa, EncodeSpeciesList);
    var m5 := PutOptional(m4, "description_ja", s.descriptionJa, Str);
    var m6 := PutOptional(m5, "photos", s.photos, EncodePhotoList);
    var m7 := PutOptional(m6, "sources", s.sources, EncodeSourceList);
    var m8 := PutOptional(m7, "links", s.links, EncodeLinks);
    var m9 := PutOptional(m8, "top", s.top, EncodeTop);
    var m10 := PutOptional(m9, "collections", s.collections, EncodeCollectionList);
    JObj(PutOptional(m10, "note", s.note, Str))
  }

  function EncodePrefecture(p: Prefecture): Json {
    JObj(PutOptional(map["id" := Num(p.id), "name_ja" := Str(p.nameJa)], "name_en", p.nameEn, Str))
  }

  function EncodePrefectureFile(f: PrefectureFile): Json {
    JObj(map["prefecture" := EncodePrefecture(f.prefecture), "spots" := EncodeArray(f.spots, EncodeSpot)])
  }

  // ----- Completeness: every valid record is accepted -----

  lemma DecodeEncodePhoto(p: Photo)
    requires ValidPhoto(p)
    ensures DecodePhoto(EncodePhoto(p)) == Some(p)
  {
  }

  lemma DecodeEncodeSource(s: Source)
    requires ValidSource(s)
    ensures DecodeSource(EncodeSource(s)) == Some(s)
  {
  }

  lemma DecodeEncodeLocation(l: Location)
    requires ValidLocation(l)
    ensures DecodeLocation(EncodeLocation(l)) == Some(l)
  {
  }

  lemma DecodeEncodeLinks(l: Links)
    requires ValidLinks(l)
    ensures DecodeLinks(EncodeLinks(l)) == Some(l)
  {
  }

  lemma DecodeEncodeTop(t: Top)
    requires ValidTop(t)
    ensures DecodeTop(EncodeTop(t)) == Some(t)
  {
  }

  // One lemma per key keeps each proof about the fourteen-key map small.

  lemma EncodeSpotId(s: SpotInFile)
    ensures Encodes(EncodeSpot(s).fields, "id", Some(s.id), Str)
  {
  }

  lemma EncodeSpotNameJa(s: SpotInFile)
    ensures Encodes(EncodeSpot(s).fields, "name_ja", Some(s.nameJa), Str)
  {
  }

  lemma EncodeSpotNameEn(s: SpotInFile)
    ensures Encodes(EncodeSpot(s).fields, "name_en", s.nameEn, Str)
  {
  }

  lemma EncodeSpotLocation(s: SpotInFile)
    ensures Encodes(EncodeSpot(s).fields, "location", s.location, EncodeLocation)
  {
  }

  lemma EncodeSpotGeo(s: SpotInFile)
    ensures Encodes(EncodeSpot(s).fields, "geo", Some(s.geo), EncodeGeo)
  {
  }

  lemma EncodeSpotTrees(s: SpotInFile)
    ensures Encodes(EncodeSpot(s).fields, "trees", s.trees, Num)
  {
  }

  lemma EncodeSpotSpecies(s: SpotInFile)
    ensures Encodes(EncodeSpot(s).fields, "species_ja", s.speciesJa, EncodeSpeciesList)
  {
  }

  lemma EncodeSpotDescription(s: SpotInFile)
    ensures Encodes(EncodeSpot(s).fields, "description_ja", s.descriptionJa, Str)
  {
  }

  lemma EncodeSpotPhotos(s: SpotInFile)
    ensures Encodes(EncodeSpot(s).fields, "photos", s.photos, EncodePhotoList)
  {
  }

  lemma EncodeSpotSources(s: SpotInFile)
    ensures Encodes(EncodeSpot(s).fields, "sources", s.sources, EncodeSourceList)
  {
  }

  lemma EncodeSpotLinks(s: SpotInFile)
    ensures Encodes(EncodeSpot(s).fields, "links", s.links, EncodeLinks)
  {
  }

  lemma EncodeSpotTop(s: SpotInFile)
    ensures Encodes(EncodeSpot(s).fields, "top", s.top, EncodeTop)
  {
  }

  lemma EncodeSpotCollections(s: SpotInFile)
    ensures Encodes(EncodeSpot(s).fields, "collections", s.collections, EncodeCollectionList)
  {
  }

  lemma EncodeSpotNote(s: SpotInFile)
    ensures Encodes(EncodeSpot(s).fields, "note", s.note, Str)
  {
  }

  /** `DecodeSpot` succeeds with the values its key decoders produce. */
  lemma DecodeSpotOfKeys(v: Json, s: SpotInFile)
    requires v.JObj?
    requires Required(v, "id", DecodeNonEmptyString) == Some(s.id)
    requires Required(v, "name_ja", DecodeNonEmptyString) == Some(s.nameJa)
    requires Optional(v, "name_en", DecodeNonEmptyString) == Some(s.nameEn)
    requires Optional(v, "location", DecodeLocation) == Some(s.location)
    requires Required(v, "geo", DecodeGeo) == Some(s.geo)
    requires Optional(v, "trees", DecodeTrees) == Some(s.trees)
    requires Optional(v, "species_ja", DecodeSpeciesList) == Some(s.speciesJa)
    requires Optional(v, "description_ja", DecodeNonEmptyString) == Some(s.descriptionJa)
    requires Optional(v, "photos", DecodePhotoList) == Some(s.photos)
    requires Optional(v, "sources", DecodeSourceList) == Some(s.sources)
    requires Optional(v, "links", DecodeLinks) == Some(s.links)
    requires Optional(v, "top", DecodeTop) == Some(s.top)
    requires Optional(v, "collections", DecodeCollectionList) == Some(s.collections)
    requires Optional(v, "note", DecodeNonEmptyString) == Some(s.note)
    ensures DecodeSpot(v) == Some(s)
  {
  }

  lemma DecodeEncodePhotoList(xs: seq<Photo>)
    requires forall i :: 0 <= i < |xs| ==> ValidPhoto(xs[i])
    ensures DecodePhotoList(EncodePhotoList(xs)) == Some(xs)
  {
    forall i | 0 <= i < |xs| ensures DecodePhoto(EncodePhoto(xs[i])) == Some(xs[i]) {
      DecodeEncodePhoto(xs[i]);
    }
    DecodeArrayOfEncoded(xs, EncodePhoto, DecodePhoto);
  }

  lemma DecodeEncodeSourceList(xs: seq<Source>)
    requires forall i :: 0 <= i < |xs| ==> ValidSource(xs[i])
    ensures DecodeSourceList(EncodeSourceList(xs)) == Some(xs)
  {
    forall i | 0 <= i < |xs| ensures DecodeSource(EncodeSource(xs[i])) == Some(xs[i]) {
      DecodeEncodeSource(xs[i]);
    }
    DecodeArrayOfEncoded(xs, EncodeSource, DecodeSource);
  }

  /** Any object holding the encodings of a valid spot's fields, whatever other keys it has,
      decodes to that spot: unknown keys are dropped. */
  lemma DecodeSpotOfFields(s: SpotInFile, v: Json)
    requires ValidSpot(s)
    requires v.JObj?
    requires Encodes(v.fields, "id", Some(s.id), Str)
    requires Encodes(v.fields, "name_ja", Some(s.nameJa), Str)
    requires Encodes(v.fields, "name_en", s.nameEn, Str)
    requires Encodes(v.fields, "location", s.location, EncodeLocation)
    requires Encodes(v.fields, "geo", Some(s.geo), EncodeGeo)
    requires Encodes(v.fields, "trees", s.trees, Num)
    requires Encodes(v.fields, "species_ja", s.speciesJa, EncodeSpeciesList)
    requires Encodes(v.fields, "description_ja", s.descriptionJa, Str)
    requires Encodes(v.fields, "photos", s.photos, EncodePhotoList)
    requires Encodes(v.fields, "sources", s.sources, EncodeSourceList)
    requires Encodes(v.fields, "links", s.links, EncodeLinks)
    requires Encodes(v.fields, "top", s.top, EncodeTop)
    requires Encodes(v.fields, "collections", s.collections, EncodeCollectionList)
    requires Encodes(v.fields, "note", s.note, Str)
    ensures DecodeSpot(v) == Some(s)
  {
    DecodeSpotHeadKeys(s, v);
    DecodeSpotTailKeys(s, v);
    DecodeSpotOfKeys(v, s);
  }

  /** The names, place, tree count and description of a valid spot are read back from their encodings. */
  lemma DecodeSpotHeadKeys(s: SpotInFile, v: Json)
    requires ValidSpot(s)
    requires v.JObj?
    requires Encodes(v.fields, "id", Some(s.id), Str)
    requires Encodes(v.fields, "name_ja", Some(s.nameJa), Str)
    requires Encodes(v.fields, "name_en", s.nameEn, Str)
    requires Encodes(v.fields, "location", s.location, EncodeLocation)
    requires Encodes(v.fields, "geo", Some(s.geo), EncodeGeo)
    requires Encodes(v.fields, "trees", s.trees, Num)
    requires Encodes(v.fields, "species_ja", s.speciesJa, EncodeSpeciesList)
    requires Encodes(v.fields, "description_ja", s.descriptionJa, Str)
    ensures Required(v, "id", DecodeNonEmptyString) == Some(s.id)
    ensures Required(v, "name_ja", DecodeNonEmptyString) == Some(s.nameJa)
    ensures Optional(v, "name_en", DecodeNonEmptyString) == Some(s.nameEn)
    ensures Optional(v, "location", DecodeLocation) == Some(s.location)
    ensures Required(v, "geo", DecodeGeo) == Some(s.geo)
    ensures Optional(v, "trees", DecodeTrees) == Some(s.trees)
    ensures Optional(v, "species_ja", DecodeSpeciesList) == Some(s.speciesJa)
    ensures Optional(v, "description_ja", DecodeNonEmptyString) == Some(s.descriptionJa)
  {
    RequiredOfEncoded(v, "id", s.id, Str, DecodeNonEmptyString);
    RequiredOfEncoded(v, "name_ja", s.nameJa, Str, DecodeNonEmptyString);
    OptionalOfEncoded(v, "name_en", s.nameEn, Str, DecodeNonEmptyString);
    if s.location.Some? { DecodeEncodeLocation(s.location.value); }
    OptionalOfEncoded(v, "location", s.location, EncodeLocation, DecodeLocation);
    RequiredOfEncoded(v, "geo", s.geo, EncodeGeo, DecodeGeo);
    OptionalOfEncoded(v, "trees", s.trees, Num, DecodeTrees);
    if s.speciesJa.Some? { DecodeArrayOfEncoded(s.speciesJa.value, Str, DecodeNonEmptyString); }
    OptionalOfEncoded(v, "species_ja", s.speciesJa, EncodeSpeciesList, DecodeSpeciesList);
    OptionalOfEncoded(v, "description_ja", s.descriptionJa, Str, DecodeNonEmptyString);
  }

  /** The photos, sources, links, ranking, collections and note of a valid spot are read back from their encodings. */
  lemma DecodeSpotTailKeys(s: SpotInFile, v: Json)
    requires ValidSpot(s)
    requires v.JObj?
    requires Encodes(v.fields, "photos", s.photos, EncodePhotoList)
    requires Encodes(v.fields, "sources", s.sources, EncodeSourceList)
    requires Encodes(v.fields, "links", s.links, EncodeLinks)
    requires Encodes(v.fields, "top", s.top, EncodeTop)
    requires Encodes(v.fields, "collections", s.collections, EncodeCollectionList)
    requires Encodes(v.fields, "note", s.note, Str)
    ensures Optional(v, "photos", DecodePhotoList) == Some(s.photos)
    ensures Optional(v, "sources", DecodeSourceList) == Some(s.sources)
    ensures Optional(v, "links", DecodeLinks) == Some(s.links)
    ensures Optional(v, "top", DecodeTop) == Some(s.top)
    ensures Optional(v, "collections", DecodeCollectionList) == Some(s.collections)
    ensures Optional(v, "note", DecodeNonEmptyString) == Some(s.note)
  {
    if s.photos.Some? { DecodeEncodePhotoList(s.photos.value); }
    OptionalOfEncoded(v, "photos", s.photos, EncodePhotoList, DecodePhotoList);
    if s.sources.Some? { DecodeEncodeSourceList(s.sources.value); }
    OptionalOfEncoded(v, "sources", s.sources, EncodeSourceList, DecodeSourceList);
    if s.links.Some? { DecodeEncodeLinks(s.links.value); }
    OptionalOfEncoded(v, "links", s.links, EncodeLinks, DecodeLinks);
    if s.top.Some? { DecodeEncodeTop(s.top.value); }
    OptionalOfEncoded(v, "top", s.top, EncodeTop, DecodeTop);
    if s.collections.Some? { DecodeArrayOfEncoded(s.collections.value, EncodeCollection, DecodeCollection); }
    OptionalOfEncoded(v, "collections", s.collections, EncodeCollectionList, DecodeCollectionList);
    OptionalOfEncoded(v, "note", s.note, Str, DecodeNonEmptyString);
  }

  lemma DecodeEncodeSpot(s: SpotInFile)
    requires ValidSpot(s)
    ensures DecodeSpot(EncodeSpot(s)) == Some(s)
  {
    EncodeSpotId(s);
    EncodeSpotNameJa(s);
    EncodeSpotNameEn(s);
    EncodeSpotLocation(s);
    EncodeSpotGeo(s);
    EncodeSpotTrees(s);
    EncodeSpotSpecies(s);
    EncodeSpotDescription(s);
    EncodeSpotPhotos(s);
    EncodeSpotSources(s);
    EncodeSpotLinks(s);
    EncodeSpotTop(s);
    EncodeSpotCollections(s);
    EncodeSpotNote(s);
    DecodeSpotOfFields(s, EncodeSpot(s));
  }

  lemma DecodeEncodePrefecture(p: Prefecture)
    requires ValidPrefecture(p)
    ensures DecodePrefecture(EncodePrefecture(p)) == Some(p)
  {
  }

  /** The file schema accepts exactly the valid files: decoded files are valid (the decoder's
      contract), and every valid file is read back from its document. */
  lemma DecodeEncodePrefectureFile(f: PrefectureFile)
    requires ValidPrefectureFile(f)
    ensures DecodePrefectureFile(EncodePrefectureFile(f)) == Some(f)
  {
    DecodeEncodePrefecture(f.prefecture);
    forall i | 0 <= i < |f.spots| ensures DecodeSpot(EncodeSpot(f.spots[i])) == Some(f.spots[i]) {
      DecodeEncodeSpot(f.spots[i]);
    }
    DecodeArrayOfEncoded(f.spots, EncodeSpot, DecodeSpot);
  }
}
