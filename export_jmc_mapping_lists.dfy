/** The JMC mapping lists: per prefecture, a TSV of the spots with their JMC code and name, a
    TSV of the JMC points with whether some spot uses their code, and a report row listing the
    unmapped points and the codes spots use that the JMC list lacks; the report rows are ordered
    by prefecture. File and directory handling is left out. */
module ExportJmcMappingLists {
  import opened Wrappers
  import opened JsText
  import opened JsonValue
  import opened Sequences
  import opened SpotSources
  import JmcApi
  import StableSort

  // ----- TSV text -----

  /** `asTsvCell`: "" for `null`, otherwise the text with tabs and line feeds made spaces. */
  function AsTsvCell(value: Option<string>): (r: string)
    ensures value.None? ==> r == ""
    ensures value.Some? ==> |r| == |value.value|
    ensures value.Some? ==> forall i :: 0 <= i < |r| ==>
      r[i] == if value.value[i] == '\t' || value.value[i] == '\n' then ' ' else value.value[i]
    ensures '\t' !in r && '\n' !in r
  {
    if value.None? then ""
    else ReplaceChar(ReplaceChar(value.value, '\t', ' '), '\n', ' ')
  }

  /** A cell that already has no tab or line feed is written as it is. */
  lemma AsTsvCellPlain(s: string)
    requires '\t' !in s && '\n' !in s
    ensures AsTsvCell(Some(s)) == s
  {
  }

  /** The lines of the data section: each row's cells joined by tabs. */
  function RowLines(rows: seq<seq<string>>): (r: seq<string>)
    ensures |r| == |rows| && forall k :: 0 <= k < |rows| ==> r[k] == Join(rows[k], '\t')
  {
    seq(|rows|, k requires 0 <= k < |rows| => Join(rows[k], '\t'))
  }

  /** `buildTsv`: the header, a line feed, the row lines separated by line feeds, and a final
      line feed. */
  function BuildTsv(header: string, rows: seq<seq<string>>): (r: string)
    ensures |r| >= |header| + 2 && r[..|header|] == header && r[|header|] == '\n' && r[|r| - 1] == '\n'
  {
    header + "\n" + Join(RowLines(rows), '\n') + "\n"
  }

  /** The cells of a row are escaped TSV cells. */
  predicate EscapedRow(row: seq<string>) {
    |row| >= 1 && forall c :: 0 <= c < |row| ==> '\t' !in row[c] && '\n' !in row[c]
  }

  /** The data section of a TSV built from escaped rows splits back into exactly those rows:
      by line feeds into the row lines, each by tabs into its cells. */
  lemma TsvRoundTrip(header: string, rows: seq<seq<string>>)
    requires |rows| >= 1 && forall k :: 0 <= k < |rows| ==> EscapedRow(rows[k])
    ensures var t := BuildTsv(header, rows);
      var lines := Split(t[|header| + 1..|t| - 1], '\n');
      && |lines| == |rows|
      && forall k :: 0 <= k < |rows| ==> Split(lines[k], '\t') == rows[k]
  {
    var lines := RowLines(rows);
    var t := BuildTsv(header, rows);
    assert t[|header| + 1..|t| - 1] == Join(lines, '\n');
    forall k | 0 <= k < |rows|
      ensures '\n' !in lines[k] && Split(lines[k], '\t') == rows[k]
    {
      JoinAvoids(rows[k], '\t', '\n');
      SplitJoin(rows[k], '\t');
    }
    SplitJoin(lines, '\n');
  }

  // ----- The spots list -----

  /** The six cells of a spot line and the spot's JMC code ("" when it has none). */
  datatype SpotLine = SpotLine(cells: seq<string>, jmcCode: string)

  /** A non-blank string, trimmed, or "". */
  function TrimmedOrEmpty(value: Option<Json>): (r: string)
    ensures IsNonEmptyString(value) ==> r == Trim(value.value.s)
    ensures !IsNonEmptyString(value) ==> r == ""
  {
    if IsNonEmptyString(value) then Trim(value.value.s) else ""
  }

  /** A string field of the spot's `location` object, trimmed, or "". */
  function LocationField(spot: Json, key: string): string {
    var location := Get(spot, "location");
    if IsPlainObject(location) then TrimmedOrEmpty(Get(location.value, key)) else ""
  }

  /** The spot-row map of the export: id, name, city, address, JMC code and JMC name, each
      escaped. */
  function ExportSpotLine(spot: Json, fileName: string): (r: Result<SpotLine, string>)
    ensures !spot.JObj? ==> r == Err("Invalid spot entry in " + fileName)
    ensures spot.JObj? && !IsNonEmptyString(Get(spot, "id")) ==> r == Err("Invalid spot.id in " + fileName)
    ensures r.Ok? <==> spot.JObj? && IsNonEmptyString(Get(spot, "id"))
    ensures r.Ok? ==> |r.value.cells| == 6 && EscapedRow(r.value.cells)
    ensures r.Ok? ==> r.value.cells[0] == AsTsvCell(Some(spot.fields["id"].s))
    ensures r.Ok? ==> r.value.jmcCode == SpotJmcCode(spot)
    ensures r.Ok? ==> r.value.cells[1] == AsTsvCell(Some(TrimmedOrEmpty(Get(spot, "name_ja"))))
    ensures r.Ok? ==> r.value.cells[2] == AsTsvCell(Some(LocationField(spot, "city_ja")))
    ensures r.Ok? ==> r.value.cells[3] == AsTsvCell(Some(LocationField(spot, "address_ja")))
    ensures r.Ok? ==> r.value.cells[4] == AsTsvCell(Some(r.value.jmcCode))
    ensures r.Ok? ==> r.value.cells[5] == AsTsvCell(Some(SpotJmcName(spot)))
  {
    if !spot.JObj? then Err("Invalid spot entry in " + fileName)
    else if !IsNonEmptyString(Get(spot, "id")) then Err("Invalid spot.id in " + fileName)
    else
      var jmcCode := SpotJmcCode(spot);
      var cells := SpotCells(spot.fields["id"].s, TrimmedOrEmpty(Get(spot, "name_ja")),
                             LocationField(spot, "city_ja"), LocationField(spot, "address_ja"), jmcCode, SpotJmcName(spot));
      Ok(SpotLine(cells, jmcCode))
  }

  /** The six escaped cells of a spot line. */
  function SpotCells(id: string, name: string, city: string, address: string, jmcCode: string, jmcName: string)
    : (cells: seq<string>)
    ensures |cells| == 6 && EscapedRow(cells)
    ensures cells[0] == AsTsvCell(Some(id)) && cells[1] == AsTsvCell(Some(name))
    ensures cells[2] == AsTsvCell(Some(city)) && cells[3] == AsTsvCell(Some(address))
    ensures cells[4] == AsTsvCell(Some(jmcCode)) && cells[5] == AsTsvCell(Some(jmcName))
  {
    EscapeCells([id, name, city, address, jmcCode, jmcName])
  }

  /** Each value through `asTsvCell`. */
  function EscapeCells(values: seq<string>): (r: seq<string>)
    ensures |r| == |values| && forall i :: 0 <= i < |values| ==> r[i] == AsTsvCell(Some(values[i]))
    ensures |values| >= 1 ==> EscapedRow(r)
  {
    seq(|values|, i requires 0 <= i < |values| => AsTsvCell(Some(values[i])))
  }

  /** `usedJmcCodes.add(code)` on a set kept in insertion order: "" is not added, nor a code
      already present. */
  function AddCode(used: seq<string>, code: string): seq<string> {
    if code != "" && code !in used then used + [code] else used
  }

  /** The spot rows and the used JMC codes after the given spots. */
  function SpotLines(spots: seq<Json>, fileName: string): Result<(seq<seq<string>>, seq<string>), string>
  {
    if |spots| == 0 then Ok(([], []))
    else
      var before :- SpotLines(spots[..|spots| - 1], fileName);
      var line :- ExportSpotLine(spots[|spots| - 1], fileName);
      Ok((before.0 + [line.cells], AddCode(before.1, line.jmcCode)))
  }

  /** The spots map of the export, which adds each spot's JMC code to `usedJmcCodes` as it
      goes. */
  method ExportSpotLines(spots: seq<Json>, fileName: string) returns (r: Result<(seq<seq<string>>, seq<string>), string>)
    ensures r == SpotLines(spots, fileName)
  {
    var rows: seq<seq<string>> := [];
    var used: seq<string> := [];
    var i := 0;
    while i < |spots|
      invariant 0 <= i <= |spots|
      invariant SpotLines(spots[..i], fileName) == Ok((rows, used))
    {
      SpotLinesExtend(spots, i, fileName);
      var next := AddSpotLine(spots[i], fileName, rows, used);
      if next.Err? {
        SpotLinesPrefixErr(spots, i + 1, fileName);
        return next;
      }
      rows, used := next.value.0, next.value.1;
      i := i + 1;
    }
    assert spots[..i] == spots;
    return Ok((rows, used));
  }

  /** One spot of the export's map: its row is appended and its JMC code added to
      `usedJmcCodes`, unless the spot is rejected. */
  method AddSpotLine(spot: Json, fileName: string, rows: seq<seq<string>>, used: seq<string>)
    returns (r: Result<(seq<seq<string>>, seq<string>), string>)
    ensures var line := ExportSpotLine(spot, fileName);
      r == if line.Err? then Err(line.error) else Ok((rows + [line.value.cells], AddCode(used, line.value.jmcCode)))
  {
    var line := ExportSpotLine(spot, fileName);
    if line.Err? {
      return Err(line.error);
    }
    var code := line.value.jmcCode;
    var added := used;
    if code != "" && code !in used {
      added := used + [code];
    }
    return Ok((rows + [line.value.cells], added));
  }

  lemma {:induction false} SpotLinesPrefixErr(spots: seq<Json>, n: nat, fileName: string)
    requires n <= |spots| && SpotLines(spots[..n], fileName).Err?
    ensures SpotLines(spots, fileName) == SpotLines(spots[..n], fileName)
    decreases |spots|
  {
    if n < |spots| {
      var init := spots[..|spots| - 1];
      assert init[..n] == spots[..n];
      SpotLinesPrefixErr(init, n, fileName);
    } else {
      assert spots[..n] == spots;
    }
  }

  /** The spot's JMC code as the export reads it. */
  function SpotJmcCode(spot: Json): string {
    NonBlankField(FindSpotJmcSource(spot), "code").GetOr("")
  }

  /** The trimmed name of the spot's JMC source, or "". */
  function SpotJmcName(spot: Json): string {
    var source := FindSpotJmcSource(spot);
    if source.Some? then TrimmedOrEmpty(Get(source.value, "name")) else ""
  }

  /** One step of `SpotLines`. */
  lemma SpotLinesStep(spots: seq<Json>, fileName: string)
    requires |spots| > 0
    ensures var before := SpotLines(spots[..|spots| - 1], fileName);
      var line := ExportSpotLine(spots[|spots| - 1], fileName);
      SpotLines(spots, fileName) ==
        if before.Err? then before
        else if line.Err? then Err(line.error)
        else Ok((before.value.0 + [line.value.cells], AddCode(before.value.1, line.value.jmcCode)))
  {
  }

  /** `SpotLinesStep` for the prefix of length `i + 1`, after a successful prefix of length `i`. */
  lemma SpotLinesExtend(spots: seq<Json>, i: nat, fileName: string)
    requires i < |spots| && SpotLines(spots[..i], fileName).Ok?
    ensures var before := SpotLines(spots[..i], fileName).value;
      var line := ExportSpotLine(spots[i], fileName);
      SpotLines(spots[..i + 1], fileName) ==
        if line.Err? then Err(line.error)
        else Ok((before.0 + [line.value.cells], AddCode(before.1, line.value.jmcCode)))
  {
    assert spots[..i + 1][..i] == spots[..i];
    SpotLinesStep(spots[..i + 1], fileName);
  }

  /** The used codes of a successful `SpotLines` extend those of its prefix by the last spot's
      code. */
  lemma SpotLinesUsedStep(spots: seq<Json>, fileName: string)
    requires |spots| > 0 && SpotLines(spots, fileName).Ok?
    ensures SpotLines(spots[..|spots| - 1], fileName).Ok?
    ensures SpotLines(spots, fileName).value.1
         == AddCode(SpotLines(spots[..|spots| - 1], fileName).value.1, SpotJmcCode(spots[|spots| - 1]))
  {
    SpotLinesStep(spots, fileName);
  }

  /** On success there is one escaped row per spot. */
  lemma {:induction false} SpotLinesRows(spots: seq<Json>, fileName: string)
    requires SpotLines(spots, fileName).Ok?
    ensures var rows := SpotLines(spots, fileName).value.0;
      |rows| == |spots| && forall k :: 0 <= k < |rows| ==> EscapedRow(rows[k])
  {
    if |spots| > 0 {
      SpotLinesStep(spots, fileName);
      SpotLinesRows(spots[..|spots| - 1], fileName);
    }
  }

  /** The spots' JMC codes, "" for a spot without one. */
  function SpotCodes(spots: seq<Json>): (r: seq<string>)
    ensures |r| == |spots| && forall k :: 0 <= k < |spots| ==> r[k] == SpotJmcCode(spots[k])
  {
    seq(|spots|, k requires 0 <= k < |spots| => SpotJmcCode(spots[k]))
  }

  /** The non-blank JMC codes of the spots. */
  function UsedCodes(spots: seq<Json>): set<string> {
    set c | c in SpotCodes(spots) && c != ""
  }

  /** `usedJmcCodes` after adding the given codes one by one. */
  function AddCodes(codes: seq<string>): seq<string> {
    if |codes| == 0 then [] else AddCode(AddCodes(codes[..|codes| - 1]), codes[|codes| - 1])
  }

  /** The insertion-ordered set holds each non-blank code once. */
  lemma {:induction false} AddCodesMeaning(codes: seq<string>)
    ensures Distinct(AddCodes(codes)) && (set c | c in AddCodes(codes)) == (set c | c in codes && c != "")
  {
    if |codes| > 0 {
      var init := codes[..|codes| - 1];
      var code := codes[|codes| - 1];
      AddCodesMeaning(init);
      var before := AddCodes(init);
      if code != "" && code !in before {
        DistinctAppend(before, code);
      }
      assert codes == init + [code];
      assert (set c | c in codes && c != "") == (set c | c in init && c != "") + (if code != "" then {code} else {});
      assert (set c | c in AddCodes(codes)) == (set c | c in before) + (if code != "" then {code} else {});
    }
  }

  /** The loop's used codes are the spots' codes added one by one. */
  lemma {:induction false} SpotLinesUsedCodes(spots: seq<Json>, fileName: string)
    requires SpotLines(spots, fileName).Ok?
    ensures SpotLines(spots, fileName).value.1 == AddCodes(SpotCodes(spots))
  {
    if |spots| > 0 {
      var init := spots[..|spots| - 1];
      SpotLinesUsedStep(spots, fileName);
      SpotLinesUsedCodes(init, fileName);
      assert SpotCodes(spots)[..|spots| - 1] == SpotCodes(init);
    }
  }

  /** On success `usedJmcCodes` holds each non-blank code of a spot's first JMC source exactly
      once. */
  lemma SpotLinesUsed(spots: seq<Json>, fileName: string)
    requires SpotLines(spots, fileName).Ok?
    ensures var used := SpotLines(spots, fileName).value.1;
      Distinct(used) && (set c | c in used) == UsedCodes(spots)
  {
    SpotLinesUsedCodes(spots, fileName);
    AddCodesMeaning(SpotCodes(spots));
  }

  // ----- The JMC list -----

  /** A JMC point of the stored JMC prefecture list. */
  datatype JmcListSpot = JmcListSpot(code: string, nameJa: string)

  /** The checks on one JMC list entry, in the script's order. */
  function ReadJmcListSpot(s: Json, prefectureId: real): (r: Result<JmcListSpot, string>)
    ensures r.Ok? <==> s.JObj? && IsNonEmptyString(Get(s, "code")) && IsNonEmptyString(Get(s, "name_ja"))
    ensures r.Ok? ==> Get(s, "code") == Some(JStr(r.value.code)) && Get(s, "name_ja") == Some(JStr(r.value.nameJa))
  {
    var id := JmcApi.NumberString(prefectureId.Floor);
    if !s.JObj? then Err("Invalid JMC spot entry (" + id + ")")
    else if !IsNonEmptyString(Get(s, "code")) then Err("Invalid JMC spot.code (" + id + ")")
    else if !IsNonEmptyString(Get(s, "name_ja")) then
      Err("Invalid JMC spot.name_ja (" + id + " " + s.fields["code"].s + ")")
    else Ok(JmcListSpot(s.fields["code"].s, s.fields["name_ja"].s))
  }

  /** A line of the JMC TSV: code, name and `mapped_in_spots`. */
  function JmcLine(s: JmcListSpot, used: seq<string>): (r: seq<string>)
    ensures |r| == 3 && EscapedRow(r)
    ensures r[2] == "yes" <==> s.code in used
    ensures r[2] == "no" <==> s.code !in used
  {
    [AsTsvCell(Some(s.code)), AsTsvCell(Some(s.nameJa)), if s.code in used then "yes" else "no"]
  }

  /** The JMC TSV's lines, one per point of the list, in list order. */
  function JmcLines(jmcSpots: seq<JmcListSpot>, used: seq<string>): (r: seq<seq<string>>)
    ensures |r| == |jmcSpots| && forall i :: 0 <= i < |jmcSpots| ==> r[i] == JmcLine(jmcSpots[i], used)
  {
    seq(|jmcSpots|, i requires 0 <= i < |jmcSpots| => JmcLine(jmcSpots[i], used))
  }

  /** The checks on every JMC list entry: all points, or the first entry's error. */
  function ReadJmcList(jmcEntries: seq<Json>, prefectureId: real): (r: Result<seq<JmcListSpot>, string>)
    ensures r.Ok? <==> forall i :: 0 <= i < |jmcEntries| ==> ReadJmcListSpot(jmcEntries[i], prefectureId).Ok?
    ensures r.Ok? ==> |r.value| == |jmcEntries|
    ensures r.Ok? ==> forall i :: 0 <= i < |jmcEntries| ==> ReadJmcListSpot(jmcEntries[i], prefectureId) == Ok(r.value[i])
    ensures r.Err? ==> exists i ::
      FirstError(jmcEntries, s => ReadJmcListSpot(s, prefectureId), i) && r.error == ReadJmcListSpot(jmcEntries[i], prefectureId).error
  {
    var r := MapUntilError(jmcEntries, s => ReadJmcListSpot(s, prefectureId));
    assert r.Ok? ==> forall i :: 0 <= i < |jmcEntries| ==> ReadJmcListSpot(jmcEntries[i], prefectureId) == Ok(r.value[i]);
    r
  }

  /** The JMC points no spot maps to, in list order. */
  function UnmappedCodes(jmcSpots: seq<JmcListSpot>, used: seq<string>): (r: seq<JmcListSpot>)
    ensures forall i :: 0 <= i < |r| ==> r[i] in jmcSpots && r[i].code !in used
    ensures forall i :: 0 <= i < |jmcSpots| && jmcSpots[i].code !in used ==> jmcSpots[i] in r
    ensures IsSubsequence(r, jmcSpots)
    ensures |r| == CountWhere(jmcSpots, (s: JmcListSpot) => s.code !in used)
  {
    Filter(jmcSpots, (s: JmcListSpot) => s.code !in used)
  }

  function CodesOf(jmcSpots: seq<JmcListSpot>): set<string> {
    set s | s in jmcSpots :: s.code
  }

  /** The codes spots use that the JMC list lacks, in the order spots first used them. */
  function ExtraCodes(used: seq<string>, jmcSpots: seq<JmcListSpot>): (r: seq<string>)
    ensures forall i :: 0 <= i < |r| ==> r[i] in used && r[i] !in CodesOf(jmcSpots)
    ensures forall i :: 0 <= i < |used| && used[i] !in CodesOf(jmcSpots) ==> used[i] in r
    ensures IsSubsequence(r, used)
    ensures |r| == CountWhere(used, (c: string) => c !in CodesOf(jmcSpots))
  {
    Filter(used, (c: string) => c !in CodesOf(jmcSpots))
  }

  /** Every JMC point is either marked mapped or listed as unmapped, never both; every used
      code is either in the JMC list or listed as extra, never both. */
  lemma MappingPartition(jmcSpots: seq<JmcListSpot>, used: seq<string>)
    ensures forall i :: 0 <= i < |jmcSpots| ==>
      (JmcLine(jmcSpots[i], used)[2] == "yes" <==> jmcSpots[i] !in UnmappedCodes(jmcSpots, used))
    ensures forall i :: 0 <= i < |used| ==>
      (used[i] in CodesOf(jmcSpots) <==> used[i] !in ExtraCodes(used, jmcSpots))
  {
    var unmapped := UnmappedCodes(jmcSpots, used);
    forall i | 0 <= i < |jmcSpots| && jmcSpots[i] in unmapped
      ensures jmcSpots[i].code !in used
    {
      var j :| 0 <= j < |unmapped| && unmapped[j] == jmcSpots[i];
    }
    var extra := ExtraCodes(used, jmcSpots);
    forall i | 0 <= i < |used| && used[i] in extra
      ensures used[i] !in CodesOf(jmcSpots)
    {
      var j :| 0 <= j < |extra| && extra[j] == used[i];
    }
  }

  // ----- The report -----

  /** One prefecture's entry of the report. */
  datatype ReportRow = ReportRow(
    prefectureId: real, prefectureNameJa: string, fileName: string,
    spotsCount: nat, spotsWithJmc: nat, jmcCount: nat, mappedJmcCount: nat,
    unmappedCodes: seq<JmcListSpot>, extraCodes: seq<string>)

  /** The spot has a JMC source. */
  predicate HasJmcSource(spot: Json) {
    FindSpotJmcSource(spot).Some?
  }

  /** `spots.filter((spot) => findSpotJmcSource(spot)).length`: how many spots have a JMC
      source, as counted spot by spot; none exactly when no spot has one, all exactly when every
      spot has one. */
  function CountWithJmc(spots: seq<Json>): (n: nat)
    ensures n == CountWhere(spots, HasJmcSource)
    ensures n == 0 <==> forall k :: 0 <= k < |spots| ==> !HasJmcSource(spots[k])
    ensures n == |spots| <==> forall k :: 0 <= k < |spots| ==> HasJmcSource(spots[k])
  {
    CountWhereExtremes(spots, HasJmcSource);
    |Filter(spots, HasJmcSource)|
  }

  /** `reportRows.sort((a, b) => a.prefectureId - b.prefectureId)`: a stable sort by prefecture
      id. */
  function SortReportRows(rows: seq<ReportRow>): (r: seq<ReportRow>)
    ensures multiset(r) == multiset(rows)
    ensures forall i, j :: 0 <= i < j < |r| ==> r[i].prefectureId <= r[j].prefectureId
  {
    StableSort.SortBy(rows, (row: ReportRow) => row.prefectureId)
  }

  /** Report rows of the same prefecture keep their order. */
  lemma SortReportRowsStable(rows: seq<ReportRow>, id: real)
    ensures StableSort.WithKey(SortReportRows(rows), (row: ReportRow) => row.prefectureId, id)
         == StableSort.WithKey(rows, (row: ReportRow) => row.prefectureId, id)
  {
    StableSort.SortByStable(rows, (row: ReportRow) => row.prefectureId, id);
  }

  // ----- One prefecture -----

  /** What the export writes for one prefecture: the two TSV texts and the report row. */
  datatype PrefectureExport = PrefectureExport(spotsTsv: string, jmcTsv: string, report: ReportRow)

  /** The lists and report row of one prefecture, from the spot file's checked prefecture and
      spots, the two TSV headers and the JMC list entry's spots. */
  function ExportPrefecture(prefectureId: real, prefectureNameJa: string, fileName: string, spots: seq<Json>,
                            spotsHeader: string, jmcHeader: string, jmcEntries: seq<Json>)
    : (r: Result<PrefectureExport, string>)
    ensures r.Ok? <==> SpotLines(spots, fileName).Ok? && ReadJmcList(jmcEntries, prefectureId).Ok?
    ensures SpotLines(spots, fileName).Err? ==> r == Err(SpotLines(spots, fileName).error)
    ensures SpotLines(spots, fileName).Ok? && ReadJmcList(jmcEntries, prefectureId).Err? ==>
      r == Err(ReadJmcList(jmcEntries, prefectureId).error)
    ensures r.Ok? ==>
      var (spotRows, used) := SpotLines(spots, fileName).value;
      var jmcSpots := ReadJmcList(jmcEntries, prefectureId).value;
      && r.value.spotsTsv == BuildTsv(spotsHeader, spotRows)
      && r.value.jmcTsv == BuildTsv(jmcHeader, JmcLines(jmcSpots, used))
      && r.value.report == ReportRow(prefectureId, prefectureNameJa, fileName, |spots|, CountWithJmc(spots),
                                     |jmcEntries|, |used|, UnmappedCodes(jmcSpots, used), ExtraCodes(used, jmcSpots))
  {
    var (spotRows, used) :- SpotLines(spots, fileName);
    var jmcSpots :- ReadJmcList(jmcEntries, prefectureId);
    Ok(PrefectureExport(
      BuildTsv(spotsHeader, spotRows), BuildTsv(jmcHeader, JmcLines(jmcSpots, used)),
      ReportRow(prefectureId, prefectureNameJa, fileName, |spots|, CountWithJmc(spots), |jmcSpots|, |used|,
                UnmappedCodes(jmcSpots, used), ExtraCodes(used, jmcSpots))))
  }

  /** In an exported prefecture, the mapped count is the number of distinct codes spots use,
      and the unmapped and extra lists are exactly the JMC points no spot uses and the used
      codes the JMC list lacks. */
  lemma ExportCounts(prefectureId: real, prefectureNameJa: string, fileName: string, spots: seq<Json>,
                     spotsHeader: string, jmcHeader: string, jmcEntries: seq<Json>)
    requires ExportPrefecture(prefectureId, prefectureNameJa, fileName, spots, spotsHeader, jmcHeader, jmcEntries).Ok?
    ensures var report := ExportPrefecture(prefectureId, prefectureNameJa, fileName, spots, spotsHeader, jmcHeader, jmcEntries).value.report;
      var usedCodes := UsedCodes(spots);
      && report.mappedJmcCount == |usedCodes|
      && (forall i :: 0 <= i < |report.unmappedCodes| ==> report.unmappedCodes[i].code !in usedCodes)
      && (forall i :: 0 <= i < |report.extraCodes| ==> report.extraCodes[i] in usedCodes)
  {
    var (spotRows, used) := SpotLines(spots, fileName).value;
    SpotLinesUsed(spots, fileName);
    DistinctCardinality(used);
  }

  /** A sequence without repeats has as many elements as its set. */
  lemma {:induction false} DistinctCardinality(s: seq<string>)
    requires Distinct(s)
    ensures |set c | c in s| == |s|
  {
    if |s| > 0 {
      var init := s[..|s| - 1];
      DistinctCardinality(init);
      assert (set c | c in s) == (set c | c in init) + {s[|s| - 1]};
      assert s[|s| - 1] !in init;
    }
  }

  // ----- Output file names -----

  /** `fileName.replace(/\\.yml$/, ".tsv")` as written: the pattern needs a backslash, any
      character and `yml` at the end of the name. */
  function TsvNameAsWritten(fileName: string): string {
    var n := |fileName|;
    if n >= 5 && fileName[n - 5] == '\\' && fileName[n - 3..] == "yml" then fileName[..n - 5] + ".tsv"
    else fileName
  }

  /** A spot file name without a backslash is kept as it is, `.yml` ending included: the lists
      are written as `.yml` files. */
  lemma TsvNameAsWrittenKeepsYml(fileName: string)
    requires '\\' !in fileName
    ensures TsvNameAsWritten(fileName) == fileName
  {
    var n := |fileName|;
    if n >= 5 {
      assert fileName[n - 5] in fileName;
    }
  }
}
