/** The one-off migration of the predict files' text from the flat prediction layout to the
    layout with a `weathernews` source: every `predict:` block whose first line is a legacy
    prediction key gets a `weathernews:` line and two more spaces of indentation. The work is
    done on lines of text, without parsing the YAML. */
module MigratePredictWeathernews {
  import opened Wrappers
  import opened JsText

  /** `getIndentWidth`: the length of the leading white-space run. */
  function IndentWidth(line: string): (n: nat)
    ensures n <= |line| && AllWhitespace(line[..n])
    ensures n < |line| ==> !IsWhitespace(line[n])
  {
    LeadingWhitespace(line)
  }

  /** `/^(\s*)predict:\s*$/`: white space, `predict:` and nothing but white space after it. */
  predicate IsPredictLine(line: string) {
    var n := IndentWidth(line);
    |line| >= n + 8 && line[n..n + 8] == "predict:" && AllWhitespace(line[n + 8..])
  }

  function Spaces(n: nat): (r: string)
    ensures |r| == n && forall i :: 0 <= i < n ==> r[i] == ' '
  {
    seq(n, _ => ' ')
  }

  /** The `weathernews:` line of a block whose `predict:` line is indented by `base`. */
  function WeathernewsLine(base: nat): string {
    Spaces(base + 2) + "weathernews:"
  }

  const LegacyKeys: seq<string> := ["forecasted_at", "first_bloom_date", "full_bloom_date", "fubuki_date"]

  /** `^\s{base+2}(forecasted_at|first_bloom_date|full_bloom_date|fubuki_date):`. */
  predicate IsLegacyKeyLine(line: string, base: nat) {
    var n := base + 2;
    && |line| >= n && AllWhitespace(line[..n])
    && exists k :: 0 <= k < |LegacyKeys| && |line| >= n + |LegacyKeys[k]| + 1
                   && line[n..n + |LegacyKeys[k]| + 1] == LegacyKeys[k] + ":"
  }

  /** A line that ends a migrated block: not blank (its leading white space is not all of
      it), and indented no deeper than `predict:`. */
  predicate EndsBlock(line: string, base: nat) {
    IndentWidth(line) < |line| && IndentWidth(line) <= base
  }

  /** The `trim() !== ""` test of the source, as `EndsBlock` states it. */
  lemma EndsBlockMeaning(line: string, base: nat)
    ensures EndsBlock(line, base) <==> NonBlank(line) && IndentWidth(line) <= base
  {
    TrimEmptyIffAllWhitespace(line);
    var n := IndentWidth(line);
    if n == |line| {
      assert line[..n] == line;
    } else {
      assert !AllWhitespace(line) by {
        assert !IsWhitespace(line[n]);
      }
    }
  }

  /** The first line at or after `j` that ends the block, or the number of lines. */
  function BlockEnd(lines: seq<string>, base: nat, j: nat): (k: nat)
    requires j <= |lines|
    ensures j <= k <= |lines|
    decreases |lines| - j
  {
    if j == |lines| then j
    else if EndsBlock(lines[j], base) then j
    else BlockEnd(lines, base, j + 1)
  }

  /** The block runs to the first line that ends it: no line before that ends it. */
  lemma {:induction false} BlockEndMeaning(lines: seq<string>, base: nat, j: nat)
    requires j <= |lines|
    ensures var k := BlockEnd(lines, base, j);
            && (forall m :: j <= m < k ==> !EndsBlock(lines[m], base))
            && (k < |lines| ==> EndsBlock(lines[k], base))
    decreases |lines| - j
  {
    if j < |lines| && !EndsBlock(lines[j], base) {
      BlockEndMeaning(lines, base, j + 1);
    }
  }

  /** A line of a migrated block, moved two spaces right. */
  function Indent(line: string): string {
    "  " + line
  }

  function IndentAll(block: seq<string>): (r: seq<string>)
    ensures |r| == |block| && forall m :: 0 <= m < |block| ==> r[m] == Indent(block[m])
  {
    seq(|block|, m requires 0 <= m < |block| => Indent(block[m]))
  }

  /** The output lines from line `i` on, and the number of blocks migrated there; or the error
      that stops the migration. */
  function MigrateFrom(lines: seq<string>, i: nat, fileName: string): (r: Result<(seq<string>, nat), string>)
    requires i <= |lines|
    ensures r.Ok? ==> |r.value.0| == |lines| - i + r.value.1
    decreases |lines| - i
  {
    if i == |lines| then Ok(([], 0))
    else if !IsPredictLine(lines[i]) then
      var rest :- MigrateFrom(lines, i + 1, fileName);
      Ok(([lines[i]] + rest.0, rest.1))
    else if i + 1 == |lines| then Err("Unexpected EOF after \"predict:\" in " + fileName)
    else
      var base := IndentWidth(lines[i]);
      if lines[i + 1] == WeathernewsLine(base) then
        var rest :- MigrateFrom(lines, i + 1, fileName);
        Ok(([lines[i]] + rest.0, rest.1))
      else if !IsLegacyKeyLine(lines[i + 1], base) then
        Err("Unexpected predict format in " + fileName + " near line " + NatToDecimal(i + 2))
      else
        var end := BlockEnd(lines, base, i + 1);
        var rest :- MigrateFrom(lines, end, fileName);
        Ok(([lines[i], WeathernewsLine(base)] + IndentAll(lines[i + 1..end]) + rest.0, rest.1 + 1))
  }

  /** With no block migrated, every line is copied as it is. */
  lemma {:induction false} NoMigrationCopies(lines: seq<string>, i: nat, fileName: string)
    requires i <= |lines|
    requires MigrateFrom(lines, i, fileName).Ok? && MigrateFrom(lines, i, fileName).value.1 == 0
    ensures MigrateFrom(lines, i, fileName).value.0 == lines[i..]
    decreases |lines| - i
  {
    if i == |lines| {
    } else if !IsPredictLine(lines[i]) || lines[i + 1] == WeathernewsLine(IndentWidth(lines[i])) {
      CopyStep(lines, i, fileName);
      NoMigrationCopies(lines, i + 1, fileName);
      assert lines[i..] == [lines[i]] + lines[i + 1..];
    }
  }

  /** What the migration returns: whether anything changed, and the new text. */
  datatype Migrated = Migrated(changed: bool, raw: string)

  /** `migratePredictBlocks`. */
  function MigrateSpec(raw: string, fileName: string): Result<Migrated, string> {
    var r :- MigrateFrom(Split(raw, '\n'), 0, fileName);
    Ok(Migrated(r.1 > 0, Join(r.0, '\n')))
  }

  /** When nothing is migrated the file is written back unchanged (the source then skips
      writing it). */
  lemma UnchangedTextKept(raw: string, fileName: string)
    ensures MigrateSpec(raw, fileName).Ok? && !MigrateSpec(raw, fileName).value.changed
            ==> MigrateSpec(raw, fileName).value.raw == raw
  {
    var lines := Split(raw, '\n');
    if MigrateFrom(lines, 0, fileName).Ok? && MigrateFrom(lines, 0, fileName).value.1 == 0 {
      NoMigrationCopies(lines, 0, fileName);
      assert lines[0..] == lines;
      JoinSplit(raw, '\n');
    }
  }

  /** Every `predict:` line from `i` on is already followed by its `weathernews:` line. */
  predicate MigratedFrom(lines: seq<string>, i: nat) {
    forall j :: i <= j < |lines| && IsPredictLine(lines[j])
                ==> j + 1 < |lines| && lines[j + 1] == WeathernewsLine(IndentWidth(lines[j]))
  }

  /** Lines already in the new layout are copied without error and without a migration. */
  lemma {:induction false} MigratedLinesKept(lines: seq<string>, i: nat, fileName: string)
    requires i <= |lines| && MigratedFrom(lines, i)
    ensures MigrateFrom(lines, i, fileName) == Ok((lines[i..], 0))
    decreases |lines| - i
  {
    if i < |lines| {
      CopyStep(lines, i, fileName);
      MigratedLinesKept(lines, i + 1, fileName);
      assert lines[i..] == [lines[i]] + lines[i + 1..];
    }
  }

  /** A file already in the new layout is reported unchanged. */
  lemma MigratedFileKept(raw: string, fileName: string)
    requires MigratedFrom(Split(raw, '\n'), 0)
    ensures MigrateSpec(raw, fileName) == Ok(Migrated(false, raw))
  {
    var lines := Split(raw, '\n');
    MigratedLinesKept(lines, 0, fileName);
    assert lines[0..] == lines;
    JoinSplit(raw, '\n');
  }

  /** `out` followed by the output from some line on. */
  function After(out: seq<string>, migrated: nat, rest: Result<(seq<string>, nat), string>): Result<(seq<string>, nat), string> {
    if rest.Err? then rest else Ok((out + rest.value.0, migrated + rest.value.1))
  }

  /** `lines` and `k` migrations put in front of the output from some line on. */
  function Prepend(lines: seq<string>, k: nat, rest: Result<(seq<string>, nat), string>): Result<(seq<string>, nat), string> {
    if rest.Err? then rest else Ok((lines + rest.value.0, k + rest.value.1))
  }

  /** Output lines and migrations gathered before a line move from the line's own output to
      the part already written. */
  lemma AfterPrepend(out: seq<string>, migrated: nat, lines: seq<string>, k: nat, rest: Result<(seq<string>, nat), string>)
    ensures After(out, migrated, Prepend(lines, k, rest)) == After(out + lines, migrated + k, rest)
  {
    if rest.Ok? {
      assert out + (lines + rest.value.0) == out + lines + rest.value.0;
    }
  }

  /** A line that is not `predict:`, or a `predict:` line already followed by its
      `weathernews:` line, is copied. */
  lemma CopyStep(lines: seq<string>, i: nat, fileName: string)
    requires i < |lines|
    requires !IsPredictLine(lines[i]) || (i + 1 < |lines| && lines[i + 1] == WeathernewsLine(IndentWidth(lines[i])))
    ensures MigrateFrom(lines, i, fileName) == Prepend([lines[i]], 0, MigrateFrom(lines, i + 1, fileName))
  {
  }

  /** A legacy block is rewritten up to the line that ends it. */
  lemma BlockStep(lines: seq<string>, i: nat, fileName: string, base: nat, end: nat)
    requires i + 1 < |lines| && IsPredictLine(lines[i]) && base == IndentWidth(lines[i])
    requires lines[i + 1] != WeathernewsLine(base) && IsLegacyKeyLine(lines[i + 1], base)
    requires end == BlockEnd(lines, base, i + 1)
    ensures MigrateFrom(lines, i, fileName)
            == Prepend([lines[i], WeathernewsLine(base)] + IndentAll(lines[i + 1..end]), 1, MigrateFrom(lines, end, fileName))
  {
  }

  /** The inner loop of `migratePredictBlocks`: the block's lines from `first` up to the line
      that ends it, each indented by two more spaces. */
  method ScanBlock(lines: seq<string>, base: nat, first: nat) returns (end: nat, block: seq<string>)
    requires first <= |lines|
    ensures end == BlockEnd(lines, base, first)
    ensures block == IndentAll(lines[first..end])
  {
    end := first;
    block := [];
    while end < |lines|
      invariant first <= end <= |lines|
      invariant BlockEnd(lines, base, end) == BlockEnd(lines, base, first)
      invariant |block| == end - first
      invariant forall m :: 0 <= m < |block| ==> block[m] == Indent(lines[first + m])
      decreases |lines| - end
    {
      var inner := lines[end];
      if EndsBlock(inner, base) {
        break;
      }
      block := block + [Indent(inner)];
      end := end + 1;
    }
    assert block == IndentAll(lines[first..end]);
  }

  /** One pass of the loop of `migratePredictBlocks` at line `i`: the lines it writes, whether
      it migrated a block, and the line it goes on from; or the error that stops it. */
  method MigrateLine(lines: seq<string>, i: nat, fileName: string) returns (r: Result<(seq<string>, bool, nat), string>)
    requires i < |lines|
    ensures r.Ok? ==> i < r.value.2 <= |lines|
    ensures r.Ok? ==> MigrateFrom(lines, i, fileName)
                      == Prepend(r.value.0, if r.value.1 then 1 else 0, MigrateFrom(lines, r.value.2, fileName))
    ensures r.Err? ==> MigrateFrom(lines, i, fileName) == Err(r.error)
  {
    var line := lines[i];
    if !IsPredictLine(line) {
      CopyStep(lines, i, fileName);
      return Ok(([line], false, i + 1));
    }
    var base := IndentWidth(line);
    if i + 1 >= |lines| {
      return Err("Unexpected EOF after \"predict:\" in " + fileName);
    }
    var weathernewsLine := WeathernewsLine(base);
    if lines[i + 1] == weathernewsLine {
      CopyStep(lines, i, fileName);
      return Ok(([line], false, i + 1));
    }
    if !IsLegacyKeyLine(lines[i + 1], base) {
      return Err("Unexpected predict format in " + fileName + " near line " + NatToDecimal(i + 2));
    }
    var end, block := ScanBlock(lines, base, i + 1);
    BlockStep(lines, i, fileName, base, end);
    return Ok(([line, weathernewsLine] + block, true, end));
  }

  /** `migratePredictBlocks`: copies lines, and for each legacy `predict:` block writes the
      `weathernews:` line and the block's lines indented by two spaces. */
  method MigratePredictBlocks(raw: string, fileName: string) returns (r: Result<Migrated, string>)
    ensures r == MigrateSpec(raw, fileName)
  {
    var lines := Split(raw, '\n');
    var out: seq<string> := [];
    var changed := false;
    ghost var migrated: nat := 0;
    var i := 0;
    assert MigrateFrom(lines, 0, fileName).Ok? ==> [] + MigrateFrom(lines, 0, fileName).value.0 == MigrateFrom(lines, 0, fileName).value.0;
    while i < |lines|
      invariant 0 <= i <= |lines|
      invariant changed <==> migrated > 0
      invariant MigrateFrom(lines, 0, fileName) == After(out, migrated, MigrateFrom(lines, i, fileName))
      decreases |lines| - i
    {
      var step := MigrateLine(lines, i, fileName);
      if step.Err? {
        return Err(step.error);
      }
      var (written, blockMigrated, next) := step.value;
      var k: nat := if blockMigrated then 1 else 0;
      AfterPrepend(out, migrated, written, k, MigrateFrom(lines, next, fileName));
      out := out + written;
      migrated := migrated + k;
      changed := changed || blockMigrated;
      i := next;
    }
    assert out + [] == out;
    return Ok(Migrated(changed, Join(out, '\n')));
  }
}
