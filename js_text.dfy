/** The JavaScript string operations the scripts and the app rely on: white space as `\s` and
    `trim` see it, decimal digits, `padStart`, `includes`, `split`/`join` on one character and
    `replaceAll` of one character. Strings are sequences of Unicode scalar values. */
module JsText {

  /** The characters matched by `\s` and removed by `String.prototype.trim`
      (WhiteSpace and LineTerminator of ECMA-262). */
  predicate IsWhitespace(c: char) {
    c == '\t' || c == '\n' || c == '\U{B}' || c == '\U{C}' || c == '\r' || c == ' ' ||
    c == '\U{A0}' || c == '\U{1680}' || ('\U{2000}' <= c <= '\U{200A}') ||
    c == '\U{2028}' || c == '\U{2029}' || c == '\U{202F}' || c == '\U{205F}' ||
    c == '\U{3000}' || c == '\U{FEFF}'
  }

  predicate AllWhitespace(s: string) {
    forall i :: 0 <= i < |s| ==> IsWhitespace(s[i])
  }

  /** `\d` without the `u` flag: an ASCII decimal digit. */
  predicate IsDigit(c: char) {
    '0' <= c <= '9'
  }

  predicate AllDigits(s: string) {
    forall i :: 0 <= i < |s| ==> IsDigit(s[i])
  }

  /** Length of the leading white-space run: what the pattern `^\s*` matches. */
  function LeadingWhitespace(s: string): (n: nat)
    ensures n <= |s|
    ensures AllWhitespace(s[..n])
    ensures n < |s| ==> !IsWhitespace(s[n])
  {
    if |s| > 0 && IsWhitespace(s[0]) then
      var m := LeadingWhitespace(s[1..]);
      assert s[..1 + m] == [s[0]] + s[1..][..m];
      1 + m
    else 0
  }

  /** Length of the trailing white-space run. */
  function TrailingWhitespace(s: string): (n: nat)
    ensures n <= |s|
    ensures forall i :: |s| - n <= i < |s| ==> IsWhitespace(s[i])
    ensures n < |s| ==> !IsWhitespace(s[|s| - n - 1])
  {
    if |s| > 0 && IsWhitespace(s[|s| - 1]) then
      var p := s[..|s| - 1];
      var m := TrailingWhitespace(p);
      assert forall i :: |p| - m <= i < |p| ==> s[i] == p[i];
      1 + m
    else 0
  }

  /** `String.prototype.trim`. */
  function Trim(s: string): (r: string)
    ensures |r| <= |s|
    ensures r == [] || (!IsWhitespace(r[0]) && !IsWhitespace(r[|r| - 1]))
    ensures exists i :: 0 <= i <= |s| - |r| && s[i..i + |r|] == r
                        && AllWhitespace(s[..i]) && AllWhitespace(s[i + |r|..])
  {
    var a := LeadingWhitespace(s);
    var rest := s[a..];
    var b := TrailingWhitespace(rest);
    var r := rest[..|rest| - b];
    assert s[a..a + |r|] == r;
    var tail := s[a + |r|..];
    assert AllWhitespace(tail) by {
      forall i | 0 <= i < |tail| ensures IsWhitespace(tail[i]) {
        assert tail[i] == rest[|r| + i];
      }
    }
    assert r != [] ==> r[0] == rest[0] && r[|r| - 1] == rest[|rest| - b - 1];
    r
  }

  /** A string all of whose characters are white space trims to the empty string, and only such. */
  lemma TrimEmptyIffAllWhitespace(s: string)
    ensures Trim(s) == [] <==> AllWhitespace(s)
  {
    var a := LeadingWhitespace(s);
    if a < |s| {
      var rest := s[a..];
      assert !IsWhitespace(rest[0]);
      assert TrailingWhitespace(rest) < |rest|;
    }
  }

  lemma {:induction false} TrimIdempotent(s: string)
    ensures Trim(Trim(s)) == Trim(s)
  {
    var t := Trim(s);
    if t != [] {
      assert LeadingWhitespace(t) == 0;
      assert TrailingWhitespace(t) == 0;
      assert t[0..][..|t| - 0] == t;
    }
  }

  /** A string without white space trims to itself. */
  lemma TrimNoWhitespace(s: string)
    requires forall i :: 0 <= i < |s| ==> !IsWhitespace(s[i])
    ensures Trim(s) == s
  {
    assert LeadingWhitespace(s) == 0;
    assert TrailingWhitespace(s) == 0;
    assert s[0..][..|s|] == s;
  }

  /** `isNonEmptyString` of the scripts, for a value that is a string. */
  predicate NonBlank(s: string) {
    |Trim(s)| > 0
  }

  lemma NonBlankIffSomeNonWhitespace(s: string)
    ensures NonBlank(s) <==> exists i :: 0 <= i < |s| && !IsWhitespace(s[i])
  {
    TrimEmptyIffAllWhitespace(s);
  }

  function DigitValue(c: char): (d: nat)
    requires IsDigit(c)
    ensures d < 10
  {
    c as int - '0' as int
  }

  function DigitChar(d: nat): (c: char)
    requires d < 10
    ensures IsDigit(c) && DigitValue(c) == d
  {
    ('0' as int + d) as char
  }

  /** `Number(s)` for a string of ASCII digits. */
  function DecimalValue(s: string): nat
    requires AllDigits(s)
  {
    if |s| == 0 then 0 else DecimalValue(s[..|s| - 1]) * 10 + DigitValue(s[|s| - 1])
  }

  /** `String(n)` for a natural number: its decimal digits, with no leading zero. */
  function NatToDecimal(n: nat): (r: string)
    ensures |r| >= 1 && AllDigits(r)
    ensures |r| > 1 ==> r[0] != '0'
    ensures DecimalValue(r) == n
  {
    if n < 10 then [DigitChar(n)]
    else
      var p := NatToDecimal(n / 10);
      var r := p + [DigitChar(n % 10)];
      assert r[..|r| - 1] == p;
      r
  }

  /** `String.prototype.padStart(width, [fill])`. */
  function PadStart(s: string, width: nat, fill: char): (r: string)
    ensures |r| == if |s| >= width then |s| else width
    ensures r[|r| - |s|..] == s
    ensures forall i :: 0 <= i < |r| - |s| ==> r[i] == fill
  {
    if |s| >= width then s else seq(width - |s|, _ => fill) + s
  }

  /** A decimal numeral of `n` needs at most `w` digits when `n < 10^w`. */
  lemma {:induction false} NatToDecimalLength(n: nat, w: nat)
    requires w >= 1 && n < Pow10(w)
    ensures |NatToDecimal(n)| <= w
  {
    if n >= 10 {
      assert w >= 2;
      assert n / 10 < Pow10(w - 1);
      NatToDecimalLength(n / 10, w - 1);
    }
  }

  function Pow10(w: nat): (p: nat)
    ensures p >= 1
  {
    if w == 0 then 1 else 10 * Pow10(w - 1)
  }

  /** Leading zeros do not change a numeral's value. */
  lemma {:induction false} DecimalValueLeadingZeros(z: string, s: string)
    requires forall i :: 0 <= i < |z| ==> z[i] == '0'
    requires AllDigits(s)
    ensures AllDigits(z + s) && DecimalValue(z + s) == DecimalValue(s)
    decreases |s|
  {
    if |s| == 0 {
      assert z + s == z;
      ZerosValue(z);
    } else {
      var zs := z + s;
      assert zs[..|zs| - 1] == z + s[..|s| - 1];
      DecimalValueLeadingZeros(z, s[..|s| - 1]);
    }
  }

  lemma {:induction false} ZerosValue(z: string)
    requires forall i :: 0 <= i < |z| ==> z[i] == '0'
    ensures AllDigits(z) && DecimalValue(z) == 0
  {
    if |z| > 0 {
      ZerosValue(z[..|z| - 1]);
    }
  }

  /** `String(n).padStart(w, "0")`: exactly `w` digits whose value is `n`, when `n < 10^w`. */
  lemma ZeroPaddedNumeral(n: nat, w: nat)
    requires w >= 1 && n < Pow10(w)
    ensures |PadStart(NatToDecimal(n), w, '0')| == w
    ensures AllDigits(PadStart(NatToDecimal(n), w, '0'))
    ensures DecimalValue(PadStart(NatToDecimal(n), w, '0')) == n
  {
    var s := NatToDecimal(n);
    NatToDecimalLength(n, w);
    var r := PadStart(s, w, '0');
    var z := r[..|r| - |s|];
    assert r == z + s;
    DecimalValueLeadingZeros(z, s);
  }

  /** `part` occurs in `s` starting at index `i`. */
  predicate OccursAt(s: string, part: string, i: int) {
    0 <= i <= |s| - |part| && s[i..i + |part|] == part
  }

  /** `String.prototype.includes` */
  predicate Contains(s: string, part: string) {
    exists i :: 0 <= i <= |s| - |part| && OccursAt(s, part, i)
  }

  /** `String.prototype.replaceAll(from, to)` with one-character patterns. */
  function ReplaceChar(s: string, from: char, to: char): (r: string)
    ensures |r| == |s|
    ensures forall i :: 0 <= i < |s| ==> r[i] == if s[i] == from then to else s[i]
  {
    seq(|s|, i requires 0 <= i < |s| => if s[i] == from then to else s[i])
  }

  /** `parts.join(sep)` for a one-character separator. */
  function Join(parts: seq<string>, sep: char): string
  {
    if |parts| == 0 then []
    else if |parts| == 1 then parts[0]
    else parts[0] + [sep] + Join(parts[1..], sep)
  }

  /** A character other than the separator occurs in a join only if it occurs in a part. */
  lemma {:induction false} JoinAvoids(parts: seq<string>, sep: char, c: char)
    requires c != sep && forall k :: 0 <= k < |parts| ==> c !in parts[k]
    ensures c !in Join(parts, sep)
  {
    if |parts| > 1 {
      JoinAvoids(parts[1..], sep, c);
    }
  }

  /** `s.split(sep)` for a one-character separator: never empty, one more part than separators. */
  function Split(s: string, sep: char): (parts: seq<string>)
    ensures |parts| >= 1
    ensures forall k :: 0 <= k < |parts| ==> sep !in parts[k]
  {
    SplitFrom(s, sep, [])
  }

  /** Splits `s`, the first part beginning with the already scanned `acc`. */
  function SplitFrom(s: string, sep: char, acc: string): (parts: seq<string>)
    requires sep !in acc
    ensures |parts| >= 1
    ensures forall k :: 0 <= k < |parts| ==> sep !in parts[k]
    decreases |s|
  {
    if |s| == 0 then [acc]
    else if s[0] == sep then [acc] + SplitFrom(s[1..], sep, [])
    else SplitFrom(s[1..], sep, acc + [s[0]])
  }

  lemma {:induction false} JoinSplitFrom(s: string, sep: char, acc: string)
    requires sep !in acc
    ensures Join(SplitFrom(s, sep, acc), sep) == acc + s
    decreases |s|
  {
    if |s| == 0 {
    } else if s[0] == sep {
      JoinSplitFrom(s[1..], sep, []);
      assert s == [sep] + s[1..];
    } else {
      JoinSplitFrom(s[1..], sep, acc + [s[0]]);
      assert acc + [s[0]] + s[1..] == acc + s;
    }
  }

  /** Joining the parts of a split gives back the string. */
  lemma JoinSplit(s: string, sep: char)
    ensures Join(Split(s, sep), sep) == s
  {
    JoinSplitFrom(s, sep, []);
  }

  lemma {:induction false} SplitFromJoin(parts: seq<string>, sep: char, acc: string)
    requires |parts| >= 1
    requires sep !in acc
    requires forall k :: 0 <= k < |parts| ==> sep !in parts[k]
    ensures SplitFrom(Join(parts, sep), sep, acc) == [acc + parts[0]] + parts[1..]
    decreases |parts|, |parts[0]|
  {
    if |parts[0]| > 0 {
      var p0 := parts[0];
      var tail := [p0[1..]] + parts[1..];
      JoinFirstChar(parts, sep);
      SplitFromJoin(tail, sep, acc + [p0[0]]);
      assert acc + [p0[0]] + p0[1..] == acc + p0;
      assert tail[1..] == parts[1..];
    } else if |parts| == 1 {
      assert Join(parts, sep) == [];
      assert acc + parts[0] == acc && parts[1..] == [];
    } else {
      assert Join(parts, sep) == [sep] + Join(parts[1..], sep);
      assert (Join(parts, sep))[1..] == Join(parts[1..], sep);
      SplitFromJoin(parts[1..], sep, []);
      assert [] + parts[1] == parts[1];
      assert [parts[1]] + parts[2..] == parts[1..];
      assert acc + parts[0] == acc;
    }
  }

  /** A join whose first part is not empty begins with that part's first character, followed
      by the join with that character removed. */
  lemma JoinFirstChar(parts: seq<string>, sep: char)
    requires |parts| >= 1 && |parts[0]| > 0
    ensures var tail := [parts[0][1..]] + parts[1..];
      |Join(parts, sep)| > 0 && Join(parts, sep)[0] == parts[0][0] && Join(parts, sep)[1..] == Join(tail, sep)
  {
    var p0 := parts[0];
    var tail := [p0[1..]] + parts[1..];
    if |parts| == 1 {
      assert p0 == [p0[0]] + p0[1..];
    } else {
      assert tail[1..] == parts[1..];
      assert Join(tail, sep) == p0[1..] + [sep] + Join(parts[1..], sep);
      assert p0 == [p0[0]] + p0[1..];
    }
    assert Join(parts, sep) == [p0[0]] + Join(tail, sep);
  }

  /** Splitting a join of separator-free parts gives back the parts (the TSV round trip). */
  lemma SplitJoin(parts: seq<string>, sep: char)
    requires |parts| >= 1
    requires forall k :: 0 <= k < |parts| ==> sep !in parts[k]
    ensures Split(Join(parts, sep), sep) == parts
  {
    SplitFromJoin(parts, sep, []);
    assert [] + parts[0] == parts[0];
    assert [parts[0]] + parts[1..] == parts;
  }
}
