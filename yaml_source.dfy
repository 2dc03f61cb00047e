/** Reading one YAML data file: the YAML parser either fails with a message or yields a
    document, and the document is then checked against a schema. A failure of either step
    becomes an error that names the file. */
module YamlSource {
  import opened Wrappers
  import opened JsonValue

  /** What the YAML parser made of a file's text: a syntax error, or a document. */
  datatype ParsedYaml = YamlSyntaxError(message: string) | Parsed(doc: Json)

  /** What reading a file came to: the parser's error, a document the schema refuses, or the
      schema's output. */
  datatype ReadOutcome<T> = SyntaxError(message: string) | SchemaMismatch | Decoded(data: T)

  /** A file of the data directory, already read. */
  datatype SourceFile<T> = SourceFile(filePath: string, outcome: ReadOutcome<T>)

  /** The errors the dataset builds throw. */
  datatype DatasetError =
    | YamlError(filePath: string, message: string)
    | InvalidSchema(filePath: string)
    | DuplicateSpotId(id: string, filePath: string, existing: string)

  /** Checking a parsed document against a schema, given as its decoder. */
  function ReadYaml<T>(parsed: ParsedYaml, decode: Json -> Option<T>): (r: ReadOutcome<T>)
    ensures parsed.YamlSyntaxError? <==> r.SyntaxError?
    ensures r.SyntaxError? ==> r.message == parsed.message
    ensures r.SchemaMismatch? <==> parsed.Parsed? && decode(parsed.doc).None?
    ensures r.Decoded? ==> parsed.Parsed? && decode(parsed.doc) == Some(r.data)
  {
    match parsed
    case YamlSyntaxError(message) => SyntaxError(message)
    case Parsed(doc) =>
      match decode(doc)
      case None => SchemaMismatch
      case Some(data) => Decoded(data)
  }

  /** The thrown message. The zod issue list that follows "Invalid YAML schema in <file>: " is
      not modelled; a YAML syntax error carries the parser's own message. */
  function ErrorMessage(e: DatasetError): (m: string)
    ensures e.YamlError? ==> m == e.message
    ensures e.InvalidSchema? ==> m == "Invalid YAML schema in " + e.filePath + ": "
    ensures e.DuplicateSpotId? ==>
      m == "Duplicate spot id \"" + e.id + "\" found in " + e.filePath + " (already defined in " + e.existing + ")"
  {
    match e
    case YamlError(_, message) => message
    case InvalidSchema(filePath) => "Invalid YAML schema in " + filePath + ": "
    case DuplicateSpotId(id, filePath, existing) =>
      "Duplicate spot id \"" + id + "\" found in " + filePath + " (already defined in " + existing + ")"
  }

  /** The file's data, or the error that reading it throws. */
  function FileData<T>(f: SourceFile<T>): (r: Result<T, DatasetError>)
    ensures r.Ok? <==> f.outcome.Decoded?
    ensures r.Ok? ==> r.value == f.outcome.data
    ensures f.outcome.SyntaxError? ==> r == Err(YamlError(f.filePath, f.outcome.message))
    ensures f.outcome.SchemaMismatch? ==> r == Err(InvalidSchema(f.filePath))
  {
    match f.outcome
    case SyntaxError(message) => Err(YamlError(f.filePath, message))
    case SchemaMismatch => Err(InvalidSchema(f.filePath))
    case Decoded(data) => Ok(data)
  }

  predicate AllRead<T>(files: seq<SourceFile<T>>) {
    forall i :: 0 <= i < |files| ==> files[i].outcome.Decoded?
  }

  predicate NonEmptyPaths<T>(files: seq<SourceFile<T>>) {
    forall i :: 0 <= i < |files| ==> |files[i].filePath| > 0
  }

  /** The data of every file, in file order. */
  function AllData<T>(files: seq<SourceFile<T>>): (r: seq<T>)
    requires AllRead(files)
    ensures |r| == |files|
    ensures forall i :: 0 <= i < |files| ==> r[i] == files[i].outcome.data
  {
    seq(|files|, i requires 0 <= i < |files| => files[i].outcome.data)
  }

  /** File `i` is the first that cannot be read, and `e` is its error. */
  predicate FirstUnreadable<T>(files: seq<SourceFile<T>>, i: int, e: DatasetError) {
    0 <= i < |files| && AllRead(files[..i]) && FileData(files[i]) == Err(e)
  }

  /** The data of a prefix is the prefix of the data. */
  lemma AllDataPrefix<T>(files: seq<SourceFile<T>>, n: int)
    requires AllRead(files) && 0 <= n <= |files|
    ensures AllRead(files[..n]) && AllData(files[..n]) == AllData(files)[..n]
  {
  }
}
