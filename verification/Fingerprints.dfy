/** The dataset a plan binds: source files checked byte for byte, canonicalized one by one and
    concatenated, with the rows counted as they go. */
module Fingerprints {
  import opened Wrappers
  import opened Json
  import opened CanonicalJsonl

  datatype FileDigest = FileDigest(path: string, bytes: nat, sha: string)

  datatype Dataset = Dataset(sourceFiles: seq<FileDigest>, normalizedSha: string, rows: nat)

  datatype DatasetError =
    | MissingFile(path: string)
    | ByteCountMismatch(path: string)
    | FileShaMismatch(path: string)
    | NotCanonicalizable(path: string)
    | NormalizedShaMismatch
    | RowCountMismatch

  const HASH_CHUNK_BYTES := 8 * 1024 * 1024

  /** The files below the dataset root, the number texts, and SHA-256. */
  datatype Source = Source(files: map<string, string>, fl: Floats, sha: string -> string)

  /** `_stream_file`: size, digest and, if they are retained, the contents, chunk by chunk. A hash
      object is the text it was fed. */
  method StreamFile(sha: string -> string, contents: string, retain: bool)
    returns (size: nat, digest: string, retained: string)
    ensures size == |contents| && digest == sha(contents)
    ensures retained == if retain then contents else []
  {
    var hashed: string := [];
    size, retained := 0, [];
    while size < |contents|
      invariant size <= |contents| && hashed == contents[..size]
      invariant retained == if retain then contents[..size] else []
    {
      var end := if size + HASH_CHUNK_BYTES < |contents| then size + HASH_CHUNK_BYTES else |contents|;
      var chunk := contents[size..end];
      size := size + |chunk|;
      hashed := hashed + chunk;
      if retain {
        retained := retained + chunk;
      }
    }
    assert contents[..|contents|] == contents;
    digest := sha(hashed);
  }

  /** `_verify_file`. */
  function VerifyFile(source: Source, expected: FileDigest): Result<string, DatasetError> {
    if expected.path !in source.files then Err(MissingFile(expected.path))
    else if |source.files[expected.path]| != expected.bytes then Err(ByteCountMismatch(expected.path))
    else if source.sha(source.files[expected.path]) != expected.sha then Err(FileShaMismatch(expected.path))
    else Ok(source.files[expected.path])
  }

  /** The parts joined and the rows counted so far. */
  datatype Normalized = Normalized(bytes: string, rows: nat)

  function NormalizeFile(source: Source, expected: FileDigest): Result<Normalized, DatasetError> {
    var contents :- VerifyFile(source, expected);
    match Canonicalize(source.fl, contents)
    case Err(_) => Err(NotCanonicalizable(expected.path))
    case Ok(normalized) => Ok(Normalized(normalized, |SplitLines(ByteBreak, normalized)|))
  }

  function Plus(a: Normalized, b: Normalized): Normalized { Normalized(a.bytes + b.bytes, a.rows + b.rows) }

  function NormalizeFiles(source: Source, files: seq<FileDigest>): Result<Normalized, DatasetError> {
    if files == [] then Ok(Normalized([], 0))
    else
      var before :- NormalizeFiles(source, files[..|files| - 1]);
      var last :- NormalizeFile(source, files[|files| - 1]);
      Ok(Plus(before, last))
  }

  /** `verified_dataset_bytes`. */
  function VerifiedDatasetBytes(source: Source, dataset: Dataset): Result<string, DatasetError> {
    var all :- NormalizeFiles(source, dataset.sourceFiles);
    if source.sha(all.bytes) != dataset.normalizedSha then Err(NormalizedShaMismatch)
    else if all.rows != dataset.rows then Err(RowCountMismatch)
    else Ok(all.bytes)
  }

  lemma {:induction false} FileErrorStays(source: Source, files: seq<FileDigest>, i: nat)
    requires i <= |files| && NormalizeFiles(source, files[..i]).Err?
    ensures NormalizeFiles(source, files) == NormalizeFiles(source, files[..i])
  {
    hide NormalizeFile;
    if i == |files| {
      assert files[..i] == files;
    } else {
      var init := files[..|files| - 1];
      assert init[..i] == files[..i];
      FileErrorStays(source, init, i);
    }
  }

  /** One file of the loop. */
  lemma FileStep(source: Source, files: seq<FileDigest>, i: nat, so: Normalized)
    requires i < |files| && NormalizeFiles(source, files[..i]) == Ok(so)
    ensures var next := NormalizeFile(source, files[i]);
            && (next.Ok? ==> NormalizeFiles(source, files[..i + 1]) == Ok(Plus(so, next.value)))
            && (next.Err? ==> NormalizeFiles(source, files) == Err(next.error))
  {
    hide NormalizeFile;
    assert files[..i + 1][..i] == files[..i];
    if NormalizeFile(source, files[i]).Err? {
      FileErrorStays(source, files, i + 1);
    }
  }

  /** The loop of `verified_dataset_bytes`. */
  method VerifyDataset(source: Source, dataset: Dataset) returns (r: Result<string, DatasetError>)
    ensures r == VerifiedDatasetBytes(source, dataset)
  {
    hide Canonicalize, NormalizeFiles, SplitLines;
    var normalizedBytes: string, rowCount: nat := [], 0;
    var files := dataset.sourceFiles;
    NoFiles(source, files);
    for i := 0 to |files|
      invariant NormalizeFiles(source, files[..i]) == Ok(Normalized(normalizedBytes, rowCount))
    {
      FileStep(source, files, i, Normalized(normalizedBytes, rowCount));
      var contents := VerifyFile(source, files[i]);
      if contents.Err? {
        return Err(contents.error);
      }
      var normalized := CanonicalizeJsonl(source.fl, contents.value);
      if normalized.Err? {
        return Err(NotCanonicalizable(files[i].path));
      }
      normalizedBytes := normalizedBytes + normalized.value;
      rowCount := rowCount + |SplitLines(ByteBreak, normalized.value)|;
    }
    assert files[..|files|] == files;
    if source.sha(normalizedBytes) != dataset.normalizedSha {
      return Err(NormalizedShaMismatch);
    }
    if rowCount != dataset.rows {
      return Err(RowCountMismatch);
    }
    return Ok(normalizedBytes);
  }

  lemma NoFiles(source: Source, files: seq<FileDigest>)
    ensures NormalizeFiles(source, files[..0]) == Ok(Normalized([], 0))
  {}

  // ----- what the bound bytes hold -----

  /** Every file is there, byte for byte, and holds rows. */
  ghost predicate Readable(source: Source, expected: FileDigest) {
    VerifyFile(source, expected).Ok? && Rows(source.fl, VerifyFile(source, expected).value).Ok?
  }

  ghost predicate AllReadable(source: Source, files: seq<FileDigest>) {
    forall i :: 0 <= i < |files| ==> Readable(source, files[i])
  }

  /** The logical rows of all files, in file order. */
  ghost function LogicalRows(source: Source, files: seq<FileDigest>): seq<Value>
    requires AllReadable(source, files)
  {
    if files == [] then []
    else
      var last := files[|files| - 1];
      assert Readable(source, last);
      LogicalRows(source, files[..|files| - 1]) + Rows(source.fl, VerifyFile(source, last).value).value
  }

  lemma FileHoldsItsRows(source: Source, expected: FileDigest)
    requires source.fl.Lawful()
    ensures NormalizeFile(source, expected).Ok? <==> Readable(source, expected)
    ensures NormalizeFile(source, expected).Ok? ==>
              var rows := Rows(source.fl, VerifyFile(source, expected).value).value;
              ValidRows(source.fl, rows) && NormalizeFile(source, expected).value == Normalized(Frame(rows), |rows|)
  {
    hide SplitLines, Frame, Rows;
    if Readable(source, expected) {
      var contents := VerifyFile(source, expected).value;
      var rows := Rows(source.fl, contents).value;
      RowsValid(source.fl, contents);
      SplitWholeFrame(source.fl, ByteBreak, rows);
      PrintAllAt(rows);
    }
  }

  lemma ReadableSnoc(source: Source, files: seq<FileDigest>)
    requires files != []
    ensures AllReadable(source, files)
       <==> AllReadable(source, files[..|files| - 1]) && Readable(source, files[|files| - 1])
  {
    hide Readable;
    var init := files[..|files| - 1];
    if AllReadable(source, init) && Readable(source, files[|files| - 1]) {
      forall i | 0 <= i < |files| ensures Readable(source, files[i]) {
        assert i < |init| ==> files[i] == init[i];
      }
    }
    if AllReadable(source, files) {
      forall i | 0 <= i < |init| ensures Readable(source, init[i]) {
        assert init[i] == files[i];
      }
    }
  }

  lemma ValidAppend(fl: Floats, a: seq<Value>, b: seq<Value>)
    requires ValidRows(fl, a) && ValidRows(fl, b)
    ensures ValidRows(fl, a + b)
  {}

  lemma FrameNothing()
    ensures Frame([]) == []
  {}

  lemma {:induction false} FilesHoldTheirRows(source: Source, files: seq<FileDigest>)
    requires source.fl.Lawful()
    ensures NormalizeFiles(source, files).Ok? <==> AllReadable(source, files)
    ensures AllReadable(source, files) ==>
              var rows := LogicalRows(source, files);
              ValidRows(source.fl, rows) && NormalizeFiles(source, files).value == Normalized(Frame(rows), |rows|)
  {
    hide NormalizeFile, Frame, Rows, VerifyFile;
    if files != [] {
      var init, last := files[..|files| - 1], files[|files| - 1];
      FilesHoldTheirRows(source, init);
      FileHoldsItsRows(source, last);
      ReadableSnoc(source, files);
      if AllReadable(source, files) {
        var rows := Rows(source.fl, VerifyFile(source, last).value).value;
        FrameAppend(LogicalRows(source, init), rows);
        ValidAppend(source.fl, LogicalRows(source, init), rows);
      }
    } else {
      FrameNothing();
    }
  }

  /** The dataset verifies exactly when every file matches its digest and holds rows, the digest of
      the framed logical rows matches, and their number is the planned one; the byte lines of the
      result are then exactly the printed rows in file order, and each reads back as its row. */
  lemma DatasetVerifiesIff(source: Source, dataset: Dataset)
    requires source.fl.Lawful()
    ensures VerifiedDatasetBytes(source, dataset).Ok? <==>
              && AllReadable(source, dataset.sourceFiles)
              && var rows := LogicalRows(source, dataset.sourceFiles);
                 source.sha(Frame(rows)) == dataset.normalizedSha && |rows| == dataset.rows
    ensures VerifiedDatasetBytes(source, dataset).Ok? ==>
              var bytes, rows := VerifiedDatasetBytes(source, dataset).value, LogicalRows(source, dataset.sourceFiles);
              && bytes == Frame(rows) && ValidRows(source.fl, rows)
              && SplitLines(ByteBreak, bytes) == PrintAll(rows)
              && Sequence(RowResults(source.fl, SplitLines(ByteBreak, bytes))) == Ok(rows)
  {
    hide NormalizeFiles, Frame, SplitLines, RowResults;
    FilesHoldTheirRows(source, dataset.sourceFiles);
    if VerifiedDatasetBytes(source, dataset).Ok? {
      var rows := LogicalRows(source, dataset.sourceFiles);
      SplitWholeFrame(source.fl, ByteBreak, rows);
      RowsOfPrintAll(source.fl, rows);
    }
  }
}
