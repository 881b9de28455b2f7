/** `DataProcessor.upload_data_from_folder` and its three file helpers.
    Every `.txt` file below the data directory becomes a record
    (directory, name, hash, language, content). The records are then walked
    in order against the `files_metadata` table. A record whose hash the
    table already holds is logged and skipped. The first other record gets a
    metadata row, then its chunks are appended to the vector store one by
    one, each followed by a log line, and the method returns the whole
    record list from inside the loop.

    The log lines go through the logger's `info`, a parameter here. The
    service constructs the processor with a `FileLogger`, which has no
    `info`: under that wiring every log line raises AttributeError, and the
    lemmas named `Deployed...` state what the loop then does.

    SHA-256, `langdetect.detect`, the text splitter, `os.path.relpath` and
    `glob` are parameters. The table is a map from its primary key
    `file_path` to rows; the vector store is an append-only sequence. */
module DataProcessor {
  import opened Exceptions
  import opened Strings
  import opened PosixPath
  import opened LangDetect
  import ConfigurationManager

  type byte = b: int | 0 <= b < 256

  /* ---------------- `_calculate_file_hash` ---------------- */

  /** The size of the blocks the hashing loop reads. */
  const BlockSize := 4096

  /** `f.read(size)` at offset `pos`: at most `size` bytes, fewer only at
      the end of the file, none once the end is reached. */
  function Read(file: seq<byte>, pos: nat, size: nat): (r: seq<byte>)
    requires pos <= |file|
    ensures |r| <= size && pos + |r| <= |file| && file[pos..pos + |r|] == r
    ensures |r| < size ==> pos + |r| == |file|
  {
    if |file| - pos <= size then file[pos..] else file[pos..pos + size]
  }

  /** The state of a `hashlib.sha256()` object: the bytes fed so far. The
      digest of successive updates is the digest of their concatenation,
      which is how the library documents `update`. */
  datatype Sha256 = Sha256(fed: seq<byte>)
  {
    function Update(block: seq<byte>): Sha256
    {
      Sha256(fed + block)
    }

    function HexDigest(sha256: seq<byte> -> string): string
    {
      sha256(fed)
    }
  }

  function Flatten(blocks: seq<seq<byte>>): seq<byte>
  {
    if |blocks| == 0 then [] else blocks[0] + Flatten(blocks[1..])
  }

  lemma {:induction false} FlattenAppend(blocks: seq<seq<byte>>, b: seq<byte>)
    ensures Flatten(blocks + [b]) == Flatten(blocks) + b
    decreases |blocks|
  {
    if |blocks| == 0 {
      assert blocks + [b] == [b];
      assert Flatten([b]) == b + Flatten([]);
    } else {
      assert (blocks + [b])[1..] == blocks[1..] + [b];
      FlattenAppend(blocks[1..], b);
    }
  }

  /** The blocks a file is cut into: full blocks of BlockSize bytes and a
      shorter, non-empty last one. */
  function Blocks(file: seq<byte>): seq<seq<byte>>
    decreases |file|
  {
    if |file| == 0 then []
    else if |file| <= BlockSize then [file]
    else [file[..BlockSize]] + Blocks(file[BlockSize..])
  }

  /** The blocks cover the file exactly, each holds 1 to BlockSize bytes,
      every block but the last is full, and there are ceil(|file| / BlockSize)
      of them. */
  lemma {:induction false} BlocksPartitionFile(file: seq<byte>)
    ensures Flatten(Blocks(file)) == file
    ensures forall i :: 0 <= i < |Blocks(file)| ==> 0 < |Blocks(file)[i]| <= BlockSize
    ensures forall i :: 0 <= i < |Blocks(file)| - 1 ==> |Blocks(file)[i]| == BlockSize
    ensures |Blocks(file)| == (|file| + BlockSize - 1) / BlockSize
    decreases |file|
  {
    if |file| == 0 {
    } else if |file| <= BlockSize {
      assert Flatten([file]) == file + Flatten([]);
    } else {
      var rest := file[BlockSize..];
      BlocksPartitionFile(rest);
      var bs := Blocks(file);
      assert bs[1..] == Blocks(rest);
      assert file == file[..BlockSize] + rest;
    }
  }

  /** A read at `pos` before the end returns the first block of the rest of the file. */
  lemma ReadIsNextBlock(file: seq<byte>, pos: nat)
    requires pos < |file|
    ensures var block := Read(file, pos, BlockSize);
      block != [] && Blocks(file[pos..]) == [block] + Blocks(file[pos + |block|..])
  {
    var block := Read(file, pos, BlockSize);
    var rest := file[pos..];
    if |rest| <= BlockSize {
      assert block == rest;
      assert file[pos + |block|..] == [];
    } else {
      assert block == rest[..BlockSize];
      assert rest[BlockSize..] == file[pos + |block|..];
    }
  }

  /** One turn of the read loop: a non-empty read extends both the bytes
      read so far and the blocks read so far by the next block of the file. */
  lemma ReadStep(file: seq<byte>, pos: nat, blocks: seq<seq<byte>>)
    requires pos < |file|
    requires Flatten(blocks) == file[..pos]
    requires blocks + Blocks(file[pos..]) == Blocks(file)
    ensures var block := Read(file, pos, BlockSize);
      && block != []
      && Flatten(blocks + [block]) == file[..pos + |block|]
      && (blocks + [block]) + Blocks(file[pos + |block|..]) == Blocks(file)
  {
    var block := Read(file, pos, BlockSize);
    ReadIsNextBlock(file, pos);
    FlattenAppend(blocks, block);
    assert file[..pos] + block == file[..pos + |block|];
    assert (blocks + [block]) + Blocks(file[pos + |block|..]) == blocks + ([block] + Blocks(file[pos + |block|..]));
  }

  /** `_calculate_file_hash`: feed the hasher the file block by block until
      a read returns nothing, then take the hex digest. The blocks read are
      returned alongside the digest so that the contract can speak of them. */
  method CalculateFileHash(file: seq<byte>, sha256: seq<byte> -> string) returns (digest: string, blocks: seq<seq<byte>>)
    ensures blocks == Blocks(file)
    ensures Flatten(blocks) == file
    ensures digest == sha256(file)
  {
    var hasher := Sha256([]);
    var pos := 0;
    blocks := [];
    while true
      invariant pos <= |file|
      invariant hasher.fed == file[..pos]
      invariant Flatten(blocks) == file[..pos]
      invariant blocks + Blocks(file[pos..]) == Blocks(file)
      decreases |file| - pos
    {
      var block := Read(file, pos, BlockSize);
      if block == [] {
        break;
      }
      ReadStep(file, pos, blocks);
      hasher := hasher.Update(block);
      blocks := blocks + [block];
      pos := pos + |block|;
    }
    assert file[..pos] == file;
    digest := hasher.HexDigest(sha256);
  }

  /* ---------------- `_detect_language` and `_read_file_content` ---------------- */

  /** A file the glob listed: its path, its bytes, and what opening it as
      UTF-8 in text mode and reading it yields: the text, or the exception
      (a UnicodeDecodeError for bytes that do not decode). */
  datatype SourceFile = SourceFile(path: string, bytes: seq<byte>, text: Result<string>)

  /** The language recorded when the detector raises. */
  const UnknownLanguage := "unknown"

  /** `_detect_language`: decode the file (a decoding error escapes, as it is
      raised before the `try`), then the detector's answer or "unknown" if the
      detector raises anything. */
  function DetectFileLanguage(file: SourceFile, detect: string -> Detection): (r: Result<string>)
    ensures r.Raise? <==> file.text.Raise?
    ensures r.Raise? ==> r.exception == file.text.exception
    ensures r.Ok? && detect(file.text.value).Detected? ==> r.value == detect(file.text.value).language
    ensures r.Ok? && detect(file.text.value).DetectFailed? ==> r.value == UnknownLanguage
  {
    match file.text
    case Raise(e) => Raise(e)
    case Ok(content) =>
      match detect(content)
      case Detected(language) => Ok(language)
      case DetectFailed(_) => Ok(UnknownLanguage)
  }

  /** `_read_file_content`: the decoded text, or the decoding error. */
  function ReadFileContent(file: SourceFile): (r: Result<string>)
    ensures r.Ok? <==> file.text.Ok?
    ensures r.Ok? ==> r.value == file.text.value
    ensures r.Raise? ==> r.exception == file.text.exception
  {
    match file.text
    case Raise(e) => Raise(e)
    case Ok(content) => Ok(content)
  }

  /** Whatever the detector does, a decodable file gets a language and the
      only language that is not the detector's own answer is "unknown". */
  lemma LanguageFallback(file: SourceFile, detect: string -> Detection)
    requires file.text.Ok?
    ensures DetectFileLanguage(file, detect).Ok?
    ensures DetectFileLanguage(file, detect).value != UnknownLanguage ==>
      detect(file.text.value) == Detected(DetectFileLanguage(file, detect).value)
  {
  }

  /* ---------------- the record list ---------------- */

  /** One element of `file_list`. `filePath` is the directory of the file
      relative to the data directory, not the path of the file. */
  datatype FileRecord = FileRecord(filePath: string, fileName: string, fileHash: string, language: string, content: string)

  /** The record of one file, fields evaluated left to right as the tuple
      display does. */
  function RecordOf(file: SourceFile, directory: string, relpath: (string, string) -> string,
                    sha256: seq<byte> -> string, detect: string -> Detection): (r: Result<FileRecord>)
    ensures r.Ok? <==> file.text.Ok?
    ensures r.Raise? ==> r.exception == file.text.exception
  {
    var filePath := relpath(Dirname(file.path), directory);
    var fileName := Basename(file.path);
    var fileHash := sha256(file.bytes);
    var language :- DetectFileLanguage(file, detect);
    Ok(FileRecord(filePath, fileName, fileHash, language, ReadFileContent(file).value))
  }

  /** The index of the first file that cannot be read as text, or the count. */
  function FirstUnreadable(files: seq<SourceFile>): (i: nat)
    ensures i <= |files|
    ensures forall j :: 0 <= j < i ==> files[j].text.Ok?
    ensures i < |files| ==> files[i].text.Raise?
  {
    if |files| == 0 || files[0].text.Raise? then 0 else 1 + FirstUnreadable(files[1..])
  }

  /** The comprehension building `file_list`: the first file that cannot be
      read as text aborts it with its error. */
  function FileList(files: seq<SourceFile>, directory: string, relpath: (string, string) -> string,
                    sha256: seq<byte> -> string, detect: string -> Detection): (r: Result<seq<FileRecord>>)
    ensures r.Ok? <==> forall i :: 0 <= i < |files| ==> files[i].text.Ok?
    ensures r.Raise? ==> FirstUnreadable(files) < |files| && r.exception == files[FirstUnreadable(files)].text.exception
    ensures r.Ok? ==> |r.value| == |files|
    ensures r.Ok? ==> forall i :: 0 <= i < |files| ==> Ok(r.value[i]) == RecordOf(files[i], directory, relpath, sha256, detect)
  {
    var k := FirstUnreadable(files);
    if k < |files| then Raise(files[k].text.exception)
    else Ok(seq(|files|, i requires 0 <= i < |files| => RecordOf(files[i], directory, relpath, sha256, detect).value))
  }

  /** A file `d/n` below the data directory is recorded under the relative
      directory of `d`, with name `n`, the hash of its bytes, its decoded
      content, and the detector's language or "unknown". */
  lemma RecordShape(d: string, n: string, bytes: seq<byte>, content: string, directory: string,
                    relpath: (string, string) -> string, sha256: seq<byte> -> string, detect: string -> Detection)
    requires d != "" && d[|d| - 1] != '/' && '/' !in n
    ensures var r := RecordOf(SourceFile(d + "/" + n, bytes, Ok(content)), directory, relpath, sha256, detect);
      && r.Ok?
      && r.value.filePath == relpath(d, directory)
      && r.value.fileName == n
      && r.value.fileHash == sha256(bytes)
      && r.value.content == content
      && (r.value.language == UnknownLanguage || detect(content) == Detected(r.value.language))
  {
    DirnameBasenameRoundTrip(d, n);
  }

  /** Two files of one directory get the same `filePath`: the column holds
      directories. */
  lemma SameDirectorySamePath(d: string, n1: string, n2: string, b1: seq<byte>, b2: seq<byte>,
                              c1: string, c2: string, directory: string,
                              relpath: (string, string) -> string, sha256: seq<byte> -> string, detect: string -> Detection)
    requires d != "" && d[|d| - 1] != '/' && '/' !in n1 && '/' !in n2
    ensures RecordOf(SourceFile(d + "/" + n1, b1, Ok(c1)), directory, relpath, sha256, detect).value.filePath ==
            RecordOf(SourceFile(d + "/" + n2, b2, Ok(c2)), directory, relpath, sha256, detect).value.filePath
  {
    DirnameBasenameRoundTrip(d, n1);
    DirnameBasenameRoundTrip(d, n2);
  }

  /** The record list built file by file, hashing each file with the block loop. */
  method BuildFileList(files: seq<SourceFile>, directory: string, relpath: (string, string) -> string,
                       sha256: seq<byte> -> string, detect: string -> Detection) returns (r: Result<seq<FileRecord>>)
    ensures r == FileList(files, directory, relpath, sha256, detect)
  {
    var records: seq<FileRecord> := [];
    var i := 0;
    while i < |files|
      invariant 0 <= i <= |files|
      invariant |records| == i
      invariant forall j :: 0 <= j < i ==> files[j].text.Ok?
      invariant forall j :: 0 <= j < i ==> Ok(records[j]) == RecordOf(files[j], directory, relpath, sha256, detect)
    {
      var file := files[i];
      var fileHash, _ := CalculateFileHash(file.bytes, sha256);
      var language := DetectFileLanguage(file, detect);
      if language.Raise? {
        assert FirstUnreadable(files) == i;
        return Raise(language.exception);
      }
      var content := ReadFileContent(file);
      var record := FileRecord(relpath(Dirname(file.path), directory), Basename(file.path), fileHash, language.value, content.value);
      assert Ok(record) == RecordOf(file, directory, relpath, sha256, detect);
      AppendRecord(files, records, record, directory, relpath, sha256, detect);
      records := records + [record];
      i := i + 1;
    }
    FileListOfRecords(files, records, directory, relpath, sha256, detect);
    return Ok(records);
  }

  lemma AppendRecord(files: seq<SourceFile>, records: seq<FileRecord>, record: FileRecord, directory: string,
                     relpath: (string, string) -> string, sha256: seq<byte> -> string, detect: string -> Detection)
    requires |records| < |files|
    requires forall j :: 0 <= j < |records| ==> Ok(records[j]) == RecordOf(files[j], directory, relpath, sha256, detect)
    requires Ok(record) == RecordOf(files[|records|], directory, relpath, sha256, detect)
    ensures forall j :: 0 <= j < |records| + 1 ==> Ok((records + [record])[j]) == RecordOf(files[j], directory, relpath, sha256, detect)
  {
  }

  /** A list of records that matches the files one by one is the list the
      comprehension builds. */
  lemma FileListOfRecords(files: seq<SourceFile>, records: seq<FileRecord>, directory: string,
                          relpath: (string, string) -> string, sha256: seq<byte> -> string, detect: string -> Detection)
    requires |records| == |files|
    requires forall j :: 0 <= j < |files| ==> Ok(records[j]) == RecordOf(files[j], directory, relpath, sha256, detect)
    ensures FileList(files, directory, relpath, sha256, detect) == Ok(records)
  {
    var r := FileList(files, directory, relpath, sha256, detect);
    assert forall j :: 0 <= j < |files| ==> files[j].text.Ok?;
    assert r.Ok?;
    assert r.value == records by {
      forall j | 0 <= j < |files|
        ensures r.value[j] == records[j]
      {
        assert Ok(r.value[j]) == Ok(records[j]);
      }
    }
  }

  /* ---------------- the metadata table and the vector store ---------------- */

  /** A row of `files_metadata`. */
  datatype MetadataRow = MetadataRow(filePath: string, fileName: string, fileHash: string, language: string)

  /** The rows of `files_metadata` by their primary key `file_path`. */
  type Table = map<string, MetadataRow>

  /** A text in the vector store with its metadata. */
  datatype StoredText = StoredText(text: string, metadata: map<string, string>)

  /** What the database holds: the metadata table and the vector store. */
  datatype Store = Store(table: Table, texts: seq<StoredText>)

  function RowOf(rec: FileRecord): MetadataRow
  {
    MetadataRow(rec.filePath, rec.fileName, rec.fileHash, rec.language)
  }

  /** The select on `file_hash` finds a row. */
  predicate HashKnown(table: Table, fileHash: string)
  {
    exists path | path in table :: table[path].fileHash == fileHash
  }

  /** How `add_texts([chunk])` behaves during a call: every call succeeds, or
      the call for chunk number `chunkIndex` raises `exception`. */
  datatype StoreFault = NoFault | FailsAt(chunkIndex: nat, exception: Exception)

  /** `add_texts([chunk])` for each chunk in order: no metadata is passed. */
  function Stored(chunks: seq<string>): (r: seq<StoredText>)
    ensures |r| == |chunks|
    ensures forall i :: 0 <= i < |chunks| ==> r[i] == StoredText(chunks[i], map[])
  {
    seq(|chunks|, i requires 0 <= i < |chunks| => StoredText(chunks[i], map[]))
  }

  lemma StoredPrefix(chunks: seq<string>, n: nat)
    requires n <= |chunks|
    ensures Stored(chunks)[..n] == Stored(chunks[..n])
  {
  }

  /* ---------------- the logger ---------------- */

  /** `self._logger.info(message)`: `None` when the call returns, or the
      exception it raises. The data processor receives its logger when it is
      constructed, so the loop takes the logger's `info` as a parameter. */
  type Info = string -> Option<Exception>

  /** The message logged for a skipped record. */
  function SkipMessage(fileName: string): string
  {
    "File " + fileName + " already processed. Skipping."
  }

  /** The message logged after each stored chunk. */
  function ChunkMessage(fileName: string): string
  {
    "Added chunk for file " + fileName + "."
  }

  /** The logger the data-processor service constructs the processor with is
      a `FileLogger`, which defines no `info` method. */
  const NoInfoAttribute := AttributeError("'FileLogger' object has no attribute 'info'")

  /** `info` on that logger: the attribute lookup fails whatever the message. */
  function FileLoggerInfo(message: string): Option<Exception>
  {
    Some(NoInfoAttribute)
  }

  /** Logging `messages` in order: the exception of the first message `info`
      refuses, or `None` when it takes them all. */
  function FirstRefusal(messages: seq<string>, info: Info): (r: Option<Exception>)
    ensures r.None? <==> forall j :: 0 <= j < |messages| ==> info(messages[j]).None?
    ensures r.Some? ==> exists j :: 0 <= j < |messages| && info(messages[j]) == r &&
                                   forall i :: 0 <= i < j ==> info(messages[i]).None?
  {
    if |messages| == 0 then None
    else if info(messages[0]).Some? then info(messages[0])
    else
      var r := FirstRefusal(messages[1..], info);
      assert r.Some? ==> exists j :: 1 <= j < |messages| && info(messages[j]) == r &&
                                     forall i :: 0 <= i < j ==> info(messages[i]).None? by {
        if r.Some? {
          var j :| 0 <= j < |messages[1..]| && info(messages[1..][j]) == r &&
                   forall i :: 0 <= i < j ==> info(messages[1..][i]).None?;
          assert forall i :: 1 <= i < j + 1 ==> info(messages[i]) == info(messages[1..][i - 1]);
        }
      }
      r
  }

  /** The first message `info` refuses decides what logging them all raises. */
  lemma {:induction false} FirstRefusalAt(messages: seq<string>, info: Info, j: nat)
    requires j < |messages| && info(messages[j]).Some?
    requires forall i :: 0 <= i < j ==> info(messages[i]).None?
    ensures FirstRefusal(messages, info) == info(messages[j])
    decreases j
  {
    if j > 0 {
      assert messages[1..][j - 1] == messages[j];
      FirstRefusalAt(messages[1..], info, j - 1);
    }
  }

  /** The messages of the records `fileList[..k]`, all of them skipped. */
  function SkipMessages(fileList: seq<FileRecord>, k: nat): (r: seq<string>)
    requires k <= |fileList|
    ensures |r| == k
    ensures forall j :: 0 <= j < k ==> r[j] == SkipMessage(fileList[j].fileName)
  {
    seq(k, j requires 0 <= j < k => SkipMessage(fileList[j].fileName))
  }

  /* ---------------- the ingestion loop ---------------- */

  /** What `upload_data_from_folder` returns when it returns normally: the
      record list from inside the loop, or `None` after it. */
  datatype UploadOutcome = Returned(fileList: seq<FileRecord>) | FellThrough

  /** The outcome of a call together with the database it leaves behind,
      which an exception does not undo. */
  datatype Run = Run(outcome: Result<UploadOutcome>, store: Store)

  /** The index of the first record whose hash the table does not hold, or
      the count when every hash is known. */
  function FirstNew(fileList: seq<FileRecord>, table: Table): (k: nat)
    ensures k <= |fileList|
    ensures forall j :: 0 <= j < k ==> HashKnown(table, fileList[j].fileHash)
    ensures k < |fileList| ==> !HashKnown(table, fileList[k].fileHash)
  {
    if |fileList| == 0 then 0
    else if !HashKnown(table, fileList[0].fileHash) then 0
    else 1 + FirstNew(fileList[1..], table)
  }

  /** Stands for the `sqlalchemy.exc.IntegrityError` the driver raises for a
      second row with the same `file_path`; only its kind matters here, and
      the driver's message text is not modelled. */
  const PrimaryKeyClash := IntegrityError("duplicate key value violates unique constraint on file_path")

  /** Ingesting one new record: insert its row (a primary-key clash raises
      IntegrityError and changes nothing), then for each chunk in split order
      store it and log it. The first failing `add_texts` or `info` ends the
      call; since every chunk of a record logs the same message, a logger
      that refuses it stops the call right after the first chunk. Otherwise
      the whole list is returned. */
  function IngestNew(fileList: seq<FileRecord>, rec: FileRecord, store: Store,
                     split: string -> seq<string>, fault: StoreFault, info: Info): (r: Run)
    ensures rec.filePath in store.table ==> r == Run(Raise(PrimaryKeyClash), store)
    ensures rec.filePath !in store.table ==> r.store.table == store.table[rec.filePath := RowOf(rec)]
    ensures r.outcome != Ok(FellThrough)
    ensures r.outcome.Ok? ==> r.outcome == Ok(Returned(fileList))
    ensures |store.texts| <= |r.store.texts| && r.store.texts[..|store.texts|] == store.texts
    ensures forall i :: |store.texts| <= i < |r.store.texts| ==> r.store.texts[i].metadata == map[]
  {
    if rec.filePath in store.table then Run(Raise(PrimaryKeyClash), store)
    else
      var table := store.table[rec.filePath := RowOf(rec)];
      var chunks := split(rec.content);
      var logged := info(ChunkMessage(rec.fileName));
      if fault.FailsAt? && fault.chunkIndex < |chunks| && (fault.chunkIndex == 0 || logged.None?) then
        Run(Raise(fault.exception), Store(table, store.texts + Stored(chunks[..fault.chunkIndex])))
      else if |chunks| > 0 && logged.Some? then
        Run(Raise(logged.value), Store(table, store.texts + Stored(chunks[..1])))
      else
        Run(Ok(Returned(fileList)), Store(table, store.texts + Stored(chunks)))
  }

  /** The loop over `file_list`, stated directly: a skipped record logs its
      skip and changes nothing, so the call is decided by the skips' logging
      and then by the first record with an unknown hash; it falls through
      unchanged when every record is skipped. */
  function Ingest(fileList: seq<FileRecord>, store: Store, split: string -> seq<string>,
                  fault: StoreFault, info: Info): (r: Run)
    ensures r.outcome == Ok(FellThrough) <==>
      forall j :: 0 <= j < |fileList| ==>
        HashKnown(store.table, fileList[j].fileHash) && info(SkipMessage(fileList[j].fileName)).None?
    ensures r.outcome == Ok(FellThrough) ==> r.store == store
    ensures r.outcome.Ok? && r.outcome.value.Returned? ==> r.outcome.value.fileList == fileList
    ensures |store.texts| <= |r.store.texts| && r.store.texts[..|store.texts|] == store.texts
    ensures forall i :: |store.texts| <= i < |r.store.texts| ==> r.store.texts[i].metadata == map[]
  {
    var k := FirstNew(fileList, store.table);
    match FirstRefusal(SkipMessages(fileList, k), info)
    case Some(e) => Run(Raise(e), store)
    case None =>
      if k == |fileList| then Run(Ok(FellThrough), store)
      else IngestNew(fileList, fileList[k], store, split, fault, info)
  }

  /** A skip whose message the logger refuses ends the call with that
      exception, the database untouched. */
  lemma SkipRefused(fileList: seq<FileRecord>, store: Store, split: string -> seq<string>,
                    fault: StoreFault, info: Info, i: nat)
    requires i < |fileList| && HashKnown(store.table, fileList[i].fileHash)
    requires info(SkipMessage(fileList[i].fileName)).Some?
    requires forall j :: 0 <= j < i ==> HashKnown(store.table, fileList[j].fileHash)
    requires forall j :: 0 <= j < i ==> info(SkipMessage(fileList[j].fileName)).None?
    ensures Ingest(fileList, store, split, fault, info) ==
            Run(Raise(info(SkipMessage(fileList[i].fileName)).value), store)
  {
    var k := FirstNew(fileList, store.table);
    assert i < k;
    FirstRefusalAt(SkipMessages(fileList, k), info, i);
  }

  /** Once the skips before it are logged, the first new record decides the call. */
  lemma IngestAtNew(fileList: seq<FileRecord>, store: Store, split: string -> seq<string>,
                    fault: StoreFault, info: Info, i: nat)
    requires i < |fileList| && !HashKnown(store.table, fileList[i].fileHash)
    requires forall j :: 0 <= j < i ==> HashKnown(store.table, fileList[j].fileHash)
    requires forall j :: 0 <= j < i ==> info(SkipMessage(fileList[j].fileName)).None?
    ensures Ingest(fileList, store, split, fault, info) == IngestNew(fileList, fileList[i], store, split, fault, info)
  {
    assert FirstNew(fileList, store.table) == i;
    assert FirstRefusal(SkipMessages(fileList, i), info).None?;
  }

  /** Inserting one new record and storing its chunks, as the loop body does it. */
  method IngestRecord(fileList: seq<FileRecord>, rec: FileRecord, store: Store, split: string -> seq<string>,
                      fault: StoreFault, info: Info)
    returns (outcome: Result<UploadOutcome>, after: Store)
    ensures Run(outcome, after) == IngestNew(fileList, rec, store, split, fault, info)
  {
    if rec.filePath in store.table {
      return Raise(PrimaryKeyClash), store;
    }
    var table := store.table[rec.filePath := RowOf(rec)];
    var chunks := split(rec.content);
    var texts := store.texts;
    var c := 0;
    while c < |chunks|
      invariant 0 <= c <= |chunks|
      invariant texts == store.texts + Stored(chunks[..c])
      invariant fault.FailsAt? ==> c <= fault.chunkIndex
      invariant c > 0 ==> info(ChunkMessage(rec.fileName)).None?
    {
      if fault.FailsAt? && fault.chunkIndex == c {
        return Raise(fault.exception), Store(table, texts);
      }
      assert chunks[..c + 1] == chunks[..c] + [chunks[c]];
      texts := texts + [StoredText(chunks[c], map[])];
      var logged := info(ChunkMessage(rec.fileName));
      if logged.Some? {
        return Raise(logged.value), Store(table, texts);
      }
      c := c + 1;
    }
    assert chunks[..c] == chunks;
    return Ok(Returned(fileList)), Store(table, texts);
  }

  /** The `with engine.connect()` block as written: select by hash, log and
      skip, insert, add and log chunks one at a time, return from inside
      the loop. */
  method IngestFileList(fileList: seq<FileRecord>, store: Store, split: string -> seq<string>,
                        fault: StoreFault, info: Info)
    returns (outcome: Result<UploadOutcome>, after: Store)
    ensures Run(outcome, after) == Ingest(fileList, store, split, fault, info)
  {
    var i := 0;
    while i < |fileList|
      invariant 0 <= i <= |fileList|
      invariant forall j :: 0 <= j < i ==> HashKnown(store.table, fileList[j].fileHash)
      invariant forall j :: 0 <= j < i ==> info(SkipMessage(fileList[j].fileName)).None?
    {
      var rec := fileList[i];
      if HashKnown(store.table, rec.fileHash) {
        var skipped := info(SkipMessage(rec.fileName));
        if skipped.Some? {
          SkipRefused(fileList, store, split, fault, info, i);
          return Raise(skipped.value), store;
        }
        i := i + 1;
        continue;
      }
      IngestAtNew(fileList, store, split, fault, info, i);
      outcome, after := IngestRecord(fileList, rec, store, split, fault, info);
      return;
    }
    return Ok(FellThrough), store;
  }

  /* ---------------- properties of one call ---------------- */

  /** The skip test looks at hashes only: a single record falls through
      exactly when some row, under any path, has its hash and its skip is
      logged; a known hash never changes the database. */
  lemma SkipIsByHashOnly(rec: FileRecord, store: Store, split: string -> seq<string>, fault: StoreFault, info: Info)
    ensures Ingest([rec], store, split, fault, info).outcome == Ok(FellThrough) <==>
            HashKnown(store.table, rec.fileHash) && info(SkipMessage(rec.fileName)).None?
    ensures HashKnown(store.table, rec.fileHash) ==> Ingest([rec], store, split, fault, info).store == store
  {
  }

  /** A record whose hash is known either ends the call at its skip message,
      leaving the database untouched, or is skipped without trace: the call
      then behaves on the database as if the record were not in the list. */
  lemma SkippedRecordChangesNothing(fileList: seq<FileRecord>, store: Store, split: string -> seq<string>,
                                    fault: StoreFault, info: Info)
    requires |fileList| > 0 && HashKnown(store.table, fileList[0].fileHash)
    ensures var refused := info(SkipMessage(fileList[0].fileName));
      && (refused.Some? ==> Ingest(fileList, store, split, fault, info) == Run(Raise(refused.value), store))
      && (refused.None? ==> Ingest(fileList, store, split, fault, info).store ==
                            Ingest(fileList[1..], store, split, fault, info).store)
  {
    if info(SkipMessage(fileList[0].fileName)).Some? {
      SkipRefused(fileList, store, split, fault, info, 0);
    } else {
      SkipLoggedShifts(fileList, store, split, fault, info);
    }
  }

  /** The record list a call returns does not affect the database it leaves. */
  lemma IngestNewStore(a: seq<FileRecord>, b: seq<FileRecord>, rec: FileRecord, store: Store,
                       split: string -> seq<string>, fault: StoreFault, info: Info)
    ensures IngestNew(a, rec, store, split, fault, info).store == IngestNew(b, rec, store, split, fault, info).store
  {
  }

  /** A logged skip of the first record: the rest of the list decides the database. */
  lemma SkipLoggedShifts(fileList: seq<FileRecord>, store: Store, split: string -> seq<string>,
                         fault: StoreFault, info: Info)
    requires |fileList| > 0 && HashKnown(store.table, fileList[0].fileHash)
    requires info(SkipMessage(fileList[0].fileName)).None?
    ensures Ingest(fileList, store, split, fault, info).store == Ingest(fileList[1..], store, split, fault, info).store
  {
    var k := FirstNew(fileList, store.table);
    assert k == 1 + FirstNew(fileList[1..], store.table);
    var messages := SkipMessages(fileList, k);
    assert messages[1..] == SkipMessages(fileList[1..], k - 1);
    assert FirstRefusal(messages, info) == FirstRefusal(messages[1..], info);
    if k < |fileList| {
      assert fileList[k] == fileList[1..][k - 1];
      IngestNewStore(fileList, fileList[1..], fileList[k], store, split, fault, info);
    }
  }

  /** At most one record is ingested per call: the table gains at most the
      row of the first new record, and the store gains only chunks of it, a
      prefix of its split in order; at most one chunk when the logger
      refuses the chunk message. */
  lemma AtMostOneFileIngested(fileList: seq<FileRecord>, store: Store, split: string -> seq<string>,
                              fault: StoreFault, info: Info)
    ensures var r := Ingest(fileList, store, split, fault, info);
      var k := FirstNew(fileList, store.table);
      || r.store == store
      || (&& k < |fileList|
          && r.store.table == store.table[fileList[k].filePath := RowOf(fileList[k])]
          && exists n :: 0 <= n <= |split(fileList[k].content)| &&
               r.store.texts == store.texts + Stored(split(fileList[k].content)[..n]) &&
               (info(ChunkMessage(fileList[k].fileName)).Some? ==> n <= 1))
  {
    var r := Ingest(fileList, store, split, fault, info);
    var k := FirstNew(fileList, store.table);
    if r.store != store {
      var chunks := split(fileList[k].content);
      var logged := info(ChunkMessage(fileList[k].fileName));
      if fault.FailsAt? && fault.chunkIndex < |chunks| && (fault.chunkIndex == 0 || logged.None?) {
        assert r.store.texts == store.texts + Stored(chunks[..fault.chunkIndex]);
      } else if |chunks| > 0 && logged.Some? {
        assert r.store.texts == store.texts + Stored(chunks[..1]);
      } else {
        assert chunks[..|chunks|] == chunks;
      }
    }
  }

  /** On a normal return the chunks of the ingested record follow the
      earlier texts in split order, each with empty metadata, and each of
      them was logged. */
  lemma ChunksInSplitOrder(fileList: seq<FileRecord>, store: Store, split: string -> seq<string>,
                           fault: StoreFault, info: Info)
    requires Ingest(fileList, store, split, fault, info).outcome.Ok?
    requires Ingest(fileList, store, split, fault, info).outcome.value.Returned?
    ensures var k := FirstNew(fileList, store.table);
      var chunks := split(fileList[k].content);
      var texts := Ingest(fileList, store, split, fault, info).store.texts;
      && k < |fileList|
      && |texts| == |store.texts| + |chunks|
      && (forall i :: 0 <= i < |chunks| ==> texts[|store.texts| + i] == StoredText(chunks[i], map[]))
      && (|chunks| > 0 ==> info(ChunkMessage(fileList[k].fileName)).None?)
  {
  }

  /** The row is written before the chunks: once the skips before the first
      new record are logged and its path is free, its hash is in the table
      whatever happens to the chunks. A failing `add_texts` for chunk n that
      the loop reaches raises its error after n chunks were stored. */
  lemma ChunkFailureLeavesFileMarked(fileList: seq<FileRecord>, store: Store, split: string -> seq<string>,
                                     fault: StoreFault, info: Info)
    requires var k := FirstNew(fileList, store.table);
      && k < |fileList| && fileList[k].filePath !in store.table
      && forall j :: 0 <= j < k ==> info(SkipMessage(fileList[j].fileName)).None?
    ensures var rec := fileList[FirstNew(fileList, store.table)];
      var r := Ingest(fileList, store, split, fault, info);
      && r.store.table == store.table[rec.filePath := RowOf(rec)]
      && HashKnown(r.store.table, rec.fileHash)
    ensures var rec := fileList[FirstNew(fileList, store.table)];
      var chunks := split(rec.content);
      var r := Ingest(fileList, store, split, fault, info);
      fault.FailsAt? && fault.chunkIndex < |chunks| &&
      (fault.chunkIndex == 0 || info(ChunkMessage(rec.fileName)).None?) ==>
        r.outcome == Raise(fault.exception) && r.store.texts == store.texts + Stored(chunks[..fault.chunkIndex])
  {
    var k := FirstNew(fileList, store.table);
    var rec := fileList[k];
    assert FirstRefusal(SkipMessages(fileList, k), info).None?;
    var r := Ingest(fileList, store, split, fault, info);
    assert r.store.table[rec.filePath].fileHash == rec.fileHash;
  }

  /** A call that changed the table inserted the row of its first new
      record, so every record up to that one is now known and the next call's
      first new record lies further on. */
  lemma RerunAdvances(fileList: seq<FileRecord>, store: Store, split: string -> seq<string>,
                      fault: StoreFault, info: Info)
    requires Ingest(fileList, store, split, fault, info).store.table != store.table
    ensures FirstNew(fileList, Ingest(fileList, store, split, fault, info).store.table) > FirstNew(fileList, store.table)
  {
    var k := FirstNew(fileList, store.table);
    var table := Ingest(fileList, store, split, fault, info).store.table;
    AtMostOneFileIngested(fileList, store, split, fault, info);
    var rec := fileList[k];
    assert table == store.table[rec.filePath := RowOf(rec)];
    forall j | 0 <= j <= k
      ensures HashKnown(table, fileList[j].fileHash)
    {
      if j < k {
        var p :| p in store.table && store.table[p].fileHash == fileList[j].fileHash;
        assert table[p] == store.table[p];
      } else {
        assert table[rec.filePath].fileHash == rec.fileHash;
      }
    }
  }

  /** Assuming the insert takes effect at once, two new records of one
      directory cannot both be ingested: with a logger that takes the first
      record's messages, the first call ingests it and the next call clashes
      on the primary key. */
  lemma SameDirectoryConflict(first: FileRecord, second: FileRecord, store: Store, split: string -> seq<string>, info: Info)
    requires first.filePath == second.filePath && first.fileHash != second.fileHash
    requires !HashKnown(store.table, first.fileHash) && !HashKnown(store.table, second.fileHash)
    requires first.filePath !in store.table
    requires info(SkipMessage(first.fileName)).None? && info(ChunkMessage(first.fileName)).None?
    ensures var after := Ingest([first, second], store, split, NoFault, info);
      && after.outcome == Ok(Returned([first, second]))
      && Ingest([first, second], after.store, split, NoFault, info) == Run(Raise(PrimaryKeyClash), after.store)
  {
    var after := Ingest([first, second], store, split, NoFault, info);
    var table := after.store.table;
    assert table == store.table[first.filePath := RowOf(first)];
    assert HashKnown(table, first.fileHash) by {
      assert table[first.filePath].fileHash == first.fileHash;
    }
    assert !HashKnown(table, second.fileHash) by {
      forall p | p in table
        ensures table[p].fileHash != second.fileHash
      {
        if p != first.filePath {
          assert table[p] == store.table[p];
        }
      }
    }
    assert FirstNew([first, second], table) == 1 by {
      assert [first, second][1..] == [second];
    }
    assert FirstRefusal(SkipMessages([first, second], 1), info).None?;
  }

  /* ---------------- the loop with the service's logger ---------------- */

  /** With the `FileLogger` the service passes in, a record list whose first
      hash is known raises AttributeError at the skip, and nothing changes. */
  lemma DeployedSkipRaises(fileList: seq<FileRecord>, store: Store, split: string -> seq<string>, fault: StoreFault)
    requires |fileList| > 0 && HashKnown(store.table, fileList[0].fileHash)
    ensures Ingest(fileList, store, split, fault, FileLoggerInfo) == Run(Raise(NoInfoAttribute), store)
  {
    SkipRefused(fileList, store, split, fault, FileLoggerInfo, 0);
  }

  /** With that logger a call changes nothing, or it inserts the row of the
      very first record (which must be new) and stores at most that record's
      first chunk. */
  lemma DeployedStoresAtMostFirstChunk(fileList: seq<FileRecord>, store: Store, split: string -> seq<string>,
                                       fault: StoreFault)
    ensures var r := Ingest(fileList, store, split, fault, FileLoggerInfo);
      || r.store == store
      || (&& |fileList| > 0 && !HashKnown(store.table, fileList[0].fileHash)
          && r.store.table == store.table[fileList[0].filePath := RowOf(fileList[0])]
          && exists n :: 0 <= n <= 1 && n <= |split(fileList[0].content)| &&
               r.store.texts == store.texts + Stored(split(fileList[0].content)[..n]))
  {
    var r := Ingest(fileList, store, split, fault, FileLoggerInfo);
    if |fileList| > 0 && HashKnown(store.table, fileList[0].fileHash) {
      DeployedSkipRaises(fileList, store, split, fault);
    } else {
      AtMostOneFileIngested(fileList, store, split, fault, FileLoggerInfo);
    }
  }

  /** With that logger a call returns normally exactly when the list is
      empty, or its first record is new, has a free path and splits into no
      chunks at all. */
  lemma DeployedReturnNeedsEmptySplit(fileList: seq<FileRecord>, store: Store, split: string -> seq<string>,
                                      fault: StoreFault)
    ensures Ingest(fileList, store, split, fault, FileLoggerInfo).outcome.Ok? <==>
      || |fileList| == 0
      || (&& !HashKnown(store.table, fileList[0].fileHash)
          && fileList[0].filePath !in store.table
          && split(fileList[0].content) == [])
  {
    if |fileList| > 0 && HashKnown(store.table, fileList[0].fileHash) {
      DeployedSkipRaises(fileList, store, split, fault);
    }
  }

  /** With that logger the list never advances: after a call that inserted a
      row, the next call raises AttributeError at the first record, which is
      now known, and changes nothing. */
  lemma DeployedRerunRaises(fileList: seq<FileRecord>, store: Store, split: string -> seq<string>,
                            fault: StoreFault, nextFault: StoreFault)
    requires Ingest(fileList, store, split, fault, FileLoggerInfo).store.table != store.table
    ensures var after := Ingest(fileList, store, split, fault, FileLoggerInfo).store;
      Ingest(fileList, after, split, nextFault, FileLoggerInfo) == Run(Raise(NoInfoAttribute), after)
  {
    var after := Ingest(fileList, store, split, fault, FileLoggerInfo).store;
    DeployedStoresAtMostFirstChunk(fileList, store, split, fault);
    assert after.table[fileList[0].filePath].fileHash == fileList[0].fileHash;
    DeployedSkipRaises(fileList, after, split, nextFault);
  }

  /* ---------------- the whole call ---------------- */

  /** The configuration keys the call reads. */
  const DataDirectoryKey := "persistent-volume" + "." + "data_directory"
  const ConnectionStringKey := "database" + "." + "connection_string"

  /** `upload_data_from_folder` once the two configuration lookups have
      answered: `directory` is the data directory, `connectionString` the
      database setting. List the directory's `.txt` files with `listFiles`
      (the recursive glob), build the records, check the connection string,
      then run the loop with the logger's `info`. Every failure before the loop leaves the database
      untouched, and the failures are reported in that order. */
  function UploadWith(directory: Result<string>, connectionString: Result<string>,
                      listFiles: string -> seq<SourceFile>, relpath: (string, string) -> string,
                      sha256: seq<byte> -> string, detect: string -> Detection,
                      split: string -> seq<string>, store: Store, fault: StoreFault, info: Info): (r: Run)
    ensures directory.Raise? ==> r == Run(Raise(directory.exception), store)
    ensures directory.Ok? ==>
      var fileList := FileList(listFiles(directory.value), directory.value, relpath, sha256, detect);
      && (fileList.Raise? ==> r == Run(Raise(fileList.exception), store))
      && (fileList.Ok? && connectionString.Raise? ==> r == Run(Raise(connectionString.exception), store))
      && (fileList.Ok? && connectionString.Ok? ==> r == Ingest(fileList.value, store, split, fault, info))
    ensures r.store != store ==>
      && directory.Ok? && connectionString.Ok?
      && FileList(listFiles(directory.value), directory.value, relpath, sha256, detect).Ok?
  {
    match directory
    case Raise(e) => Run(Raise(e), store)
    case Ok(dir) =>
      match FileList(listFiles(dir), dir, relpath, sha256, detect)
      case Raise(e) => Run(Raise(e), store)
      case Ok(fileList) =>
        match connectionString
        case Raise(e) => Run(Raise(e), store)
        case Ok(_) => Ingest(fileList, store, split, fault, info)
  }

  /** `upload_data_from_folder` from the configuration: the data directory
      and the connection string are looked up under their keys. */
  function Upload(config: ConfigurationManager.Configuration, containerStr: ConfigurationManager.Value -> string,
                  listFiles: string -> seq<SourceFile>, relpath: (string, string) -> string,
                  sha256: seq<byte> -> string, detect: string -> Detection,
                  split: string -> seq<string>, store: Store, fault: StoreFault, info: Info): (r: Run)
    ensures |store.texts| <= |r.store.texts| && r.store.texts[..|store.texts|] == store.texts
    ensures forall i :: |store.texts| <= i < |r.store.texts| ==> r.store.texts[i].metadata == map[]
  {
    UploadWith(ConfigurationManager.GetValue(config, DataDirectoryKey, containerStr),
               ConfigurationManager.GetValue(config, ConnectionStringKey, containerStr),
               listFiles, relpath, sha256, detect, split, store, fault, info)
  }

  /** One unreadable `.txt` file anywhere in the listing stops the call
      before the database is touched; the first such file's error escapes. */
  lemma UndecodableFileBlocksUpload(directory: Result<string>, connectionString: Result<string>,
                                    listFiles: string -> seq<SourceFile>, relpath: (string, string) -> string,
                                    sha256: seq<byte> -> string, detect: string -> Detection,
                                    split: string -> seq<string>, store: Store, fault: StoreFault, info: Info, i: nat)
    requires directory.Ok? && i < |listFiles(directory.value)| && listFiles(directory.value)[i].text.Raise?
    ensures var files := listFiles(directory.value);
      var r := UploadWith(directory, connectionString, listFiles, relpath, sha256, detect, split, store, fault, info);
      r == Run(Raise(files[FirstUnreadable(files)].text.exception), store)
  {
    var files := listFiles(directory.value);
    var k := FirstUnreadable(files);
    assert k <= i;
  }

  /** The call as the source runs it: the block-wise hashing loop for every
      file, then the ingestion loop. */
  method UploadDataFromFolder(config: ConfigurationManager.Configuration, containerStr: ConfigurationManager.Value -> string,
                              listFiles: string -> seq<SourceFile>, relpath: (string, string) -> string,
                              sha256: seq<byte> -> string, detect: string -> Detection,
                              split: string -> seq<string>, store: Store, fault: StoreFault, info: Info)
    returns (outcome: Result<UploadOutcome>, after: Store)
    ensures Run(outcome, after) == Upload(config, containerStr, listFiles, relpath, sha256, detect, split, store, fault, info)
  {
    var directory := ConfigurationManager.GetValue(config, DataDirectoryKey, containerStr);
    if directory.Raise? {
      return Raise(directory.exception), store;
    }
    var files := listFiles(directory.value);
    var fileList := BuildFileList(files, directory.value, relpath, sha256, detect);
    if fileList.Raise? {
      return Raise(fileList.exception), store;
    }
    var connectionString := ConfigurationManager.GetValue(config, ConnectionStringKey, containerStr);
    if connectionString.Raise? {
      return Raise(connectionString.exception), store;
    }
    outcome, after := IngestFileList(fileList.value, store, split, fault, info);
  }
}
