# sovereigntyai-temp core, modelled in Dafny

This project models the decision logic of the sovereigntyai-temp
retrieval-augmented question-answering system. That system is made of two
services around one PostgreSQL vector store:

- The data processor reads the `.txt` files of a data directory. It
  fingerprints each file with SHA-256, detects its language, records it in a
  `files_metadata` table and stores its text chunks.
- The backend answers a question by retrieving chunks and asking a language
  model. It returns the answer together with a fresh feedback id.

Both services share four helpers, which are modelled too:

- a YAML configuration manager with dotted-key lookup;
- a CSV file logger;
- an environment-variable secret manager;
- the builder of the vector store's connection string.

Every library the code calls becomes a function-typed parameter, and the
model assumes nothing else about it. These are: SHA-256, `langdetect.detect`,
the text splitter, `os.path.relpath`, `glob`, the retriever, the LLM chain,
pathlib's string form of a path, and Python's `str` of a container. The
vector store is an append-only sequence of texts with metadata. The metadata
table is a map from its primary key `file_path` to rows.

Modules, one per source file plus shared helpers:

| module | file |
|---|---|
| `Exceptions` | the Python exceptions that escape, as a `Result` type |
| `Strings` | join, split, containment, decimal digits, ASCII upper-casing |
| `PosixPath` | `os.path.basename` and `os.path.dirname` |
| `LangDetect` | what a `langdetect.detect` call returns |
| `OsEnvironmentSecretManager` | `os_environment_secret_manager.py` |
| `ConfigurationManager` | `configuration_manager.py` |
| `PostgresDatabaseManager` | `postgres_database_manager.py` |
| `FileLogger` | `file_logger.py` |
| `LangchainLlmClient` | `langchain_llm_client.py` |
| `DataProcessor` | `data_processor.py` |
| `Pipeline` | how the chunks the data processor writes reach `ask_database` |

Behaviour of the code that the model keeps, although a reader of the
comments might expect otherwise:

- Ingestion skips a file when any metadata row has the same hash,
  whatever its path. The comment at `data_processor.py:342` speaks of a
  table of paths and hashes, but the select compares hashes only.
- The metadata row is inserted before the chunks are stored, and the
  block never calls `connection.commit()`. Assuming each statement takes
  effect at once (see "## Left out" on transactions), a failure while
  storing chunks leaves the file marked as processed and no later run
  retries it; if the connection's uncommitted insert is rolled back
  instead, a later run retries the file and adds its chunks again.
- A file that cannot be decoded aborts the whole call before the database
  is touched: the record list is built for every file before the loop.
- `return file_list` sits inside the loop, so at most one new file is
  ingested per call. When every file is skipped the call returns `None`.
- The processor logs through `self._logger.info`, but the logger it is
  given is a `FileLogger` (`data_processor.py:30`), which has no `info`
  method. Under that wiring a skipped file raises AttributeError, and a new
  file stores its row and at most its first chunk before raising; see
  "## Findings". The loop is modelled for any logger, with the
  `FileLogger` wiring as one instance.
- Chunks are stored without metadata. As a result, `ask_database` raises
  `KeyError('file_name')` for any retrieval drawn from what ingestion
  wrote; `Pipeline.IngestedChunksCannotBeCited` states this.
- Configuration keys reject digits: the test accepts lower-case ASCII
  letters, '-', '_' and '.' only.
- `file_path` holds the file's directory relative to the data directory,
  and it is the table's primary key. A second new file in an
  already-recorded directory therefore clashes on the key. This assumes the
  live table has the key that the code's `Table` declaration gives it;
  nothing in the code creates the table.

## Model

| member | source | states |
|---|---|---|
| DataProcessor.Read | sovereigntyai-temp/services/data-processor/src/data_processor.py:297 | `f.read(4096)` yields the bytes at the current offset, at most 4096 of them, and fewer only when it reaches the end of the file |
| DataProcessor.CalculateFileHash | sovereigntyai-temp/services/data-processor/src/data_processor.py:294-299 | the read loop feeds the hasher exactly the file's blocks, their concatenation is the file, and so the digest is SHA-256 of the whole file |
| DataProcessor.BlocksPartitionFile | sovereigntyai-temp/services/data-processor/src/data_processor.py:297-298 | the blocks cover the file exactly; each holds 1 to 4096 bytes; all but the last are full; there are ceil(n/4096) of them |
| DataProcessor.DetectFileLanguage | sovereigntyai-temp/services/data-processor/src/data_processor.py:302-308 | a read or decode error escapes, because it happens before the `try`; otherwise the result is the detector's language, or "unknown" when the detector raises anything |
| DataProcessor.LanguageFallback | sovereigntyai-temp/services/data-processor/src/data_processor.py:305-308 | a readable file always gets a language, and any language other than "unknown" is what the detector said |
| DataProcessor.ReadFileContent | sovereigntyai-temp/services/data-processor/src/data_processor.py:310-313 | the file's decoded text is returned, or its read error escapes |
| DataProcessor.RecordOf | sovereigntyai-temp/services/data-processor/src/data_processor.py:329-335 | a file's record exists exactly when the file reads as text; otherwise its read error escapes |
| DataProcessor.FileList | sovereigntyai-temp/services/data-processor/src/data_processor.py:328-336 | the list is built iff every listed file reads as text, with one record per file in listing order; otherwise the first unreadable file's error escapes |
| DataProcessor.RecordShape | sovereigntyai-temp/services/data-processor/src/data_processor.py:330-334 | file `d/n` yields `(relpath(d, directory), n, sha256(bytes), language, content)`, whose language is the detector's answer or "unknown" |
| DataProcessor.SameDirectorySamePath | sovereigntyai-temp/services/data-processor/src/data_processor.py:330 | two files of one directory get the same `file_path`, so the column names directories, not files |
| DataProcessor.BuildFileList | sovereigntyai-temp/services/data-processor/src/data_processor.py:328-336 | building the records with the block-wise hashing loop gives exactly the list of the comprehension |
| DataProcessor.FirstNew | sovereigntyai-temp/services/data-processor/src/data_processor.py:352-357 | the index of the first record whose hash no row holds; every earlier record's hash is known, so each of them takes the `if result:` branch |
| DataProcessor.Ingest | sovereigntyai-temp/services/data-processor/src/data_processor.py:351-387 | for the processor's logger `info`: the loop falls through (`None`) iff every hash is known and every skip message is logged, and then changes nothing; a normal return hands back the whole list, skipped files included; the vector store is only appended to, and every new text has empty metadata |
| DataProcessor.IngestFileList | sovereigntyai-temp/services/data-processor/src/data_processor.py:351-387 | the loop as written (select, log the skip and continue, insert, add and log each chunk, return inside the loop), with the logger's `info` as a parameter, has exactly the outcome and final database of `Ingest` |
| DataProcessor.IngestNew | sovereigntyai-temp/services/data-processor/src/data_processor.py:361-387 | one new record: a `file_path` already in the table raises IntegrityError with the database untouched; otherwise its row is in the table whatever happens to the chunks; the call never falls through, a normal return hands back the whole list, and the vector store is only appended to with empty metadata |
| DataProcessor.IngestRecord | sovereigntyai-temp/services/data-processor/src/data_processor.py:361-387 | the insert and the chunk loop as written (add one chunk, log it, stop at the first failing `add_texts` or `info`) have exactly the outcome and final database of `IngestNew` |
| DataProcessor.SkipRefused | sovereigntyai-temp/services/data-processor/src/data_processor.py:352-358 | a known hash whose skip message the logger refuses ends the call with that exception, the database untouched, once the earlier records were skipped |
| DataProcessor.SkipIsByHashOnly | sovereigntyai-temp/services/data-processor/src/data_processor.py:353-359 | a one-record call falls through iff some row, under any path, has the record's hash and the logger takes the skip message; a known hash never changes the database |
| DataProcessor.SkippedRecordChangesNothing | sovereigntyai-temp/services/data-processor/src/data_processor.py:357-359 | a record with a known hash either raises the logger's exception at its skip message with the database untouched, or leaves the database as if it were absent from the list |
| DataProcessor.AtMostOneFileIngested | sovereigntyai-temp/services/data-processor/src/data_processor.py:361-387 | a call either changes nothing or adds the one row of the first new record plus a prefix of that record's chunks in split order, at most one chunk when the logger refuses the chunk message |
| DataProcessor.ChunksInSplitOrder | sovereigntyai-temp/services/data-processor/src/data_processor.py:372-375 | on a normal return the store grows by exactly the split's chunks, in order, each with empty metadata, and a non-empty split means the logger took the chunk message |
| DataProcessor.ChunkFailureLeavesFileMarked | sovereigntyai-temp/services/data-processor/src/data_processor.py:361-375 | once the first new record is reached with a free path, its row is in the table whatever the chunk loop does; a failing `add_texts` on a chunk the loop reaches (chunk 0, or any chunk when the logger takes the chunk message) raises its error after the earlier chunks were stored |
| DataProcessor.RerunAdvances | sovereigntyai-temp/services/data-processor/src/data_processor.py:352-369 | assuming the insert takes effect at once: a call that changed the table inserted its first new record's row, so the next call's first new record lies strictly later; whether the next call gets past its skips depends on the logger |
| DataProcessor.SameDirectoryConflict | sovereigntyai-temp/services/data-processor/src/data_processor.py:343-369 | assuming the insert takes effect at once, and with a logger that takes the first file's messages: of two new files with different content in one directory, the first call ingests the first file and the next call fails with IntegrityError on the primary key |
| DataProcessor.DeployedSkipRaises | sovereigntyai-temp/services/data-processor/src/data_processor.py:357-358 | with the `FileLogger` the service passes in, a list whose first hash is known raises AttributeError at the skip and changes nothing |
| DataProcessor.DeployedStoresAtMostFirstChunk | sovereigntyai-temp/services/data-processor/src/data_processor.py:361-375 | with that logger a call changes nothing, or inserts the row of the very first record (which is new) and stores at most its first chunk |
| DataProcessor.DeployedReturnNeedsEmptySplit | sovereigntyai-temp/services/data-processor/src/data_processor.py:351-387 | with that logger a call returns normally iff the list is empty, or its first record is new, has a free path and splits into no chunks |
| DataProcessor.DeployedRerunRaises | sovereigntyai-temp/services/data-processor/src/data_processor.py:352-358 | with that logger, and assuming the insert takes effect at once: after a call that inserted a row the next call raises AttributeError at the first record and changes nothing, so the list never advances |
| DataProcessor.UploadWith | sovereigntyai-temp/services/data-processor/src/data_processor.py:323-387 | given the two configuration lookups: a failing directory lookup, then an unreadable file, then a failing connection-string lookup each raise their own error with the database untouched, in that order; when all three succeed the result is the ingestion loop over the record list with the processor's logger; the database changes only if all three succeed |
| DataProcessor.Upload | sovereigntyai-temp/services/data-processor/src/data_processor.py:315-387 | the call from the configuration, for any logger: the vector store is only appended to, and every text it gains carries empty metadata |
| DataProcessor.UndecodableFileBlocksUpload | sovereigntyai-temp/services/data-processor/src/data_processor.py:328-336 | one unreadable `.txt` file anywhere in the listing makes the call raise the first unreadable file's error, with the database untouched, whatever the connection string |
| DataProcessor.UploadDataFromFolder | sovereigntyai-temp/services/data-processor/src/data_processor.py:315-387 | the whole method, built from the two loops, the lookups of `persistent-volume.data_directory` and `database.connection_string`, and the processor's logger, has the outcome and final database of `Upload` |
| LangchainLlmClient.DetectLanguage | sovereigntyai-temp/services/shared/modules/langchain_llm_client.py:69-75 | returns `None` iff the detector raises LangDetectException; any other detector exception escapes unchanged; a detected language is returned as is |
| LangchainLlmClient.RetrieverKwargs | sovereigntyai-temp/services/shared/modules/langchain_llm_client.py:103-109 | `k` is always passed; the threshold is added iff the search type is "mmr" or "similarity_score_threshold" |
| LangchainLlmClient.FixedSearchTypeKeepsThreshold | sovereigntyai-temp/services/shared/modules/langchain_llm_client.py:105-109 | with the fixed search type the kwargs are always `{k, score_threshold}` |
| LangchainLlmClient.Context | sovereigntyai-temp/services/shared/modules/langchain_llm_client.py:127 | the page contents in retrieval order, separated by `"\n\n"`: the first page, a blank line, then the context of the rest; a single page is the context itself, and no pages give ""; so every retrieved page is contained in it |
| LangchainLlmClient.FirstOccurrencesOrder | sovereigntyai-temp/services/shared/modules/langchain_llm_client.py:133-141 | the de-duplicated list has no repeats, holds exactly the names that occur, and orders them by first occurrence |
| LangchainLlmClient.CollectSources | sovereigntyai-temp/services/shared/modules/langchain_llm_client.py:131-145 | the loop raises KeyError for the first document lacking metadata, checking `file_name` first; otherwise it yields the de-duplicated names and the concatenated source blocks |
| LangchainLlmClient.SourcesOf | sovereigntyai-temp/services/shared/modules/langchain_llm_client.py:131-145 | succeeds iff every document carries both metadata keys; otherwise the KeyError of the first document lacking one, `file_name` checked first; the names are the distinct source names in first-occurrence order |
| LangchainLlmClient.SourceBlocksAppend | sovereigntyai-temp/services/shared/modules/langchain_llm_client.py:143-145 | `context_sources` of two retrievals back to back is the first one's string followed by the second one's |
| LangchainLlmClient.AskDatabase | sovereigntyai-temp/services/shared/modules/langchain_llm_client.py:77-173 | answers iff detection does not raise, retrieval succeeds and every document carries both metadata keys; the answer is the chain's answer or `str(e)` of its exception; the feedback id was not issued before; otherwise a detector exception other than LangDetectException, and then a retrieval error, escapes unchanged |
| LangchainLlmClient.MissingMetadataRaises | sovereigntyai-temp/services/shared/modules/langchain_llm_client.py:135-138 | a document lacking `file_name` or `source_file_name` makes the call raise that KeyError, whatever the generation would do |
| LangchainLlmClient.EmptyRetrievalStillAnswers | sovereigntyai-temp/services/shared/modules/langchain_llm_client.py:120-173 | with nothing retrieved the call still answers, from the empty context |
| LangchainLlmClient.ConsecutiveCallsGetDistinctIds | sovereigntyai-temp/services/shared/modules/langchain_llm_client.py:173 | each answer carries the id drawn for its own call, so two calls whose second id is drawn after the first never share a feedback id, whatever either call asked, retrieved or generated |
| Pipeline.IngestedChunksCannotBeCited | sovereigntyai-temp/services/data-processor/src/data_processor.py:372-374 | when the store holds only what ingestion wrote, any question that retrieves something raises KeyError('file_name') |
| ConfigurationManager.EffectiveEnvironment | sovereigntyai-temp/services/shared/modules/configuration_manager.py:12-19 | "local" becomes "local-docker" exactly when the cgroup file opens; a missing cgroup file is ignored; any other error opening it escapes |
| ConfigurationManager.ConfigurationFileFor | sovereigntyai-temp/services/shared/modules/configuration_manager.py:21-33 | the five environment names map to their configuration files; any other name, or none, raises ValueError |
| ConfigurationManager.LocalRewriteKeepsFile | sovereigntyai-temp/services/shared/modules/configuration_manager.py:14-25 | the container rewrite never changes which configuration file is chosen |
| ConfigurationManager.LoadConfiguration | sovereigntyai-temp/services/shared/modules/configuration_manager.py:35-53 | a missing file raises FileNotFoundError naming it; later failures are ValueErrors; a top level that is not a mapping is rejected with the prefixed message; otherwise the mapping is kept |
| ConfigurationManager.Initialize | sovereigntyai-temp/services/shared/modules/configuration_manager.py:10-53 | the constructor succeeds iff the cgroup file does not fail to open other than by being missing, the environment is one of the five names, its file exists and parses to a mapping, and it then keeps that mapping; a cgroup open failure escapes; an unknown or unset environment raises ValueError; a missing file raises FileNotFoundError naming the file |
| ConfigurationManager.SourceKeyTestIsKeyClass | sovereigntyai-temp/services/shared/modules/configuration_manager.py:57 | the source's test (`islower` or one of `-_.`, plus `isascii`) accepts exactly the keys over lower-case ASCII letters, `-`, `_` and `.` |
| ConfigurationManager.Walk | sovereigntyai-temp/services/shared/modules/configuration_manager.py:60-68 | descending along the segments fails only with KeyError |
| ConfigurationManager.WalkSucceedsIff | sovereigntyai-temp/services/shared/modules/configuration_manager.py:64-68 | the descent succeeds iff at every step the level reached so far is a mapping that holds the next segment |
| ConfigurationManager.WalkAppend | sovereigntyai-temp/services/shared/modules/configuration_manager.py:64-68 | walking `p + q` is walking `p` and then `q` from where it ended; a failure in `p` is final |
| ConfigurationManager.WalkNest | sovereigntyai-temp/services/shared/modules/configuration_manager.py:64-66 | walking the path a value was nested under reaches that value |
| ConfigurationManager.GetValue | sovereigntyai-temp/services/shared/modules/configuration_manager.py:55-70 | an invalid key raises ValueError before any lookup; a valid key succeeds iff the walk along its dot-separated segments does, and returns `str` of the value reached; otherwise KeyError |
| ConfigurationManager.DigitOrUpperRejected | sovereigntyai-temp/services/shared/modules/configuration_manager.py:57-58 | a key containing a digit or an upper-case letter is rejected with ValueError |
| ConfigurationManager.JoinValidKey | sovereigntyai-temp/services/shared/modules/configuration_manager.py:57 | valid segments joined with dots form a valid key |
| ConfigurationManager.GetValueAlongPath | sovereigntyai-temp/services/shared/modules/configuration_manager.py:55-70 | for dot-free valid segments leading to a value, looking up their dotted join returns `str` of that value |
| ConfigurationManager.SubDictionaryIsRendered | sovereigntyai-temp/services/shared/modules/configuration_manager.py:70 | a path ending at a mapping returns that mapping's string form instead of failing |
| FileLogger.GetLoggingLevel | sovereigntyai-temp/services/shared/modules/file_logger.py:57-70 | accepted iff the upper-cased name is one of DEBUG, INFO, WARNING, WARN, ERROR, CRITICAL or FATAL; the level is then one of 10-50; otherwise `ValueError("Invalid logging level: <UPPER>")` |
| FileLogger.LevelNameCaseInsensitive | sovereigntyai-temp/services/shared/modules/file_logger.py:58-59 | two names that differ only in ASCII letter case give the same result |
| FileLogger.NotsetRejected | sovereigntyai-temp/services/shared/modules/file_logger.py:60-70 | "notset" is rejected with `ValueError("Invalid logging level: NOTSET")`, although it names a level |
| FileLogger.DateStampRoundTrip | sovereigntyai-temp/services/shared/modules/file_logger.py:80 | the `%Y-%m-%d` stamp of a valid date has 10 characters and parses back to that date |
| FileLogger.LogFileNameRoundTrip | sovereigntyai-temp/services/shared/modules/file_logger.py:79-80 | the file name `<dir>/<name>_<YYYY-MM-DD>.csv` parses back into its directory, logger name and date |
| FileLogger.EnsureHeader | sovereigntyai-temp/services/shared/modules/file_logger.py:83-86 | a missing or empty file ends up holding exactly the header line; a non-empty file is left alone, and only then; existing content is always kept as a prefix |
| FileLogger.EnsureHeaderIdempotent | sovereigntyai-temp/services/shared/modules/file_logger.py:83-86 | starting the logger twice on one day writes the header once |
| FileLogger.HeaderColumnsFollowFormatFields | sovereigntyai-temp/services/shared/modules/file_logger.py:86-106 | the header's columns, split at `;`, name the ten format fields in the same order, plus a trailing `Traceback` that no field fills |
| FileLogger.ColumnsMatchFields | sovereigntyai-temp/services/shared/modules/file_logger.py:86-106 | column i of the header is the title of format field i, and column 11 is `Traceback` |
| FileLogger.NoSeparatorInColumns | sovereigntyai-temp/services/shared/modules/file_logger.py:86-106 | no column title and no placeholder contains the `;` separator |
| FileLogger.SetFormatterJobId | sovereigntyai-temp/services/shared/modules/file_logger.py:31-32 | `CustomFormatter.set_job_id` replaces the job id and keeps the host and environment |
| FileLogger.Stamp | sovereigntyai-temp/services/shared/modules/file_logger.py:34-37 | the record gets the formatter's hostname, environment and job id, and all its other fields are kept |
| FileLogger.Format | sovereigntyai-temp/services/shared/modules/file_logger.py:34-38 | a formatted line begins with the timestamp, the formatter's host and environment, the level, the logger name and the formatter's job id, each followed by `;`, whatever the record carried in those attributes |
| FileLogger.FormatIgnoresRecordStamps | sovereigntyai-temp/services/shared/modules/file_logger.py:34-38 | whatever hostname, environment or job id a record carried, the formatted line is the same |
| FileLogger.FormatExtendsFields | sovereigntyai-temp/services/shared/modules/file_logger.py:38 | the `;`-joined fields begin the formatted output; a traceback only follows them |
| FileLogger.SetJobId | sovereigntyai-temp/services/shared/modules/file_logger.py:54-55 | `FileLogger.set_job_id` changes the formatter's job id and nothing else |
| FileLogger.JobIdReachesEveryLine | sovereigntyai-temp/services/shared/modules/file_logger.py:54-55 | after `set_job_id(j)` every formatted line has `j` in its JobId column |
| FileLogger.StartLogger | sovereigntyai-temp/services/shared/modules/file_logger.py:44-110 | given the lookups of `file_logger.level` and `persistent-volume.logging`: construction succeeds iff both lookups and the level check succeed, and otherwise raises the first failure in that order; the logger then keeps its name and has an accepted level, today's file name, a header only if the file was missing or empty, and a formatter with the host, ENVIRONMENT (or "") and an empty job id |
| FileLogger.NewFileLogger | sovereigntyai-temp/services/shared/modules/file_logger.py:44-52 | a logger built from the configuration keeps its name, has an accepted level, a log file that holds exactly the header if it was missing or empty and is otherwise left untouched, and a formatter with the host, ENVIRONMENT (or "") and an empty job id |
| OsEnvironmentSecretManager.GetSecret | sovereigntyai-temp/services/shared/modules/os_environment_secret_manager.py:16-23 | returns the variable's value unchanged iff it is set; otherwise raises a KeyError whose message contains the name |
| OsEnvironmentSecretManager.EmptySecretIsFound | sovereigntyai-temp/services/shared/modules/os_environment_secret_manager.py:19 | a variable set to "" is returned as "", not treated as missing |
| PostgresDatabaseManager.ConnectionString | sovereigntyai-temp/services/shared/modules/postgres_database_manager.py:36 | the URL starts with `postgresql+psycopg://`, and it parses back into its five parts when the user and host hold no ':', the host, port and database name hold no '@', and the port holds no '/'; the password may hold anything |
| PostgresDatabaseManager.Assemble | sovereigntyai-temp/services/shared/modules/postgres_database_manager.py:30-43 | the store is built iff all five lookups succeed; otherwise the first failure in source order escapes; the URL has the five parts, the collection name passes through and JSONB is on |
| PostgresDatabaseManager.CreateLangchainVectorStore | sovereigntyai-temp/services/shared/modules/postgres_database_manager.py:29-43 | built iff the four `postgres_database_manager.*` keys resolve and DB_PASSWORD is set; the URL carries those values, the collection name passes through, `use_jsonb` is true |
| PostgresDatabaseManager.SameSectionSameLookup | sovereigntyai-temp/services/shared/modules/configuration_manager.py:55-70 | a lookup of `section.field` (both valid and dot-free) gives the same result, found or not, in any two configurations holding the same `section` |
| PostgresDatabaseManager.PasswordNotFromConfiguration | sovereigntyai-temp/services/shared/modules/postgres_database_manager.py:30-34 | two configurations holding the same `postgres_database_manager` section build the same store under the same environment, whatever else they hold, so no other part of the configuration can supply the password |
| PosixPath.DirnameBasenameRoundTrip | sovereigntyai-temp/services/data-processor/src/data_processor.py:330-331 | for a directory not ending in '/' and a name without '/', `dirname` and `basename` of `d/n` give back `d` and `n` |
| Strings.SplitJoin | sovereigntyai-temp/services/shared/modules/configuration_manager.py:60 | splitting at '.' the dotted join of dot-free segments gives back the segments |

## Findings

| source | as written | input that shows it | evidently intended | confidence | as-written member | corrected member |
|---|---|---|---|---|---|---|
| sovereigntyai-temp/services/data-processor/src/data_processor.py:358 | `self._logger.info(...)` on the logger the processor is given, a `FileLogger`, which defines no `info` (`file_logger.py:42-117`; the TODO at `file_logger.py:29` plans one) | a record list whose first file's hash is already in `files_metadata`: AttributeError instead of a skip, and no later file is ever reached | log the skip and move on to the next record | high; not executed | DataProcessor.DeployedSkipRaises | DataProcessor.SkippedRecordChangesNothing |
| sovereigntyai-temp/services/data-processor/src/data_processor.py:375 | the same call after each `add_texts` | a new file whose split is `["a", "b"]`: its row is inserted and chunk "a" is added, then AttributeError (whether the uncommitted row survives is a transaction question outside the model) | store every chunk and return the list | high; not executed | DataProcessor.DeployedStoresAtMostFirstChunk | DataProcessor.ChunksInSplitOrder |

In the model the loop takes the logger's `info` as a parameter. The
`Deployed...` lemmas instantiate it with `FileLoggerInfo`, the behaviour of
the logger the service wires in. The corrected lemmas hold for any logger,
and state what a logger that returns from `info` yields.

## Left out

- I/O is not modelled as such: file opening and reading, `glob`, directory creation, the SQLAlchemy engine and connection, and handler set-up. Their results are parameters: the listed files with their bytes and decoded text, the log file's current contents, the cgroup probe and the YAML outcome.
- Transaction semantics are left out. Every `execute` is taken to take effect at once, although `data_processor.py:351-387` never calls `connection.commit()`, so SQLAlchemy may roll the metadata insert back when the connection closes while `add_texts` commits through the vector store's own session. The statements about a later run (RerunAdvances, DeployedRerunRaises, ChunkFailureLeavesFileMarked, SameDirectoryConflict) hold under this assumption.
- `create_engine` rejecting a malformed connection string is not modelled. Only the configuration lookup of the string is.
- `print`, timestamps, durations and `perf_counter` are left out. They feed no decision. The module-level `logging.info` calls of `upload_data_from_folder` go to the root logger and are left out too; the processor's own `self._logger.info` calls are modelled.
- DataProcessor.Ingest: the logger's `info` is a function of the message, so a logger that refuses a message refuses every repetition of it; a logger whose failures vary from call to call is not modelled.
- The text splitter, SHA-256, langdetect, the retriever, the LLM chain, `os.path.relpath` and `shortuuid` are uninterpreted parameters. For ids only freshness is assumed: the caller supplies an id not issued before.
- The prompt template and `full_prompt` are left out; the chain's answer is a parameter of the question. The `context` string is modelled, although the source computes it and does not use it.
- The debug branch of `ask_database` is left out. `debug` is the constant `False`, so the branch cannot run.
- YAML floats, dates and other scalar kinds are left out. Configuration values are strings, integers, booleans, null, lists and mappings. `str` of a list or mapping is a parameter.
- FileLogger.GetLoggingLevel: upper-cases ASCII letters only. Python's `str.upper` also maps other letters, some of them onto ASCII ones (dotless 'ı' becomes 'I', long 'ſ' becomes 'S'). So the source accepts a setting such as "ınfo" that the model rejects, and for a name holding any non-ASCII lower-case letter the model's error message differs from the source's. Unicode case mapping is outside the model; StartLogger and NewFileLogger inherit this gap.
- FileLogger.StartLogger: pathlib's rendering of the directory (dropping a trailing '/', collapsing '//') is a parameter, not modelled.
- Log rotation, console output, `stack_info` and the exception-text cache of `logging.Formatter` are left out. The formatted line is the joined fields, followed by the traceback on a new line when there is one.
- The HTTP services, the embedding service and client, and the commented-out synchronisation code in `data_processor.py` are left out. They are not part of this core.
- Concurrent ingestion runs and async scheduling are left out; each call is modelled as running alone.
