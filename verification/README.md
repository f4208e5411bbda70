# A model of semindex in Dafny

semindex stores the symbols, references and types of C, C++ and assembly sources in a database that many indexers write
at the same time and that editors and assistants query. This project models the parts of it that are hardest to get
right and proves what they promise. `dafny verify dfyconfig.toml` checks everything.

**The writers** (`Tables`, `Staging`, `StagedFiles`, `RowLemmas`, `CacheSoundness`, `CacheUse`, `WriterProtocol`,
`StoreResults`, `WriterRuns`, `Writer`). A store stages one translation unit privately, leaves out files whose
fingerprint is already stored, takes the writer lock, checks its cache hits again, merges, and re-stages once when a hit
went stale. The shared database is a set of maps keyed by the SQL primary keys; `INSERT OR IGNORE` keeps what is there,
the properties upsert joins bits. Runs are arbitrary interleavings of any number of writers. The main theorem is
serialisability: the cache and the retry are invisible, and what is left is what the committed writers leave one after
the other without any cache. Around it: freshness of every row over whole runs, replacement of the main file and of
every file whose metadata changed, the frame, and commutation of stores. `StagedFiles` reads what is staged off the
request's `stat()` results. `Writer` is the same protocol as it runs, with loops over flags and tables, proved to reach
the protocol's states.

**From store to query** (`StoreQueries`, `QualifiedNames`, `QueryResults`, `QueriesAfterStore`). The rows of a rewritten
file, column by column from the symbols, uses and signatures of the index; the rows that the queries show, column by
column from the tables; and both together: a signature that was stored is shown, and a call is found from both its ends.

**Fingerprints** (`Fingerprints`, `FingerprintBuilder`, `EndToEnd`). The cache rests on equal fingerprints meaning equal
content. The bytes absorbed by the hash determine the staged rows, and the lazily forked pair of accumulators is that of
two full passes. `EndToEnd` puts this together with the writers.

**The call graph** (`CallGraph`, `CallGraphSearch`, `CallGraphOrder`, `CallGraphResults`, `CallGraphListing`). A
breadth-first search bounded in depth, functions and records. An untruncated answer is exactly right; the answer is
truncated if and only if a limit is really exceeded. `CallGraphOrder` defines the order of discovery from the graph
alone, which tells exactly which cycles are reported, and `CallGraphListing` which records any answer holds, in which
order, whatever the limits.

**Paging** (`Hex`, `Ordering`, `PageWalk`, `Cursors`, `Paging`, `PagingUtf8`, `CallPaging`). Three tools page with
opaque cursors over composite orders. Following the cursors partitions the ordered result. For records this holds
exactly as long as the rows that close a page can be named by a cursor, which line 0 or an empty name prevents.
`PagingUtf8` leaves open what JSON makes of names that are not UTF-8. `CallPaging` is the direct call query, whose pages
rescan from the start and skip up to the cursor's row.

**Cancellation** (`Cancellation`, `CancellationSafety`, `CancellationProgress`, `CancellationAnswers`). Worker, deadline
thread and dispatcher of the MCP server as a state machine whose steps lie between accesses to shared state: safety of
interrupts, exactly one answer per request, the reason for every answer in the run, no deadlock, and a shutdown that
ends.

**Assembly** (`Assembly`, `AssemblyWords`, `AssemblyFacts`, `AsmIndexer`, `AssemblyResults`, `AssemblyJal`). Two token
state machines and the inference of function spans, proved against a grammar that looks ahead instead of keeping state.
`AssemblyJal` compares that grammar with one that loses no call.

**Codecs and readers.** UTF-16 columns (`Utf16`, `Utf16Results`), compiled output formats (`Format`, `FormatOutput`,
`FormatFields`), bounded source ranges read in two ways (`SourceRange`), packed argument vectors and their JSON
(`Arguments`, `JsonExport`), with their loops proved against recursive definitions.

`Index` holds the in-memory index of one translation unit, `Wrappers` the optional value.

## Assumptions

- Statements about the cache assume `AllAgree`: equal fingerprints of two requests stand for equal staged content.
  `FingerprintsIdentifyContent` derives this from a collision-free digest, non-zero ids for non-empty USRs, and one
  owner per non-empty USR.
- The primary keys leave out `context`, the ids of USRs and `local` of records, and `name` and `variadic` of function
  types. Equality on those columns is claimed only when no stored path is shared by two file indexes (`DistinctPaths`).
- Freshness, main-file replacement over runs, and commutation assume that paths are not empty and that a file with
  staged records has a non-zero record count, which `FingerprintsCountRecords` derives.
- A cursor's JSON is assumed to be read back as it was written (`Lossless`), row by row, in the equivalences of
  `Paging`. LLVM's writer replaces bytes that are not UTF-8, so the rows affected are those with a variant, path, symbol
  or type that is not UTF-8. `PagingUtf8` assumes it for UTF-8 only (`KeepsUtf8`), and asks only the rows that close a
  page to be UTF-8. `CallPagesPartition` assumes nothing about the JSON.
- Stored rows hold enumerators and 32-bit unsigned positions (`StoredRecord`, `StoredType`, `StoredFunction`).
- The assembly token count fits a `size_t`.

## Findings

- `tools/mcp/mcp_callgraph_tools.cpp:195-198`: `cyclesDetected` is sound but not complete (`CrossCycleIsMissed`).
  Within the limits it is set exactly when a function in range calls one on its own discovery path
  (`CycleReportedIffCallBack`), which covers every call of a function to itself or back to the root
  (`ReturnsInRangeAreReported`).
- `lib/semindex_database/index_db_reader.c:721-722`: a call outside of any function has a caller without a name, and
  descending to it fails the whole recursive query (`NamelessCallerFails`). Within the limits that is exactly when the
  query fails (`FailsExactlyWhenNameless`).
- `lib/semindex_database/index_db_reader.c:74-92`: record paging stops at a row at line or column 0 or with an empty
  name exactly when that row closes a page (`RecordPagesPartition`, `LineZeroStops`).
- `lib/semindex_parser/index_asm.cpp:155-177`: the token behind `jal TARGET` is consumed unread, so an instruction that
  begins there is lost, and so is a `jal` whose target ends the stream (`AdjacentJalIsLost`, `LossIsExact`).
- `tools/lsp/lsp_source.cpp:121-140`: on a line of more than 4 GiB a surrogate pair that begins at unit 2^32-2 makes
  the counter wrap to 0 when `character` is 2^32-1, so that the search goes on and answers with a place at least 2^32
  units further (`WrapFindsLaterPlace`). `OffsetExactly` and `InsidePair` say exactly when, `OffsetRoundTrip` which
  places are still found from their length. Every front that the server measures itself leads back to its byte when the
  line decodes up to there (`MeasuredFrontRoundTrip`).

## Model

| member | source | states |
|---|---|---|
| `WriterProtocol.SerialisableRefinement` | lib/semindex_index_db/index_db_writer.c:1262-1386 | for any number of writers and any interleaving of stage, merge, stale retry and abort, the shared tables are those of the committed writers' cache-free stores in commit order, each writer once: all keys, property masks, fingerprints and files, and every other column too when no path is shared by two file indexes |
| `WriterProtocol.CacheSoundAlways` | lib/semindex_index_db/index_db_writer.c:961-992 | in every reachable state each stored fingerprint has all row keys and property bits of its content in the tables, for its file |
| `WriterProtocol.OneRetryIsEnough` | lib/semindex_index_db/index_db_writer.c:1333-1375 | a writer that re-staged after a stale hit commits at its next merge, whatever others committed in between |
| `WriterProtocol.StoresGoOn` | lib/semindex_index_db/index_db_writer.c:1333-1375 | an undisturbed store commits at its first merge; a disturbed one commits or is found stale and re-stages |
| `WriterProtocol.CommitIsFullStore` | lib/semindex_index_db/index_db_writer.c:1200-1246 | a merge that passes the re-check leaves what the cache-free store leaves |
| `WriterProtocol.RunKeepsInv` | lib/semindex_index_db/index_db_writer.c:1262-1386 | every run keeps the protocol invariant behind the three statements above |
| `EndToEnd.IndexedWritersAreSerialisable` | lib/semindex_index_db/index_db_writer.c:1262-1386 | the same from an empty database with the premises of the indexer: collision-free digest, non-zero ids for non-empty USRs, one owner per non-empty USR |
| `CacheSoundness.CachedMergeIsFullStore` | lib/semindex_index_db/index_db_writer.c:1108-1193 | merging a staging that left cached files out equals merging the whole staging, as long as every hit is still valid |
| `CacheSoundness.FullStoreKeepsCacheSound` | lib/semindex_index_db/index_db_writer.c:1108-1193 | a store keeps the cache invariant although it deletes and replaces rows of files whose metadata changed |
| `CacheSoundness.FullStoreStoresContent` | lib/semindex_index_db/index_db_writer.c:1151-1193 | after a store the content behind every fingerprint it stored is in the tables |
| `CacheSoundness.ValidHitsAreStored` | lib/semindex_index_db/index_db_writer.c:1006-1036 | a cache hit that passes the re-check has its content stored and its file is not among those whose rows are deleted |
| `RowLemmas.StageItemsFlat` | lib/semindex_index_db/index_db_writer.c:650-847 | the staging tables hold the first row of each key and the union of the masks, of all records that are not skipped |
| `StoreResults.MainReplacement` | lib/semindex_index_db/index_db_writer.c:1108-1193 | after a store the main file's rows are exactly this store's first-staged rows, its masks the union of the staged ones, and it has no fingerprint |
| `StoreResults.StoreFrame` | lib/semindex_index_db/index_db_writer.c:1108-1193 | the cache-free store changes nothing about a file of another variant or one that was not staged |
| `WriterRuns.StepFrame` | lib/semindex_index_db/index_db_writer.c:1108-1193 | in every reachable state no step of a writer, a cached or retried merge included, changes anything about files of other variants or files that it did not stage |
| `StagedFiles.StagedFileIs` | lib/semindex_index_db/index_db_writer.c:854-960 | staging_files read off the request: the paths of entries with records and the main path; mtime and size of the last such entry's stat() or of the main file's, 0 and 0 without one; main exactly for the main path or the same device and inode; that entry's fingerprint unless main |
| `StoreResults.ChangedReplacement` | lib/semindex_index_db/index_db_writer.c:1111-1143 | a store replaces the rows, masks and fingerprints of every file that it found with another mtime or size than stored |
| `StoreResults.LaterStoreReplaces` | lib/semindex_index_db/index_db_writer.c:1111-1143 | two stores whose stat() of a shared file differs in mtime or size leave for it only what the later one staged, and the later metadata |
| `CacheUse.StageMarks` | lib/semindex_index_db/index_db_writer.c:961-992 | a file is marked cached exactly when the database holds its path with the mtime, non-zero, and size found now, and its fingerprint; never the main file |
| `CacheUse.RepeatedStoreIsCached` | lib/semindex_index_db/index_db_writer.c:961-992 | a store repeated at once skips every file but the main one whose mtime is known |
| `StoreResults.StagedRowsHaveFiles` | lib/semindex_index_db/index_db_writer.c:880-891 | the path of every staged row is a staged file: files without counted records are the only ones left out |
| `StoreQueries.RecordsAfterStore` | lib/semindex_index_db/index_db_writer.c:495-529 | the records of a rewritten file (main, changed or new) are exactly those of the symbols and uses in it, column by column: qualified name, kind, position, definition, context, ids only with a USR |
| `StoreQueries.TypesAfterStore` | lib/semindex_index_db/index_db_writer.c:531-587 | its types are exactly those of the symbols with a USR and a type, kind -1 without a type id |
| `StoreQueries.FunctionsAfterStore` | lib/semindex_index_db/index_db_writer.c:757-825 | its signature rows are exactly the return type at -1 and the k-th parameter at k of the signatures with a USR |
| `StoreQueries.MasksAfterStore` | lib/semindex_index_db/index_db_writer.c:589-618 | its masks hold exactly the property bits of the symbols with a USR and properties |
| `StoreQueries.MaskRoundTrip` | lib/semindex_index_db/index_db_writer.c:589-618 | a 64-bit mask and its set of bits determine each other |
| `StoreQueries.QualifiedIs` | lib/semindex_index_db/index_db_writer.c:473-485 | the stored name is the owner, `::` or `.` depending on a `::` in the owner, and the name; the bare name without an owner |
| `QualifiedNames.LeafOfQualified` | tools/lsp/lsp_source.cpp:228-241 | the short name that the language server cuts off a stored name is the symbol's own name exactly when that has no separator and does not begin with a colon behind `::` |
| `QualifiedNames.QualifiedLeaf` | tools/lsp/lsp_source.cpp:228-241 | the pointer loop returns what is behind the last `.` or `::` |
| `QueriesAfterStore.SignatureIsShown` | lib/semindex_index_db/index_db_writer.c:757-825 | store to query: of a rewritten file, a complete walk over the signature of its only function of that identity shows exactly the return type at -1 and parameter k at k, names included |
| `QueriesAfterStore.CallIsShown` | lib/semindex_index_db/index_db_writer.c:725-755 | store to query: a call use in a rewritten file is shown among the callers of its target and among the callees of its context, as long as no other record with its primary key names other functions |
| `StoreResults.RowAfter` | lib/semindex_index_db/index_db_writer.c:1151-1180 | at each key a table holds the row it kept, else the first one this store staged |
| `StoreResults.PropertiesAfter` | lib/semindex_index_db/index_db_writer.c:1181-1188 | at each key the mask is the kept one joined with the staged ones |
| `StoreResults.FingerprintAfter` | lib/semindex_index_db/index_db_writer.c:1189-1193 | a fingerprint is stored exactly when it was kept or staged |
| `WriterRuns.RunsAreFresh` | lib/semindex_index_db/index_db_writer.c:1111-1150 | over whole runs every row, property bit and fingerprint of a file was contributed by a committed store whose own stat() of the file gave exactly the mtime and size that the file's row holds now (0 and 0 without a stat()) |
| `WriterRuns.CommitReplacesMain` | lib/semindex_index_db/index_db_writer.c:924-952 | main-file replacement for the merge that actually runs, cached and possibly retried, in every reachable state |
| `WriterRuns.CommitReplacesChanged` | lib/semindex_index_db/index_db_writer.c:1111-1143 | whichever merge of whichever run commits, it replaces every file whose stat() differs in mtime or size from what the database holds at that moment |
| `WriterRuns.StoresCommute` | lib/semindex_index_db/index_db_writer.c:1108-1193 | two stores of one variant, neither of which stages the other's main file and which agree on the metadata of shared files, leave the same keys, masks, fingerprints and files in either order |
| `WriterRuns.RunHasFiles` | lib/semindex_index_db/index_db_writer.c:1108-1110 | every row in a reachable database belongs to a row of `files` |
| `Writer.Writer.InsertStagedFiles` | lib/semindex_index_db/index_db_writer.c:872-952 | the loop over file fingerprints and the main file's upsert leave the specified staging_files |
| `Writer.Writer.CollectHits` | lib/semindex_index_db/index_db_writer.c:975-992 | the flags array marks exactly the ordinals of cached files |
| `Writer.Writer.StageFiles` | lib/semindex_index_db/index_db_writer.c:854-1004 | staging_files with the valid hits of the shared database marked, and the flags to match |
| `Writer.Writer.StageRecords` | lib/semindex_index_db/index_db_writer.c:650-847 | the three loops stage the rows of every record that is neither local by option nor in a cached file |
| `Writer.Writer.StageSymbol` | lib/semindex_index_db/index_db_writer.c:683-735 | one symbol: skipped, or its record, type row and property mask |
| `Writer.Writer.StageUse` | lib/semindex_index_db/index_db_writer.c:737-776 | one use: skipped, or its record |
| `Writer.Writer.StageSignature` | lib/semindex_index_db/index_db_writer.c:778-835 | one signature: skipped without a USR, or its return row and parameter rows in order |
| `Writer.Writer.MergeStaging` | lib/semindex_index_db/index_db_writer.c:1086-1260 | the re-check decides; a stale hit changes nothing, otherwise the twelve statements leave the specified database |
| `Writer.IndexDbStore` | lib/semindex_index_db/index_db_writer.c:1262-1386 | one call, whatever databases its two merges meet: it ends merged, with one retry at most, in the state the protocol gives |
| `Fingerprints.StreamInjective` | lib/semindex_parser/index_context.cpp:45-130 | the byte stream hashed for a file is injective on lists of normalised records and signatures: different streams can only collide in the hash |
| `Fingerprints.SameFieldsSameRows` | lib/semindex_parser/index_context.cpp:64-130 | equal hashed fields give equal staged rows, given non-zero ids and one owner per non-empty USR (the owner of a signature is not hashed) |
| `Fingerprints.FingerprintsIdentifyContent` | lib/semindex_parser/index_context.cpp:452-541 | with a collision-free digest equal fingerprints stand for equal staged content of their files |
| `Fingerprints.FingerprintsCountRecords` | lib/semindex_parser/index_context.cpp:86-107 | a file with any staged record has a non-zero record count |
| `Fingerprints.FingerprintsCountOnlyRecords` | lib/semindex_parser/index_context.cpp:452-541 | a file's record count is positive if and only if some record of it is hashed |
| `Fingerprints.LittleEndianInjective` | lib/semindex_parser/index_context.cpp:45-54 | the integer encoding is injective on its width |
| `FingerprintBuilder.ForkStep` | lib/semindex_parser/index_context.cpp:86-107 | one record keeps the two accumulators those of the non-local records and of all records, although the second is forked at the first local record only |
| `FingerprintBuilder.RebuildFingerprints` | lib/semindex_parser/index_context.cpp:452-541 | for every file the first digest and count are those of the non-local subsequence, the second those of the whole sequence |
| `FingerprintBuilder.UpdateFingerprints` | lib/semindex_parser/index_context.cpp:86-107 | one record updates the state as the specification says, fork included |
| `FingerprintBuilder.UpdateFunctionSignatureFingerprint` | lib/semindex_parser/index_context.cpp:132-142 | one signature goes to both accumulators, or to the only one |
| `FingerprintBuilder.HashInteger` | lib/semindex_parser/index_context.cpp:45-54 | the byte loop absorbs the little-endian encoding of 64 bits |
| `FingerprintBuilder.HashString` | lib/semindex_parser/index_context.cpp:56-62 | length, then bytes; NULL as the empty string |
| `FingerprintBuilder.HashRecord` | lib/semindex_parser/index_context.cpp:64-84 | a record is absorbed as its fields in order |
| `FingerprintBuilder.HashFunctionSignature` | lib/semindex_parser/index_context.cpp:109-130 | a signature is absorbed as its fields and parameters in order |
| `CallGraphResults.UntruncatedIsExact` | tools/mcp/mcp_callgraph_tools.cpp:137-228 | an untruncated answer holds the call rows of all functions at distance less than the depth bound, each once (as multisets), with depth shortest distance plus one |
| `CallGraphResults.TruncatedIffTooMuch` | tools/mcp/mcp_callgraph_tools.cpp:87-108 | the answer is truncated if and only if more functions are within the depth bound than the node limit or more rows in range than the record limit |
| `CallGraphResults.TruncatedIsHonest` | tools/mcp/mcp_callgraph_tools.cpp:145-225 | truncated or not: record limit kept, every depth exact and at most the bound, depths never decreasing |
| `CallGraphListing.AnswerIsGathered` | tools/mcp/mcp_callgraph_tools.cpp:87-108 | every answer, truncated or not, within the limits or beyond, read off the graph: the admitted functions are the first ones in breadth-first order; each contributes those of the rows looked at that lead to admitted functions; the records are the first `limit` of these; `nodeLimitHit` exactly when a row looked at leads elsewhere; `truncated` exactly when that is so or more than the limit was contributed |
| `CallGraphListing.FrontWithinNodeLimit` | tools/mcp/mcp_callgraph_tools.cpp:137-228 | within the node limit the records are the first `limit` of all rows in range in breadth-first order, and `nodeLimitHit` is not set |
| `CallGraphListing.HigherLimitContinues` | tools/mcp/mcp_callgraph_tools.cpp:87-108 | within the node limit the answer has min(limit, rows in range) records, a higher limit continues it, and one that suffices shows all rows untruncated |
| `CallGraphListing.NodeLimitHitMeans` | tools/mcp/mcp_callgraph_tools.cpp:199-203 | a reported node limit is exceeded by the functions within the depth bound; an exceeded one is reported when the rows in range fit the record limit |
| `CallGraphResults.ReportedCyclesAreReal` | tools/mcp/mcp_callgraph_tools.cpp:195-198 | a reported cycle is a cycle of calls through a function within reach |
| `CallGraphResults.CycleReportedIffCallBack` | tools/mcp/mcp_callgraph_tools.cpp:145-225 | within the limits the cycle flag is set if and only if some function in range calls a function on its own discovery path, the path being read off the graph level by level |
| `CallGraphResults.ReturnsInRangeAreReported` | tools/mcp/mcp_callgraph_tools.cpp:195-198 | within the limits a call in range of a function to itself or back to the root sets the cycle flag |
| `CallGraphResults.RecordedReturnsAreReported` | tools/mcp/mcp_callgraph_tools.cpp:195-198 | beyond the limits too, an answer that holds such a call sets the flag |
| `CallGraphResults.CrossCycleIsMissed` | tools/mcp/mcp_callgraph_tools.cpp:195-198 | so not every cycle is reported: two functions of one level that call each other are answered without truncation and without the flag |
| `CallGraphOrder.DiscoveredWithin` | tools/mcp/mcp_callgraph_tools.cpp:145-225 | the breadth-first order defined from the graph lists, up to each level, exactly the functions within that many calls |
| `CallGraphOrder.PathHasEnds` | tools/mcp/mcp_callgraph_tools.cpp:145-150 | a discovery path holds the function itself and the root |
| `CallGraphOrder.VisitTraced` | tools/mcp/mcp_callgraph_tools.cpp:195-216 | one row keeps the queue in breadth-first order and the stored ancestors equal to the discovery paths |
| `CallGraphResults.CallersMirrorCallees` | tools/mcp/mcp_callgraph_tools.cpp:177-193 | among rows with both identities g is a callee of f exactly when f is a caller of g |
| `CallGraphResults.FailsExactlyWhenNameless` | lib/semindex_database/index_db_reader.c:721-722 | within the limits the search fails if and only if a function without a name is in range |
| `CallGraphResults.FailureNeedsNameless` | lib/semindex_database/index_db_reader.c:721-722 | beyond the limits too, it fails only then |
| `CallGraphResults.NamelessCallerFails` | lib/semindex_database/index_db_reader.c:721-722 | a call outside of any function makes the recursive query for the callers of its target fail |
| `CallGraphSearch.LevelsVisited` | tools/mcp/mcp_callgraph_tools.cpp:145-225 | once everything above a level was expanded without hitting the node limit, every function within that distance was visited |
| `CallGraphResults.TraverseEnds` | tools/mcp/mcp_callgraph_tools.cpp:145-225 | from any state of the search the loop ends with its invariant, or at a function without a name |
| `CallGraph.VisitRows` | tools/mcp/mcp_callgraph_tools.cpp:171-224 | visited functions never exceed the node limit, and each queued function was newly visited, which bounds the loop on cyclic graphs |
| `CallGraph.QueryCalls` | lib/semindex_database/index_db_reader.c:681-745 | the streamed query with the collector returns the function's rows in order, cut at the collector's limit; it fails exactly for an empty name |
| `CallGraph.VisitCollected` | tools/mcp/mcp_callgraph_tools.cpp:171-224 | the loop over the rows of one function, early exits included, is the specified fold |
| `CallGraph.RecursiveCallRecords` | tools/mcp/mcp_callgraph_tools.cpp:137-228 | the work loop returns the answer the other rows speak about |
| `Paging.RecordPagesPartition` | lib/semindex_database/index_db_reader.c:372-387 | following nextCursor of record queries, for any table, filter and limit: no duplicate, no gap, never endless; and the end is reached if and only if every row that closes a page has a position and no empty name |
| `Paging.TypePagesPartition` | lib/semindex_database/index_db_reader.c:472-577 | the same for declared types, where the walk always ends |
| `Paging.FunctionPagesPartition` | lib/semindex_database/index_db_reader.c:579-679 | the same for function signatures, where the walk always ends |
| `QueryResults.RecordWalkShows` | lib/semindex_database/index_db_reader.c:302-395 | a complete walk over records shows exactly the stored rows that satisfy the filter, each once |
| `QueryResults.TypeWalkShows` | lib/semindex_database/index_db_reader.c:472-577 | a complete walk over declared types shows exactly the stored rows with the identity's variant, symbol, kind and id, each once, declared types not decreasing |
| `QueryResults.FunctionWalkShows` | lib/semindex_database/index_db_reader.c:579-679 | a complete walk over a signature shows exactly the stored rows with the identity's variant, symbol and id, each once, positions not decreasing |
| `QueryResults.CallWalkShows` | lib/semindex_database/index_db_reader.c:681-745 | a complete walk over direct calls shows exactly the stored records 1/3/7 of the variant whose symbol and id (callers) or context and context id (callees) are the function's, each once, ordered by the function at the other end, path, line and column |
| `QueryResults.StreamedShows` | lib/semindex_database/index_db_reader.c:681-745 | so does the statement behind it |
| `QueryResults.DirectIsFirstLevel` | lib/semindex_database/index_db_reader.c:681-745 | the rows that the recursive query looks up for a function are those of the direct query, in the same order |
| `QueryResults.BadRequestsAreRefused` | tools/mcp/mcp_symbol_tools.cpp:440-491 | a limit out of range, or a cursor that is no hexadecimal JSON object, is refused by the three paged tools |
| `QueryResults.BadIdentitiesAreRefused` | tools/mcp/mcp_callgraph_tools.cpp:119-134 | an empty variant or symbol or a zero id is refused |
| `QueryResults.StrayCallCursorsAreRefused` | tools/mcp/mcp_callgraph_tools.cpp:252-256 | a cursor that no call of the function has is refused |
| `Paging.LineZeroStops` | lib/semindex_database/index_db_reader.c:74-92 | two records, the first at line 0, page size 1: the second one cannot be reached |
| `PagingUtf8.RecordPagesUtf8` | lib/semindex_database/index_db_reader.c:372-387 | whatever JSON makes of names that are not UTF-8: the walk over records ends and partitions them when each row that closes a page has a position and non-empty names of UTF-8 |
| `PagingUtf8.TypePagesUtf8` | lib/semindex_database/index_db_reader.c:472-577 | the same for declared types, when each row that closes a page has a path and types of UTF-8 |
| `PagingUtf8.FunctionPagesUtf8` | lib/semindex_database/index_db_reader.c:579-679 | the same for function signatures |
| `CallPaging.CallPagesPartition` | tools/mcp/mcp_callgraph_tools.cpp:230-258 | find_callers and find_callees of depth 1, any names and positions: some walk shows each call exactly once if and only if no row that closes a page shares its cursor with an earlier call (or has an empty one); then every walk is bounded and shows a front of the calls |
| `CallPaging.LosslessCallPages` | tools/mcp/mcp_callgraph_tools.cpp:230-258 | when cursors are read back as written this holds for every page size, for calls at line 0 and without a name too |
| `CallPaging.SharedCursorLoops` | tools/mcp/mcp_callgraph_tools.cpp:48-70 | two first calls with one cursor, page size 1: the walk repeats the second call for ever |
| `CallPaging.CollectCalls` | tools/mcp/mcp_callgraph_tools.cpp:48-70 | the callback skips the rows up to the first one with the cursor and stops with one more than the limit |
| `CallPaging.RunDirectCalls` | tools/mcp/mcp_callgraph_tools.cpp:230-258 | the direct branch computes the reply the partition theorem speaks about, error replies included |
| `PageWalk.AcceptedPagesPartition` | tools/mcp/mcp_tools.cpp:274-297 | as long as every closing row is accepted the walk ends and partitions the rows, whatever other cursors are answered with |
| `PageWalk.AllLimits` | tools/mcp/mcp_symbol_tools.cpp:232-271 | every page size works if and only if all rows but the last can be named by a cursor |
| `PageWalk.PagesPartition` | tools/mcp/mcp_tools.cpp:274-297 | for any tool that answers page by page: walks show a front of the ordered rows, are bounded, and end exactly when the closing rows are accepted |
| `Cursors.RecordCursorRoundTrip` | tools/mcp/mcp_symbol_tools.cpp:232-271 | a row's own cursor is parsed and valid exactly when the row has a position and no empty name, and then names the row's place in the order |
| `Cursors.TypeCursorRoundTrip` | tools/mcp/mcp_symbol_tools.cpp:144-175 | a type row's cursor names its place, identifiers above 2^63 included |
| `Cursors.FunctionCursorRoundTrip` | tools/mcp/mcp_symbol_tools.cpp:177-218 | the same for signature rows, return position -1 included |
| `Cursors.RecordOrderIsPrimary` | lib/semindex_database/index_db_reader.c:383-385 | the ORDER BY tuple of records determines and is determined by the primary key |
| `Cursors.TypeOrderIsPrimary` | lib/semindex_database/index_db_reader.c:481-482 | so does the tuple of types within one symbol |
| `Cursors.FunctionOrderIsPrimary` | lib/semindex_database/index_db_reader.c:592-594 | so does the tuple of signature rows within one function |
| `Cursors.TokenRoundTrip` | tools/mcp/mcp_tools.cpp:217-249 | a cursor object survives the hexadecimal layer |
| `Ordering.AfterCuts` | lib/semindex_database/index_db_reader.c:372-381 | a row-value comparison with the k-th key selects, in order, everything from row k on |
| `Ordering.OrderBySorts` | lib/semindex_database/index_db_reader.c:383-385 | ORDER BY returns the same rows in order |
| `Hex.HexRoundTrip` | tools/mcp/mcp_tools.cpp:180-215 | decodeHex undoes encodeHex |
| `Hex.DecodedShape` | tools/mcp/mcp_tools.cpp:195-215 | exactly the even-length texts of hexadecimal digits, in either case, are accepted |
| `Hex.EncodedOfDecoded` | tools/mcp/mcp_tools.cpp:195-215 | encoding what was decoded gives the text in lower case |
| `Hex.IdRoundTrip` | tools/mcp/mcp_tools.cpp:169-178 | parseId undoes idString for all 64-bit identifiers |
| `Hex.EncodeHex` | tools/mcp/mcp_tools.cpp:180-193 | the loop computes the specified encoding |
| `Hex.DecodeHex` | tools/mcp/mcp_tools.cpp:195-215 | the loop with its early exits computes the specified decoding |
| `Paging.EmitRecords` | lib/semindex_database/index_db_reader.c:113-161 | rows in order until the collector holds one more than the limit |
| `Paging.StreamTypes` | lib/semindex_database/index_db_reader.c:537-562 | rows in order up to the limit; no limit when it is zero |
| `Paging.BuildResult` | tools/mcp/mcp_tools.cpp:274-297 | drops the extra row and leaves a cursor to the last one kept |
| `Paging.RunSearch` | tools/mcp/mcp_symbol_tools.cpp:440-491 | the record tool computes the reply the partition theorem speaks about, error replies included |
| `Paging.RunDeclaredTypes` | tools/mcp/mcp_symbol_tools.cpp:611-662 | the same for declared types |
| `Paging.RunFunctionSignature` | tools/mcp/mcp_symbol_tools.cpp:664-712 | the same for signatures |
| `CancellationSafety.InterruptsAreSafe` | tools/mcp/mcp_tools.cpp:353-407 | in every interleaving an interrupt only goes to an open handle, and from the end of bind() until the handle is unbound it has been interrupted whenever a cancel() or the deadline thread has finished |
| `CancellationSafety.AnsweredExactlyOnce` | tools/mcp/mcp_server.cpp:331-434 | every accepted request is answered at most once, leaves the table only answered, and shares its identifier with no other unfinished request |
| `CancellationSafety.ControlOutlivesItsUsers` | tools/mcp/mcp_server.cpp:352-434 | when a request is gone its deadline thread has returned, no cancel() is inside it, its mutex is free and its handle closed |
| `CancellationSafety.StopIsReported` | tools/mcp/mcp_server.cpp:388-406 | a request that was undecided when it was cancelled answers Cancelled, and one that timed out Cancelled or DeadlineExceeded, whatever happens later; a payload without a tool call is refused as such |
| `CancellationSafety.ReportsAreHonest` | tools/mcp/mcp_tools.cpp:266-272 | no answer reports a cancellation or a deadline that did not happen |
| `CancellationSafety.RunKeeps` | tools/mcp/mcp_server.cpp:331-434 | every run keeps the invariant of all requests, the table and the dispatcher |
| `CancellationSafety.StopsTakeEffect` | tools/mcp/mcp_tools.cpp:353-366 | a request stopped before its tool opened the database never opens it; one stopped before bind() looked at the flags has its handle interrupted when bind() ends; one completed in time never times out |
| `CancellationSafety.CancellationsArrive` | tools/mcp/mcp_server.cpp:411-426 | once the dispatcher is done with a cancellation notice, or with a broken transport, the request named, or every unfinished request, has been cancelled |
| `CancellationAnswers.AnswersAreExplained` | tools/mcp/mcp_server.cpp:351-412 | every answer has its reason in the run: the payload held no tool call, or the worker decided, and answers the cancellation or deadline that it saw then and otherwise exactly what the tool said when it came back |
| `CancellationAnswers.UndisturbedAnswer` | tools/mcp/mcp_server.cpp:382-405 | a request neither cancelled nor timed out when it decides answers the outcome with which its tool came back (success, invalid parameters, unknown tool, database error), and the stop if it was stopped before its tool began |
| `CancellationAnswers.AcceptTakes` | tools/mcp/mcp_server.cpp:332-349 | a reading server takes every request whose identifier is not in use as new and unstopped, and refuses one whose identifier is |
| `CancellationAnswers.OnlyFailureCloses` | tools/mcp/mcp_server.cpp:493-541 | without a transport failure or the end of the input the server goes on reading |
| `CancellationProgress.NeverStuck` | tools/mcp/mcp_server.cpp:411-434 | no deadlock of the two mutexes, the join and the condition variables: while a request is unfinished, a cancel() under way or the server draining, some thread can take a step |
| `CancellationProgress.ShutdownCompletes` | tools/mcp/mcp_server.cpp:486-541 | once no more messages are read every run is finite, and one that cannot go on has stopped the server with an empty table and every request answered exactly once |
| `CancellationProgress.ShutdownIsBounded` | tools/mcp/mcp_server.cpp:486-541 | the number of steps left is bounded by a rank that every step lowers |
| `AsmIndexer.IndexTokens` | lib/semindex_parser/index_asm.cpp:28-69 | for every token stream: one function symbol per name with a label and a type, and the uses are the grammar's calls attributed to the containing functions |
| `AsmIndexer.AsmIndexer.Observe` | lib/semindex_parser/index_asm.cpp:28-50 | one token keeps the meaning of all state: whatever follows, what was found and what the states announce is what the grammar finds |
| `AsmIndexer.AsmIndexer.ObserveCall` | lib/semindex_parser/index_asm.cpp:138-190 | the call state machine takes the specified step |
| `AsmIndexer.AsmIndexer.ObserveType` | lib/semindex_parser/index_asm.cpp:197-266 | the directive state machine takes the specified step and keeps the tables |
| `AsmIndexer.AsmIndexer.AddFunctionType` | lib/semindex_parser/index_asm.cpp:282-286 | a type leaves the functions those of the directives so far |
| `AsmIndexer.AsmIndexer.AddLabel` | lib/semindex_parser/index_asm.cpp:288-292 | so does a label |
| `AsmIndexer.AsmIndexer.EndFunction` | lib/semindex_parser/index_asm.cpp:294-300 | so does an end |
| `AsmIndexer.AsmIndexer.TryAddFunction` | lib/semindex_parser/index_asm.cpp:302-326 | a name is emitted once, when both its label and its type are known |
| `AsmIndexer.AsmIndexer.InferEnds` | lib/semindex_parser/index_asm.cpp:54-62 | sorts the functions and fills in the missing ends |
| `AsmIndexer.AsmIndexer.ContainingFunction` | lib/semindex_parser/index_asm.cpp:328-341 | the early-exit loop finds the last function that spans the call |
| `AsmIndexer.AsmIndexer.Finish` | lib/semindex_parser/index_asm.cpp:52-69 | the functions are those of the stream with their ends closed, each call attributed |
| `AsmIndexer.CallStepMoves` | lib/semindex_parser/index_asm.cpp:138-190 | the call states stand for what the grammar still expects |
| `AsmIndexer.TypeStepMoves` | lib/semindex_parser/index_asm.cpp:197-273 | the directive states stand for what the grammar still expects, a broken-off directive included |
| `AssemblyWords.DirectInstruction` | lib/semindex_parser/index_asm.cpp:133-146 | `call`, `callq`, `bl`, `jbsr`, `bsr` before any stream: the next identifier is the target |
| `AssemblyWords.JalInstruction` | lib/semindex_parser/index_asm.cpp:155-177 | `jal TARGET` and `jal LINK, TARGET` before any stream |
| `AssemblyWords.BraslInstruction` | lib/semindex_parser/index_asm.cpp:148-153 | `brasl`: the identifier behind the next comma is the target |
| `AssemblyWords.OtherWord` | lib/semindex_parser/index_asm.cpp:179-190 | no other word calls anything |
| `AssemblyWords.TypeDirective` | lib/semindex_parser/index_asm.cpp:254-262 | `.type NAME, MARKER` makes a function exactly for `function`, `@function`, `%function`, `#function`, `STT_FUNC` |
| `AssemblyWords.PrefixedDirective` | lib/semindex_parser/index_asm.cpp:259-272 | `.type NAME, PREFIX WORD` with `@`, `%` or `#` does so exactly for the word `function` |
| `AssemblyWords.EntAndEnd` | lib/semindex_parser/index_asm.cpp:203-232 | `.ent NAME` makes a function and `.end NAME` ends it |
| `AssemblyJal.LossIsExact` | lib/semindex_parser/index_asm.cpp:155-177 | against a grammar that reads the token behind jal TARGET again and keeps a target at the end: calls are lost if and only if some jal that is read has its target last or directly followed by a mnemonic, as long as that mnemonic begins an instruction |
| `AssemblyJal.CleanStreamsLoseNothing` | lib/semindex_parser/index_asm.cpp:155-177 | no call is lost from a stream in which no jal target is last or directly followed by a mnemonic |
| `AssemblyJal.AdjacentJalIsLost` | lib/semindex_parser/index_asm.cpp:155-177 | of two adjacent jal instructions the second is lost, and so is a jal that ends the stream |
| `AssemblyJal.BareMnemonicLosesNothing` | lib/semindex_parser/index_asm.cpp:155-177 | a mnemonic without a target may follow without a loss, which is why the equivalence asks for an instruction |
| `AssemblyFacts.CallsPlaced` | lib/semindex_parser/index_asm.cpp:138-195 | call targets are identifier tokens at strictly increasing places |
| `AssemblyFacts.DirectivesBetween` | lib/semindex_parser/index_asm.cpp:197-266 | a directive stands at least two tokens into the stream, so its place is never the unset marker 0 |
| `AssemblyFacts.BeginsDiffer` | lib/semindex_parser/index_asm.cpp:288-292 | no two functions begin at one token |
| `AssemblyResults.SpansAreOrdered` | lib/semindex_parser/index_asm.cpp:52-62 | after finish() every span ends behind its beginning, at the marked end, the next beginning, or the largest size |
| `AssemblyResults.UnsetIsNoEnd` | lib/semindex_parser/index_asm.cpp:57-60 | the comparison with the beginning finds exactly the functions whose end nothing marks, even for a label at token 0 |
| `AssemblyResults.ContainingIsNearest` | lib/semindex_parser/index_asm.cpp:328-341 | a call belongs to the function with the greatest beginning among those whose span contains it |
| `AssemblyResults.InferredStopsAtNext` | lib/semindex_parser/index_asm.cpp:328-341 | a function with an inferred end takes no call at or past the next function's beginning |
| `AssemblyResults.UsesAreCalls` | lib/semindex_parser/index_asm.cpp:64-69 | the emitted uses are exactly the calls that lie in a function, with that function as context |
| `AssemblyResults.FunctionsAreUnique` | lib/semindex_parser/index_asm.cpp:52-69 | a stream has one list of functions |
| `Utf16Results.OffsetIsInverse` | tools/lsp/lsp_source.cpp:121-156 | below 4 GiB byteOffset and utf16Length are inverse: the offset of a column is the place reached by decoding whose length is the column |
| `Utf16Results.ColumnRoundTrip` | tools/lsp/lsp_source.cpp:121-140 | if a column has an offset, the text before it has that length, wrap-around of `unsigned` included |
| `Utf16Results.OffsetExactly` | tools/lsp/lsp_source.cpp:121-140 | for every text and column: an offset is returned if and only if it is the place with that many units or, at column 2^32-1, the first place whose wrapped count is 2^32-1 |
| `Utf16Results.OffsetRoundTrip` | tools/lsp/lsp_source.cpp:121-156 | a place reached by decoding is found from its length if and only if fewer than 2^32 units are before it, or it is the first place whose wrapped count is 2^32-1 |
| `Utf16Results.MeasuredFrontRoundTrip` | tools/lsp/lsp_source.cpp:243-263 | the `character` sent for a stored column leads back to the same byte if and only if the line decodes up to there, and then to the same column |
| `Utf16Results.InsidePair` | tools/lsp/lsp_source.cpp:131-135 | a column between two surrogates has an offset if and only if it is 2^32-1 and some place of the line wraps to it |
| `Utf16Results.WrapFindsLaterPlace` | tools/lsp/lsp_source.cpp:121-140 | 2^32-2 ASCII bytes, a pair and 2^32-1 ASCII bytes: column 2^32-1, inside the pair, is answered with the end of the line |
| `Utf16Results.WrapBreaksRoundTrip` | tools/lsp/lsp_source.cpp:142-156 | utf16Length alone: 2^32 ASCII bytes have length 0, which leads back to the beginning |
| `Utf16Results.LengthWithinBytes` | tools/lsp/lsp_source.cpp:142-156 | no text is longer in UTF-16 units than in bytes, malformed ones included |
| `Utf16Results.LengthOfEncoding` | tools/lsp/lsp_source.cpp:142-156 | for UTF-8 of scalar values (RFC 3629) the length is the number of UTF-16 code units (RFC 2781) |
| `Utf16Results.CharacterColumn` | tools/lsp/lsp_source.cpp:121-140 | the code units before a character, as long as `unsigned` counts them, lead back to its first byte |
| `Utf16Results.NextOfEncoding` | tools/lsp/lsp_source.cpp:83-119 | the encoding of every scalar value decodes to it |
| `Utf16Results.AcceptedEncodings` | tools/lsp/lsp_source.cpp:83-119 | what the decoder accepts is the encoding of its value exactly when it has that length |
| `Utf16Results.OverlongIsAccepted` | tools/lsp/lsp_source.cpp:83-119 | an overlong form is accepted |
| `Utf16.NextCodePoint` | tools/lsp/lsp_source.cpp:83-119 | the byte loop decodes as specified |
| `Utf16.ByteOffset` | tools/lsp/lsp_source.cpp:121-140 | the counting loop, with 32-bit counters, finds the specified offset |
| `Utf16.Utf16Length` | tools/lsp/lsp_source.cpp:142-156 | the counting loop gives the specified length; a malformed text counts as its bytes |
| `FormatOutput.IndexDbOutput.CompileFormat` | lib/semindex_index_db/index_db_output.c:176-241 | accepts exactly the formats that read well character by character, and then the tokens, at most as many as characters, stand for those pieces |
| `FormatOutput.IndexDbOutput.Write` | lib/semindex_index_db/index_db_output.c:363-432 | executing the tokens writes what interpreting the format character by character writes, a failing field stops both at the same place |
| `FormatOutput.IndexDbOutput.AddText` | lib/semindex_index_db/index_db_output.c:143-154 | a run of plain characters becomes one token, an empty one none, inside the array |
| `FormatOutput.IndexDbOutput.Append` | lib/semindex_index_db/index_db_output.c:156-174 | one more token stands for one more piece, inside the array |
| `FormatOutput.IndexDbOutput.ParseField` | lib/semindex_index_db/index_db_output.c:116-141 | finds the field and its closing brace, or the format is malformed |
| `FormatOutput.IndexDbOutput.FindField` | lib/semindex_index_db/index_db_output.c:101-114 | the table loop finds the named field |
| `FormatOutput.FieldsHaveNames` | lib/semindex_index_db/index_db_output.c:52-65 | each of the twelve fields is found by its name and by no other |
| `FormatFields.FieldPrints` | lib/semindex_index_db/index_db_output.c:388-425 | `%{name}` prints what the record says, numbers as their shortest numeral, which reads back as the number; only an unreadable source line fails |
| `FormatFields.DecimalReads` | lib/semindex_index_db/index_db_output.c:398-403 | the digits printed for a number read back as it, without leading zeros |
| `FormatFields.EscapeWrites` | lib/semindex_index_db/index_db_output.c:197-219 | `\t`, `\r`, `\n` write tab, carriage return and newline, any other escaped character itself |
| `FormatFields.AnyTextIsWritten` | lib/semindex_index_db/index_db_output.c:174-244 | every text has a format that writes it for every record |
| `FormatOutput.PlainPieces` | lib/semindex_index_db/index_db_output.c:191-198 | a run without special characters reads as its characters |
| `FormatOutput.TokenRenders` | lib/semindex_index_db/index_db_output.c:370-428 | one token writes its own text after the text so far |
| `FormatOutput.FailureIsFinal` | lib/semindex_index_db/index_db_output.c:424-426 | after a failed field nothing more is written |
| `SourceRange.RangeIsLongest` | lib/semindex_source/source_resolver.cpp:73-141 | the result is the longest front of the line window whose lines and newlines fit the byte limit; the flag is set exactly when a window line is missing |
| `SourceRange.ReadRange` | lib/semindex_source/source_resolver.cpp:73-101 | the stream reader computes that range without underflow of the remaining limit |
| `SourceRange.ReadBlobRange` | lib/semindex_source/source_resolver.cpp:110-141 | so does the reader of a blob in memory |
| `SourceRange.SkipBlobLine` | lib/semindex_source/source_resolver.cpp:103-108 | the place behind the next newline |
| `SourceRange.LinesComeBack` | lib/semindex_source/source_resolver.cpp:83-98 | a line of the range is the content's line without its carriage return when it ends in one, and unchanged otherwise |
| `SourceRange.LinesJoin` | lib/semindex_source/source_resolver.cpp:73-101 | the lines are the content cut at its newlines; the last one may lack its own |
| `Arguments.PackArguments` | lib/semindex_command_db/command_db_writer.c:105-138 | the two loops fill a block of the summed size with the packed strings; no block exactly when the size overflows |
| `Arguments.Command.UnpackArguments` | lib/semindex_command_db/command_db_reader.c:20-52 | accepts exactly non-empty blobs that end in a terminator, and argv points to the blob's strings in order |
| `Arguments.Command.FillArgv` | lib/semindex_command_db/command_db_reader.c:44-47 | the running offset visits every string |
| `Arguments.PackRoundTrip` | lib/semindex_command_db/command_db_reader.c:20-52 | unpacking the packed form of NUL-free strings, empty ones included, gives them back; it is accepted exactly when there is one |
| `Arguments.UnpackRoundTrip` | lib/semindex_command_db/command_db_writer.c:105-138 | packing the strings of an accepted blob gives the blob |
| `Arguments.AcceptedBlobs` | lib/semindex_command_db/command_db_reader.c:28-29 | the accepted blobs are exactly the packed non-empty vectors |
| `JsonExport.Output.WriteArguments` | lib/semindex_command_db/command_db_export.c:61-89 | splits the blob into the same strings and writes them as an array; fails exactly when the last string is not terminated |
| `JsonExport.Output.WriteJsonString` | lib/semindex_command_db/command_db_export.c:10-59 | the byte loop writes the specified string |
| `JsonExport.StringRoundTrip` | lib/semindex_command_db/command_db_export.c:10-59 | by section 7 of RFC 8259 a written string decodes to its own bytes, whatever follows it |
| `JsonExport.ArgumentsRoundTrip` | lib/semindex_command_db/command_db_export.c:61-89 | a JSON reader finds in an exported vector exactly the strings of its blob |
| `JsonExport.ExportRoundTrip` | lib/semindex_command_db/command_db_export.c:61-89 | pack, export, read: the arguments come back |

## Left out

- SQLite: transactions are atomic steps and statements are operations on maps; busy retries, journals and query plans
  are not modelled. GLOB and equality filters are an arbitrary predicate.
- `files.id`: a file is identified by its variant and path, which the schema keeps unique.
- Property masks are sets of bit numbers, so that OR is union.
- Failed statements, failed allocations and failed `stat` calls of a store are the Abort step, which changes nothing;
  metadata of a file that cannot be read is 0, as in the code.
- Variant metadata (repository root, commit), trace counters, schema creation and versions.
- Path canonicalisation, `realpath` and `stat`: paths and metadata are given by the request.
- The hash functions: only the bytes they absorb are modelled.
- The Clang and preprocessor visitors that produce the index.
- CallGraph: cancellation during the search and database errors other than the empty name.
- Paging: what JSON makes of names that are not UTF-8 is open; a record, type or signature walk in which such a row
  closes a page is not described by the theorems of `PagingUtf8`.
- Paging: changes of the database between two pages; `stopped()` inside the collectors.
- Paging: argument parsing other than the limit, the cursor and the identity.
- Cancellation: what the tools compute; a tool is one step with any status. The clock is a step that sets `expired`.
- Cancellation: JSON-RPC messages other than tool calls and cancellations, and failures of single writes, which only set
  a flag that the dispatcher reads as Fail.
- AsmIndexer: source locations, and the fixed fields of the emitted symbol and use.
- AsmIndexer.AsmIndexer.InferEnds: `std::sort` is an insertion sort on values; begins differ, so the result is the same.
- FormatOutput: the cache of the open source file behind `%{source}`; a line is given or cannot be read. Stream errors.
- FormatOutput: the name tables of modes and kinds, which the record carries as text.
- SourceRange: opening files, Git objects, and the comparison of metadata before and after.
- JsonExport: stream errors, and the objects around the argument arrays.
- LSP lifecycle, daemon, watcher, MCP transport, pointer analysis and command-line front ends.
