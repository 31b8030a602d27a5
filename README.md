# Agentic RAG document pipeline: a Dafny model

This project models the sequential core of the agentic-rag-demo agent and proves properties about it. That core is the logic that turns an uploaded file into searchable vectors and removes it again:

- **Text processing** (`TextProcessing`): file-type detection, the strip check after extraction, and the sliding-window chunker with its backward search for a break point.
- **Embeddings client** (`EmbeddingsClient`): input truncation to 30,000 characters, the retry loop that retries only throttling errors (at most six calls per text), and the order-preserving batch.
- **Vector search** (`VectorSearch`): building one record per chunk under the key `"{document_id}#{i}"`, storing the records in batches of 500, and deleting them by regenerating the same keys.
- **Document manager** (`DocumentManager`): the object keys in the documents bucket, and the stages of `upload_document`, `delete_document` and `list_documents`.
- **Configuration** (`Config`): the `.env`, SSM and environment loaders and their merge, settings construction, required-field validation, and the settings cache.

The services the code calls are modelled as classes: the documents bucket (S3), the vector index (S3 Vectors) and the embedding model (Bedrock). Each holds its state, together with a fixed map from call number to the error that call raises. The bucket also holds, per call, the keys a `delete_objects` response reports as not deleted; `delete_document` never reads that list, so such objects stay while the tool reports the folder cleaned up. The upload, delete and list tools are methods over these classes. Each tool method's contract says exactly what each call number does to the state and which outcome the tool reports. `Strings` models the Python string operations the core relies on: `strip`, `rfind`, `rsplit`, `lower`, `int()` and decimal formatting. `Wrappers` holds `Option` and `Result`.

The chunker's tail deserves a note. Once a window reaches the end of the text, the next start is still `len - chunk_overlap`. When that start lies past the window's start, a further window is emitted. A 12,000-character text without separators, chunked with size 5000 and overlap 1000, therefore gives four windows (`TextProcessing.TailWindow`).

## Model

| member | source | states |
|---|---|---|
| Strings.Strip | agent/src/agentic_rag/text_processing.py:88 | `str.strip()`: the result is no longer than the input and neither starts nor ends with whitespace |
| Strings.StripBlank | agent/src/agentic_rag/text_processing.py:88-91 | stripping gives the empty string exactly when the text is all whitespace |
| Strings.StripIsSlice | agent/src/agentic_rag/text_processing.py:131 | the stripped text is a slice of the original with only whitespace before and after it |
| Strings.AllSpaceConcat | agent/src/agentic_rag/text_processing.py:131-132 | a concatenation is blank exactly when both parts are |
| Strings.RFind | agent/src/agentic_rag/text_processing.py:164 | `str.rfind`: -1, or an occurrence with no later occurrence |
| Strings.RFindBefore | agent/src/agentic_rag/text_processing.py:164 | the search below a bound finds the last occurrence below it |
| Strings.RFindAbsent | agent/src/agentic_rag/text_processing.py:164-165 | a pattern whose first character never occurs is not found |
| Strings.IndexOf | agent/src/agentic_rag/tools/document_manager.py:200 | the first position of a character, -1 exactly when it does not occur |
| Strings.IndexOfAfter | agent/src/agentic_rag/tools/document_manager.py:200 | in `p + c + rest` with no `c` in `p`, the first `c` is at `|p|` |
| Strings.AfterLast | agent/src/agentic_rag/config.py:114 | `rsplit(sep, 1)[-1]`: the text after the last separator, which holds no separator, or the whole text |
| Strings.ToLower | agent/src/agentic_rag/text_processing.py:54 | `str.lower()` character by character, keeping the length |
| Strings.Decimal | agent/src/agentic_rag/tools/vector_search.py:67 | decimal formatting of a natural: digits only, one digit exactly below 10 |
| Strings.DecimalInjective | agent/src/agentic_rag/tools/vector_search.py:67 | different numbers format differently |
| Strings.DigitsOfDecimal | agent/src/agentic_rag/config.py:190 | reading back a formatted number gives the number |
| Strings.ParseInt | agent/src/agentic_rag/config.py:190 | `int()` on text: a result only for text that is not blank |
| Strings.ParseDecimal | agent/src/agentic_rag/config.py:190 | `int()` reads a decimal surrounded by whitespace as its value |
| Strings.StripAround | agent/src/agentic_rag/config.py:190 | stripping removes exactly the surrounding whitespace |
| Strings.StripLeading | agent/src/agentic_rag/config.py:190 | leading whitespace does not change the stripped text |
| Strings.StripTrailing | agent/src/agentic_rag/config.py:190 | trailing whitespace after a stripped text is removed |
| TextProcessing.ContentTypeLookup | agent/src/agentic_rag/text_processing.py:13-18 | the four supported content types (PDF, DOCX, plain text, Markdown) and the file type each names; any other content type is unknown |
| TextProcessing.ExtensionLookup | agent/src/agentic_rag/text_processing.py:20-25 | the extensions `.pdf`, `.docx`, `.txt` and `.md` and the file type each names; any other extension is unknown |
| TextProcessing.DetectFileType | agent/src/agentic_rag/text_processing.py:38-61 | a known content type wins; without a `.` and a known content type the type is unsupported; every failure is the unsupported-type error |
| TextProcessing.AfterLastOfSuffix | agent/src/agentic_rag/text_processing.py:54 | the text after the last separator of `p + sep + r`, with no separator in `r`, is `r` |
| TextProcessing.DetectByExtension | agent/src/agentic_rag/text_processing.py:51-61 | with an unknown content type, the lower-cased extension after the last `.` decides, and an unknown one is rejected |
| TextProcessing.ExtractText | agent/src/agentic_rag/text_processing.py:64-94 | detection errors and extractor failures propagate; all-blank output is the no-text error; otherwise the stripped output, which is non-empty and stripped |
| TextProcessing.FindBreakIn | agent/src/agentic_rag/text_processing.py:163-172 | the separator loop returns a position inside the search range |
| TextProcessing.FindBreakInNone | agent/src/agentic_rag/text_processing.py:163-172 | with no separator in the range the break is at `end` |
| TextProcessing.FindBreakInFirst | agent/src/agentic_rag/text_processing.py:163-170 | the first separator in priority order that occurs decides: the break is just past its last occurrence |
| TextProcessing.FindBreakPoint | agent/src/agentic_rag/text_processing.py:158-172 | `max(start + 1, end - 200) <= p <= end` |
| TextProcessing.FindBreakPointSpec | agent/src/agentic_rag/text_processing.py:158-172 | no separator gives `end`; otherwise the break is just past the last occurrence of the first separator found, in the order `"\n\n"`, `"\n"`, `". "`, `"! "`, `"? "`, `"; "`, `" "` |
| TextProcessing.NoSeparatorNoBreak | agent/src/agentic_rag/text_processing.py:158-172 | a text free of separator characters never breaks early |
| TextProcessing.WindowEnd | agent/src/agentic_rag/text_processing.py:126-129 | `start < end <= len(text)` and `end - start <= chunk_size` |
| TextProcessing.NextStart | agent/src/agentic_rag/text_processing.py:143-146 | the next start is past the current one, and is `end - overlap` or else `end` |
| TextProcessing.WindowsFrom | agent/src/agentic_rag/text_processing.py:125-146 | the windows the loop visits from a start, each ending at `WindowEnd` and followed by the one at `NextStart`, until the start reaches the end of the text; `WindowsPlaced`, `WindowsChain`, `WindowsCover` and `TailWindow` state their properties |
| TextProcessing.Windows | agent/src/agentic_rag/text_processing.py:122-146 | the windows of the loop, starting at 0 |
| TextProcessing.Pieces | agent/src/agentic_rag/text_processing.py:131 | each window paired with its stripped content |
| TextProcessing.Chunks | agent/src/agentic_rag/text_processing.py:115-146 | `chunk_text` as a function: no chunks for the empty text, the unstripped text as chunk 0 when it fits in one chunk, otherwise the loop; `ChunksWellFormed`, `ChunksInOrder` and `NonBlankWindowsAreChunks` state what it returns |
| TextProcessing.ChunksAcc | agent/src/agentic_rag/text_processing.py:121-146 | the loop with its list of chunks so far; `ChunksAccWindows` proves it equal to the chunks of the non-blank windows |
| TextProcessing.ChunkText | agent/src/agentic_rag/text_processing.py:97-155 | the loop returns exactly the chunks the window specification gives |
| TextProcessing.NextWindow | agent/src/agentic_rag/text_processing.py:126-146 | one loop turn: the window's end, its stripped content and the next start |
| TextProcessing.ChunksAccUnfold | agent/src/agentic_rag/text_processing.py:125-146 | one step of the loop emits a chunk exactly for non-blank content and then moves on |
| TextProcessing.ChunksAccStep | agent/src/agentic_rag/text_processing.py:125-146 | the accumulating loop advances by one window |
| TextProcessing.ChunksOfWindowsStep | agent/src/agentic_rag/text_processing.py:125-146 | the chunks of the windows from a start are those of its first window followed by the rest |
| TextProcessing.ChunksAccWindows | agent/src/agentic_rag/text_processing.py:121-146 | the loop's result is the non-blank windows' chunks, numbered from 0 |
| TextProcessing.WindowsPlaced | agent/src/agentic_rag/text_processing.py:125-129 | every window lies inside the text and spans at most `chunk_size` characters |
| TextProcessing.WindowsChain | agent/src/agentic_rag/text_processing.py:122-146 | the first window starts at the loop's start; each next window starts at `end - chunk_overlap` when that lies past the previous start, and at the previous `end` otherwise |
| TextProcessing.WindowsReachEnd | agent/src/agentic_rag/text_processing.py:125-146 | for a non-negative overlap the last window ends at `len(text)` |
| TextProcessing.WindowStartsIncrease | agent/src/agentic_rag/text_processing.py:143-146 | window starts strictly increase, for any overlap |
| TextProcessing.WindowsCover | agent/src/agentic_rag/text_processing.py:122-146 | for a non-negative overlap every position of the text lies in some window |
| TextProcessing.ChunksOfShape | agent/src/agentic_rag/text_processing.py:131-141 | chunk indices run on without gaps, every chunk is non-empty and comes from a window |
| TextProcessing.ChunksOfComplete | agent/src/agentic_rag/text_processing.py:131-141 | every non-blank window gives a chunk |
| TextProcessing.ChunkStartsIncreaseFrom | agent/src/agentic_rag/text_processing.py:131-146 | chunk starts strictly increase |
| TextProcessing.ChunksWellFormed | agent/src/agentic_rag/text_processing.py:115-141 | chunk `i` has index `i`, non-empty text, offsets inside the text at most `chunk_size` apart, and text equal to the stripped slice (the slice itself for a short text) |
| TextProcessing.ChunksAreWindows | agent/src/agentic_rag/text_processing.py:125-141 | every chunk of a long text spans one of its windows |
| TextProcessing.WindowOfChunk | agent/src/agentic_rag/text_processing.py:131-141 | a chunk made from a window spans that window |
| TextProcessing.NonBlankWindowsAreChunks | agent/src/agentic_rag/text_processing.py:131-141 | every window with non-blank content is among the chunks |
| TextProcessing.ChunksInOrder | agent/src/agentic_rag/text_processing.py:131-146 | the chunks of a long text are in increasing start order |
| TextProcessing.ChunksOfStrippedText | agent/src/agentic_rag/text_processing.py:115-141 | a text that does not begin with whitespace gives at least one chunk |
| TextProcessing.TailWindow | agent/src/agentic_rag/text_processing.py:125-146 | 12,000 characters, size 5000, overlap 1000 give four windows, the last `[11000, 12000)` |
| EmbeddingsClient.TruncateInput | agent/src/agentic_rag/tools/embeddings_client.py:22-56 | the input is unchanged up to 30,000 characters, else its first 30,000 |
| EmbeddingsClient.Retryable | agent/src/agentic_rag/tools/embeddings_client.py:72-79 | a failed call is retried exactly when its code is `ThrottlingException` or `TooManyRequestsException` and fewer than `MAX_RETRIES` attempts have been made |
| EmbeddingsClient.Attempts | agent/src/agentic_rag/tools/embeddings_client.py:64-79 | between 1 and `MAX_RETRIES + 1 - attempt` model calls |
| EmbeddingsClient.AttemptsStep | agent/src/agentic_rag/tools/embeddings_client.py:72-79 | a retryable error costs one call and a retry; anything else ends after one call |
| EmbeddingsClient.AttemptsRetryOnlyThrottling | agent/src/agentic_rag/tools/embeddings_client.py:72-79 | every call but the last failed with a throttling code; the last succeeded, failed otherwise, or was the final attempt |
| EmbeddingsClient.FirstSuccessEnds | agent/src/agentic_rag/tools/embeddings_client.py:66-71 | a first call that succeeds is the only call |
| EmbeddingsClient.OtherErrorNotRetried | agent/src/agentic_rag/tools/embeddings_client.py:72-79 | an error other than throttling ends the loop after one call |
| EmbeddingsClient.LastCall | agent/src/agentic_rag/tools/embeddings_client.py:64 | the deciding call is among the first `MAX_RETRIES + 1` |
| EmbeddingsClient.AllThrottled | agent/src/agentic_rag/tools/embeddings_client.py:64-74 | when every call is throttled, exactly `MAX_RETRIES + 1` calls are made |
| EmbeddingsClient.EmbeddingModel.Outcome | agent/src/agentic_rag/tools/embeddings_client.py:66-71 | a call fails exactly when its number carries an error |
| EmbeddingsClient.EmbeddingModel.InvokeModel | agent/src/agentic_rag/tools/embeddings_client.py:66-71 | one numbered model call |
| EmbeddingsClient.GenerateEmbeddingVector | agent/src/agentic_rag/tools/embeddings_client.py:32-79 | makes exactly `Attempts` calls; returns the model's embedding of the truncated input, or the deciding call's error |
| EmbeddingsClient.RetriesLeftStep | agent/src/agentic_rag/tools/embeddings_client.py:64-79 | after a retryable error the remaining attempts account for the rest; otherwise the loop ends at this attempt |
| EmbeddingsClient.EmbedAll | agent/src/agentic_rag/tools/embeddings_client.py:94-97 | a batch makes at least one call per text it reaches and at most six per text |
| EmbeddingsClient.EmbedAllStep | agent/src/agentic_rag/tools/embeddings_client.py:94-97 | the first text's failure ends the batch; its success moves on to the rest |
| EmbeddingsClient.EmbedAllNoErrors | agent/src/agentic_rag/tools/embeddings_client.py:94-104 | with no errors, one call per text and no failure |
| EmbeddingsClient.GenerateEmbeddingsBatch | agent/src/agentic_rag/tools/embeddings_client.py:82-104 | the first failure propagates with no list; otherwise one embedding per text, element `i` that of text `i` |
| VectorSearch.VectorKey | agent/src/agentic_rag/tools/vector_search.py:67 | the key is the document id, `#`, then the index in decimal |
| VectorSearch.VectorKeysDistinct | agent/src/agentic_rag/tools/vector_search.py:67 | different chunks of one document have different keys |
| VectorSearch.VectorKeyDetermines | agent/src/agentic_rag/tools/vector_search.py:67 | for ids without `#`, a key determines the document and the index |
| VectorSearch.TruncateForMetadata | agent/src/agentic_rag/tools/vector_search.py:63-65 | text up to 500 characters is kept; longer text is cut to 500 with `"..."` appended |
| VectorSearch.Records | agent/src/agentic_rag/tools/vector_search.py:59-75 | one record per text and embedding pair, up to the shorter list |
| VectorSearch.RecordsShape | agent/src/agentic_rag/tools/vector_search.py:60-75 | record `i` has key `"{id}#{i}"`, embedding `i`, document id, chunk index `i` and truncated text; keys are distinct |
| VectorSearch.BuildRecords | agent/src/agentic_rag/tools/vector_search.py:59-75 | the record loop builds exactly those records |
| VectorSearch.RecordsMap | agent/src/agentic_rag/tools/vector_search.py:80-84 | the index contents a sequence of puts adds: each record under its key, a later record replacing an earlier one with the same key; `RecordsMapDomain` and `RecordsMapKeys` state its keys |
| VectorSearch.RecordsMapDomain | agent/src/agentic_rag/tools/vector_search.py:80-84 | a put stores every record under its own key |
| VectorSearch.RecordsMapConcat | agent/src/agentic_rag/tools/vector_search.py:78-85 | putting two lists in turn equals putting their concatenation |
| VectorSearch.RecordsMapUnique | agent/src/agentic_rag/tools/vector_search.py:80-84 | a record with a unique key is stored as itself |
| VectorSearch.RecordsMapOfKeyed | agent/src/agentic_rag/tools/vector_search.py:60-84 | every record of a document is stored as itself |
| VectorSearch.KeyedDistinct | agent/src/agentic_rag/tools/vector_search.py:67 | a document's record keys are pairwise distinct |
| VectorSearch.RecordsMapKeys | agent/src/agentic_rag/tools/vector_search.py:67-84 | a document's stored keys are exactly those of its chunks `0..n-1` |
| VectorSearch.KeySet | agent/src/agentic_rag/tools/vector_search.py:67-113 | the keys of a document's chunks `0..n-1`, the set both store and delete use |
| VectorSearch.DeleteKeys | agent/src/agentic_rag/tools/vector_search.py:113 | exactly the keys of chunks `0..chunk_count-1`, none for a count of 0 or less |
| VectorSearch.DeleteKeysAreStoredKeys | agent/src/agentic_rag/tools/vector_search.py:67-113 | delete regenerates exactly the keys store produced for that many records |
| VectorSearch.NumBatches | agent/src/agentic_rag/tools/vector_search.py:78-116 | the number of 500-item batches covers the list with no empty batch |
| VectorSearch.Batches | agent/src/agentic_rag/tools/vector_search.py:78-79 | that many batches, each of 1 to 500 items |
| VectorSearch.BatchesPartition | agent/src/agentic_rag/tools/vector_search.py:78-79 | the batches, in order, concatenate to the whole list |
| VectorSearch.BatchAt | agent/src/agentic_rag/tools/vector_search.py:78-79 | batch `b` is the slice starting at `500 * b` |
| VectorSearch.FirstFailure | agent/src/agentic_rag/tools/vector_search.py:78-85 | the first failing call in a range, or its end |
| VectorSearch.StoreStop | agent/src/agentic_rag/tools/vector_search.py:77-94 | the call that ends a store is its first failing batch, or the call after the last batch; no call before it fails |
| VectorSearch.StoredCount | agent/src/agentic_rag/tools/vector_search.py:77-94 | the records reached before the first failing batch; all of them exactly when none fails |
| VectorSearch.DeleteFrom | agent/src/agentic_rag/tools/vector_search.py:115-129 | the deleted count never exceeds the keys left |
| VectorSearch.DeleteFromRemovesOwnKeys | agent/src/agentic_rag/tools/vector_search.py:116-124 | deletion removes only keys it was given |
| VectorSearch.DeleteFromNoFaults | agent/src/agentic_rag/tools/vector_search.py:115-129 | with no failing call every key is removed and counted, in one call per batch of 500 |
| VectorSearch.DeleteCount | agent/src/agentic_rag/tools/vector_search.py:113-129 | the count is at most `chunk_count`; only the document's first `chunk_count` keys are removed; with no failures, all of them |
| VectorSearch.StoreThenDelete | agent/src/agentic_rag/tools/vector_search.py:67-113 | deleting a stored document's keys leaves nothing of it |
| VectorSearch.VectorIndex.PutVectors | agent/src/agentic_rag/tools/vector_search.py:80-84 | a successful put adds the batch; a failing one changes nothing |
| VectorSearch.VectorIndex.DeleteVectors | agent/src/agentic_rag/tools/vector_search.py:119-123 | a successful delete removes the keys; a failing one changes nothing |
| VectorSearch.StoreContinues | agent/src/agentic_rag/tools/vector_search.py:78-85 | a successful batch lets the store go on |
| VectorSearch.StoreStops | agent/src/agentic_rag/tools/vector_search.py:78-85 | a failing batch is where the store stops |
| VectorSearch.StoreCompletes | agent/src/agentic_rag/tools/vector_search.py:78-94 | after the last batch, every record is stored |
| VectorSearch.StorePrefixStep | agent/src/agentic_rag/tools/vector_search.py:78-85 | storing one more batch extends the stored prefix |
| VectorSearch.StoreDocumentVectors | agent/src/agentic_rag/tools/vector_search.py:33-94 | success exactly when no batch fails, returning the record count; a failure propagates its fault; the batches before it stay stored |
| VectorSearch.PutInBatches | agent/src/agentic_rag/tools/vector_search.py:77-94 | the batch loop: stops at the first failing call, leaving the records before it stored |
| VectorSearch.DeleteDocumentVectors | agent/src/agentic_rag/tools/vector_search.py:97-129 | regenerates the keys and deletes them; the result, the index afterwards and the number of calls made follow `DeleteFrom`, with no call for a count of 0 or less |
| VectorSearch.DeleteInBatches | agent/src/agentic_rag/tools/vector_search.py:115-129 | a batch failing with a service error is skipped; any other fault propagates after its call; the count is the size of the successful batches, and the calls made are those of `DeleteFrom` |
| VectorSearch.DeleteBatch | agent/src/agentic_rag/tools/vector_search.py:116-124 | one batch of up to 500 keys, one call |
| VectorSearch.DeleteStep | agent/src/agentic_rag/tools/vector_search.py:116-126 | one turn of the delete loop keeps its count and removed keys in step with `DeleteFrom` |
| Config.ConfigKeyOf | agent/src/agentic_rag/config.py:22-33 | a name has a config key exactly when it is in the table, and the key is its entry |
| Config.LookupFrom | agent/src/agentic_rag/config.py:22-33 | the table lookup from a position |
| Config.Collect | agent/src/agentic_rag/config.py:83-127 | a dict filled entry by entry with `config[k] = v`, skipping entries that set nothing; `CollectLastWins` states its contents |
| Config.CollectLastWins | agent/src/agentic_rag/config.py:85-127 | a key is in the filled dict exactly when some entry sets it, and holds the value of the last entry that does |
| Config.CollectStep | agent/src/agentic_rag/config.py:85-87 | one more entry updates the dict with its key and value |
| Config.EnvFileAssign | agent/src/agentic_rag/config.py:86-87 | an item of the `.env` dict counts exactly when its value is non-empty and its name is in the table |
| Config.EnvFileConfig | agent/src/agentic_rag/config.py:71-90 | what `_load_from_env_file` returns: nothing without a `.env` file, otherwise the filtered, renamed items of the dict `dotenv_values` returns; `EnvFileKeys` and `EnvFileItemDecides` state its contents |
| Config.LoadFromEnvFile | agent/src/agentic_rag/config.py:71-90 | the loop over `raw.items()` builds exactly the configuration of the filtered, renamed items |
| Config.EnvFileKeys | agent/src/agentic_rag/config.py:85-87 | every `.env` key is a table key, holding the value of an item with a known name and a non-empty value that sets it, with no later such item setting it |
| Config.ConfigKeyOfInjective | agent/src/agentic_rag/config.py:22-33 | two names that set the same configuration key are the same name |
| Config.EnvFileItemDecides | agent/src/agentic_rag/config.py:83-87 | as the dict's names are distinct, the item of a known name alone decides its key: set exactly when the item's value is non-empty, to that value; an empty value leaves the key unset |
| Config.SsmAssign | agent/src/agentic_rag/config.py:114-115 | every parameter sets a key that holds no `/`, to the parameter's value |
| Config.LoadFromSsm | agent/src/agentic_rag/config.py:93-118 | the parameter loop gives exactly the collected parameters |
| Config.SsmKeys | agent/src/agentic_rag/config.py:113-115 | a key is present exactly when some parameter name ends in it, and holds the last such parameter's value |
| Config.EnvVarAssign | agent/src/agentic_rag/config.py:124-127 | a table entry counts exactly when its variable is set and non-empty |
| Config.EnvVarsConfig | agent/src/agentic_rag/config.py:121-128 | what `_load_from_env_vars` returns, collected over the variable table; `EnvVarsKeys` states its contents |
| Config.LoadFromEnvVars | agent/src/agentic_rag/config.py:121-128 | the environment loop gives exactly the set, non-empty variables under their config keys |
| Config.ConfigKeysDistinct | agent/src/agentic_rag/config.py:22-33 | no two table entries share a config key |
| Config.EnvVarsKeys | agent/src/agentic_rag/config.py:124-127 | each config key is present exactly when its variable is set and non-empty, with that value |
| Config.SsmConfig | agent/src/agentic_rag/config.py:139-144 | the SSM source: read only when `SSM_PARAMETER_PREFIX` is set and non-empty; a failed read contributes nothing; `SsmKeys` states its contents |
| Config.LoadedConfig | agent/src/agentic_rag/config.py:131-149 | what `_load_config` returns: the `.env` dict, updated by the SSM dict, then by the environment dict; `SourcePriority` states the result |
| Config.SourcePriority | agent/src/agentic_rag/config.py:131-149 | a merged key comes from some source; environment beats SSM, which beats `.env`; a key absent later keeps the earlier value |
| Config.LoadConfig | agent/src/agentic_rag/config.py:131-149 | the three dict updates give the merged configuration; SSM is used only with a prefix set and a successful read |
| Config.BuildSettings | agent/src/agentic_rag/config.py:180-193 | fails exactly when `vector_dimensions` is not an integer; chunking, search and score settings are always the defaults; the dimension is the parsed value |
| Config.EmptyConfigGivesDefaults | agent/src/agentic_rag/config.py:41-193 | an empty configuration gives the default settings |
| Config.DefaultDimensionsParse | agent/src/agentic_rag/config.py:190 | the default `"1024"` parses as 1024 |
| Config.ConfiguredValuesWin | agent/src/agentic_rag/config.py:180-193 | each of the nine string settings takes its configured value when its key is present |
| Config.AbsentKeysGiveDefaults | agent/src/agentic_rag/config.py:41-193 | each setting whose key is absent, `vector_dimensions` included, keeps the default the settings record declares |
| Config.MissingRequired | agent/src/agentic_rag/config.py:152-166 | each required name is listed exactly when its setting is empty; only names from `RequiredNames` appear, in its order `DOCUMENTS_BUCKET`, `VECTORS_BUCKET`, `VECTOR_INDEX` |
| Config.GetSettingsAsWritten | agent/src/agentic_rag/config.py:172-195 | a cached value is returned unchanged; a build failure caches nothing; a built value is cached, and succeeds exactly when nothing is missing |
| Config.SecondCallSkipsValidation | agent/src/agentic_rag/config.py:178-195 | settings missing a required value fail the first call and are returned by every later call |
| Config.GetSettingsValidated | agent/src/agentic_rag/config.py:172-195 | the cache is filled only with settings that pass validation |
| Config.ValidatedCallsReturnValidSettings | agent/src/agentic_rag/config.py:172-195 | the corrected cache only ever holds and returns settings with every required value |
| Config.SettingsCache.GetSettings | agent/src/agentic_rag/config.py:172-195 | the cached call as written, over the merged configuration |
| Config.SettingsCache.GetValidSettings | agent/src/agentic_rag/config.py:172-195 | the cached call with validation before caching |
| Config.SettingsCache.ResetSettings | agent/src/agentic_rag/config.py:198-201 | the cache is empty afterwards |
| DocumentManager.Extension | agent/src/agentic_rag/tools/document_manager.py:37 | the text after the last `.`, which holds no `.`, or `"txt"` without a `.` |
| DocumentManager.DocumentKeys | agent/src/agentic_rag/tools/document_manager.py:35-43 | the original, metadata and chunk-list keys all lie in `documents/{id}/` and are pairwise distinct |
| DocumentManager.FoldersDisjoint | agent/src/agentic_rag/tools/document_manager.py:269 | for ids without `/`, no key of one document lies in another's folder |
| DocumentManager.SecondSegment | agent/src/agentic_rag/tools/document_manager.py:200 | `key.split("/")[1]`: none (an `IndexError`) exactly when the key has no `/`; otherwise the text after the first `/`, up to the next `/` or the end |
| DocumentManager.SecondSegmentIsDocumentId | agent/src/agentic_rag/tools/document_manager.py:200 | `split("/")[1]` of a key in a document's folder is the document id |
| DocumentManager.Fetch | agent/src/agentic_rag/tools/document_manager.py:66-69 | `get_object` succeeds exactly when the call has no error and the key exists |
| DocumentManager.WithoutPrefix | agent/src/agentic_rag/tools/document_manager.py:268-278 | deleting a prefix keeps exactly the objects outside it, unchanged |
| DocumentManager.AfterDeleteObjects | agent/src/agentic_rag/tools/document_manager.py:268-278 | `delete_objects` keeps the objects outside the prefix and those its response lists in `Errors`, unchanged; with no such errors it is `WithoutPrefix` |
| DocumentManager.FolderOf | agent/src/agentic_rag/tools/document_manager.py:171-182 | the document id of a key of the form `documents/{id}/...` |
| DocumentManager.Folders | agent/src/agentic_rag/tools/document_manager.py:171-182 | the `CommonPrefixes` of listing `documents/` with delimiter `/`: one `documents/{id}/` per document that has an object; `UploadedDocumentIsListed` and `ListedFolderNamesDocument` state its members |
| DocumentManager.ReadBytes | agent/src/agentic_rag/tools/document_manager.py:67 | `response["Body"].read()`: the uploaded bytes, or the rendering of a JSON value the tools wrote |
| DocumentManager.Loads | agent/src/agentic_rag/tools/document_manager.py:197 | `json.loads` of a body: a JSON value the tools wrote reads back as itself; other bytes go through the parser, which may raise |
| DocumentManager.DocumentStore.GetObject | agent/src/agentic_rag/tools/document_manager.py:66-69 | one numbered `get_object` call, changing no object |
| DocumentManager.DocumentStore.PutObject | agent/src/agentic_rag/tools/document_manager.py:113-146 | a successful put stores the object; a failing one stores nothing |
| DocumentManager.DocumentStore.DeletePrefix | agent/src/agentic_rag/tools/document_manager.py:268-280 | a call without `ClientError` removes the prefix's objects except those its response lists in `Errors`, which the source never reads; a failing call removes nothing |
| DocumentManager.DocumentStore.ListFolders | agent/src/agentic_rag/tools/document_manager.py:171-185 | the listing returns each document folder once, or the call's error |
| DocumentManager.DownloadOutcome | agent/src/agentic_rag/tools/document_manager.py:69-76 | `NoSuchKey` means not found; any other code is a download error |
| DocumentManager.Prepare | agent/src/agentic_rag/tools/document_manager.py:78-93 | a file over 10 MiB is rejected before extraction; otherwise the extracted text and its non-empty chunk list with the configured size and overlap |
| DocumentManager.ExtractedTextHasChunks | agent/src/agentic_rag/tools/document_manager.py:84-93 | a file within the limit whose text extracts always gets past the no-chunks check |
| DocumentManager.ChunkTexts | agent/src/agentic_rag/tools/document_manager.py:95 | the chunk texts in chunk order |
| DocumentManager.Embeddings | agent/src/agentic_rag/tools/document_manager.py:97-99 | text `i`'s embedding is the model's embedding of its truncated input |
| DocumentManager.ChunkEntries | agent/src/agentic_rag/tools/document_manager.py:111 | the saved chunk list has one entry per chunk, entry `i` holding index `i` and chunk `i`'s text |
| DocumentManager.UploadDocument | agent/src/agentic_rag/tools/document_manager.py:46-158 | the stages in order, each ending the upload with its own error: download, size, extraction, chunking; no vector and no object are stored before embedding succeeds |
| DocumentManager.MetadataOf | agent/src/agentic_rag/tools/document_manager.py:124-134 | the nine-field metadata record of an indexed document; `MetadataReadsBack` states what delete reads from it |
| DocumentManager.AfterSaves | agent/src/agentic_rag/tools/document_manager.py:111-148 | the bucket after saving the chunk list and then the metadata, each kept only when its put succeeds |
| DocumentManager.IndexChunks | agent/src/agentic_rag/tools/document_manager.py:95-158 | an embedding failure stores nothing; otherwise the store and saves follow |
| DocumentManager.StoreAndSave | agent/src/agentic_rag/tools/document_manager.py:104-158 | a store failure saves nothing and keeps the batches stored; a metadata-save failure reports a warning with the vectors left in place |
| DocumentManager.SaveDocument | agent/src/agentic_rag/tools/document_manager.py:111-148 | the chunk list's failure is ignored; the metadata's failure is reported |
| DocumentManager.ChunkCountOf | agent/src/agentic_rag/tools/document_manager.py:248-259 | `metadata.get("chunk_count", 0)` compared with 0: 0 when absent, the integer, 0 or 1 for a boolean; none, standing for the raised exception, when the metadata is not an object or its count cannot be compared with 0 |
| DocumentManager.FilenameOf | agent/src/agentic_rag/tools/document_manager.py:249 | `metadata.get("filename", "Unknown")` |
| DocumentManager.DeletionOutcome | agent/src/agentic_rag/tools/document_manager.py:256-293 | the deletion is partial exactly when vector deletion failed for a positive count or S3 deletion failed; the errors name which; the vector count is 0 after a vector-deletion failure |
| DocumentManager.DeleteDocument | agent/src/agentic_rag/tools/document_manager.py:226-293 | missing metadata reports not found and deletes nothing; vectors are deleted only for a positive chunk count; the folder is deleted whether or not the vectors were; objects the folder deletion reports in `Errors` stay and the outcome does not change; the calls made to both services are stated |
| DocumentManager.MetadataEntry | agent/src/agentic_rag/tools/document_manager.py:191-201 | one folder of the listing loop: its parsed metadata, the id from `split("/")[1]` when the fetch fails with a `ClientError`, and a raise on unparsable metadata |
| DocumentManager.Entries | agent/src/agentic_rag/tools/document_manager.py:190-201 | the listing loop: `MetadataEntry` of each folder in turn, with consecutive call numbers, stopping at the first raise |
| DocumentManager.ListingOf | agent/src/agentic_rag/tools/document_manager.py:171-201 | what `list_documents` finds: the listing's error, no documents, a raise, or the entries of every folder |
| DocumentManager.InTurnShape | agent/src/agentic_rag/tools/document_manager.py:190-201 | the per-folder loop succeeds exactly when no fetch raises, and then entry `i` is folder `i`'s |
| DocumentManager.ListDocuments | agent/src/agentic_rag/tools/document_manager.py:161-201 | a listing error is reported; no folders means no documents; otherwise each folder's metadata, or its id when unavailable, in listing order |
| DocumentManager.FetchEntries | agent/src/agentic_rag/tools/document_manager.py:190-201 | the per-folder loop gives exactly the listing's entries |
| DocumentManager.FetchedStep | agent/src/agentic_rag/tools/document_manager.py:190-201 | one more fetched entry extends the entries found so far |
| DocumentManager.EntriesStop | agent/src/agentic_rag/tools/document_manager.py:190-201 | a fetch that raises ends the listing with that exception |
| DocumentManager.EntriesAll | agent/src/agentic_rag/tools/document_manager.py:190-201 | when every fetch succeeds, the entries are those of every folder |
| DocumentManager.FetchEntry | agent/src/agentic_rag/tools/document_manager.py:191-201 | one folder: its metadata, its id when the fetch fails, or an exception |
| DocumentManager.MetadataReadsBack | agent/src/agentic_rag/tools/document_manager.py:124-249 | the metadata an upload writes reads back in delete as the number of chunks and the filename |
| DocumentManager.ChunkEntriesIndexed | agent/src/agentic_rag/tools/document_manager.py:111 | saved entry `i` carries chunk `i`'s own index and text |
| DocumentManager.DeleteUndoesStore | agent/src/agentic_rag/tools/document_manager.py:104-260 | with no failing call, deleting the chunk count's vectors removes everything the upload stored and nothing else |
| DocumentManager.DeleteTouchesOnlyItsFolder | agent/src/agentic_rag/tools/document_manager.py:268-278 | after a deletion that raises nothing, each of the document's three objects remains exactly when the response listed it in `Errors` (none when it listed nothing), and every object of another document stays |
| DocumentManager.UploadedDocumentIsListed | agent/src/agentic_rag/tools/document_manager.py:141-183 | a document whose metadata is stored appears among the listed folders |
| DocumentManager.ListedFolderNamesDocument | agent/src/agentic_rag/tools/document_manager.py:181-200 | every listed folder is some document's folder, and the id read from its metadata key is that document's |

## Left out

- The three tools are modelled from the point where `get_settings()` has returned. On a first call, `get_settings()` raises `ValueError` when a required setting is empty or `VECTOR_DIMENSIONS` is not an integer. That exception escapes `upload_document`, `delete_document` and `list_documents` before any call to S3, and is not modelled. `Config.GetSettingsAsWritten` models the call on its own.
- Calls to AWS (S3, S3 Vectors, Bedrock, SSM) are modelled as state plus a map from call number to error. The documents bucket also maps a call number to the keys that a `delete_objects` response lists in its per-key `Errors`. Clients, regions, client caching and request bodies are not modelled.
- Pagination is not modelled. Listing folders, listing and deleting a document's objects, and reading SSM parameters each count as one call that succeeds or fails as a whole. A folder deletion that fails on a later page after deleting earlier pages is not modelled.
- `DocumentManager.DocumentStore.ListFolders` returns the folders in an unspecified order. S3's lexicographic listing order is not modelled.
- Only `ClientError` failures of the bucket are modelled. Other exceptions from S3 calls, which would escape the tools, are not.
- The tools' message texts are replaced by outcome datatypes that carry the values the messages show. This covers the row formatting of `list_documents`: sizes in KB, dates cut at `T`, the `?` and `Unknown` fallbacks, and exceptions raised while formatting malformed metadata.
- JSON is a datatype without floating-point numbers; `json.dumps` and `json.loads` of raw bytes are parameters of the bucket. A value the tools wrote reads back as itself.
- PDF, DOCX and plain-text extraction, including UTF-8 decoding, is a parameter `extractor`. An extractor that raises `ValueError`, which includes a UTF-8 decoding error, is the extractor-failed error that `upload_document` reports.
- Extractor failures other than `ValueError`, such as parse errors raised by the PDF and DOCX libraries, escape `upload_document`. They are not modelled.
- Several values are parameters: the upload timestamp, the document id (`generate_document_id`, a random UUID), the items of the dict `dotenv_values` reads from the `.env` file (`None` when there is no file or no dotenv package; reading the file itself is not part of this model), the environment, and the SSM read.
- Backoff delays, `time.sleep`, the batch pacing sleep and logging are not modelled.
- `search_knowledge_base` and the `generate_embeddings` tool are not modelled: they involve float scoring, server-side ranking and formatted text.
- TextProcessing.ChunkText: requires `chunk_size > 0`. The only caller passes `settings.chunk_size`, which is never read from the configuration and is always 4000. Other sizes are not modelled. With a size of 0, the source loop never advances when the overlap is 0 or more, and returns no chunks when the overlap is negative.
- Strings.ParseInt: reads an optional sign and ASCII digits after stripping. The underscores and non-ASCII digits that Python's `int()` also accepts are not modelled.
- Strings.ToLower: lower-cases ASCII letters only. The extension table holds only ASCII extensions, so file-type detection is unaffected.
- Config.BuildSettings: the float `min_score_threshold` is a `real` and is always the default 0.3.
- DocumentManager.ChunkCountOf: a float `chunk_count` is not modelled, because JSON floats are not. Booleans count as 0 and 1, as Python compares them.

## Findings

| source | as written | input that shows it | evidently intended | confidence | as-written member | corrected member |
|---|---|---|---|---|---|---|
| agent/src/agentic_rag/config.py:178-195 | `get_settings` stores the new settings in the cache before `_validate_required` runs | settings with an empty `DOCUMENTS_BUCKET`: the first call raises, the second returns the invalid settings without validating | only validated settings are cached, so every call fails until the configuration is fixed | medium, not executed | Config.SecondCallSkipsValidation | Config.ValidatedCallsReturnValidSettings |
