/** The document lifecycle: where a document's objects live in the
    documents bucket, and the upload, listing and deletion tools
    (agent/src/agentic_rag/tools/document_manager.py) over a modelled
    object store, embedding endpoint and vector index. */
module DocumentManager {
  import opened Wrappers
  import opened Strings
  import opened TextProcessing
  import opened EmbeddingsClient
  import opened VectorSearch
  import opened Config

  /** The largest file accepted for indexing: 10 MiB. */
  const MaxFileSize: nat := 10 * 1024 * 1024

  // ---------------------------------------------------------------------
  // Object keys

  /** The folder of one document: `"documents/{id}/"`. */
  function DocumentPrefix(documentId: string): string {
    "documents/" + documentId + "/"
  }

  /** The extension of the original file: the text after the last `.` of
      the filename, as written (not lower-cased), or `"txt"` when the
      filename has no `.`. */
  function Extension(filename: string): (ext: string)
    ensures '.' in filename ==> '.' !in ext && exists p :: filename == p + "." + ext
    ensures '.' !in filename ==> ext == "txt"
  {
    if '.' in filename then AfterLast(filename, '.') else "txt"
  }

  /** `_s3_document_key`. */
  function DocumentKey(documentId: string, filename: string): string {
    DocumentPrefix(documentId) + "original." + Extension(filename)
  }

  /** `_s3_metadata_key`. */
  function MetadataKey(documentId: string): string {
    DocumentPrefix(documentId) + "metadata.json"
  }

  /** Where the full chunk texts are saved. */
  function ChunksKey(documentId: string): string {
    DocumentPrefix(documentId) + "chunks.json"
  }

  /** A document's three objects all lie in its folder, and no two of them
      share a key. */
  lemma DocumentKeys(documentId: string, filename: string)
    ensures DocumentPrefix(documentId) <= DocumentKey(documentId, filename)
    ensures DocumentPrefix(documentId) <= MetadataKey(documentId)
    ensures DocumentPrefix(documentId) <= ChunksKey(documentId)
    ensures DocumentKey(documentId, filename) != MetadataKey(documentId)
    ensures DocumentKey(documentId, filename) != ChunksKey(documentId)
    ensures MetadataKey(documentId) != ChunksKey(documentId)
  {
    var p := DocumentPrefix(documentId);
    var n := |p|;
    assert DocumentKey(documentId, filename)[n] == 'o';
    assert MetadataKey(documentId)[n] == 'm';
    assert ChunksKey(documentId)[n] == 'c';
  }

  /** For ids without `/`, the folders of two different documents are
      disjoint: neither folder name begins the other. */
  lemma FoldersDisjoint(id1: string, id2: string, key: string)
    requires '/' !in id1 && '/' !in id2 && id1 != id2
    requires DocumentPrefix(id2) <= key
    ensures !(DocumentPrefix(id1) <= key)
  {
    var p1 := DocumentPrefix(id1);
    var p2 := DocumentPrefix(id2);
    assert forall i :: 0 <= i < |id2| ==> key[10 + i] == id2[i] by {
      forall i | 0 <= i < |id2| ensures key[10 + i] == id2[i] {
        assert p2[10 + i] == id2[i];
      }
    }
    // A position where the folder name of `id1` and `key` differ.
    var pos: nat;
    if |id1| < |id2| {
      pos := 10 + |id1|;
      assert p1[pos] == '/' && key[pos] == id2[|id1|];
    } else if |id2| < |id1| {
      pos := 10 + |id2|;
      assert p1[pos] == id1[|id2|] && key[pos] == p2[pos] == '/';
    } else {
      var i :| 0 <= i < |id1| && id1[i] != id2[i];
      pos := 10 + i;
      assert p1[pos] == id1[i];
    }
    assert pos < |p1| && pos < |key| && p1[pos] != key[pos];
  }

  /** `key.split("/")[1]`: the text between the first and the second `/`,
      or to the end when there is only one; `None` stands for the
      `IndexError` of a key without `/`. */
  function SecondSegment(key: string): (r: Option<string>)
    ensures r.None? <==> '/' !in key
    ensures r.Some? ==>
              var rest := key[IndexOf(key, '/') + 1..];
              && '/' !in r.value && r.value <= rest
              && (|r.value| == |rest| || rest[|r.value|] == '/')
  {
    var i := IndexOf(key, '/');
    if i == -1 then None
    else
      var rest := key[i + 1..];
      var j := IndexOf(rest, '/');
      Some(if j == -1 then rest else rest[..j])
  }

  /** The second segment of any key in a document's folder is the
      document's id, for ids without `/`. */
  lemma SecondSegmentIsDocumentId(documentId: string, name: string)
    requires '/' !in documentId
    ensures SecondSegment(DocumentPrefix(documentId) + name) == Some(documentId)
  {
    var key := DocumentPrefix(documentId) + name;
    assert key == "documents" + ['/'] + (documentId + "/" + name);
    IndexOfAfter("documents", '/', documentId + "/" + name);
    var rest := key[10..];
    assert rest == documentId + ['/'] + name;
    IndexOfAfter(documentId, '/', name);
    assert rest[..|documentId|] == documentId;
  }

  // ---------------------------------------------------------------------
  // JSON values and the documents bucket

  /** The JSON values the tools write and read; numbers other than
      integers are not modelled. */
  datatype Json =
    | JNull
    | JBool(b: bool)
    | JInt(i: int)
    | JStr(s: string)
    | JArray(items: seq<Json>)
    | JObject(fields: map<string, Json>)

  /** An object's body: bytes uploaded by someone else, or a JSON value
      the tools wrote with `json.dumps`. */
  datatype Body = Bytes(data: seq<Byte>) | JsonText(value: Json)

  /** A stored object; a missing `ContentType` is the empty string. */
  datatype StoredObject = StoredObject(body: Body, contentType: string)

  /** The error code a `ClientError` for a missing key carries. */
  const NoSuchKey: string := "NoSuchKey"

  /** What `get_object` call number `call` on `key` gives: the call's
      injected `ClientError` code, `NoSuchKey` for a missing key, or the
      object. */
  function Fetch(objects: map<string, StoredObject>, faults: map<nat, string>, call: nat, key: string)
    : (r: Result<StoredObject, string>)
    ensures r.Success? <==> call !in faults && key in objects
  {
    if call in faults then Failure(faults[call])
    else if key in objects then Success(objects[key])
    else Failure(NoSuchKey)
  }

  /** The objects left after deleting everything under `prefix`. */
  function WithoutPrefix(objects: map<string, StoredObject>, prefix: string): (m: map<string, StoredObject>)
    ensures forall k :: k in m <==> k in objects && !(prefix <= k)
    ensures forall k :: k in m ==> m[k] == objects[k]
  {
    map k | k in objects && !(prefix <= k) :: objects[k]
  }

  /** The objects left after `delete_objects` on everything under
      `prefix`, when its response lists the keys in `refused` among its
      per-key `Errors`: those objects stay, and the call raises nothing.
      With no such errors it is `WithoutPrefix`. */
  function AfterDeleteObjects(objects: map<string, StoredObject>, prefix: string, refused: set<string>)
    : (m: map<string, StoredObject>)
    ensures forall k :: k in m <==> k in objects && (!(prefix <= k) || k in refused)
    ensures forall k :: k in m ==> m[k] == objects[k]
    ensures refused == {} ==> m == WithoutPrefix(objects, prefix)
  {
    map k | k in objects && (!(prefix <= k) || k in refused) :: objects[k]
  }

  /** The keys the response to call `call` lists as not deleted. */
  function RefusedAt(refusals: map<nat, set<string>>, call: nat): set<string> {
    if call in refusals then refusals[call] else {}
  }

  /** The id of the document folder a key lies in, if it lies in one. */
  function FolderOf(key: string): Option<string> {
    if |key| >= 10 && key[..10] == "documents/" && IndexOf(key[10..], '/') != -1 then
      Some(key[10..][..IndexOf(key[10..], '/')])
    else None
  }

  /** The `CommonPrefixes` of listing `"documents/"` with delimiter `/`. */
  function Folders(objects: map<string, StoredObject>): set<string> {
    set k | k in objects && FolderOf(k).Some? :: DocumentPrefix(FolderOf(k).value)
  }

  /** `response["Body"].read()`, `render` being the bytes `json.dumps`
      gives for a JSON value. */
  function ReadBytes(render: Json -> seq<Byte>, body: Body): seq<Byte> {
    match body
    case Bytes(data) => data
    case JsonText(value) => render(value)
  }

  /** `json.loads(response["Body"].read())`, `None` standing for the
      error raised on bytes that are not JSON; a JSON value the tools
      wrote reads back as itself. */
  function Loads(parse: seq<Byte> -> Option<Json>, body: Body): Option<Json> {
    match body
    case Bytes(data) => parse(data)
    case JsonText(value) => Some(value)
  }

  /** The documents bucket. Its calls are numbered from 0; `faults` gives
      the `ClientError` code of each call that fails, and `refusals` the
      keys a `delete_objects` call that does not fail reports in its
      `Errors`. `render` is the bytes of a JSON value, `parse` is
      `json.loads` of bytes (`None` when they are not JSON). */
  class DocumentStore {
    var objects: map<string, StoredObject>
    var calls: nat
    const faults: map<nat, string>
    const refusals: map<nat, set<string>>
    const render: Json -> seq<Byte>
    const parse: seq<Byte> -> Option<Json>

    constructor (objects: map<string, StoredObject>, faults: map<nat, string>, refusals: map<nat, set<string>>,
                 render: Json -> seq<Byte>, parse: seq<Byte> -> Option<Json>)
      ensures this.objects == objects && this.faults == faults && this.refusals == refusals && calls == 0
      ensures this.render == render && this.parse == parse
    {
      this.objects := objects;
      this.faults := faults;
      this.refusals := refusals;
      this.render := render;
      this.parse := parse;
      calls := 0;
    }

    /** `get_object`. */
    method GetObject(key: string) returns (r: Result<StoredObject, string>)
      modifies this
      ensures r == Fetch(old(objects), faults, old(calls), key)
      ensures calls == old(calls) + 1 && objects == old(objects)
    {
      r := Fetch(objects, faults, calls, key);
      calls := calls + 1;
    }

    /** `put_object`; a failing call stores nothing. */
    method PutObject(key: string, obj: StoredObject) returns (err: Option<string>)
      modifies this
      ensures err == if old(calls) in faults then Some(faults[old(calls)]) else None
      ensures objects == if err.None? then old(objects)[key := obj] else old(objects)
      ensures calls == old(calls) + 1
    {
      err := if calls in faults then Some(faults[calls]) else None;
      if err.None? {
        objects := objects[key := obj];
      }
      calls := calls + 1;
    }

    /** Listing every object under `prefix` and deleting them with
        `delete_objects`, as one call. A call that raises no `ClientError`
        still leaves the objects its response reports in `Errors`, and
        nothing reads that list. */
    method DeletePrefix(prefix: string) returns (err: Option<string>)
      modifies this
      ensures err == if old(calls) in faults then Some(faults[old(calls)]) else None
      ensures objects == if err.None? then AfterDeleteObjects(old(objects), prefix, RefusedAt(refusals, old(calls)))
                         else old(objects)
      ensures calls == old(calls) + 1
    {
      err := if calls in faults then Some(faults[calls]) else None;
      if err.None? {
        objects := AfterDeleteObjects(objects, prefix, RefusedAt(refusals, calls));
      }
      calls := calls + 1;
    }

    /** Listing the document folders, as one call: each folder once, in no
        particular order. */
    method ListFolders() returns (r: Result<seq<string>, string>)
      modifies this
      ensures old(calls) in faults ==> r == Failure(faults[old(calls)])
      ensures old(calls) !in faults ==> && r.Success?
                                        && (forall p :: p in r.value <==> p in Folders(objects))
                                        && (forall i, j :: 0 <= i < j < |r.value| ==> r.value[i] != r.value[j])
      ensures calls == old(calls) + 1 && objects == old(objects)
    {
      if calls in faults {
        r := Failure(faults[calls]);
        calls := calls + 1;
        return;
      }
      var remaining := Folders(objects);
      var found: seq<string> := [];
      while remaining != {}
        invariant forall p :: p in Folders(objects) <==> p in found || p in remaining
        invariant forall p :: p in found ==> p !in remaining
        invariant forall i, j :: 0 <= i < j < |found| ==> found[i] != found[j]
        decreases remaining
      {
        var p :| p in remaining;
        found := found + [p];
        remaining := remaining - {p};
      }
      r := Success(found);
      calls := calls + 1;
    }
  }

  // ---------------------------------------------------------------------
  // upload_document

  /** How `upload_document` ends. */
  datatype UploadOutcome =
    | DocumentNotFound(key: string)
    | DownloadFailed(code: string)
    | FileTooLarge(size: nat)
    | ExtractionFailed(error: ExtractError)
    | NoChunks
    | EmbeddingFailed(code: string)
    | StoreFailed(fault: Fault)
    | MetadataSaveFailed(stored: nat)
    | Processed(textLength: nat, chunkCount: nat, stored: nat, embeddingModel: string)

  /** The outcomes that end the upload before any vector is stored. */
  predicate EndsBeforeStoring(o: UploadOutcome) {
    o.DocumentNotFound? || o.DownloadFailed? || o.FileTooLarge? || o.ExtractionFailed? || o.NoChunks? || o.EmbeddingFailed?
  }

  /** A failed download: `NoSuchKey` means the document is not there. */
  function DownloadOutcome(code: string, key: string): (o: UploadOutcome)
    ensures EndsBeforeStoring(o)
  {
    if code == NoSuchKey then DocumentNotFound(key) else DownloadFailed(code)
  }

  /** The extracted text and its chunks. */
  datatype Prepared = Prepared(text: string, chunks: seq<TextChunk>)

  /** The checks between download and embedding: the size limit, text
      extraction, and chunking with the configured size and overlap. */
  function Prepare(bytes: seq<Byte>, filename: string, contentType: string,
                   extractor: (FileType, seq<Byte>) -> Option<string>, settings: Settings)
    : (r: Result<Prepared, UploadOutcome>)
    requires settings.chunkSize > 0
    ensures |bytes| > MaxFileSize ==> r == Failure(FileTooLarge(|bytes|))
    ensures r.Failure? ==> EndsBeforeStoring(r.error)
    ensures r.Success? ==> && ExtractText(bytes, filename, contentType, extractor) == Success(r.value.text)
                           && r.value.chunks == Chunks(r.value.text, settings.chunkSize, settings.chunkOverlap)
                           && r.value.chunks != []
  {
    if |bytes| > MaxFileSize then Failure(FileTooLarge(|bytes|))
    else
      match ExtractText(bytes, filename, contentType, extractor)
      case Failure(e) => Failure(ExtractionFailed(e))
      case Success(text) =>
        var chunks := Chunks(text, settings.chunkSize, settings.chunkOverlap);
        if chunks == [] then Failure(NoChunks) else Success(Prepared(text, chunks))
  }

  /** Extracted text is never blank, so it always gives at least one
      chunk: the "no chunks" error cannot follow a successful extraction. */
  lemma ExtractedTextHasChunks(bytes: seq<Byte>, filename: string, contentType: string,
                               extractor: (FileType, seq<Byte>) -> Option<string>, settings: Settings)
    requires settings.chunkSize > 0
    requires |bytes| <= MaxFileSize && ExtractText(bytes, filename, contentType, extractor).Success?
    ensures Prepare(bytes, filename, contentType, extractor, settings).Success?
  {
    var text := ExtractText(bytes, filename, contentType, extractor).value;
    ChunksOfStrippedText(text, settings.chunkSize, settings.chunkOverlap);
  }

  /** The chunk texts, in order. */
  function ChunkTexts(chunks: seq<TextChunk>): (texts: seq<string>)
    ensures |texts| == |chunks| && forall i :: 0 <= i < |chunks| ==> texts[i] == chunks[i].text
  {
    seq(|chunks|, i requires 0 <= i < |chunks| => chunks[i].text)
  }

  /** What a successful batch returns for `texts`. */
  function Embeddings(model: string -> Embedding, texts: seq<string>): (es: seq<Embedding>)
    ensures |es| == |texts| && forall i :: 0 <= i < |texts| ==> es[i] == model(TruncateInput(texts[i]))
  {
    seq(|texts|, i requires 0 <= i < |texts| => model(TruncateInput(texts[i])))
  }

  /** The saved chunk list: entry `i` holds index `i` and the text of
      chunk `i`. */
  function ChunkEntries(texts: seq<string>): (j: Json)
    ensures j.JArray? && |j.items| == |texts|
    ensures forall i :: 0 <= i < |texts| ==> j.items[i] == JObject(map["index" := JInt(i), "text" := JStr(texts[i])])
  {
    JArray(seq(|texts|, i requires 0 <= i < |texts| => JObject(map["index" := JInt(i), "text" := JStr(texts[i])])))
  }

  /** The metadata record of an indexed document. */
  function MetadataOf(documentId: string, filename: string, timestamp: string, size: nat, contentType: string,
                      textLength: nat, chunkCount: nat, settings: Settings): Json
  {
    JObject(map[
      "document_id" := JStr(documentId),
      "filename" := JStr(filename),
      "upload_timestamp" := JStr(timestamp),
      "file_size_bytes" := JInt(size),
      "content_type" := JStr(contentType),
      "text_length" := JInt(textLength),
      "chunk_count" := JInt(chunkCount),
      "embedding_model" := JStr(settings.embeddingModelId),
      "vector_dimensions" := JInt(settings.vectorDimensions)])
  }

  /** A JSON object with `application/json` as its content type. */
  function JsonObject(value: Json): StoredObject {
    StoredObject(JsonText(value), "application/json")
  }

  /** The bucket after the two saves that follow a successful store: the
      chunk list, then the metadata, each kept only if its put succeeds. */
  function AfterSaves(objects: map<string, StoredObject>, faults: map<nat, string>, call: nat,
                      documentId: string, chunks: Json, metadata: Json): map<string, StoredObject>
  {
    var withChunks := if call in faults then objects else objects[ChunksKey(documentId) := JsonObject(chunks)];
    if call + 1 in faults then withChunks else withChunks[MetadataKey(documentId) := JsonObject(metadata)]
  }

  /** `upload_document`, from the point where `get_settings` has returned
      `settings`. The extractors of `extract_text` are `extractor`, and `timestamp` is
      the upload time in ISO format. Each stage ends the upload with its
      own error before the next begins; once vectors are stored, a failed
      chunk-list save is ignored and a failed metadata save leaves the
      vectors in place. */
  method UploadDocument(settings: Settings, store: DocumentStore, endpoint: EmbeddingModel, index: VectorIndex,
                        extractor: (FileType, seq<Byte>) -> Option<string>, timestamp: string,
                        documentId: string, filename: string) returns (outcome: UploadOutcome)
    requires settings.chunkSize > 0
    modifies store, endpoint, index
    ensures EndsBeforeStoring(outcome) ==> index.vectors == old(index.vectors) && store.objects == old(store.objects)
    ensures var fetched := Fetch(old(store.objects), store.faults, old(store.calls), DocumentKey(documentId, filename));
            && (fetched.Failure? ==> outcome == DownloadOutcome(fetched.error, DocumentKey(documentId, filename))
                                     && endpoint.calls == old(endpoint.calls))
            && (fetched.Success? ==>
                  var p := Prepare(ReadBytes(store.render, fetched.value.body), filename, fetched.value.contentType, extractor, settings);
                  && (p.Failure? ==> outcome == p.error && endpoint.calls == old(endpoint.calls))
                  && (p.Success? ==>
                        Indexed(settings, store, endpoint, index, documentId, filename, timestamp,
                                |ReadBytes(store.render, fetched.value.body)|, fetched.value.contentType, p.value,
                                old(store.objects), old(store.calls) + 1, old(endpoint.calls), old(index.vectors), old(index.calls),
                                outcome)))
  {
    var key := DocumentKey(documentId, filename);
    var fetched := store.GetObject(key);
    if fetched.Failure? {
      return DownloadOutcome(fetched.error, key);
    }
    var bytes := ReadBytes(store.render, fetched.value.body);
    var contentType := fetched.value.contentType;
    if |bytes| > MaxFileSize {
      return FileTooLarge(|bytes|);
    }
    var extracted := ExtractText(bytes, filename, contentType, extractor);
    if extracted.Failure? {
      return ExtractionFailed(extracted.error);
    }
    var text := extracted.value;
    var chunks := ChunkText(text, settings.chunkSize, settings.chunkOverlap);
    if chunks == [] {
      return NoChunks;
    }
    outcome := IndexChunks(settings, store, endpoint, index, documentId, filename, timestamp,
                           |bytes|, contentType, Prepared(text, chunks));
  }

  /** What storing the records and saving the document did to the index
      and the bucket (`vectors0`, `objects0` before; `indexCall` and
      `call` the first calls used), and the outcome it gave. */
  ghost predicate StoredAndSaved(vectors: map<string, VectorRecord>, indexFaults: map<nat, Fault>,
                                 objects: map<string, StoredObject>, faults: map<nat, string>,
                                 vectors0: map<string, VectorRecord>, indexCall: nat,
                                 objects0: map<string, StoredObject>, call: nat,
                                 documentId: string, records: seq<VectorRecord>,
                                 entries: Json, metadata: Json, done: UploadOutcome, outcome: UploadOutcome)
  {
    var n := |records|;
    var count := StoredCount(indexFaults, indexCall, n);
    && vectors == vectors0 + RecordsMap(records[..count])
    && (count < n ==> outcome == StoreFailed(indexFaults[StoreStop(indexFaults, indexCall, n)]) && objects == objects0)
    && (count == n ==> && objects == AfterSaves(objects0, faults, call, documentId, entries, metadata)
                       && outcome == if call + 1 in faults then MetadataSaveFailed(n) else done)
  }

  /** What the stages after chunking did: `call`, `embedCall` and
      `indexCall` are the first call numbers those stages used, and
      `objects0`/`vectors0` the bucket and the index before them. */
  ghost predicate Indexed(settings: Settings, store: DocumentStore, endpoint: EmbeddingModel, index: VectorIndex,
                          documentId: string, filename: string, timestamp: string, size: nat, contentType: string,
                          p: Prepared, objects0: map<string, StoredObject>, call: nat, embedCall: nat,
                          vectors0: map<string, VectorRecord>, indexCall: nat, outcome: UploadOutcome)
    reads store, endpoint, index
  {
    var texts := ChunkTexts(p.chunks);
    var run := EmbedAll(endpoint.errors, embedCall, texts);
    && endpoint.calls == embedCall + run.calls
    && (run.error.Some? ==> outcome == EmbeddingFailed(run.error.value)
                            && index.vectors == vectors0 && store.objects == objects0)
    && (run.error.None? ==>
          StoredAndSaved(index.vectors, index.faults, store.objects, store.faults, vectors0, indexCall, objects0, call,
                         documentId, Records(documentId, filename, texts, Embeddings(endpoint.model, texts)),
                         ChunkEntries(texts),
                         MetadataOf(documentId, filename, timestamp, size, contentType, |p.text|, |p.chunks|, settings),
                         Processed(|p.text|, |p.chunks|, |texts|, settings.embeddingModelId), outcome))
  }

  /** Embedding the chunk texts, then storing and saving. */
  method IndexChunks(settings: Settings, store: DocumentStore, endpoint: EmbeddingModel, index: VectorIndex,
                     documentId: string, filename: string, timestamp: string, size: nat, contentType: string,
                     p: Prepared) returns (outcome: UploadOutcome)
    modifies store, endpoint, index
    ensures Indexed(settings, store, endpoint, index, documentId, filename, timestamp, size, contentType, p,
                    old(store.objects), old(store.calls), old(endpoint.calls), old(index.vectors), old(index.calls),
                    outcome)
    ensures EndsBeforeStoring(outcome) ==> index.vectors == old(index.vectors) && store.objects == old(store.objects)
  {
    var texts := ChunkTexts(p.chunks);
    var embeddings := GenerateEmbeddingsBatch(endpoint, texts);
    if embeddings.Failure? {
      return EmbeddingFailed(embeddings.error);
    }
    assert embeddings.value == Embeddings(endpoint.model, texts);
    var metadata := MetadataOf(documentId, filename, timestamp, size, contentType, |p.text|, |p.chunks|, settings);
    outcome := StoreAndSave(store, index, documentId, filename, texts, embeddings.value, metadata,
                            Processed(|p.text|, |p.chunks|, |texts|, settings.embeddingModelId));
  }

  /** Storing the records, then saving the chunk list and the metadata;
      `done` is the outcome when everything succeeds. */
  method StoreAndSave(store: DocumentStore, index: VectorIndex, documentId: string, filename: string,
                      texts: seq<string>, embeddings: seq<Embedding>, metadata: Json, done: UploadOutcome)
    returns (outcome: UploadOutcome)
    requires |embeddings| == |texts| && !EndsBeforeStoring(done)
    modifies store, index
    ensures StoredAndSaved(index.vectors, index.faults, store.objects, store.faults, old(index.vectors), old(index.calls),
                           old(store.objects), old(store.calls), documentId, Records(documentId, filename, texts, embeddings),
                           ChunkEntries(texts), metadata, done, outcome)
    ensures !EndsBeforeStoring(outcome)
  {
    ghost var records := Records(documentId, filename, texts, embeddings);
    ghost var n := |records|;
    ghost var count := StoredCount(index.faults, index.calls, n);
    ghost var stop := StoreStop(index.faults, index.calls, n);
    assert n == Min(|texts|, |embeddings|);
    var stored := StoreDocumentVectors(index, documentId, filename, texts, embeddings);
    assert index.vectors == old(index.vectors) + RecordsMap(records[..count]);
    if stored.Failure? {
      assert count < n && index.faults[stop] == stored.error;
      return StoreFailed(stored.error);
    }
    assert count == n;
    var metadataErr := SaveDocument(store, documentId, ChunkEntries(texts), metadata);
    outcome := if metadataErr.Some? then MetadataSaveFailed(stored.value) else done;
  }

  /** Saving the chunk list, whose failure is ignored, and then the
      metadata, whose failure is reported. */
  method SaveDocument(store: DocumentStore, documentId: string, entries: Json, metadata: Json)
    returns (metadataErr: Option<string>)
    modifies store
    ensures store.objects == AfterSaves(old(store.objects), store.faults, old(store.calls), documentId, entries, metadata)
    ensures metadataErr.Some? <==> old(store.calls) + 1 in store.faults
  {
    var chunksErr := store.PutObject(ChunksKey(documentId), JsonObject(entries));
    metadataErr := store.PutObject(MetadataKey(documentId), JsonObject(metadata));
  }

  // ---------------------------------------------------------------------
  // delete_document

  /** An error `delete_document` reports once it has read the metadata. */
  datatype DeleteError = VectorDeletion | S3Deletion(code: string)

  /** How `delete_document` ends. `DeleteRaised` stands for an exception
      that escapes the tool: metadata that is not JSON or not an object, or
      a `chunk_count` that cannot be compared with 0. */
  datatype DeleteOutcome =
    | DocumentMissing
    | MetadataReadFailed(code: string)
    | DeleteRaised
    | Deleted(filename: Json, vectorsRemoved: nat)
    | PartiallyDeleted(filename: Json, vectorsRemoved: nat, errors: seq<DeleteError>)

  /** `metadata.get("chunk_count", 0)` as an integer (a boolean counts as
      0 or 1), or `None` when reading it or comparing it with 0 raises. */
  function ChunkCountOf(metadata: Json): Option<int> {
    if !metadata.JObject? then None
    else if "chunk_count" !in metadata.fields then Some(0)
    else
      match metadata.fields["chunk_count"]
      case JInt(n) => Some(n)
      case JBool(b) => Some(if b then 1 else 0)
      case _ => None
  }

  /** `metadata.get("filename", "Unknown")`. */
  function FilenameOf(metadata: Json): Json
    requires metadata.JObject?
  {
    if "filename" in metadata.fields then metadata.fields["filename"] else JStr("Unknown")
  }

  /** The result of a deletion that read a chunk count: vectors are
      deleted only for a positive count, a vector-deletion failure counts
      no vectors, and any error makes the deletion partial. */
  function DeletionOutcome(filename: Json, chunkCount: int, run: DeleteRun, s3Error: Option<string>): (o: DeleteOutcome)
    ensures o.Deleted? || o.PartiallyDeleted?
    ensures o.Deleted? <==> !(chunkCount > 0 && run.raised) && s3Error.None?
    ensures o.filename == filename
    ensures o.vectorsRemoved == if chunkCount > 0 && !run.raised then run.deleted else 0
    ensures o.PartiallyDeleted? ==> (VectorDeletion in o.errors <==> chunkCount > 0 && run.raised)
    ensures o.PartiallyDeleted? && s3Error.Some? ==> S3Deletion(s3Error.value) in o.errors
    ensures o.PartiallyDeleted? ==> forall e :: e in o.errors ==> e.VectorDeletion? || (e.S3Deletion? && s3Error == Some(e.code))
  {
    var vectorsFailed := chunkCount > 0 && run.raised;
    var removed := if chunkCount > 0 && !run.raised then run.deleted else 0;
    var errors := (if vectorsFailed then [VectorDeletion] else [])
                  + (if s3Error.Some? then [S3Deletion(s3Error.value)] else []);
    if errors == [] then Deleted(filename, removed) else PartiallyDeleted(filename, removed, errors)
  }

  /** What deleting a document whose metadata read as `metadata` did to
      the index and the bucket (`vectors0`, `objects0` before; `indexCall`
      and `call` the first calls used), the calls it made, and the outcome
      it gave. Keys the folder deletion reports as not deleted stay in the
      bucket without changing the outcome. */
  ghost predicate Removed(store: DocumentStore, index: VectorIndex, documentId: string, metadata: Option<Json>,
                          objects0: map<string, StoredObject>, call: nat,
                          vectors0: map<string, VectorRecord>, indexCall: nat, outcome: DeleteOutcome)
    reads store, index
  {
    if metadata.None? || ChunkCountOf(metadata.value).None? then
      && outcome == DeleteRaised
      && store.objects == objects0 && store.calls == call
      && index.vectors == vectors0 && index.calls == indexCall
    else
      var chunkCount := ChunkCountOf(metadata.value).value;
      var run := DeleteFrom(DeleteKeys(documentId, chunkCount), 0, indexCall, index.faults);
      var s3Error := if call in store.faults then Some(store.faults[call]) else None;
      && (chunkCount <= 0 ==> index.vectors == vectors0 && index.calls == indexCall)
      && (chunkCount > 0 ==> index.vectors == vectors0 - run.removed && index.calls == indexCall + run.calls)
      && store.objects == (if s3Error.None? then AfterDeleteObjects(objects0, DocumentPrefix(documentId), RefusedAt(store.refusals, call))
                           else objects0)
      && store.calls == call + 1
      && outcome == DeletionOutcome(FilenameOf(metadata.value), chunkCount, run, s3Error)
  }

  /** `delete_document`: reads the metadata for the chunk count, deletes
      that many vectors when the count is positive, then deletes every
      object in the document's folder whether or not the vectors went. */
  method DeleteDocument(store: DocumentStore, index: VectorIndex, documentId: string) returns (outcome: DeleteOutcome)
    modifies store, index
    ensures var fetched := Fetch(old(store.objects), store.faults, old(store.calls), MetadataKey(documentId));
            && (fetched.Failure? ==>
                  && outcome == (if fetched.error == NoSuchKey then DocumentMissing else MetadataReadFailed(fetched.error))
                  && store.objects == old(store.objects) && store.calls == old(store.calls) + 1
                  && index.vectors == old(index.vectors) && index.calls == old(index.calls))
            && (fetched.Success? ==>
                  Removed(store, index, documentId, Loads(store.parse, fetched.value.body),
                          old(store.objects), old(store.calls) + 1, old(index.vectors), old(index.calls), outcome))
  {
    var fetched := store.GetObject(MetadataKey(documentId));
    if fetched.Failure? {
      return if fetched.error == NoSuchKey then DocumentMissing else MetadataReadFailed(fetched.error);
    }
    var metadata := Loads(store.parse, fetched.value.body);
    if metadata.None? || ChunkCountOf(metadata.value).None? {
      return DeleteRaised;
    }
    var chunkCount := ChunkCountOf(metadata.value).value;
    var filename := FilenameOf(metadata.value);
    var vectors: Result<nat, Fault> := Success(0);
    if chunkCount > 0 {
      vectors := DeleteDocumentVectors(index, documentId, chunkCount);
    }
    var s3Error := store.DeletePrefix(DocumentPrefix(documentId));
    var removed := if vectors.Success? then vectors.value else 0;
    var errors := (if vectors.Failure? then [VectorDeletion] else [])
                  + (if s3Error.Some? then [S3Deletion(s3Error.value)] else []);
    outcome := if errors == [] then Deleted(filename, removed) else PartiallyDeleted(filename, removed, errors);
  }

  // ---------------------------------------------------------------------
  // list_documents

  /** One listed document: its metadata, or the id taken from its folder
      when the metadata could not be fetched. */
  datatype DocumentEntry = Listed(metadata: Json) | Unavailable(documentId: string)

  /** How `list_documents` ends, before its rows are formatted.
      `ListRaised` stands for an exception that escapes the tool. */
  datatype Listing =
    | ListingFailed(code: string)
    | NoDocuments
    | ListRaised
    | Documents(entries: seq<DocumentEntry>)

  /** The entry of the document in `folder`, its metadata being fetched
      with call number `call`; `None` when that raises. */
  function MetadataEntry(objects: map<string, StoredObject>, faults: map<nat, string>,
                         parse: seq<Byte> -> Option<Json>, call: nat, folder: string): Option<DocumentEntry>
  {
    var key := folder + "metadata.json";
    match Fetch(objects, faults, call, key)
    case Success(obj) =>
      (match Loads(parse, obj.body)
       case None => None
       case Some(m) => Some(Listed(m)))
    case Failure(_) =>
      (match SecondSegment(key)
       case None => None
       case Some(id) => Some(Unavailable(id)))
  }

  /** `f` applied to each of `xs` in turn, element `i` with call number
      `call + i`; `None` as soon as one application gives `None`. */
  function InTurn<E>(f: (nat, string) -> Option<E>, call: nat, xs: seq<string>): Option<seq<E>>
    decreases |xs|
  {
    if xs == [] then Some([])
    else
      match f(call, xs[0])
      case None => None
      case Some(e) =>
        match InTurn(f, call + 1, xs[1..])
        case None => None
        case Some(es) => Some([e] + es)
  }

  /** `InTurn` succeeds exactly when no application gives `None`, and then
      element `i` is the application to `xs[i]` with the `i`-th call. */
  lemma {:induction false} InTurnShape<E>(f: (nat, string) -> Option<E>, call: nat, xs: seq<string>)
    ensures InTurn(f, call, xs).Some? <==> forall i :: 0 <= i < |xs| ==> f(call + i, xs[i]).Some?
    ensures InTurn(f, call, xs).Some? ==>
              && |InTurn(f, call, xs).value| == |xs|
              && forall i :: 0 <= i < |xs| ==> Some(InTurn(f, call, xs).value[i]) == f(call + i, xs[i])
    decreases |xs|
  {
    if xs != [] {
      var tail := xs[1..];
      InTurnShape(f, call + 1, tail);
      assert forall i :: 1 <= i < |xs| ==> f(call + i, xs[i]) == f(call + 1 + (i - 1), tail[i - 1]);
      var head := f(call, xs[0]);
      var rest := InTurn(f, call + 1, tail);
      if head.Some? && rest.Some? {
        assert InTurn(f, call, xs).value == [head.value] + rest.value;
      } else if head.Some? {
        var i :| 0 <= i < |tail| && f(call + 1 + i, tail[i]).None?;
        assert f(call + (i + 1), xs[i + 1]).None?;
      }
    }
  }

  /** The entries of `folders` in order, fetched from call `call` on;
      `None` as soon as one raises. */
  function Entries(objects: map<string, StoredObject>, faults: map<nat, string>,
                   parse: seq<Byte> -> Option<Json>, call: nat, folders: seq<string>): Option<seq<DocumentEntry>>
  {
    InTurn((c: nat, folder: string) => MetadataEntry(objects, faults, parse, c, folder), call, folders)
  }

  /** What `list_documents` finds, the listing being call number `call`
      and `folders` the document folders it returned. */
  function ListingOf(objects: map<string, StoredObject>, faults: map<nat, string>,
                     parse: seq<Byte> -> Option<Json>, call: nat, folders: seq<string>): Listing
  {
    if call in faults then ListingFailed(faults[call])
    else if folders == [] then NoDocuments
    else
      match Entries(objects, faults, parse, call + 1, folders)
      case None => ListRaised
      case Some(es) => Documents(es)
  }

  /** `list_documents`: lists the document folders, then fetches each
      folder's metadata in turn. `folders` is the order the listing
      returned them in. */
  method ListDocuments(store: DocumentStore) returns (r: Listing, ghost folders: seq<string>)
    modifies store
    ensures store.objects == old(store.objects)
    ensures old(store.calls) !in store.faults ==>
              && (forall p :: p in folders <==> p in Folders(store.objects))
              && (forall i, j :: 0 <= i < j < |folders| ==> folders[i] != folders[j])
    ensures r == ListingOf(old(store.objects), store.faults, store.parse, old(store.calls), folders)
  {
    ghost var call0 := store.calls;
    var listed := store.ListFolders();
    if listed.Failure? {
      return ListingFailed(listed.error), [];
    }
    var prefixes := listed.value;
    folders := prefixes;
    if prefixes == [] {
      return NoDocuments, folders;
    }
    var entries := FetchEntries(store, prefixes);
    r := if entries.Some? then Documents(entries.value) else ListRaised;
  }

  /** Fetching the metadata of each folder in turn, stopping at the first
      that raises. */
  method FetchEntries(store: DocumentStore, folders: seq<string>) returns (r: Option<seq<DocumentEntry>>)
    modifies store
    ensures r == Entries(old(store.objects), store.faults, store.parse, old(store.calls), folders)
    ensures store.objects == old(store.objects)
  {
    ghost var call0 := store.calls;
    ghost var objects, faults, parse := store.objects, store.faults, store.parse;
    var entries: seq<DocumentEntry> := [];
    var i := 0;
    while i < |folders|
      invariant i <= |folders| && |entries| == i
      invariant store.objects == objects && store.calls == call0 + i
      invariant FetchedSoFar(objects, faults, parse, call0, folders, entries)
    {
      var entry := FetchEntry(store, folders[i]);
      if entry.None? {
        EntriesStop(objects, faults, parse, call0, folders, i);
        return None;
      }
      FetchedStep(objects, faults, parse, call0, folders, entries, entry.value);
      entries := entries + [entry.value];
      i := i + 1;
    }
    EntriesAll(objects, faults, parse, call0, folders, entries);
    r := Some(entries);
  }

  /** `entries` are the entries of the first `|entries|` folders. */
  ghost predicate FetchedSoFar(objects: map<string, StoredObject>, faults: map<nat, string>,
                               parse: seq<Byte> -> Option<Json>, call: nat, folders: seq<string>,
                               entries: seq<DocumentEntry>)
  {
    && |entries| <= |folders|
    && forall j :: 0 <= j < |entries| ==> Some(entries[j]) == MetadataEntry(objects, faults, parse, call + j, folders[j])
  }

  lemma FetchedStep(objects: map<string, StoredObject>, faults: map<nat, string>,
                    parse: seq<Byte> -> Option<Json>, call: nat, folders: seq<string>,
                    entries: seq<DocumentEntry>, e: DocumentEntry)
    requires FetchedSoFar(objects, faults, parse, call, folders, entries) && |entries| < |folders|
    requires Some(e) == MetadataEntry(objects, faults, parse, call + |entries|, folders[|entries|])
    ensures FetchedSoFar(objects, faults, parse, call, folders, entries + [e])
  {
  }

  /** The entries stop at the first folder whose entry raises. */
  lemma EntriesStop(objects: map<string, StoredObject>, faults: map<nat, string>,
                    parse: seq<Byte> -> Option<Json>, call: nat, folders: seq<string>, i: nat)
    requires i < |folders| && MetadataEntry(objects, faults, parse, call + i, folders[i]).None?
    ensures Entries(objects, faults, parse, call, folders).None?
  {
    var f := (c: nat, folder: string) => MetadataEntry(objects, faults, parse, c, folder);
    InTurnShape(f, call, folders);
    assert f(call + i, folders[i]).None?;
  }

  /** The entries of every folder are the listing's entries. */
  lemma EntriesAll(objects: map<string, StoredObject>, faults: map<nat, string>,
                   parse: seq<Byte> -> Option<Json>, call: nat, folders: seq<string>, entries: seq<DocumentEntry>)
    requires FetchedSoFar(objects, faults, parse, call, folders, entries) && |entries| == |folders|
    ensures Entries(objects, faults, parse, call, folders) == Some(entries)
  {
    var f := (c: nat, folder: string) => MetadataEntry(objects, faults, parse, c, folder);
    InTurnShape(f, call, folders);
    forall j | 0 <= j < |folders| ensures f(call + j, folders[j]).Some? {
      assert Some(entries[j]) == f(call + j, folders[j]);
    }
    var es := InTurn(f, call, folders).value;
    forall j | 0 <= j < |folders| ensures es[j] == entries[j] {
      assert Some(es[j]) == f(call + j, folders[j]) == Some(entries[j]);
    }
    assert es == entries;
  }

  /** Fetching one folder's metadata. */
  method FetchEntry(store: DocumentStore, folder: string) returns (entry: Option<DocumentEntry>)
    modifies store
    ensures entry == MetadataEntry(old(store.objects), store.faults, store.parse, old(store.calls), folder)
    ensures store.objects == old(store.objects) && store.calls == old(store.calls) + 1
  {
    var key := folder + "metadata.json";
    var fetched := store.GetObject(key);
    if fetched.Success? {
      var metadata := Loads(store.parse, fetched.value.body);
      entry := if metadata.Some? then Some(Listed(metadata.value)) else None;
    } else {
      var id := SecondSegment(key);
      entry := if id.Some? then Some(Unavailable(id.value)) else None;
    }
  }

  // ---------------------------------------------------------------------
  // How the tools fit together

  /** The metadata an upload saves reads back, in `delete_document`, as
      the number of chunks and the filename. */
  lemma MetadataReadsBack(documentId: string, filename: string, timestamp: string, size: nat, contentType: string,
                          textLength: nat, chunkCount: nat, settings: Settings)
    ensures var m := MetadataOf(documentId, filename, timestamp, size, contentType, textLength, chunkCount, settings);
            && ChunkCountOf(m) == Some(chunkCount)
            && FilenameOf(m) == JStr(filename)
  {
  }

  /** The saved chunk list records, at position `i`, chunk `i`'s own
      index and text. */
  lemma ChunkEntriesIndexed(text: string, chunkSize: nat, chunkOverlap: int, i: nat)
    requires chunkSize > 0 && i < |Chunks(text, chunkSize, chunkOverlap)|
    ensures var chunks := Chunks(text, chunkSize, chunkOverlap);
            ChunkEntries(ChunkTexts(chunks)).items[i]
            == JObject(map["index" := JInt(chunks[i].index), "text" := JStr(chunks[i].text)])
  {
    ChunksWellFormed(text, chunkSize, chunkOverlap, i);
  }

  /** Deleting the vectors of as many chunks as an upload stored removes
      every one of them and nothing else: with no failing call, the index
      ends as if the document had never been stored, less any stale
      vectors of the same document. */
  lemma DeleteUndoesStore(v: map<string, VectorRecord>, documentId: string, filename: string,
                          texts: seq<string>, embeddings: seq<Embedding>, call: nat, faults: map<nat, Fault>)
    requires |embeddings| == |texts|
    requires forall c :: call <= c < call + NumBatches(|texts|) ==> c !in faults
    ensures var rs := Records(documentId, filename, texts, embeddings);
            (v + RecordsMap(rs)) - DeleteFrom(DeleteKeys(documentId, |rs|), 0, call, faults).removed
            == v - KeySet(documentId, |texts|)
  {
    var rs := Records(documentId, filename, texts, embeddings);
    RecordsShape(documentId, filename, texts, embeddings);
    assert KeyedFrom(rs, documentId);
    DeleteCount(documentId, |rs|, call, faults);
    StoreThenDelete(v, rs, documentId);
  }

  /** After a folder deletion that raises nothing, each of the document's
      objects remains exactly when the response reported it in `refused`
      (so none remains when it reported nothing), while every object of
      another document stays as it was. */
  lemma DeleteTouchesOnlyItsFolder(objects: map<string, StoredObject>, documentId: string, filename: string,
                                   refused: set<string>, other: string, key: string)
    requires '/' !in documentId && '/' !in other && other != documentId
    requires key in objects && DocumentPrefix(other) <= key
    ensures var m := AfterDeleteObjects(objects, DocumentPrefix(documentId), refused);
            && (DocumentKey(documentId, filename) in m <==> DocumentKey(documentId, filename) in objects.Keys * refused)
            && (MetadataKey(documentId) in m <==> MetadataKey(documentId) in objects.Keys * refused)
            && (ChunksKey(documentId) in m <==> ChunksKey(documentId) in objects.Keys * refused)
            && key in m && m[key] == objects[key]
  {
    DocumentKeys(documentId, filename);
    FoldersDisjoint(documentId, other, key);
  }

  /** A document whose metadata is in the bucket is among the listed
      folders. */
  lemma UploadedDocumentIsListed(objects: map<string, StoredObject>, documentId: string)
    requires '/' !in documentId && MetadataKey(documentId) in objects
    ensures DocumentPrefix(documentId) in Folders(objects)
  {
    var key := MetadataKey(documentId);
    assert key[..10] == "documents/";
    var rest := key[10..];
    assert rest == documentId + ['/'] + "metadata.json";
    IndexOfAfter(documentId, '/', "metadata.json");
    assert rest[..|documentId|] == documentId;
    assert FolderOf(key) == Some(documentId);
  }

  /** A listed folder is the folder of an id without `/`, and an entry
      whose metadata cannot be fetched names that id. */
  lemma ListedFolderNamesDocument(objects: map<string, StoredObject>, folder: string)
    requires folder in Folders(objects)
    ensures exists id :: && '/' !in id && folder == DocumentPrefix(id)
                         && SecondSegment(folder + "metadata.json") == Some(id)
  {
    var k :| k in objects && FolderOf(k).Some? && folder == DocumentPrefix(FolderOf(k).value);
    var id := FolderOf(k).value;
    assert '/' !in id;
    SecondSegmentIsDocumentId(id, "metadata.json");
  }
}
