/** Building the vector records of a document's chunks and storing them in,
    and deleting them from, a vector index in batches. */
module VectorSearch {
  import opened Wrappers
  import opened Strings
  import opened EmbeddingsClient

  /** Most vectors sent in one put or delete call. */
  const VectorsPerBatch: nat := 500

  /** Longest chunk text kept in a vector's metadata before it is cut. */
  const MetadataTextMaxChars: nat := 500

  datatype VectorMetadata = VectorMetadata(
    documentId: string,
    documentFilename: string,
    chunkIndex: nat,
    chunkText: string)

  datatype VectorRecord = VectorRecord(key: string, data: Embedding, metadata: VectorMetadata)

  /** How a call to the index fails: a service error (`ClientError`) or
      any other exception. */
  datatype Fault = ClientFault | OtherFault

  /** The key of chunk `i`'s vector, `"{document_id}#{i}"`: the document
      id, a `#`, then the index in decimal. */
  function VectorKey(documentId: string, i: nat): (k: string)
    ensures |k| > |documentId| + 1
    ensures k[..|documentId|] == documentId && k[|documentId|] == '#'
    ensures k[|documentId| + 1..] == Decimal(i) && AllDigits(k[|documentId| + 1..])
  {
    var k := documentId + "#" + Decimal(i);
    assert k[..|documentId|] == documentId;
    assert k[|documentId| + 1..] == Decimal(i);
    k
  }

  /** Different chunks of one document get different keys. */
  lemma VectorKeysDistinct(documentId: string, i: nat, j: nat)
    requires VectorKey(documentId, i) == VectorKey(documentId, j)
    ensures i == j
  {
    var k := VectorKey(documentId, i);
    DecimalInjective(i, j);
  }

  /** Documents whose ids contain no `#` never share a vector key: the
      key determines both the document and the chunk. */
  lemma VectorKeyDetermines(d1: string, i: nat, d2: string, j: nat)
    requires '#' !in d1 && '#' !in d2
    requires VectorKey(d1, i) == VectorKey(d2, j)
    ensures d1 == d2 && i == j
  {
    var k := VectorKey(d1, i);
    IndexOfAfter(d1, '#', Decimal(i));
    IndexOfAfter(d2, '#', Decimal(j));
    assert k == d1 + ['#'] + Decimal(i) && k == d2 + ['#'] + Decimal(j);
    assert |d1| == |d2|;
    assert d1 == k[..|d1|] == d2;
    DecimalInjective(i, j);
  }

  /** The chunk text kept in metadata: the first 500 characters, with
      `"..."` appended exactly when something was cut. */
  function TruncateForMetadata(text: string): (r: string)
    ensures |text| <= MetadataTextMaxChars ==> r == text
    ensures |text| > MetadataTextMaxChars ==>
              && |r| == MetadataTextMaxChars + 3
              && r[..MetadataTextMaxChars] == text[..MetadataTextMaxChars]
              && r[MetadataTextMaxChars..] == "..."
  {
    var kept := text[..Min(|text|, MetadataTextMaxChars)];
    if |text| > MetadataTextMaxChars then
      assert (kept + "...")[..MetadataTextMaxChars] == kept;
      kept + "..."
    else kept
  }

  /** The record built for chunk `i` with text `text` and embedding
      `embedding`. */
  function Record(documentId: string, filename: string, text: string, embedding: Embedding, i: nat): VectorRecord {
    VectorRecord(
      VectorKey(documentId, i),
      embedding,
      VectorMetadata(documentId, filename, i, TruncateForMetadata(text)))
  }

  /** The records `store_document_vectors` builds: one per pair of the
      two lists taken together, up to the shorter one's length. */
  function Records(documentId: string, filename: string, texts: seq<string>, embeddings: seq<Embedding>): (rs: seq<VectorRecord>)
    ensures |rs| == Min(|texts|, |embeddings|)
    ensures forall i :: 0 <= i < |rs| ==> rs[i] == Record(documentId, filename, texts[i], embeddings[i], i)
  {
    seq(Min(|texts|, |embeddings|), i requires 0 <= i < Min(|texts|, |embeddings|) =>
      Record(documentId, filename, texts[i], embeddings[i], i))
  }

  /** Record `i` carries key `"{document_id}#{i}"`, its own embedding, the
      document id and chunk index `i` in its metadata, and the records'
      keys are pairwise distinct. */
  lemma RecordsShape(documentId: string, filename: string, texts: seq<string>, embeddings: seq<Embedding>)
    ensures forall i :: 0 <= i < |Records(documentId, filename, texts, embeddings)| ==>
              var r := Records(documentId, filename, texts, embeddings)[i];
              && r.key == VectorKey(documentId, i)
              && r.data == embeddings[i]
              && r.metadata.documentId == documentId
              && r.metadata.chunkIndex == i
              && r.metadata.chunkText == TruncateForMetadata(texts[i])
    ensures forall i, j :: 0 <= i < j < |Records(documentId, filename, texts, embeddings)| ==>
              Records(documentId, filename, texts, embeddings)[i].key
              != Records(documentId, filename, texts, embeddings)[j].key
  {
    var rs := Records(documentId, filename, texts, embeddings);
    forall i, j | 0 <= i < j < |rs| ensures rs[i].key != rs[j].key {
      if rs[i].key == rs[j].key {
        VectorKeysDistinct(documentId, i, j);
      }
    }
  }

  /** The record-building loop of `store_document_vectors`. */
  method BuildRecords(documentId: string, filename: string, texts: seq<string>, embeddings: seq<Embedding>)
    returns (vectors: seq<VectorRecord>)
    ensures vectors == Records(documentId, filename, texts, embeddings)
  {
    vectors := [];
    var i := 0;
    while i < |texts| && i < |embeddings|
      invariant i <= Min(|texts|, |embeddings|)
      invariant |vectors| == i
      invariant forall j :: 0 <= j < i ==> vectors[j] == Record(documentId, filename, texts[j], embeddings[j], j)
    {
      var text := texts[i];
      var truncated := text[..Min(|text|, MetadataTextMaxChars)];
      if |text| > MetadataTextMaxChars {
        truncated := truncated + "...";
      }
      vectors := vectors + [VectorRecord(
        documentId + "#" + Decimal(i),
        embeddings[i],
        VectorMetadata(documentId, filename, i, truncated))];
      i := i + 1;
    }
  }

  /** The index's contents after putting `rs` in order: each record under
      its key, a later record replacing an earlier one with the same key. */
  function RecordsMap(rs: seq<VectorRecord>): map<string, VectorRecord>
    decreases |rs|
  {
    if rs == [] then map[]
    else
      var last := rs[|rs| - 1];
      RecordsMap(rs[..|rs| - 1])[last.key := last]
  }

  /** Every record's key is stored, and what is stored under a key is one
      of the records, with that key. */
  lemma {:induction false} RecordsMapDomain(rs: seq<VectorRecord>)
    ensures forall r :: r in rs ==> r.key in RecordsMap(rs)
    ensures forall k :: k in RecordsMap(rs) ==> RecordsMap(rs)[k] in rs && RecordsMap(rs)[k].key == k
    decreases |rs|
  {
    if rs != [] {
      var init := rs[..|rs| - 1];
      RecordsMapDomain(init);
      assert forall r :: r in rs ==> r == rs[|rs| - 1] || r in init;
    }
  }

  /** Putting two lists one after the other is putting their
      concatenation. */
  lemma {:induction false} RecordsMapConcat(a: seq<VectorRecord>, b: seq<VectorRecord>)
    ensures RecordsMap(a + b) == RecordsMap(a) + RecordsMap(b)
    decreases |b|
  {
    if b == [] {
      assert a + b == a;
    } else {
      var init := b[..|b| - 1];
      var last := b[|b| - 1];
      assert (a + b)[..|a + b| - 1] == a + init;
      assert (a + b)[|a + b| - 1] == last;
      assert RecordsMap(a + b) == RecordsMap(a + init)[last.key := last];
      RecordsMapConcat(a, init);
      assert RecordsMap(b) == RecordsMap(init)[last.key := last];
      UnionUpdate(RecordsMap(a), RecordsMap(init), last.key, last);
    }
  }

  lemma UnionUpdate<K, V>(x: map<K, V>, y: map<K, V>, k: K, v: V)
    ensures (x + y)[k := v] == x + y[k := v]
  {
  }

  /** A record that is the only one with its key ends up in the map. */
  lemma {:induction false} RecordsMapUnique(rs: seq<VectorRecord>, i: nat)
    requires i < |rs|
    requires forall j :: 0 <= j < |rs| && j != i ==> rs[j].key != rs[i].key
    ensures rs[i].key in RecordsMap(rs) && RecordsMap(rs)[rs[i].key] == rs[i]
    decreases |rs|
  {
    if i < |rs| - 1 {
      var init := rs[..|rs| - 1];
      forall j | 0 <= j < |init| && j != i ensures init[j].key != init[i].key {
        assert init[j] == rs[j];
      }
      RecordsMapUnique(init, i);
    }
  }

  /** Record `i` of `rs` has the key of chunk `i` of the document. */
  predicate KeyedFrom(rs: seq<VectorRecord>, documentId: string) {
    forall i :: 0 <= i < |rs| ==> rs[i].key == VectorKey(documentId, i)
  }

  /** The records of a document are stored each under its own key. */
  lemma RecordsMapOfKeyed(rs: seq<VectorRecord>, documentId: string)
    requires KeyedFrom(rs, documentId)
    ensures forall i :: 0 <= i < |rs| ==> rs[i].key in RecordsMap(rs) && RecordsMap(rs)[rs[i].key] == rs[i]
  {
    forall i | 0 <= i < |rs| ensures rs[i].key in RecordsMap(rs) && RecordsMap(rs)[rs[i].key] == rs[i] {
      KeyedDistinct(rs, documentId, i);
      RecordsMapUnique(rs, i);
    }
  }

  lemma KeyedDistinct(rs: seq<VectorRecord>, documentId: string, i: nat)
    requires KeyedFrom(rs, documentId) && i < |rs|
    ensures forall j :: 0 <= j < |rs| && j != i ==> rs[j].key != rs[i].key
  {
    forall j | 0 <= j < |rs| && rs[j].key == rs[i].key ensures j == i {
      VectorKeysDistinct(documentId, i, j);
    }
  }

  /** The keys stored for the records of a document are exactly those of
      chunks `0 .. n-1`. */
  lemma RecordsMapKeys(rs: seq<VectorRecord>, documentId: string)
    requires KeyedFrom(rs, documentId)
    ensures RecordsMap(rs).Keys == KeySet(documentId, |rs|)
  {
    var m := RecordsMap(rs);
    RecordsMapDomain(rs);
    forall k | k in m ensures k in KeySet(documentId, |rs|) {
      var i :| 0 <= i < |rs| && rs[i] == m[k];
    }
    forall k | k in KeySet(documentId, |rs|) ensures k in m {
      var i :| 0 <= i < |rs| && k == VectorKey(documentId, i);
      assert rs[i] in rs;
    }
  }

  /** The keys `delete_document_vectors` regenerates for `chunkCount`
      chunks: one per index in `range(chunk_count)`. */
  function DeleteKeys(documentId: string, chunkCount: int): (keys: seq<string>)
    ensures |keys| == Max(chunkCount, 0)
    ensures forall i :: 0 <= i < |keys| ==> keys[i] == VectorKey(documentId, i)
  {
    seq(Max(chunkCount, 0), i requires 0 <= i => VectorKey(documentId, i))
  }

  /** The keys of chunks `0 .. n-1`. */
  function KeySet(documentId: string, n: nat): set<string> {
    set i | 0 <= i < n :: VectorKey(documentId, i)
  }

  /** Delete regenerates, for `n` chunks, exactly the keys a store of `n`
      records of the document used. */
  lemma DeleteKeysAreStoredKeys(rs: seq<VectorRecord>, documentId: string)
    requires KeyedFrom(rs, documentId)
    ensures |DeleteKeys(documentId, |rs|)| == |rs|
    ensures forall i :: 0 <= i < |rs| ==> DeleteKeys(documentId, |rs|)[i] == rs[i].key
    ensures (set k | k in DeleteKeys(documentId, |rs|)) == RecordsMap(rs).Keys
  {
    var keys := DeleteKeys(documentId, |rs|);
    RecordsMapKeys(rs, documentId);
    forall k | k in KeySet(documentId, |rs|) ensures k in keys {
      var i :| 0 <= i < |rs| && k == VectorKey(documentId, i);
      assert keys[i] == k;
    }
  }

  /** How many batches of at most 500 a list of `n` items makes. */
  function NumBatches(n: nat): (b: nat)
    ensures b * VectorsPerBatch >= n
    ensures b > 0 ==> (b - 1) * VectorsPerBatch < n
  {
    (n + VectorsPerBatch - 1) / VectorsPerBatch
  }

  /** The batches `xs[0:500]`, `xs[500:1000]`, … of `range(0, len(xs),
      500)`. */
  function Batches<T>(xs: seq<T>): (bs: seq<seq<T>>)
    ensures |bs| == NumBatches(|xs|)
    ensures forall b :: 0 <= b < |bs| ==> 0 < |bs[b]| <= VectorsPerBatch
    decreases |xs|
  {
    if xs == [] then []
    else
      var cut := Min(|xs|, VectorsPerBatch);
      [xs[..cut]] + Batches(xs[cut..])
  }

  function Flatten<T>(bs: seq<seq<T>>): seq<T> {
    if bs == [] then [] else bs[0] + Flatten(bs[1..])
  }

  /** The batches are contiguous and in order: joined together they give
      back the list. */
  lemma {:induction false} BatchesPartition<T>(xs: seq<T>)
    ensures Flatten(Batches(xs)) == xs
    decreases |xs|
  {
    if xs != [] {
      var cut := Min(|xs|, VectorsPerBatch);
      BatchesPartition(xs[cut..]);
      assert Batches(xs)[1..] == Batches(xs[cut..]);
      assert xs == xs[..cut] + xs[cut..];
    }
  }

  /** Batch `b` is the slice of `xs` starting at `500 * b`. */
  lemma {:induction false} BatchAt<T>(xs: seq<T>, b: nat)
    requires b < NumBatches(|xs|)
    ensures b * VectorsPerBatch < |xs|
    ensures Batches(xs)[b] == xs[b * VectorsPerBatch..Min(b * VectorsPerBatch + VectorsPerBatch, |xs|)]
    decreases b
  {
    if b > 0 {
      var cut := Min(|xs|, VectorsPerBatch);
      BatchAt(xs[cut..], b - 1);
      assert Batches(xs)[b] == Batches(xs[cut..])[b - 1];
    }
  }

  /** The outcome of call number `call` under the fault plan. */
  function FaultAt(faults: map<nat, Fault>, call: nat): Option<Fault> {
    if call in faults then Some(faults[call]) else None
  }

  /** The first call numbered in `[first, bound)` that the fault plan
      makes fail; `bound` when none does. */
  function FirstFailure(faults: map<nat, Fault>, first: nat, bound: nat): (c: nat)
    requires first <= bound
    ensures first <= c <= bound
    ensures forall m :: first <= m < c ==> m !in faults
    ensures c < bound ==> c in faults
    decreases bound - first
  {
    if first == bound then bound
    else if first in faults then first
    else FirstFailure(faults, first + 1, bound)
  }

  /** The number of the call that ends a store of `n` records whose
      first batch is call `call`: its first failing batch, or `call +
      NumBatches(n)` when every batch succeeds. */
  function StoreStop(faults: map<nat, Fault>, call: nat, n: nat): (s: nat)
    ensures call <= s <= call + NumBatches(n)
    ensures forall m :: call <= m < s ==> m !in faults
    ensures s < call + NumBatches(n) ==> s in faults
  {
    FirstFailure(faults, call, call + NumBatches(n))
  }

  /** How many records of `n` a store reaches before its first failing
      batch: every record exactly when no batch fails. */
  function StoredCount(faults: map<nat, Fault>, call: nat, n: nat): (c: nat)
    ensures c <= n
    ensures c == n <==> StoreStop(faults, call, n) == call + NumBatches(n)
  {
    Min((StoreStop(faults, call, n) - call) * VectorsPerBatch, n)
  }

  /** The effect of deleting `keys` in batches from `start` on, the first
      batch being call number `call`: how many keys the successful
      batches held, which keys they removed, and whether a fault other
      than a service error ended the run, and how many `delete_vectors`
      calls it made. A batch failing with a service error is skipped. */
  datatype DeleteRun = DeleteRun(deleted: nat, removed: set<string>, raised: bool, calls: nat)

  function DeleteFrom(keys: seq<string>, start: nat, call: nat, faults: map<nat, Fault>): (run: DeleteRun)
    ensures start <= |keys| ==> run.deleted <= |keys| - start
    decreases |keys| - start
  {
    if start >= |keys| then DeleteRun(0, {}, false, 0)
    else
      var batch := keys[start..Min(start + VectorsPerBatch, |keys|)];
      var rest := DeleteFrom(keys, start + VectorsPerBatch, call + 1, faults);
      match FaultAt(faults, call)
      case Some(OtherFault) => DeleteRun(0, {}, true, 1)
      case Some(ClientFault) => rest.(calls := rest.calls + 1)
      case None => DeleteRun(|batch| + rest.deleted, (set k | k in batch) + rest.removed, rest.raised, rest.calls + 1)
  }

  /** A delete run only removes keys it was given. */
  lemma {:induction false} DeleteFromRemovesOwnKeys(keys: seq<string>, start: nat, call: nat, faults: map<nat, Fault>)
    ensures forall k :: k in DeleteFrom(keys, start, call, faults).removed ==> k in keys
    decreases |keys| - start
  {
    if start < |keys| {
      DeleteFromRemovesOwnKeys(keys, start + VectorsPerBatch, call + 1, faults);
    }
  }

  /** With no failing call, every batch succeeds: the count is the number
      of keys and every key is removed. */
  lemma {:induction false} DeleteFromNoFaults(keys: seq<string>, start: nat, call: nat, faults: map<nat, Fault>)
    requires start <= |keys|
    requires forall c :: call <= c < call + NumBatches(|keys| - start) ==> c !in faults
    ensures DeleteFrom(keys, start, call, faults)
            == DeleteRun(|keys| - start, set k | k in keys[start..], false, NumBatches(|keys| - start))
    decreases |keys| - start
  {
    if start < |keys| {
      var end := Min(start + VectorsPerBatch, |keys|);
      assert call !in faults;
      var next := Min(start + VectorsPerBatch, |keys|);
      DeleteFromNoFaults(keys, next, call + 1, faults);
      if next < start + VectorsPerBatch {
        assert DeleteFrom(keys, start + VectorsPerBatch, call + 1, faults) == DeleteRun(0, {}, false, 0);
        assert keys[next..] == [];
      }
      assert keys[start..] == keys[start..end] + keys[next..];
    }
  }

  /** A delete of `chunkCount` chunks reports at most `chunkCount` (none
      for a count of 0 or less) and removes only that document's keys of
      chunks below `chunkCount`; with no failing call it reports and
      removes all of them. */
  lemma DeleteCount(documentId: string, chunkCount: int, call: nat, faults: map<nat, Fault>)
    ensures DeleteFrom(DeleteKeys(documentId, chunkCount), 0, call, faults).deleted <= Max(chunkCount, 0)
    ensures DeleteFrom(DeleteKeys(documentId, chunkCount), 0, call, faults).removed <= KeySet(documentId, Max(chunkCount, 0))
    ensures (forall c :: call <= c < call + NumBatches(Max(chunkCount, 0)) ==> c !in faults) ==>
              DeleteFrom(DeleteKeys(documentId, chunkCount), 0, call, faults)
              == DeleteRun(Max(chunkCount, 0), KeySet(documentId, Max(chunkCount, 0)), false, NumBatches(Max(chunkCount, 0)))
  {
    var keys := DeleteKeys(documentId, chunkCount);
    var n := Max(chunkCount, 0);
    DeleteFromRemovesOwnKeys(keys, 0, call, faults);
    assert (set k | k in keys) == KeySet(documentId, n) by {
      forall k | k in KeySet(documentId, n) ensures k in keys {
        var i :| 0 <= i < n && k == VectorKey(documentId, i);
        assert keys[i] == k;
      }
    }
    if forall c :: call <= c < call + NumBatches(n) ==> c !in faults {
      DeleteFromNoFaults(keys, 0, call, faults);
      assert keys[0..] == keys;
    }
  }

  /** Storing a document's records and then deleting its keys leaves the
      index as deleting those keys alone would: nothing of the document
      remains. */
  lemma StoreThenDelete(v: map<string, VectorRecord>, rs: seq<VectorRecord>, documentId: string)
    requires KeyedFrom(rs, documentId)
    ensures (v + RecordsMap(rs)) - KeySet(documentId, |rs|) == v - KeySet(documentId, |rs|)
  {
    RecordsMapKeys(rs, documentId);
  }

  /** The vector index: a map from key to record. Its calls are numbered
      from 0; `faults` says which calls fail and how. */
  class VectorIndex {
    var vectors: map<string, VectorRecord>
    var calls: nat
    const faults: map<nat, Fault>

    constructor (vectors: map<string, VectorRecord>, faults: map<nat, Fault>)
      ensures this.vectors == vectors && this.faults == faults && calls == 0
    {
      this.vectors := vectors;
      this.faults := faults;
      calls := 0;
    }

    /** `put_vectors`: stores each record under its key, replacing what
        was there, unless the call fails. */
    method PutVectors(batch: seq<VectorRecord>) returns (err: Option<Fault>)
      modifies this
      ensures err == FaultAt(faults, old(calls)) && calls == old(calls) + 1
      ensures vectors == if err.None? then old(vectors) + RecordsMap(batch) else old(vectors)
    {
      err := FaultAt(faults, calls);
      if err.None? {
        vectors := vectors + RecordsMap(batch);
      }
      calls := calls + 1;
    }

    /** `delete_vectors`: removes the records under the given keys (a
        missing key is no error) unless the call fails. */
    method DeleteVectors(keys: seq<string>) returns (err: Option<Fault>)
      modifies this
      ensures err == FaultAt(faults, old(calls)) && calls == old(calls) + 1
      ensures vectors == if err.None? then old(vectors) - (set k | k in keys) else old(vectors)
    {
      err := FaultAt(faults, calls);
      if err.None? {
        vectors := vectors - (set k | k in keys);
      }
      calls := calls + 1;
    }
  }

  lemma SliceConcat<T>(s: seq<T>, i: nat, j: nat)
    requires i <= j <= |s|
    ensures s[..i] + s[i..j] == s[..j]
  {
  }

  lemma MapUnionAssoc<K, V>(a: map<K, V>, b: map<K, V>, c: map<K, V>)
    ensures (a + b) + c == a + (b + c)
  {
  }

  /** Batch `b` (`500 * b < n`) is one of the `NumBatches(n)`. */
  lemma BatchIndex(b: nat, n: nat)
    ensures b * VectorsPerBatch < n <==> b < NumBatches(n)
  {
  }

  /** A batch call that succeeds is not where the store stops. */
  lemma StoreContinues(faults: map<nat, Fault>, call: nat, n: nat, b: nat)
    requires b < NumBatches(n) && call + b <= StoreStop(faults, call, n)
    requires FaultAt(faults, call + b).None?
    ensures call + b + 1 <= StoreStop(faults, call, n)
  {
  }

  /** A batch call that fails is where the store stops, with the batches
      before it stored. */
  lemma StoreStops(faults: map<nat, Fault>, call: nat, n: nat, b: nat)
    requires b < NumBatches(n) && call + b <= StoreStop(faults, call, n)
    requires FaultAt(faults, call + b).Some?
    ensures StoreStop(faults, call, n) == call + b
    ensures StoredCount(faults, call, n) == Min(b * VectorsPerBatch, n)
  {
  }

  /** When every batch succeeds, every record is stored. */
  lemma StoreCompletes(faults: map<nat, Fault>, call: nat, n: nat, b: nat)
    requires b == NumBatches(n) && call + b <= StoreStop(faults, call, n)
    ensures StoreStop(faults, call, n) == call + b
    ensures StoredCount(faults, call, n) == n
  {
  }

  /** Putting the batch that starts at `start` extends the stored prefix
      of `rs` by that batch. */
  lemma StorePrefixStep(v: map<string, VectorRecord>, rs: seq<VectorRecord>, start: nat)
    requires start < |rs|
    ensures var end := Min(start + VectorsPerBatch, |rs|);
            (v + RecordsMap(rs[..start])) + RecordsMap(rs[start..end]) == v + RecordsMap(rs[..end])
  {
    var end := Min(start + VectorsPerBatch, |rs|);
    SliceConcat(rs, start, end);
    RecordsMapConcat(rs[..start], rs[start..end]);
    MapUnionAssoc(v, RecordsMap(rs[..start]), RecordsMap(rs[start..end]));
  }

  /** `store_document_vectors`: builds one record per chunk and puts them
      in batches of 500. A failing batch ends the store with its fault,
      the earlier batches staying stored; otherwise the number of records
      is returned. */
  method StoreDocumentVectors(index: VectorIndex, documentId: string, filename: string,
                              texts: seq<string>, embeddings: seq<Embedding>)
    returns (r: Result<nat, Fault>)
    modifies index
    ensures r.Success? <==> StoreStop(index.faults, old(index.calls), Min(|texts|, |embeddings|))
                            == old(index.calls) + NumBatches(Min(|texts|, |embeddings|))
    ensures r.Success? ==> r.value == Min(|texts|, |embeddings|) && index.calls == StoreStop(index.faults, old(index.calls), Min(|texts|, |embeddings|))
    ensures r.Failure? ==> && index.calls == StoreStop(index.faults, old(index.calls), Min(|texts|, |embeddings|)) + 1
                           && r.error == index.faults[StoreStop(index.faults, old(index.calls), Min(|texts|, |embeddings|))]
    ensures index.vectors == old(index.vectors)
              + RecordsMap(Records(documentId, filename, texts, embeddings)[..StoredCount(index.faults, old(index.calls), Min(|texts|, |embeddings|))])
  {
    var vectors := BuildRecords(documentId, filename, texts, embeddings);
    r := PutInBatches(index, vectors);
  }

  /** The batch loop of `store_document_vectors`: puts `vectors` 500 at a
      time, stopping at the first failing call. */
  method PutInBatches(index: VectorIndex, vectors: seq<VectorRecord>) returns (r: Result<nat, Fault>)
    modifies index
    ensures r.Success? <==> StoreStop(index.faults, old(index.calls), |vectors|) == old(index.calls) + NumBatches(|vectors|)
    ensures r.Success? ==> r.value == |vectors| && index.calls == StoreStop(index.faults, old(index.calls), |vectors|)
    ensures r.Failure? ==> && index.calls == StoreStop(index.faults, old(index.calls), |vectors|) + 1
                           && r.error == index.faults[StoreStop(index.faults, old(index.calls), |vectors|)]
    ensures index.vectors == old(index.vectors) + RecordsMap(vectors[..StoredCount(index.faults, old(index.calls), |vectors|)])
  {
    ghost var n := |vectors|;
    ghost var call0 := index.calls;
    ghost var nb := NumBatches(n);
    ghost var stop := StoreStop(index.faults, call0, n);
    var storedCount := 0;
    var batchStart := 0;
    ghost var b: nat := 0;
    assert vectors[..0] == [];
    while batchStart < |vectors|
      invariant b <= nb && call0 + b <= stop
      invariant batchStart == b * VectorsPerBatch && storedCount == Min(batchStart, n)
      invariant index.calls == call0 + b
      invariant index.vectors == old(index.vectors) + RecordsMap(vectors[..Min(batchStart, n)])
      decreases n - batchStart
    {
      BatchIndex(b, n);
      var batchEnd := Min(batchStart + VectorsPerBatch, |vectors|);
      var batch := vectors[batchStart..batchEnd];
      var err := index.PutVectors(batch);
      if err.Some? {
        StoreStops(index.faults, call0, n, b);
        return Failure(err.value);
      }
      StoreContinues(index.faults, call0, n, b);
      StorePrefixStep(old(index.vectors), vectors, batchStart);
      storedCount := storedCount + |batch|;
      batchStart := batchStart + VectorsPerBatch;
      b := b + 1;
    }
    BatchIndex(b, n);
    StoreCompletes(index.faults, call0, n, b);
    assert vectors[..n] == vectors;
    return Success(storedCount);
  }

  /** `delete_document_vectors`: regenerates the keys of chunks
      `0 .. chunkCount-1` and deletes them in batches of 500. A batch
      failing with a service error is skipped; any other fault propagates.
      The count returned is the number of keys in the successful
      batches. */
  method DeleteDocumentVectors(index: VectorIndex, documentId: string, chunkCount: int)
    returns (r: Result<nat, Fault>)
    modifies index
    ensures r.Failure? <==> DeleteFrom(DeleteKeys(documentId, chunkCount), 0, old(index.calls), index.faults).raised
    ensures r.Failure? ==> r.error == OtherFault
    ensures r.Success? ==> r.value == DeleteFrom(DeleteKeys(documentId, chunkCount), 0, old(index.calls), index.faults).deleted
    ensures index.vectors == old(index.vectors) - DeleteFrom(DeleteKeys(documentId, chunkCount), 0, old(index.calls), index.faults).removed
    ensures index.calls == old(index.calls) + DeleteFrom(DeleteKeys(documentId, chunkCount), 0, old(index.calls), index.faults).calls
    ensures chunkCount <= 0 ==> index.calls == old(index.calls) && index.vectors == old(index.vectors)
  {
    var keys := DeleteKeys(documentId, chunkCount);
    r := DeleteInBatches(index, keys);
  }

  /** The batch loop of `delete_document_vectors`. */
  method DeleteInBatches(index: VectorIndex, keys: seq<string>) returns (r: Result<nat, Fault>)
    modifies index
    ensures r.Failure? <==> DeleteFrom(keys, 0, old(index.calls), index.faults).raised
    ensures r.Failure? ==> r.error == OtherFault
    ensures r.Success? ==> r.value == DeleteFrom(keys, 0, old(index.calls), index.faults).deleted
    ensures index.vectors == old(index.vectors) - DeleteFrom(keys, 0, old(index.calls), index.faults).removed
    ensures index.calls == old(index.calls) + DeleteFrom(keys, 0, old(index.calls), index.faults).calls
    ensures keys == [] ==> index.calls == old(index.calls) && index.vectors == old(index.vectors)
  {
    ghost var whole := DeleteFrom(keys, 0, index.calls, index.faults);
    var deletedCount: nat := 0;
    var batchStart := 0;
    ghost var removed: set<string> := {};
    ghost var made := 0;
    while batchStart < |keys|
      invariant Tracks(keys, batchStart, index.calls, index.faults, whole, deletedCount, removed, made)
      invariant index.vectors == old(index.vectors) - removed
      invariant index.calls == old(index.calls) + made
      decreases |keys| - batchStart
    {
      DeleteStep(keys, batchStart, index.calls, index.faults, whole, deletedCount, removed, made);
      var batch, err := DeleteBatch(index, keys, batchStart);
      if err == Some(OtherFault) {
        return Failure(OtherFault);
      } else if err.None? {
        MapMinusUnion(old(index.vectors), removed, set k | k in batch);
        deletedCount := deletedCount + |batch|;
        removed := removed + (set k | k in batch);
      }
      batchStart := batchStart + VectorsPerBatch;
      made := made + 1;
    }
    TracksDone(keys, batchStart, index.calls, index.faults, whole, deletedCount, removed, made);
    return Success(deletedCount);
  }

  /** One `delete_vectors` request: the batch of up to 500 keys from
      `batchStart`. */
  method DeleteBatch(index: VectorIndex, keys: seq<string>, batchStart: nat) returns (batch: seq<string>, err: Option<Fault>)
    requires batchStart < |keys|
    modifies index
    ensures batch == keys[batchStart..Min(batchStart + VectorsPerBatch, |keys|)]
    ensures err == FaultAt(index.faults, old(index.calls)) && index.calls == old(index.calls) + 1
    ensures index.vectors == if err.None? then old(index.vectors) - (set k | k in batch) else old(index.vectors)
  {
    var batchEnd := Min(batchStart + VectorsPerBatch, |keys|);
    batch := keys[batchStart..batchEnd];
    err := index.DeleteVectors(batch);
  }

  /** Halfway through a delete run from call `call` on, the batches so far
      deleted `deleted` keys, removed `removed` and made `made` calls, and
      the rest of the run accounts for the remainder of `whole`. */
  ghost predicate Tracks(keys: seq<string>, start: nat, call: nat, faults: map<nat, Fault>,
                         whole: DeleteRun, deleted: nat, removed: set<string>, made: nat) {
    var rest := DeleteFrom(keys, start, call, faults);
    && deleted + rest.deleted == whole.deleted
    && removed + rest.removed == whole.removed
    && rest.raised == whole.raised
    && made + rest.calls == whole.calls
  }

  /** One batch of the delete loop keeps `Tracks`, or ends the run. */
  lemma DeleteStep(keys: seq<string>, start: nat, call: nat, faults: map<nat, Fault>,
                   whole: DeleteRun, deleted: nat, removed: set<string>, made: nat)
    requires start < |keys| && Tracks(keys, start, call, faults, whole, deleted, removed, made)
    ensures var batch := keys[start..Min(start + VectorsPerBatch, |keys|)];
            match FaultAt(faults, call)
            case Some(OtherFault) => whole.raised && removed == whole.removed && made + 1 == whole.calls
            case Some(ClientFault) => Tracks(keys, start + VectorsPerBatch, call + 1, faults, whole, deleted, removed, made + 1)
            case None => Tracks(keys, start + VectorsPerBatch, call + 1, faults, whole,
                                deleted + |batch|, removed + (set k | k in batch), made + 1)
  {
  }

  /** A run tracked to the end of the keys has nothing left to do. */
  lemma TracksDone(keys: seq<string>, start: nat, call: nat, faults: map<nat, Fault>,
                   whole: DeleteRun, deleted: nat, removed: set<string>, made: nat)
    requires start >= |keys| && Tracks(keys, start, call, faults, whole, deleted, removed, made)
    ensures whole == DeleteRun(deleted, removed, false, made)
  {
  }

  lemma MapMinusUnion<K, V>(m: map<K, V>, a: set<K>, b: set<K>)
    ensures (m - a) - b == m - (a + b)
  {
  }
}
