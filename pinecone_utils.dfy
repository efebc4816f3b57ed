/**
 * lib/pinecone-utils.ts: the adapter between the ingestion pipeline and the Pinecone
 * vector index. Chunks and their embeddings become index records; records are written
 * in batches of 100; query matches are projected into search results; the document
 * inventory is derived from one large query.
 *
 * The index itself is an abstract store: a map from record id to record, which an
 * upsert overwrites by id. Similarity search is the back end's business: a query is a
 * function from the request to the back end's answer, and match order is kept as given.
 */
module PineconeUtils {
  import opened Wrappers
  import Config

  /** An embedding vector; its numbers are opaque to the adapter. */
  type Embedding = seq<real>

  /** The chunker's output (lib/document-processor.ts), taken as given. */
  datatype ChunkMetadata = ChunkMetadata(
    filename: string,
    chunkIndex: int,
    totalChunks: int,
    pageNumber: Option<int>,
    startPosition: Option<int>,
    endPosition: Option<int>)

  datatype DocumentChunk = DocumentChunk(id: string, text: string, metadata: ChunkMetadata)

  /** The metadata stored with a record; an optional field is absent rather than `undefined`. */
  datatype RecordMetadata = RecordMetadata(
    text: string,
    filename: string,
    chunkIndex: int,
    totalChunks: int,
    pageNumber: Option<int>,
    startPosition: Option<int>,
    endPosition: Option<int>)

  /** `PineconeVector`: one index record. */
  datatype PineconeVector = PineconeVector(id: string, values: Embedding, metadata: RecordMetadata)

  const BATCH_SIZE: nat := 100
  const DEFAULT_TOP_K := 5
  const PROBE_DIMENSION := 768
  const PROBE_TOP_K := 10000

  const STORE_FAILED := "Failed to store document chunks"
  const SEARCH_FAILED := "Failed to search documents"
  const LIST_FAILED := "Failed to get document list"

  // ---------------------------------------------------------------------------
  // Record construction

  /** The record built for one chunk and its embedding. */
  function ToRecord(chunk: DocumentChunk, values: Embedding): PineconeVector {
    PineconeVector(
      chunk.id,
      values,
      RecordMetadata(
        chunk.text,
        chunk.metadata.filename,
        chunk.metadata.chunkIndex,
        chunk.metadata.totalChunks,
        chunk.metadata.pageNumber,
        chunk.metadata.startPosition,
        chunk.metadata.endPosition))
  }

  /** The chunk a stored record describes: what can be read back from the index. */
  function ChunkOf(v: PineconeVector): DocumentChunk {
    var m := v.metadata;
    DocumentChunk(
      v.id, m.text,
      ChunkMetadata(m.filename, m.chunkIndex, m.totalChunks, m.pageNumber, m.startPosition, m.endPosition))
  }

  /**
   * `chunks.map((chunk, i) => ...)`: the i-th record pairs the i-th chunk with the i-th
   * embedding. The source does not compare the two lengths; the model requires enough
   * embeddings, as a caller must supply them.
   */
  function BuildRecords(chunks: seq<DocumentChunk>, embeddings: seq<Embedding>): (vs: seq<PineconeVector>)
    requires |chunks| <= |embeddings|
    ensures |vs| == |chunks|
    ensures forall i :: 0 <= i < |vs| ==>
              vs[i].id == chunks[i].id && vs[i].values == embeddings[i] && ChunkOf(vs[i]) == chunks[i]
  {
    seq(|chunks|, i requires 0 <= i < |chunks| => ToRecord(chunks[i], embeddings[i]))
  }

  /**
   * A record keeps everything about its chunk: text, filename, index and count unchanged,
   * and each optional field present exactly when the chunk defines it.
   */
  lemma RecordKeepsChunk(chunk: DocumentChunk, values: Embedding)
    ensures ChunkOf(ToRecord(chunk, values)) == chunk
    ensures ToRecord(chunk, values).metadata.pageNumber.Some? <==> chunk.metadata.pageNumber.Some?
    ensures ToRecord(chunk, values).metadata.startPosition.Some? <==> chunk.metadata.startPosition.Some?
    ensures ToRecord(chunk, values).metadata.endPosition.Some? <==> chunk.metadata.endPosition.Some?
  {
  }

  // ---------------------------------------------------------------------------
  // Batches

  function Min(a: int, b: int): int {
    if a <= b then a else b
  }

  /** The consecutive slices `xs[i..i + 100]` for `i = 0, 100, 200, ...` below `|xs|`. */
  function Batches<T>(xs: seq<T>): seq<seq<T>>
    decreases |xs|
  {
    if |xs| == 0 then []
    else if |xs| <= BATCH_SIZE then [xs]
    else [xs[..BATCH_SIZE]] + Batches(xs[BATCH_SIZE..])
  }

  /** The concatenation of a sequence of batches, in order. */
  function Flatten<T>(bs: seq<seq<T>>): seq<T> {
    if bs == [] then [] else bs[0] + Flatten(bs[1..])
  }

  lemma {:induction false} FlattenAppend<T>(bs: seq<seq<T>>, b: seq<T>)
    ensures Flatten(bs + [b]) == Flatten(bs) + b
  {
    if bs != [] {
      assert (bs + [b])[1..] == bs[1..] + [b];
      FlattenAppend(bs[1..], b);
    }
  }

  /** Batching partitions the records: concatenated in order, the batches give them back. */
  lemma {:induction false} BatchesFlatten<T>(xs: seq<T>)
    ensures Flatten(Batches(xs)) == xs
    decreases |xs|
  {
    if |xs| > BATCH_SIZE {
      BatchesFlatten(xs[BATCH_SIZE..]);
      assert xs[..BATCH_SIZE] + xs[BATCH_SIZE..] == xs;
    }
  }

  /** There are ceil(n / 100) batches, each non-empty and of at most 100 records. */
  lemma {:induction false} BatchesShape<T>(xs: seq<T>)
    ensures |Batches(xs)| == (|xs| + BATCH_SIZE - 1) / BATCH_SIZE
    ensures forall k :: 0 <= k < |Batches(xs)| ==> 0 < |Batches(xs)[k]| <= BATCH_SIZE
    decreases |xs|
  {
    if |xs| > BATCH_SIZE {
      BatchesShape(xs[BATCH_SIZE..]);
      var bs := Batches(xs);
      assert bs == [xs[..BATCH_SIZE]] + Batches(xs[BATCH_SIZE..]);
      forall k | 0 < k < |bs| ensures 0 < |bs[k]| <= BATCH_SIZE {
        assert bs[k] == Batches(xs[BATCH_SIZE..])[k - 1];
      }
    }
  }

  /** Batch k (from 0) is the slice the loop takes when its counter is 100 k. */
  lemma {:induction false} BatchAt<T>(xs: seq<T>, k: nat)
    requires k < |Batches(xs)|
    ensures k * BATCH_SIZE < |xs|
    ensures Batches(xs)[k] == xs[k * BATCH_SIZE..Min(k * BATCH_SIZE + BATCH_SIZE, |xs|)]
    decreases |xs|
  {
    if k > 0 {
      var rest := xs[BATCH_SIZE..];
      assert Batches(xs)[k] == Batches(rest)[k - 1];
      BatchAt(rest, k - 1);
      assert rest[(k - 1) * BATCH_SIZE..Min((k - 1) * BATCH_SIZE + BATCH_SIZE, |rest|)]
          == xs[k * BATCH_SIZE..Min(k * BATCH_SIZE + BATCH_SIZE, |xs|)];
    }
  }

  /** The first k batches hold exactly the first 100 k records (or all of them). */
  lemma {:induction false} BatchesPrefix<T>(xs: seq<T>, k: nat)
    requires k <= |Batches(xs)|
    ensures Flatten(Batches(xs)[..k]) == xs[..Min(k * BATCH_SIZE, |xs|)]
    decreases |xs|
  {
    if k > 0 {
      if |xs| <= BATCH_SIZE {
        assert Batches(xs)[..k] == [xs];
        assert Flatten([xs]) == xs + Flatten([]);
      } else {
        var rest := xs[BATCH_SIZE..];
        assert Batches(xs)[..k] == [xs[..BATCH_SIZE]] + Batches(rest)[..k - 1];
        BatchesPrefix(rest, k - 1);
        var m := Min((k - 1) * BATCH_SIZE, |rest|);
        assert BATCH_SIZE + m == Min(k * BATCH_SIZE, |xs|);
        assert xs[..BATCH_SIZE] + rest[..m] == xs[..BATCH_SIZE + m];
      }
    }
  }

  // ---------------------------------------------------------------------------
  // The index as an abstract store

  type Store = map<string, PineconeVector>

  /** The effect of upserting `vs` into an empty index: by id, and the later record wins. */
  function Written(vs: seq<PineconeVector>): Store {
    if vs == [] then map[]
    else Written(vs[..|vs| - 1])[vs[|vs| - 1].id := vs[|vs| - 1]]
  }

  /** Writing `a` then `b` is writing `a + b`. */
  lemma {:induction false} WrittenConcat(a: seq<PineconeVector>, b: seq<PineconeVector>)
    ensures Written(a) + Written(b) == Written(a + b)
    decreases |b|
  {
    if b != [] {
      var b' := b[..|b| - 1];
      assert (a + b)[..|a + b| - 1] == a + b';
      WrittenConcat(a, b');
    } else {
      assert a + b == a;
    }
  }

  /** A record whose id no later record reuses is the one the index keeps. */
  lemma {:induction false} WrittenKeepsLast(vs: seq<PineconeVector>, i: nat)
    requires i < |vs|
    requires forall j :: i < j < |vs| ==> vs[j].id != vs[i].id
    ensures vs[i].id in Written(vs) && Written(vs)[vs[i].id] == vs[i]
  {
    if i < |vs| - 1 {
      WrittenKeepsLast(vs[..|vs| - 1], i);
    }
  }

  /** The index gains exactly the ids written. */
  lemma {:induction false} WrittenKeys(vs: seq<PineconeVector>)
    ensures Written(vs).Keys == set v | v in vs :: v.id
  {
    if vs != [] {
      WrittenKeys(vs[..|vs| - 1]);
      assert vs == vs[..|vs| - 1] + [vs[|vs| - 1]];
    }
  }

  /** Upserting the same records again leaves the index as it was: writes are by id. */
  lemma UpsertIdempotent(store: Store, vs: seq<PineconeVector>)
    ensures (store + Written(vs)) + Written(vs) == store + Written(vs)
  {
  }

  /**
   * The back end's index. `requests` records every upsert call it received, in order,
   * including a rejected one; a rejected call changes nothing.
   */
  class PineconeIndex {
    var records: Store
    ghost var requests: seq<seq<PineconeVector>>

    constructor (initial: Store)
      ensures records == initial && requests == []
    {
      records := initial;
      requests := [];
    }

    /** `index.upsert(batch)`; `accepted` is the back end's verdict on this call. */
    method Upsert(batch: seq<PineconeVector>, accepted: bool) returns (ok: bool)
      modifies this
      ensures ok == accepted
      ensures requests == old(requests) + [batch]
      ensures records == if accepted then old(records) + Written(batch) else old(records)
    {
      requests := requests + [batch];
      if accepted {
        records := records + Written(batch);
      }
      ok := accepted;
    }
  }

  /** Whether the back end rejects one of the `count` batches: `rejected` is its 1-based label. */
  predicate RejectsOneOf(rejected: Option<nat>, count: nat) {
    rejected.Some? && 1 <= rejected.value <= count
  }

  /** How many batches a store of `vs` sends: up to and including the rejected one. */
  function AttemptedBatches(vs: seq<PineconeVector>, rejected: Option<nat>): nat {
    if RejectsOneOf(rejected, |Batches(vs)|) then rejected.value else |Batches(vs)|
  }

  /** The records a store of `vs` leaves written: those of the batches before the rejected one. */
  function CommittedRecords(vs: seq<PineconeVector>, rejected: Option<nat>): seq<PineconeVector> {
    if RejectsOneOf(rejected, |Batches(vs)|) then FirstBatches(vs, rejected.value - 1) else vs
  }

  /** The records of the first k batches: the first 100 k records, or all of them. */
  function FirstBatches<T>(xs: seq<T>, k: nat): seq<T> {
    xs[..Min(k * BATCH_SIZE, |xs|)]
  }

  /** All the batches together hold every record. */
  lemma AllBatches<T>(xs: seq<T>)
    ensures FirstBatches(xs, |Batches(xs)|) == xs
  {
    BatchesPrefix(xs, |Batches(xs)|);
    BatchesFlatten(xs);
    assert Batches(xs)[..|Batches(xs)|] == Batches(xs);
  }

  /** The facts one iteration of the upsert loop needs, at counter `i = 100 k`. */
  lemma UpsertLoopStep(vs: seq<PineconeVector>, k: nat)
    requires k < |Batches(vs)|
    ensures k * BATCH_SIZE < |vs|
    ensures (k * BATCH_SIZE) / BATCH_SIZE == k
    ensures (k + 1) * BATCH_SIZE == k * BATCH_SIZE + BATCH_SIZE
    ensures Batches(vs)[k] == vs[k * BATCH_SIZE..Min(k * BATCH_SIZE + BATCH_SIZE, |vs|)]
    ensures Batches(vs)[..k] + [Batches(vs)[k]] == Batches(vs)[..k + 1]
    ensures vs[..k * BATCH_SIZE] + Batches(vs)[k] == vs[..Min((k + 1) * BATCH_SIZE, |vs|)]
    ensures k + 1 < |Batches(vs)| <==> (k + 1) * BATCH_SIZE < |vs|
  {
    BatchAt(vs, k);
    BatchesShape(vs);
  }

  /** How the loop's counters move past batch k. */
  lemma UpsertCounterStep(vs: seq<PineconeVector>, k: nat)
    requires k < |Batches(vs)|
    ensures (k + 1) * BATCH_SIZE == k * BATCH_SIZE + BATCH_SIZE
    ensures Batches(vs)[..k] + [Batches(vs)[k]] == Batches(vs)[..k + 1]
    ensures k + 1 < |Batches(vs)| <==> (k + 1) * BATCH_SIZE < |vs|
  {
    UpsertLoopStep(vs, k);
  }

  /** Writing batch k after the records before it writes the first k + 1 batches' records. */
  lemma WrittenStep(base: Store, vs: seq<PineconeVector>, k: nat)
    requires k < |Batches(vs)|
    ensures (base + Written(FirstBatches(vs, k))) + Written(Batches(vs)[k])
            == base + Written(FirstBatches(vs, k + 1))
  {
    UpsertLoopStep(vs, k);
    var before := vs[..k * BATCH_SIZE];
    WrittenConcat(before, Batches(vs)[k]);
    MapUnionAssociative(base, Written(before), Written(Batches(vs)[k]));
  }

  lemma MapUnionAssociative<K, V>(a: map<K, V>, b: map<K, V>, c: map<K, V>)
    ensures (a + b) + c == a + (b + c)
  {
  }

  /**
   * One iteration of the upsert loop, at counter `i = 100 k`: batch k is sent under the
   * label `i / 100 + 1`; when accepted, the records written so far grow by that batch.
   */
  method SendBatch(
    index: PineconeIndex, vectors: seq<PineconeVector>, i: nat, ghost k: nat, rejected: Option<nat>,
    ghost base: Store)
    returns (accepted: bool)
    requires k < |Batches(vectors)| && i == k * BATCH_SIZE
    requires index.records == base + Written(FirstBatches(vectors, k))
    modifies index
    ensures accepted <==> rejected != Some(k + 1)
    ensures index.requests == old(index.requests) + [Batches(vectors)[k]]
    ensures accepted ==> index.records == base + Written(FirstBatches(vectors, k + 1))
    ensures !accepted ==> index.records == old(index.records)
  {
    UpsertLoopStep(vectors, k);
    var batch := vectors[i..Min(i + BATCH_SIZE, |vectors|)];
    accepted := index.Upsert(batch, rejected != Some(i / BATCH_SIZE + 1));
    if accepted {
      WrittenStep(base, vectors, k);
    }
  }

  /**
   * The loop of `storeDocumentChunks` (lines 52-62): batch `i / 100 + 1` is the slice
   * starting at `i`, for `i = 0, 100, ...`; a rejected batch ends the loop with an error.
   */
  method UpsertInBatches(index: PineconeIndex, vectors: seq<PineconeVector>, rejected: Option<nat>)
    returns (ok: bool)
    modifies index
    ensures ok <==> !RejectsOneOf(rejected, |Batches(vectors)|)
    ensures index.requests == old(index.requests) + Batches(vectors)[..AttemptedBatches(vectors, rejected)]
    ensures index.records == old(index.records) + Written(CommittedRecords(vectors, rejected))
  {
    ghost var bs := Batches(vectors);
    var i := 0;
    ghost var k := 0;
    while i < |vectors|
      invariant 0 <= k <= |bs| && i == k * BATCH_SIZE
      invariant k < |bs| <==> i < |vectors|
      invariant !RejectsOneOf(rejected, k)
      invariant index.requests == old(index.requests) + bs[..k]
      invariant index.records == old(index.records) + Written(FirstBatches(vectors, k))
    {
      UpsertCounterStep(vectors, k);
      var accepted := SendBatch(index, vectors, i, k, rejected, old(index.records));
      if !accepted {
        return false;
      }
      i := i + BATCH_SIZE;
      k := k + 1;
    }
    assert bs[..k] == bs;
    AllBatches(vectors);
    return true;
  }

  /**
   * `storeDocumentChunks(chunks, embeddings)`. `connects` says whether the index can be
   * reached (see Config.GetPineconeIndex); `rejected` is the label `floor(i/100) + 1` of
   * the first batch the back end rejects, if any. Batches go out one after another; the
   * first failure ends the call, keeps the batches already written and attempts no other.
   * Every failure is reported as the same generic error.
   */
  method StoreDocumentChunks(
    settings: Config.Settings, connects: bool, index: PineconeIndex,
    chunks: seq<DocumentChunk>, embeddings: seq<Embedding>, rejected: Option<nat>)
    returns (outcome: Outcome<string>)
    requires embeddings == [] || |chunks| <= |embeddings|
    modifies index
    ensures Config.GetPineconeIndex(settings, connects).Failure? ==>
              outcome == Fail(STORE_FAILED) && unchanged(index)
    ensures Config.GetPineconeIndex(settings, connects).Success? && (chunks == [] || embeddings == []) ==>
              outcome == Pass && unchanged(index)
    ensures Config.GetPineconeIndex(settings, connects).Success? && chunks != [] && embeddings != [] ==>
              var vs := BuildRecords(chunks, embeddings);
              && outcome == (if RejectsOneOf(rejected, |Batches(vs)|) then Fail(STORE_FAILED) else Pass)
              && index.requests == old(index.requests) + Batches(vs)[..AttemptedBatches(vs, rejected)]
              && index.records == old(index.records) + Written(CommittedRecords(vs, rejected))
  {
    var handle := Config.GetPineconeIndex(settings, connects);
    if handle.Failure? {
      return Fail(STORE_FAILED);
    }
    if |embeddings| == 0 || |chunks| == 0 {
      return Pass;
    }
    var vectors := BuildRecords(chunks, embeddings);
    var ok := UpsertInBatches(index, vectors, rejected);
    outcome := if ok then Pass else Fail(STORE_FAILED);
  }

  /**
   * What the failed call leaves behind: the whole batches before the rejected one, which
   * are the first 100 (k - 1) records, each kept under its id when ids are distinct.
   */
  lemma CommittedBeforeFailure(vs: seq<PineconeVector>, k: nat)
    requires 1 <= k <= |Batches(vs)|
    ensures (k - 1) * BATCH_SIZE < |vs|
    ensures Flatten(Batches(vs)[..k - 1]) == vs[..(k - 1) * BATCH_SIZE]
    ensures Batches(vs)[k - 1] == vs[(k - 1) * BATCH_SIZE..Min(k * BATCH_SIZE, |vs|)]
  {
    BatchAt(vs, k - 1);
    BatchesPrefix(vs, k - 1);
  }

  /** After a complete store with distinct chunk ids, each chunk's record sits under its id. */
  lemma StoredChunksReadable(chunks: seq<DocumentChunk>, embeddings: seq<Embedding>, store: Store, i: nat)
    requires |chunks| <= |embeddings| && i < |chunks|
    requires forall p, q :: 0 <= p < q < |chunks| ==> chunks[p].id != chunks[q].id
    ensures var after := store + Written(BuildRecords(chunks, embeddings));
            chunks[i].id in after && ChunkOf(after[chunks[i].id]) == chunks[i]
            && after[chunks[i].id].values == embeddings[i]
  {
    var vs := BuildRecords(chunks, embeddings);
    WrittenKeepsLast(vs, i);
  }

  // ---------------------------------------------------------------------------
  // Queries

  /** The query sent to the index. */
  datatype QueryRequest = QueryRequest(vector: Embedding, topK: int, includeMetadata: bool)

  /**
   * The metadata of a match, as the back end returns it: any field may be missing, and
   * the source reads each one with a cast and no check.
   */
  datatype MatchMetadata = MatchMetadata(
    text: Option<string>,
    filename: Option<string>,
    chunkIndex: Option<int>,
    totalChunks: Option<int>,
    pageNumber: Option<int>,
    startPosition: Option<int>,
    endPosition: Option<int>)

  datatype Match = Match(id: string, score: Option<real>, metadata: Option<MatchMetadata>)

  /** The back end's answer; `matches` may be absent. */
  datatype QueryResponse = QueryResponse(matches: Option<seq<Match>>)

  /** The back end: its answer to a query, or the message of the error it throws. */
  type QueryBackend = QueryRequest -> Result<QueryResponse, string>

  datatype SearchResult = SearchResult(
    text: Option<string>,
    filename: Option<string>,
    score: real,
    pageNumber: Option<int>,
    startPosition: Option<int>,
    endPosition: Option<int>)

  /** Metadata with every field missing. */
  const NO_METADATA := MatchMetadata(None, None, None, None, None, None, None)

  /** `match.metadata?`: reading a field through it gives `undefined` when metadata is missing. */
  function Meta(m: Match): MatchMetadata {
    m.metadata.GetOr(NO_METADATA)
  }

  /** The search result for one match; a missing score counts as 0. */
  function ToSearchResult(m: Match): SearchResult {
    SearchResult(
      Meta(m).text,
      Meta(m).filename,
      m.score.GetOr(0.0),
      Meta(m).pageNumber,
      Meta(m).startPosition,
      Meta(m).endPosition)
  }

  /** The matches of a response, none when the field is absent. */
  function MatchesOf(resp: QueryResponse): seq<Match> {
    resp.matches.GetOr([])
  }

  /**
   * `searchDocuments(queryEmbedding, topK = 5)`: one result per match in the back end's
   * order. Any failure, reaching the index or querying it, becomes one generic error.
   */
  function SearchDocuments(
    settings: Config.Settings, connects: bool, queryEmbedding: Embedding, topK: Option<int>,
    backend: QueryBackend): (r: Result<seq<SearchResult>, string>)
    ensures Config.GetPineconeIndex(settings, connects).Failure? ==> r == Failure(SEARCH_FAILED)
    ensures r.Success? <==>
              Config.GetPineconeIndex(settings, connects).Success?
              && backend(QueryRequest(queryEmbedding, topK.GetOr(DEFAULT_TOP_K), true)).Success?
    ensures r.Failure? ==> r == Failure(SEARCH_FAILED)
    ensures r.Success? ==>
              var ms := MatchesOf(backend(QueryRequest(queryEmbedding, topK.GetOr(DEFAULT_TOP_K), true)).value);
              && |r.value| == |ms|
              && forall i :: 0 <= i < |ms| ==>
                   && r.value[i].text == Meta(ms[i]).text
                   && r.value[i].filename == Meta(ms[i]).filename
                   && (ms[i].score.Some? ==> r.value[i].score == ms[i].score.value)
                   && (ms[i].score.None? ==> r.value[i].score == 0.0)
                   && r.value[i].pageNumber == Meta(ms[i]).pageNumber
                   && r.value[i].startPosition == Meta(ms[i]).startPosition
                   && r.value[i].endPosition == Meta(ms[i]).endPosition
  {
    match Config.GetPineconeIndex(settings, connects)
    case Failure(_) => Failure(SEARCH_FAILED)
    case Success(_) =>
      match backend(QueryRequest(queryEmbedding, topK.GetOr(DEFAULT_TOP_K), true))
      case Failure(_) => Failure(SEARCH_FAILED)
      case Success(resp) =>
        var ms := MatchesOf(resp);
        Success(seq(|ms|, i requires 0 <= i < |ms| => ToSearchResult(ms[i])))
  }

  /** A response without `matches` gives no results, not an error. */
  lemma NoMatchesNoResults(settings: Config.Settings, connects: bool, e: Embedding, topK: Option<int>, backend: QueryBackend)
    requires Config.GetPineconeIndex(settings, connects).Success?
    requires backend(QueryRequest(e, topK.GetOr(DEFAULT_TOP_K), true)) == Success(QueryResponse(None))
    ensures SearchDocuments(settings, connects, e, topK, backend) == Success([])
  {
  }

  /** How the back end reports a stored record among its matches. */
  function StoredMatch(v: PineconeVector, score: Option<real>): Match {
    var m := v.metadata;
    Match(v.id, score, Some(MatchMetadata(
      Some(m.text), Some(m.filename), Some(m.chunkIndex), Some(m.totalChunks),
      m.pageNumber, m.startPosition, m.endPosition)))
  }

  /** Searching finds back the text and provenance of the chunk that was stored. */
  lemma SearchRecoversChunk(chunk: DocumentChunk, values: Embedding, score: real)
    ensures ToSearchResult(StoredMatch(ToRecord(chunk, values), Some(score))) ==
            SearchResult(Some(chunk.text), Some(chunk.metadata.filename), score,
                         chunk.metadata.pageNumber, chunk.metadata.startPosition, chunk.metadata.endPosition)
  {
  }

  // ---------------------------------------------------------------------------
  // Document inventory

  datatype DocumentSummary = DocumentSummary(filename: string, totalChunks: int)

  /**
   * The probe `getDocumentList` sends: a 768-element zero vector and `topK` 10000, fixed
   * whatever embedding provider is configured.
   */
  function ProbeRequest(): (q: QueryRequest)
    ensures |q.vector| == PROBE_DIMENSION && forall i :: 0 <= i < |q.vector| ==> q.vector[i] == 0.0
    ensures q.topK == PROBE_TOP_K && q.includeMetadata
  {
    QueryRequest(seq(PROBE_DIMENSION, _ => 0.0), PROBE_TOP_K, true)
  }

  /** The filename a match is listed under: present and non-empty, else skipped. */
  function ListedName(m: Match): Option<string> {
    match Meta(m).filename
    case Some(fn) => if fn != "" then Some(fn) else None
    case None => None
  }

  /** `totalChunks || 0`. */
  function TotalOrZero(m: Match): int {
    Meta(m).totalChunks.GetOr(0)
  }

  predicate HasFile(docs: seq<DocumentSummary>, fn: string) {
    exists k :: 0 <= k < |docs| && docs[k].filename == fn
  }

  /** The inventory of `ms`: the fold the `forEach` loop performs, one match at a time. */
  function DocumentList(ms: seq<Match>): seq<DocumentSummary> {
    if ms == [] then []
    else
      var docs := DocumentList(ms[..|ms| - 1]);
      var m := ms[|ms| - 1];
      match ListedName(m)
      case Some(fn) => if HasFile(docs, fn) then docs else docs + [DocumentSummary(fn, TotalOrZero(m))]
      case None => docs
  }

  /** One more match extends the inventory of a prefix the way one loop iteration does. */
  lemma DocumentListStep(ms: seq<Match>, j: nat)
    requires j < |ms|
    ensures var docs := DocumentList(ms[..j]);
            DocumentList(ms[..j + 1]) ==
              match ListedName(ms[j])
              case Some(fn) => if HasFile(docs, fn) then docs else docs + [DocumentSummary(fn, TotalOrZero(ms[j]))]
              case None => docs
  {
    assert ms[..j + 1][..j] == ms[..j];
  }

  lemma HasFileAppend(docs: seq<DocumentSummary>, d: DocumentSummary, fn: string)
    ensures HasFile(docs + [d], fn) <==> HasFile(docs, fn) || d.filename == fn
  {
    if HasFile(docs, fn) {
      var k :| 0 <= k < |docs| && docs[k].filename == fn;
      assert (docs + [d])[k] == docs[k];
    }
    if d.filename == fn {
      assert (docs + [d])[|docs|] == d;
    }
  }

  /** The position of the first match listed under `fn`, or `|ms|` when there is none. */
  function FirstIndex(ms: seq<Match>, fn: string): (f: nat)
    ensures f <= |ms|
    ensures f < |ms| ==> ListedName(ms[f]) == Some(fn)
    ensures forall j :: 0 <= j < f && j < |ms| ==> ListedName(ms[j]) != Some(fn)
  {
    if ms == [] then 0
    else
      var f := FirstIndex(ms[..|ms| - 1], fn);
      if f < |ms| - 1 then f
      else if ListedName(ms[|ms| - 1]) == Some(fn) then |ms| - 1
      else |ms|
  }

  /** The last match either leaves the inventory alone or appends a new filename. */
  lemma DocumentListLast(ms: seq<Match>)
    requires ms != []
    ensures var docs' := DocumentList(ms[..|ms| - 1]);
            var m := ms[|ms| - 1];
            || DocumentList(ms) == docs'
            || (&& ListedName(m).Some? && !HasFile(docs', ListedName(m).value)
                && DocumentList(ms) == docs' + [DocumentSummary(ListedName(m).value, TotalOrZero(m))])
  {
  }

  /** No filename is listed twice. */
  lemma {:induction false} DocumentListDistinct(ms: seq<Match>)
    ensures var docs := DocumentList(ms);
            forall p, q :: 0 <= p < q < |docs| ==> docs[p].filename != docs[q].filename
  {
    if ms != [] {
      var docs' := DocumentList(ms[..|ms| - 1]);
      DocumentListDistinct(ms[..|ms| - 1]);
      DocumentListLast(ms);
      var docs := DocumentList(ms);
      if docs != docs' {
        var fn := docs[|docs| - 1].filename;
        forall p, q | 0 <= p < q < |docs| ensures docs[p].filename != docs[q].filename {
          assert docs[p] == docs'[p];
          if q == |docs'| {
            assert docs'[p].filename != fn;
          } else {
            assert docs[q] == docs'[q];
          }
        }
      }
    }
  }

  /** A filename is listed exactly when some match carries it (non-empty). */
  lemma {:induction false} DocumentListComplete(ms: seq<Match>, fn: string)
    ensures HasFile(DocumentList(ms), fn) <==> exists i :: 0 <= i < |ms| && ListedName(ms[i]) == Some(fn)
  {
    if ms != [] {
      var ms' := ms[..|ms| - 1];
      DocumentListComplete(ms', fn);
      var docs := DocumentList(ms');
      if exists i :: 0 <= i < |ms'| && ListedName(ms'[i]) == Some(fn) {
        var i :| 0 <= i < |ms'| && ListedName(ms'[i]) == Some(fn);
        assert ms[i] == ms'[i];
      }
      if HasFile(DocumentList(ms), fn) && !HasFile(docs, fn) {
        assert ListedName(ms[|ms| - 1]) == Some(fn);
      }
      if exists i :: 0 <= i < |ms| && ListedName(ms[i]) == Some(fn) {
        var i :| 0 <= i < |ms| && ListedName(ms[i]) == Some(fn);
        if i < |ms| - 1 {
          assert ms'[i] == ms[i];
          var k :| 0 <= k < |docs| && docs[k].filename == fn;
          assert DocumentList(ms)[k] == docs[k];
        } else if !HasFile(docs, fn) {
          assert DocumentList(ms) == docs + [DocumentSummary(fn, TotalOrZero(ms[i]))];
          assert DocumentList(ms)[|docs|].filename == fn;
        }
      }
    }
  }

  /**
   * The first match for each filename decides its chunk count (later ones are ignored),
   * and documents come in the order their filenames first appear.
   */
  lemma {:induction false} DocumentListFirstWins(ms: seq<Match>)
    ensures var docs := DocumentList(ms);
            && (forall p :: 0 <= p < |docs| ==>
                  && FirstIndex(ms, docs[p].filename) < |ms|
                  && docs[p].totalChunks == TotalOrZero(ms[FirstIndex(ms, docs[p].filename)]))
            && (forall p, q :: 0 <= p < q < |docs| ==>
                  FirstIndex(ms, docs[p].filename) < FirstIndex(ms, docs[q].filename))
  {
    if ms != [] {
      var ms' := ms[..|ms| - 1];
      var docs' := DocumentList(ms');
      DocumentListFirstWins(ms');
      DocumentListLast(ms);
      var docs := DocumentList(ms);
      forall p | 0 <= p < |docs'|
        ensures docs[p] == docs'[p]
        ensures FirstIndex(ms, docs[p].filename) == FirstIndex(ms', docs'[p].filename) < |ms'|
      {
        var fn := docs'[p].filename;
        assert FirstIndex(ms', fn) < |ms'| && docs'[p].totalChunks == TotalOrZero(ms'[FirstIndex(ms', fn)]);
      }
      if docs != docs' {
        var fn := docs[|docs| - 1].filename;
        DocumentListComplete(ms', fn);
        assert FirstIndex(ms', fn) == |ms'|;
        assert FirstIndex(ms, fn) == |ms| - 1;
      }
    }
  }

  /**
   * The state of the `forEach` loop over a prefix of the matches: `documentMap` holds one
   * summary per listed filename, and `order`, the insertion order in which
   * `Array.from(documentMap.values())` yields them, lines them up with `docs`.
   */
  ghost predicate InventoryState(documentMap: map<string, DocumentSummary>, order: seq<string>, docs: seq<DocumentSummary>) {
    && |order| == |docs|
    && (forall k :: 0 <= k < |order| ==>
          order[k] in documentMap && documentMap[order[k]] == docs[k] && order[k] == docs[k].filename)
    && (forall fn :: fn in documentMap <==> HasFile(docs, fn))
  }

  /** Setting a new filename in the map appends its summary to the inventory. */
  lemma InventoryAdd(
    documentMap: map<string, DocumentSummary>, order: seq<string>, docs: seq<DocumentSummary>,
    summary: DocumentSummary)
    requires InventoryState(documentMap, order, docs)
    requires summary.filename !in documentMap
    ensures InventoryState(documentMap[summary.filename := summary], order + [summary.filename], docs + [summary])
  {
    forall fn
      ensures HasFile(docs + [summary], fn) <==> HasFile(docs, fn) || fn == summary.filename
    {
      HasFileAppend(docs, summary, fn);
    }
  }

  /** The `forEach` over the matches (lines 115-126), returning the map's values in insertion order. */
  method CollectDocuments(ms: seq<Match>) returns (docs: seq<DocumentSummary>)
    ensures docs == DocumentList(ms)
  {
    var documentMap: map<string, DocumentSummary> := map[];
    var order: seq<string> := [];
    var j := 0;
    while j < |ms|
      invariant 0 <= j <= |ms|
      invariant InventoryState(documentMap, order, DocumentList(ms[..j]))
    {
      DocumentListStep(ms, j);
      var filename := ListedName(ms[j]);
      if filename.Some? && filename.value !in documentMap {
        var summary := DocumentSummary(filename.value, TotalOrZero(ms[j]));
        InventoryAdd(documentMap, order, DocumentList(ms[..j]), summary);
        documentMap := documentMap[filename.value := summary];
        order := order + [filename.value];
      }
      j := j + 1;
    }
    assert ms[..j] == ms;
    docs := seq(|order|, k requires 0 <= k < |order| && order[k] in documentMap => documentMap[order[k]]);
  }

  /**
   * `getDocumentList()`: one probe query, then the pass over its matches that keeps, per
   * filename, the first match's chunk count.
   */
  method GetDocumentList(settings: Config.Settings, connects: bool, backend: QueryBackend)
    returns (r: Result<seq<DocumentSummary>, string>)
    ensures Config.GetPineconeIndex(settings, connects).Failure? ==> r == Failure(LIST_FAILED)
    ensures r.Success? <==>
              Config.GetPineconeIndex(settings, connects).Success? && backend(ProbeRequest()).Success?
    ensures r.Failure? ==> r == Failure(LIST_FAILED)
    ensures r.Success? ==> r.value == DocumentList(MatchesOf(backend(ProbeRequest()).value))
  {
    var handle := Config.GetPineconeIndex(settings, connects);
    if handle.Failure? {
      return Failure(LIST_FAILED);
    }
    var response := backend(ProbeRequest());
    if response.Failure? {
      return Failure(LIST_FAILED);
    }
    var docs := CollectDocuments(MatchesOf(response.value));
    return Success(docs);
  }
}
