/**
 * The RAG core of the Node backend (server.js): ingestion of a document's
 * text into `chunks` rows, the process-wide cache of one vector store per
 * user, its lazy rebuild from the chunks-to-pdfs join, and the question path
 * with its fixed answer for a user who has no documents.
 */
module NodeServer {
  import opened Wrappers
  import opened Retrieval
  import opened NodeDb

  /** RecursiveCharacterTextSplitter settings; the splitter itself is the `split` capability. */
  const ChunkSize := 1000
  const ChunkOverlap := 200

  /** MemoryVectorStore.asRetriever() without arguments retrieves LangChain's default of 4 passages. */
  const RetrieverK := 4

  const NoDocumentsMessage := "I have no documents to search. Please upload a PDF file first."

  /** The prompt of the question chain: instructions, then CONTEXT, then QUESTION. */
  const AnswerTemplate := Template(
    "\n        You are an intelligent assistant. Answer the user's question based ONLY on the following context.\n"
    + "        If the information is not in the context, say \"I don't have enough information from the documents to answer that.\"\n"
    + "        Do not use any prior knowledge. Be concise and helpful.\n\n        CONTEXT:\n        ",
    "\n\n        QUESTION:\n        ",
    "\n\n        ANSWER:\n    ")

  /** The external calls server.js makes; None marks a call that raised. */
  datatype Capabilities = Capabilities(
    split: string -> seq<string>,        // RecursiveCharacterTextSplitter.createDocuments
    embed: string -> Option<Embedding>,  // embeddings.embedQuery
    search: Search,                      // the retriever of a MemoryVectorStore
    llm: string -> Option<string>)       // ChatOllama behind StringOutputParser

  /** One call to the language model: the passages retrieved for it and the prompt it was given. */
  datatype LlmCall = LlmCall(retrieved: seq<Passage>, prompt: string)

  /** The documents handed to MemoryVectorStore.addVectors: each row's content with its parsed embedding, in row order. */
  function Passages(rows: seq<ChunkRow>): (ps: seq<Passage>)
    ensures |ps| == |rows|
    ensures forall i :: 0 <= i < |rows| ==> ps[i] == Passage(rows[i].content, rows[i].embedding)
    decreases |rows|
  {
    if rows == [] then [] else [Passage(rows[0].content, rows[0].embedding)] + Passages(rows[1..])
  }

  /** The store a rebuild from the tables produces for user `u`. */
  function RebuiltStore(pdfs: seq<PdfRow>, chunks: seq<ChunkRow>, u: UserId): VectorStore
  {
    VectorStore(Passages(UserChunks(pdfs, chunks, u)))
  }

  /** Every passage of a rebuilt store comes from a chunk of a pdf the user owns. */
  lemma RebuiltStoreHoldsOnlyOwnChunks(pdfs: seq<PdfRow>, chunks: seq<ChunkRow>, u: UserId, p: Passage)
    requires p in RebuiltStore(pdfs, chunks, u).passages
    ensures exists c :: c in chunks && OwnedBy(pdfs, c.pdfId, u) && p == Passage(c.content, c.embedding)
  {
    var rows := UserChunks(pdfs, chunks, u);
    var i :| 0 <= i < |rows| && Passages(rows)[i] == p;
    assert rows[i] in rows;
  }

  /** The `chunks` rows ingestion inserts for `passages` under `pdfId`, with ids from `firstId`. */
  function IngestedRows(pdfId: int, passages: seq<string>, embed: string -> Option<Embedding>, firstId: int): (rows: seq<ChunkRow>)
    requires forall i :: 0 <= i < |passages| ==> embed(passages[i]).Some?
    ensures |rows| == |passages|
    ensures forall i :: 0 <= i < |rows| ==>
      rows[i] == ChunkRow(firstId + i, pdfId, passages[i], embed(passages[i]).value)
    decreases |passages|
  {
    if passages == [] then []
    else
      [ChunkRow(firstId, pdfId, passages[0], embed(passages[0]).value)]
      + IngestedRows(pdfId, passages[1..], embed, firstId + 1)
  }

  /** Rows ingested under a pdf that `owner` owns leave every other user's rebuilt store as it was. */
  lemma IngestionLeavesOthersStores(pdfs: seq<PdfRow>, chunks: seq<ChunkRow>, rows: seq<ChunkRow>,
                                    pdfId: int, owner: UserId, u: UserId)
    requires PdfIdsIncreasing(pdfs) && OwnedBy(pdfs, pdfId, owner) && u != owner
    requires forall c :: c in rows ==> c.pdfId == pdfId
    ensures RebuiltStore(pdfs, chunks + rows, u) == RebuiltStore(pdfs, chunks, u)
  {
    UserChunksAppend(pdfs, chunks, rows, u);
    RowsOfOwnedPdfJoinOnlyOwner(pdfs, rows, pdfId, owner, u);
    assert UserChunks(pdfs, chunks, u) + [] == UserChunks(pdfs, chunks, u);
  }

  /** Ingesting at least one row under a pdf `owner` owns changes `owner`'s rebuilt store. */
  lemma IngestionChangesOwnerStore(pdfs: seq<PdfRow>, chunks: seq<ChunkRow>, rows: seq<ChunkRow>,
                                   pdfId: int, owner: UserId)
    requires PdfIdsIncreasing(pdfs) && OwnedBy(pdfs, pdfId, owner) && rows != []
    requires forall c :: c in rows ==> c.pdfId == pdfId
    ensures RebuiltStore(pdfs, chunks + rows, owner) != RebuiltStore(pdfs, chunks, owner)
  {
    UserChunksAppend(pdfs, chunks, rows, owner);
    RowsOfOwnedPdfJoinOnlyOwner(pdfs, rows, pdfId, owner, owner);
    assert |Passages(UserChunks(pdfs, chunks + rows, owner))| > |Passages(UserChunks(pdfs, chunks, owner))|;
  }

  /** The rows for one more passage extend the rows for the passages before it. */
  lemma IngestedRowsSnoc(pdfId: int, passages: seq<string>, embed: string -> Option<Embedding>, firstId: int, i: nat)
    requires i < |passages|
    requires forall j :: 0 <= j <= i ==> embed(passages[j]).Some?
    ensures IngestedRows(pdfId, passages[..i + 1], embed, firstId)
         == IngestedRows(pdfId, passages[..i], embed, firstId)
            + [ChunkRow(firstId + i, pdfId, passages[i], embed(passages[i]).value)]
  {
  }

  /**
   * Every chunk refers to a pdf id already issued, and every cached store is
   * the store a rebuild from the tables would produce.
   */
  ghost predicate CoherentCache(pdfs: seq<PdfRow>, chunks: seq<ChunkRow>, nextPdfId: int, cache: map<UserId, VectorStore>)
  {
    && (forall c :: c in chunks ==> c.pdfId < nextPdfId)
    && (forall u :: u in cache ==> cache[u] == RebuiltStore(pdfs, chunks, u))
  }

  /** A complete ingestion under a pdf of `owner`, followed by dropping `owner`'s entry, keeps the cache coherent. */
  lemma CompleteIngestionKeepsCoherence(pdfs: seq<PdfRow>, chunks: seq<ChunkRow>, rows: seq<ChunkRow>, nextPdfId: int,
                                        cache: map<UserId, VectorStore>, pdfId: int, owner: UserId)
    requires CoherentCache(pdfs, chunks, nextPdfId, cache)
    requires PdfIdsIncreasing(pdfs) && forall p :: p in pdfs ==> p.id < nextPdfId
    requires OwnedBy(pdfs, pdfId, owner)
    requires forall c :: c in rows ==> c.pdfId == pdfId
    ensures CoherentCache(pdfs, chunks + rows, nextPdfId, cache - {owner})
  {
    forall u | u in cache - {owner}
      ensures (cache - {owner})[u] == RebuiltStore(pdfs, chunks + rows, u)
    {
      IngestionLeavesOthersStores(pdfs, chunks, rows, pdfId, owner, u);
    }
  }

  /** A new pdf row under the next pdf id keeps the cache coherent: no chunk refers to it yet. */
  lemma NewPdfKeepsCoherence(pdfs: seq<PdfRow>, chunks: seq<ChunkRow>, nextPdfId: int,
                             cache: map<UserId, VectorStore>, p: PdfRow)
    requires CoherentCache(pdfs, chunks, nextPdfId, cache)
    requires p.id == nextPdfId
    ensures CoherentCache(pdfs + [p], chunks, nextPdfId + 1, cache)
  {
    forall u | u in cache
      ensures cache[u] == RebuiltStore(pdfs + [p], chunks, u)
    {
      UserChunksNewPdf(pdfs, p, chunks, u);
    }
  }

  /** An ingestion that stored some rows but then stopped leaves `owner`'s cached entry, if any, stale. */
  lemma PartialIngestionLeavesStaleEntry(pdfs: seq<PdfRow>, chunks: seq<ChunkRow>, rows: seq<ChunkRow>, nextPdfId: int,
                                         cache: map<UserId, VectorStore>, pdfId: int, owner: UserId)
    requires CoherentCache(pdfs, chunks, nextPdfId, cache)
    requires PdfIdsIncreasing(pdfs) && OwnedBy(pdfs, pdfId, owner) && owner in cache
    requires rows != [] && forall c :: c in rows ==> c.pdfId == pdfId
    ensures !CoherentCache(pdfs, chunks + rows, nextPdfId, cache)
  {
    IngestionChangesOwnerStore(pdfs, chunks, rows, pdfId, owner);
  }

  /** The server: the shared database and the module-level `userVectorStores` map. */
  class RagServer {
    const db: Database
    var userVectorStores: map<UserId, VectorStore>
    /** Every call made to the language model, in order. */
    ghost var llmCalls: seq<LlmCall>

    ghost predicate Valid()
      reads this, db
    {
      db.Valid()
    }

    /**
     * Every chunk refers to a pdf id already issued, and every cached store is
     * the store a rebuild from the tables would produce now.
     */
    ghost predicate Coherent()
      reads this, db
    {
      CoherentCache(db.pdfs, db.chunks, db.nextPdfId, userVectorStores)
    }

    /** What loadVectorStoreForUser yields for `u` in the current state. */
    ghost function Lookup(u: UserId): Option<VectorStore>
      reads this, db
    {
      if u in userVectorStores then Some(userVectorStores[u])
      else if UserChunks(db.pdfs, db.chunks, u) == [] then None
      else Some(RebuiltStore(db.pdfs, db.chunks, u))
    }

    /** The server as it starts: an empty cache over the given database. */
    constructor (db: Database)
      requires db.Valid()
      ensures this.db == db && Valid()
      ensures userVectorStores == map[] && llmCalls == []
    {
      this.db := db;
      userVectorStores := map[];
      llmCalls := [];
    }

    /**
     * The loop of createVectorStoreForUser: embed each passage and insert its
     * row, in split order, stopping at the first embedding that raises.
     */
    method InsertPassages(pdfId: int, docs: seq<string>, embed: string -> Option<Embedding>) returns (n: nat)
      requires Valid()
      modifies db`chunks, db`nextChunkId
      ensures Valid()
      ensures n == EmbeddedPrefix(docs, embed)
      ensures db.chunks == old(db.chunks) + IngestedRows(pdfId, docs[..n], embed, old(db.nextChunkId))
      ensures db.nextChunkId == old(db.nextChunkId) + n
    {
      n := 0;
      while n < |docs|
        invariant 0 <= n <= |docs|
        invariant db.Valid()
        invariant forall j :: 0 <= j < n ==> embed(docs[j]).Some?
        invariant db.chunks == old(db.chunks) + IngestedRows(pdfId, docs[..n], embed, old(db.nextChunkId))
        invariant db.nextChunkId == old(db.nextChunkId) + n
      {
        var embedding := embed(docs[n]);
        if embedding.None? {
          EmbeddedPrefixIs(docs, embed, n);
          return;
        }
        var chunkId := db.InsertChunk(pdfId, docs[n], embedding.value);
        IngestedRowsSnoc(pdfId, docs, embed, old(db.nextChunkId), n);
        n := n + 1;
      }
      EmbeddedPrefixIs(docs, embed, n);
    }

    /**
     * createVectorStoreForUser: split the text, then embed and insert one
     * passage at a time; only once every passage is stored, drop the user's
     * cached store.  An embedding that raises ends the call there: the rows
     * already inserted stay and the cache is not touched.
     */
    method CreateVectorStoreForUser(userId: UserId, pdfId: int, rawText: string, caps: Capabilities)
      returns (ok: bool)
      requires Valid()
      modifies db`chunks, db`nextChunkId, this`userVectorStores
      ensures Valid()
      ensures var docs := caps.split(rawText);
              var n := EmbeddedPrefix(docs, caps.embed);
        && ok == (n == |docs|)
        && db.chunks == old(db.chunks) + IngestedRows(pdfId, docs[..n], caps.embed, old(db.nextChunkId))
        && db.nextChunkId == old(db.nextChunkId) + n
        && userVectorStores == (if ok then old(userVectorStores) - {userId} else old(userVectorStores))
      ensures ok && old(Coherent()) && OwnedBy(db.pdfs, pdfId, userId) ==> Coherent()
      ensures (&& !ok && old(Coherent()) && OwnedBy(db.pdfs, pdfId, userId) && userId in userVectorStores
               && EmbeddedPrefix(caps.split(rawText), caps.embed) > 0) ==> !Coherent()
    {
      var docs := caps.split(rawText);
      var n := InsertPassages(pdfId, docs, caps.embed);
      ghost var rows := IngestedRows(pdfId, docs[..n], caps.embed, old(db.nextChunkId));
      if n < |docs| {
        if n > 0 && old(Coherent()) && OwnedBy(db.pdfs, pdfId, userId) && userId in userVectorStores {
          assert rows[0] in rows;
          PartialIngestionLeavesStaleEntry(db.pdfs, old(db.chunks), rows, db.nextPdfId,
                                           userVectorStores, pdfId, userId);
        }
        return false;
      }
      if old(Coherent()) && OwnedBy(db.pdfs, pdfId, userId) {
        CompleteIngestionKeepsCoherence(db.pdfs, old(db.chunks), rows, db.nextPdfId, userVectorStores, pdfId, userId);
      }
      if userId in userVectorStores {
        userVectorStores := userVectorStores - {userId};
      }
      ok := true;
    }

    /**
     * loadVectorStoreForUser: the cached store on a hit, without reading the
     * tables; on a miss, the join of the user's chunks, or None (caching
     * nothing) when the user has none.
     */
    method LoadVectorStoreForUser(userId: UserId) returns (store: Option<VectorStore>)
      requires Valid()
      modifies this`userVectorStores
      ensures Valid()
      ensures store == old(Lookup(userId))
      ensures userVectorStores == if store.Some? then old(userVectorStores)[userId := store.value] else old(userVectorStores)
      ensures userId in old(userVectorStores) ==> userVectorStores == old(userVectorStores)
      ensures old(Coherent()) ==> Coherent()
      ensures old(Coherent()) && store.Some? ==> store.value == RebuiltStore(db.pdfs, db.chunks, userId)
    {
      if userId in userVectorStores {
        return Some(userVectorStores[userId]);
      }
      var userChunks := UserChunks(db.pdfs, db.chunks, userId);
      if |userChunks| == 0 {
        return None;
      }
      var vectorStore := VectorStore(Passages(userChunks));
      userVectorStores := userVectorStores[userId := vectorStore];
      store := Some(vectorStore);
    }

    /**
     * queryUserVectorStore: the fixed no-documents answer when the user has no
     * store, without calling the model; otherwise one run of the question
     * chain over the user's store.
     */
    method QueryUserVectorStore(userId: UserId, question: string, caps: Capabilities)
      returns (answer: Result<string, ChainError>)
      requires Valid()
      modifies this`userVectorStores, this`llmCalls
      ensures Valid()
      ensures var store := old(Lookup(userId));
        && userVectorStores == (if store.Some? then old(userVectorStores)[userId := store.value] else old(userVectorStores))
        && (store.None? ==> answer == Success(NoDocumentsMessage) && llmCalls == old(llmCalls))
        && (store.Some? ==>
              var run := RunChain(AnswerTemplate, RetrieverK, store.value, question, caps.search, caps.llm);
              && answer == ChainAnswer(run)
              && llmCalls == (if run.Prompted? then old(llmCalls) + [LlmCall(run.retrieved, run.prompt)] else old(llmCalls)))
      ensures old(Coherent()) ==> Coherent()
      ensures old(Coherent()) && SearchStaysInStore(caps.search) ==>
        forall i, p :: |old(llmCalls)| <= i < |llmCalls| && p in llmCalls[i].retrieved ==>
          exists c :: c in db.chunks && OwnedBy(db.pdfs, c.pdfId, userId) && p == Passage(c.content, c.embedding)
    {
      var vectorStore := LoadVectorStoreForUser(userId);
      if vectorStore.None? {
        return Success(NoDocumentsMessage);
      }
      var run := RunChain(AnswerTemplate, RetrieverK, vectorStore.value, question, caps.search, caps.llm);
      if run.Prompted? {
        llmCalls := llmCalls + [LlmCall(run.retrieved, run.prompt)];
        if old(Coherent()) && SearchStaysInStore(caps.search) {
          forall p | p in run.retrieved
            ensures exists c :: c in db.chunks && OwnedBy(db.pdfs, c.pdfId, userId) && p == Passage(c.content, c.embedding)
          {
            RebuiltStoreHoldsOnlyOwnChunks(db.pdfs, db.chunks, userId, p);
          }
        }
      }
      answer := ChainAnswer(run);
    }
  }
}
