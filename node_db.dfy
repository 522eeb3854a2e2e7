/**
 * The SQLite tables of the Node backend (`pdfs`, `chunks`, with the column
 * shapes database.js creates) and the statements server.js and api.js run on
 * them: the two INSERTs, the owner-filtered listing and the chunks-to-pdfs join.
 */
module NodeDb {
  import opened Retrieval

  type UserId = int

  /** A `pdfs` row; the `uploadedAt` default timestamp is not modelled. */
  datatype PdfRow = PdfRow(id: int, userId: UserId, fileName: string)

  /** A `chunks` row; the JSON text column is modelled by the embedding it encodes. */
  datatype ChunkRow = ChunkRow(id: int, pdfId: int, content: string, embedding: Embedding)

  /** What `SELECT id, fileName FROM pdfs` returns for one row. */
  datatype PdfSummary = PdfSummary(id: int, fileName: string)

  ghost predicate PdfIdsIncreasing(pdfs: seq<PdfRow>)
  {
    forall i, j :: 0 <= i < j < |pdfs| ==> pdfs[i].id < pdfs[j].id
  }

  ghost predicate ChunkIdsIncreasing(chunks: seq<ChunkRow>)
  {
    forall i, j :: 0 <= i < j < |chunks| ==> chunks[i].id < chunks[j].id
  }

  /** A pdf row with id `pdfId` exists and belongs to `u` (the JOIN's ON and WHERE conditions). */
  predicate OwnedBy(pdfs: seq<PdfRow>, pdfId: int, u: UserId)
  {
    exists p :: p in pdfs && p.id == pdfId && p.userId == u
  }

  /** SELECT id, fileName FROM pdfs WHERE userId = ?, in table order. */
  function ListPdfsOf(pdfs: seq<PdfRow>, u: UserId): (r: seq<PdfSummary>)
    ensures |r| <= |pdfs|
    ensures forall s :: s in r <==> exists p :: p in pdfs && p.userId == u && s == PdfSummary(p.id, p.fileName)
    ensures PdfIdsIncreasing(pdfs) ==> forall i, j :: 0 <= i < j < |r| ==> r[i].id < r[j].id
    decreases |pdfs|
  {
    if pdfs == [] then []
    else
      var rest := ListPdfsOf(pdfs[1..], u);
      assert forall p :: p in pdfs <==> p == pdfs[0] || p in pdfs[1..];
      if pdfs[0].userId == u then
        assert PdfIdsIncreasing(pdfs) ==> forall s :: s in rest ==> pdfs[0].id < s.id;
        [PdfSummary(pdfs[0].id, pdfs[0].fileName)] + rest
      else rest
  }

  /**
   * SELECT c.content, c.embedding FROM chunks c JOIN pdfs p ON c.pdfId = p.id
   * WHERE p.userId = ?, in chunk-table order.  With unique pdf ids each chunk
   * joins at most one pdf row, so the join is a filter of the chunks table.
   */
  function UserChunks(pdfs: seq<PdfRow>, chunks: seq<ChunkRow>, u: UserId): (r: seq<ChunkRow>)
    ensures |r| <= |chunks|
    ensures forall c :: c in r <==> c in chunks && OwnedBy(pdfs, c.pdfId, u)
    ensures ChunkIdsIncreasing(chunks) ==> ChunkIdsIncreasing(r)
    decreases |chunks|
  {
    if chunks == [] then []
    else
      var rest := UserChunks(pdfs, chunks[1..], u);
      assert forall c :: c in chunks <==> c == chunks[0] || c in chunks[1..];
      if OwnedBy(pdfs, chunks[0].pdfId, u) then
        assert ChunkIdsIncreasing(chunks) ==> forall c :: c in rest ==> chunks[0].id < c.id;
        [chunks[0]] + rest
      else rest
  }

  /** The join distributes over appending rows to the chunks table. */
  lemma {:induction false} UserChunksAppend(pdfs: seq<PdfRow>, a: seq<ChunkRow>, b: seq<ChunkRow>, u: UserId)
    ensures UserChunks(pdfs, a + b, u) == UserChunks(pdfs, a, u) + UserChunks(pdfs, b, u)
    decreases |a|
  {
    if a == [] {
      assert a + b == b;
    } else {
      assert (a + b)[1..] == a[1..] + b;
      UserChunksAppend(pdfs, a[1..], b, u);
    }
  }

  /** A new pdf row that no chunk refers to changes no user's join. */
  lemma {:induction false} UserChunksNewPdf(pdfs: seq<PdfRow>, p: PdfRow, chunks: seq<ChunkRow>, u: UserId)
    requires forall c :: c in chunks ==> c.pdfId != p.id
    ensures UserChunks(pdfs + [p], chunks, u) == UserChunks(pdfs, chunks, u)
    decreases |chunks|
  {
    if chunks != [] {
      assert OwnedBy(pdfs + [p], chunks[0].pdfId, u) == OwnedBy(pdfs, chunks[0].pdfId, u) by {
        if OwnedBy(pdfs + [p], chunks[0].pdfId, u) {
          var q :| q in pdfs + [p] && q.id == chunks[0].pdfId && q.userId == u;
          assert q in pdfs;
        }
      }
      UserChunksNewPdf(pdfs, p, chunks[1..], u);
    }
  }

  /** With unique pdf ids, a pdf id has at most one owner. */
  lemma OwnerIsUnique(pdfs: seq<PdfRow>, pdfId: int, a: UserId, b: UserId)
    requires PdfIdsIncreasing(pdfs)
    ensures OwnedBy(pdfs, pdfId, a) && OwnedBy(pdfs, pdfId, b) ==> a == b
  {
    if OwnedBy(pdfs, pdfId, a) && OwnedBy(pdfs, pdfId, b) {
      var p :| p in pdfs && p.id == pdfId && p.userId == a;
      var q :| q in pdfs && q.id == pdfId && q.userId == b;
      var i :| 0 <= i < |pdfs| && pdfs[i] == p;
      var j :| 0 <= j < |pdfs| && pdfs[j] == q;
      assert i == j;
    }
  }

  /** Rows all tagged with a pdf that `owner` owns join for `owner` only (pdf ids being unique). */
  lemma RowsOfOwnedPdfJoinOnlyOwner(pdfs: seq<PdfRow>, rows: seq<ChunkRow>, pdfId: int, owner: UserId, u: UserId)
    requires PdfIdsIncreasing(pdfs)
    requires OwnedBy(pdfs, pdfId, owner)
    requires forall c :: c in rows ==> c.pdfId == pdfId
    ensures u != owner ==> UserChunks(pdfs, rows, u) == []
    ensures u == owner ==> UserChunks(pdfs, rows, u) == rows
  {
    OwnerIsUnique(pdfs, pdfId, owner, u);
    if u != owner {
      NoOwnedRowsJoin(pdfs, rows, u);
    } else {
      AllOwnedRowsJoin(pdfs, rows, owner);
    }
  }

  /** Rows none of whose pdfs belong to `u` do not join for `u`. */
  lemma {:induction false} NoOwnedRowsJoin(pdfs: seq<PdfRow>, rows: seq<ChunkRow>, u: UserId)
    requires forall c :: c in rows ==> !OwnedBy(pdfs, c.pdfId, u)
    ensures UserChunks(pdfs, rows, u) == []
    decreases |rows|
  {
    if rows != [] {
      NoOwnedRowsJoin(pdfs, rows[1..], u);
    }
  }

  /** Rows whose pdfs all belong to `u` all survive the join, in order. */
  lemma {:induction false} AllOwnedRowsJoin(pdfs: seq<PdfRow>, rows: seq<ChunkRow>, u: UserId)
    requires forall c :: c in rows ==> OwnedBy(pdfs, c.pdfId, u)
    ensures UserChunks(pdfs, rows, u) == rows
    decreases |rows|
  {
    if rows != [] {
      AllOwnedRowsJoin(pdfs, rows[1..], u);
    }
  }

  /** The `pdfs` and `chunks` tables of the SQLite database, with their AUTOINCREMENT counters. */
  class Database {
    var pdfs: seq<PdfRow>
    var chunks: seq<ChunkRow>
    var nextPdfId: int
    var nextChunkId: int

    /** Ids start at 1, increase in insertion order and are below the next id to be issued. */
    ghost predicate Valid()
      reads this
    {
      && 1 <= nextPdfId && 1 <= nextChunkId
      && PdfIdsIncreasing(pdfs) && ChunkIdsIncreasing(chunks)
      && (forall i :: 0 <= i < |pdfs| ==> 1 <= pdfs[i].id < nextPdfId)
      && (forall i :: 0 <= i < |chunks| ==> 1 <= chunks[i].id < nextChunkId)
    }

    /** The tables as CREATE TABLE IF NOT EXISTS leaves them in a new database file. */
    constructor ()
      ensures Valid() && pdfs == [] && chunks == []
    {
      pdfs, chunks := [], [];
      nextPdfId, nextChunkId := 1, 1;
    }

    /** INSERT INTO pdfs (userId, fileName) VALUES (?, ?); the result is the statement's lastID. */
    method InsertPdf(userId: UserId, fileName: string) returns (lastId: int)
      requires Valid()
      modifies this`pdfs, this`nextPdfId
      ensures Valid()
      ensures lastId == old(nextPdfId) && nextPdfId == lastId + 1
      ensures pdfs == old(pdfs) + [PdfRow(lastId, userId, fileName)]
      ensures forall p :: p in old(pdfs) ==> p.id < lastId
    {
      lastId := nextPdfId;
      pdfs := pdfs + [PdfRow(lastId, userId, fileName)];
      nextPdfId := nextPdfId + 1;
    }

    /** INSERT INTO chunks (pdfId, content, embedding) VALUES (?, ?, ?). */
    method InsertChunk(pdfId: int, content: string, embedding: Embedding) returns (lastId: int)
      requires Valid()
      modifies this`chunks, this`nextChunkId
      ensures Valid()
      ensures lastId == old(nextChunkId) && nextChunkId == lastId + 1
      ensures chunks == old(chunks) + [ChunkRow(lastId, pdfId, content, embedding)]
    {
      lastId := nextChunkId;
      chunks := chunks + [ChunkRow(lastId, pdfId, content, embedding)];
      nextChunkId := nextChunkId + 1;
    }
  }
}
