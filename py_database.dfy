/**
 * The SQLAlchemy tables of the Python backend (database.py): users, pdfs and
 * chunks with auto-assigned ids, the three create operations (each its own
 * add/commit/refresh) and the three queries, which are filters of a table in
 * row order.
 */
module PyDatabase {
  import opened Wrappers
  import opened Retrieval

  datatype User = User(id: int, email: string, hashedPassword: string, isActive: bool)

  datatype Pdf = Pdf(id: int, filename: string, ownerId: int)

  datatype Chunk = Chunk(id: int, pdfId: int, chunkIndex: int, content: string, embedding: Embedding)

  /** The registration payload (schemas.UserCreate). */
  datatype UserCreate = UserCreate(email: string, password: string)

  /** The UNIQUE constraint on users.email rejecting a commit. */
  datatype DbError = IntegrityError

  ghost predicate UserIdsIncreasing(users: seq<User>)
  {
    forall i, j :: 0 <= i < j < |users| ==> users[i].id < users[j].id
  }

  ghost predicate PdfIdsIncreasing(pdfs: seq<Pdf>)
  {
    forall i, j :: 0 <= i < j < |pdfs| ==> pdfs[i].id < pdfs[j].id
  }

  ghost predicate ChunkIdsIncreasing(chunks: seq<Chunk>)
  {
    forall i, j :: 0 <= i < j < |chunks| ==> chunks[i].id < chunks[j].id
  }

  /** No two users share an email (the column is unique). */
  ghost predicate EmailsUnique(users: seq<User>)
  {
    forall i, j :: 0 <= i < j < |users| ==> users[i].email != users[j].email
  }

  /** get_user_by_email: the first user, in table order, with that email, or None. */
  function GetUserByEmail(users: seq<User>, email: string): (r: Option<User>)
    ensures r.None? <==> forall u :: u in users ==> u.email != email
    ensures r.Some? ==>
      exists i :: 0 <= i < |users| && users[i] == r.value && r.value.email == email
                  && forall j :: 0 <= j < i ==> users[j].email != email
    decreases |users|
  {
    if users == [] then None
    else if users[0].email == email then Some(users[0])
    else
      var r := GetUserByEmail(users[1..], email);
      assert forall u :: u in users <==> u == users[0] || u in users[1..];
      if r.Some? then
        var i :| 0 <= i < |users[1..]| && users[1..][i] == r.value && r.value.email == email
                 && forall j :: 0 <= j < i ==> users[1..][j].email != email;
        assert users[i + 1] == r.value;
        r
      else r
  }

  /** get_pdfs_by_user: the pdf rows whose owner_id is the user, in table order. */
  function GetPdfsByUser(pdfs: seq<Pdf>, userId: int): (r: seq<Pdf>)
    ensures |r| <= |pdfs|
    ensures forall p :: p in r <==> p in pdfs && p.ownerId == userId
    ensures PdfIdsIncreasing(pdfs) ==> PdfIdsIncreasing(r)
    decreases |pdfs|
  {
    if pdfs == [] then []
    else
      var rest := GetPdfsByUser(pdfs[1..], userId);
      assert forall p :: p in pdfs <==> p == pdfs[0] || p in pdfs[1..];
      if pdfs[0].ownerId == userId then
        assert PdfIdsIncreasing(pdfs) ==> forall p :: p in rest ==> pdfs[0].id < p.id;
        [pdfs[0]] + rest
      else rest
  }

  /** get_chunks_by_pdf: the chunk rows whose pdf_id is the given one, in table order. */
  function GetChunksByPdf(chunks: seq<Chunk>, pdfId: int): (r: seq<Chunk>)
    ensures |r| <= |chunks|
    ensures forall c :: c in r <==> c in chunks && c.pdfId == pdfId
    ensures ChunkIdsIncreasing(chunks) ==> ChunkIdsIncreasing(r)
    decreases |chunks|
  {
    if chunks == [] then []
    else
      var rest := GetChunksByPdf(chunks[1..], pdfId);
      assert forall c :: c in chunks <==> c == chunks[0] || c in chunks[1..];
      if chunks[0].pdfId == pdfId then
        assert ChunkIdsIncreasing(chunks) ==> forall c :: c in rest ==> chunks[0].id < c.id;
        [chunks[0]] + rest
      else rest
  }

  /** The chunk query distributes over appending rows to the table. */
  lemma {:induction false} GetChunksByPdfAppend(a: seq<Chunk>, b: seq<Chunk>, pdfId: int)
    ensures GetChunksByPdf(a + b, pdfId) == GetChunksByPdf(a, pdfId) + GetChunksByPdf(b, pdfId)
    decreases |a|
  {
    if a == [] {
      assert a + b == b;
    } else {
      assert (a + b)[1..] == a[1..] + b;
      GetChunksByPdfAppend(a[1..], b, pdfId);
    }
  }

  /** A database session over the three tables; every create commits on its own. */
  class Session {
    var users: seq<User>
    var pdfs: seq<Pdf>
    var chunks: seq<Chunk>
    var nextUserId: int
    var nextPdfId: int
    var nextChunkId: int

    /** Ids start at 1, increase in insertion order and stay below the next id; emails are unique. */
    ghost predicate Valid()
      reads this
    {
      && 1 <= nextUserId && 1 <= nextPdfId && 1 <= nextChunkId
      && UserIdsIncreasing(users) && PdfIdsIncreasing(pdfs) && ChunkIdsIncreasing(chunks)
      && (forall i :: 0 <= i < |users| ==> 1 <= users[i].id < nextUserId)
      && (forall i :: 0 <= i < |pdfs| ==> 1 <= pdfs[i].id < nextPdfId)
      && (forall i :: 0 <= i < |chunks| ==> 1 <= chunks[i].id < nextChunkId)
      && EmailsUnique(users)
    }

    /** The tables as create_all leaves them in a new database. */
    constructor ()
      ensures Valid() && users == [] && pdfs == [] && chunks == []
    {
      users, pdfs, chunks := [], [], [];
      nextUserId, nextPdfId, nextChunkId := 1, 1, 1;
    }

    /**
     * create_user: store the hash of the password, never the password; a
     * taken email fails the commit and changes nothing.
     */
    method CreateUser(user: UserCreate, hash: string -> string) returns (r: Result<User, DbError>)
      requires Valid()
      modifies this`users, this`nextUserId
      ensures Valid()
      ensures (exists u :: u in old(users) && u.email == user.email) ==>
        r == Failure(IntegrityError) && users == old(users) && nextUserId == old(nextUserId)
      ensures (forall u :: u in old(users) ==> u.email != user.email) ==>
        && r == Success(User(old(nextUserId), user.email, hash(user.password), true))
        && users == old(users) + [r.value]
        && nextUserId == old(nextUserId) + 1
    {
      if exists u :: u in users && u.email == user.email {
        return Failure(IntegrityError);
      }
      var created := User(nextUserId, user.email, hash(user.password), true);
      users := users + [created];
      nextUserId := nextUserId + 1;
      r := Success(created);
    }

    /** create_pdf: one new row owned by the user, under a fresh id. */
    method CreatePdf(userId: int, filename: string) returns (pdf: Pdf)
      requires Valid()
      modifies this`pdfs, this`nextPdfId
      ensures Valid()
      ensures pdf == Pdf(old(nextPdfId), filename, userId)
      ensures pdfs == old(pdfs) + [pdf] && nextPdfId == old(nextPdfId) + 1
      ensures forall p :: p in old(pdfs) ==> p.id != pdf.id
    {
      pdf := Pdf(nextPdfId, filename, userId);
      pdfs := pdfs + [pdf];
      nextPdfId := nextPdfId + 1;
    }

    /** create_chunk: one new row holding exactly the given pdf id, index, content and embedding. */
    method CreateChunk(pdfId: int, chunkIndex: int, content: string, embedding: Embedding) returns (chunk: Chunk)
      requires Valid()
      modifies this`chunks, this`nextChunkId
      ensures Valid()
      ensures chunk == Chunk(old(nextChunkId), pdfId, chunkIndex, content, embedding)
      ensures chunks == old(chunks) + [chunk] && nextChunkId == old(nextChunkId) + 1
    {
      chunk := Chunk(nextChunkId, pdfId, chunkIndex, content, embedding);
      chunks := chunks + [chunk];
      nextChunkId := nextChunkId + 1;
    }
  }
}
