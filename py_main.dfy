/**
 * The FastAPI handlers of the Python backend (main.py), each a sequential
 * method or function over the session: registration, pdf upload with its
 * per-chunk ingestion loop, listing, text questions and voice questions with
 * their error mapping and temporary-file cleanup.  The user resolved from the
 * bearer token arrives as an argument (None when it cannot be resolved).
 */
module PyMain {
  import opened Wrappers
  import opened Retrieval
  import opened PyDatabase
  import opened RagCore

  /** An HTTPException's status and detail. */
  datatype HttpError = HttpError(status: int, detail: string)

  const EmailTaken := HttpError(400, "Email already registered")
  const InvalidCredentials := HttpError(401, "Invalid authentication credentials")
  const NoContent := HttpError(404, "PDF not found or has no content.")
  const TranscriptionFailed := HttpError(500, "Transcription failed for the selected model.")
  const VoiceQueryFailed := HttpError(500, "Error processing voice query.")
  /** FastAPI's response to an exception no handler catches. */
  const InternalServerError := HttpError(500, "Internal Server Error")

  /** An uploaded file: its bytes and its file name. */
  datatype UploadFile = UploadFile(content: Bytes, filename: string)

  /** The body of /api/ask (schemas.QuestionRequest). */
  datatype QuestionRequest = QuestionRequest(pdfId: int, question: string)

  /** The body /api/ask_voice returns. */
  datatype VoiceAnswer = VoiceAnswer(answer: string, question: string)

  /** register_user: 400 when the email is taken, otherwise exactly one new user. */
  method RegisterUser(db: Session, user: UserCreate, hash: string -> string) returns (r: Result<User, HttpError>)
    requires db.Valid()
    modifies db`users, db`nextUserId
    ensures db.Valid()
    ensures GetUserByEmail(old(db.users), user.email).Some? ==>
      r == Failure(EmailTaken) && db.users == old(db.users) && db.nextUserId == old(db.nextUserId)
    ensures GetUserByEmail(old(db.users), user.email).None? ==>
      && r == Success(User(old(db.nextUserId), user.email, hash(user.password), true))
      && db.users == old(db.users) + [r.value]
  {
    var existing := GetUserByEmail(db.users, user.email);
    if existing.Some? {
      return Failure(EmailTaken);
    }
    var created := db.CreateUser(user, hash);
    r := Success(created.value);
  }

  /** A user registered under a fresh email is what get_user_by_email then finds for it. */
  lemma {:induction false} RegisteredUserIsFoundByEmail(users: seq<User>, u: User)
    requires forall v :: v in users ==> v.email != u.email
    ensures GetUserByEmail(users + [u], u.email) == Some(u)
    decreases |users|
  {
    if users != [] {
      assert (users + [u])[1..] == users[1..] + [u];
      RegisteredUserIsFoundByEmail(users[1..], u);
    }
  }

  /** The chunk rows upload_pdf stores for `texts`: row i has chunk_index i, text i and text i's own embedding. */
  function UploadedChunks(pdfId: int, texts: seq<string>, embed: string -> Option<Embedding>, firstId: int): (rows: seq<Chunk>)
    requires forall i :: 0 <= i < |texts| ==> embed(texts[i]).Some?
    ensures |rows| == |texts|
    ensures forall i :: 0 <= i < |rows| ==>
      rows[i] == Chunk(firstId + i, pdfId, i, texts[i], embed(texts[i]).value)
    decreases |texts|
  {
    if texts == [] then []
    else
      var last := |texts| - 1;
      UploadedChunks(pdfId, texts[..last], embed, firstId)
      + [Chunk(firstId + last, pdfId, last, texts[last], embed(texts[last]).value)]
  }

  /**
   * The loop of upload_pdf: embed each text on its own and commit its chunk
   * row, stopping at the first embedding that raises.
   */
  method StoreChunks(db: Session, pdfId: int, texts: seq<string>, embed: string -> Option<Embedding>) returns (n: nat)
    requires db.Valid()
    modifies db`chunks, db`nextChunkId
    ensures db.Valid()
    ensures n == EmbeddedPrefix(texts, embed)
    ensures db.chunks == old(db.chunks) + UploadedChunks(pdfId, texts[..n], embed, old(db.nextChunkId))
    ensures db.nextChunkId == old(db.nextChunkId) + n
  {
    n := 0;
    while n < |texts|
      invariant 0 <= n <= |texts|
      invariant db.Valid()
      invariant forall j :: 0 <= j < n ==> embed(texts[j]).Some?
      invariant db.chunks == old(db.chunks) + UploadedChunks(pdfId, texts[..n], embed, old(db.nextChunkId))
      invariant db.nextChunkId == old(db.nextChunkId) + n
    {
      var embedding := embed(texts[n]);
      if embedding.None? {
        EmbeddedPrefixIs(texts, embed, n);
        return;
      }
      var chunk := db.CreateChunk(pdfId, n, texts[n], embedding.value);
      assert texts[..n + 1][..n] == texts[..n];
      n := n + 1;
    }
    EmbeddedPrefixIs(texts, embed, n);
  }

  /**
   * upload_pdf: 401 before reading anything when the user is not resolved;
   * extract and split the text, commit the pdf row, then one chunk row per
   * text.  An exception (extraction or an embedding) is unhandled, a 500;
   * one raised in the loop leaves the pdf row and the chunks committed so far.
   */
  method UploadPdf(db: Session, user: Option<User>, file: UploadFile, caps: Capabilities) returns (r: Result<Pdf, HttpError>)
    requires db.Valid()
    modifies db`pdfs, db`nextPdfId, db`chunks, db`nextChunkId
    ensures db.Valid()
    ensures user.None? ==> r == Failure(InvalidCredentials)
    ensures user.Some? && caps.extractText(file.content).None? ==> r == Failure(InternalServerError)
    ensures user.None? || caps.extractText(file.content).None? ==>
      && db.pdfs == old(db.pdfs) && db.nextPdfId == old(db.nextPdfId)
      && db.chunks == old(db.chunks) && db.nextChunkId == old(db.nextChunkId)
    ensures user.Some? && caps.extractText(file.content).Some? ==>
      var pdf := Pdf(old(db.nextPdfId), file.filename, user.value.id);
      var texts := caps.splitText(caps.extractText(file.content).value);
      var n := EmbeddedPrefix(texts, caps.embed);
      && db.pdfs == old(db.pdfs) + [pdf]
      && db.chunks == old(db.chunks) + UploadedChunks(pdf.id, texts[..n], caps.embed, old(db.nextChunkId))
      && r == (if n == |texts| then Success(pdf) else Failure(InternalServerError))
    ensures user.Some? && caps.extractText(file.content).Some? && r.Success?
            && (forall c :: c in old(db.chunks) ==> c.pdfId != old(db.nextPdfId)) ==>
      var texts := caps.splitText(caps.extractText(file.content).value);
      && GetChunksByPdf(db.chunks, r.value.id) == UploadedChunks(r.value.id, texts, caps.embed, old(db.nextChunkId))
      && (texts != [] ==>
            && PdfStore(db.chunks, r.value.id).Some?
            && |PdfStore(db.chunks, r.value.id).value.passages| == |texts|
            && forall i :: 0 <= i < |texts| ==>
                 PdfStore(db.chunks, r.value.id).value.passages[i] == Passage(texts[i], caps.embed(texts[i]).value))
  {
    if user.None? {
      return Failure(InvalidCredentials);
    }
    var pdfText := caps.extractText(file.content);
    if pdfText.None? {
      return Failure(InternalServerError);
    }
    var textChunks := caps.splitText(pdfText.value);
    var dbPdf := db.CreatePdf(user.value.id, file.filename);
    var n := StoreChunks(db, dbPdf.id, textChunks, caps.embed);
    if n < |textChunks| {
      return Failure(InternalServerError);
    }
    assert textChunks[..n] == textChunks;
    if forall c :: c in old(db.chunks) ==> c.pdfId != dbPdf.id {
      UploadedChunksAreThePdfChunks(old(db.chunks), dbPdf.id, textChunks, caps.embed, old(db.nextChunkId));
      if textChunks != [] {
        UploadedPdfStoreIsItsTexts(old(db.chunks), dbPdf.id, textChunks, caps.embed, old(db.nextChunkId));
      }
    }
    r := Success(dbPdf);
  }

  /** Rows all tagged with one pdf id are all found by that id. */
  lemma {:induction false} ChunksOfOnePdfAllFound(rows: seq<Chunk>, pdfId: int)
    requires forall c :: c in rows ==> c.pdfId == pdfId
    ensures GetChunksByPdf(rows, pdfId) == rows
    decreases |rows|
  {
    if rows != [] {
      ChunksOfOnePdfAllFound(rows[1..], pdfId);
    }
  }

  /** Rows of other pdfs are not found by this id. */
  lemma {:induction false} ChunksOfOtherPdfsNotFound(rows: seq<Chunk>, pdfId: int)
    requires forall c :: c in rows ==> c.pdfId != pdfId
    ensures GetChunksByPdf(rows, pdfId) == []
    decreases |rows|
  {
    if rows != [] {
      ChunksOfOtherPdfsNotFound(rows[1..], pdfId);
    }
  }

  /** The chunks found for a freshly uploaded pdf are exactly the rows its upload stored. */
  lemma UploadedChunksAreThePdfChunks(oldChunks: seq<Chunk>, pdfId: int, texts: seq<string>,
                                      embed: string -> Option<Embedding>, firstId: int)
    requires forall c :: c in oldChunks ==> c.pdfId != pdfId
    requires forall i :: 0 <= i < |texts| ==> embed(texts[i]).Some?
    ensures GetChunksByPdf(oldChunks + UploadedChunks(pdfId, texts, embed, firstId), pdfId)
            == UploadedChunks(pdfId, texts, embed, firstId)
  {
    var rows := UploadedChunks(pdfId, texts, embed, firstId);
    GetChunksByPdfAppend(oldChunks, rows, pdfId);
    ChunksOfOtherPdfsNotFound(oldChunks, pdfId);
    forall c | c in rows
      ensures c.pdfId == pdfId
    {
      var i :| 0 <= i < |rows| && rows[i] == c;
    }
    ChunksOfOnePdfAllFound(rows, pdfId);
    assert [] + rows == rows;
  }

  /**
   * After a complete upload of a new pdf, the store built for its id pairs
   * each split text with its own embedding, in split order.
   */
  lemma UploadedPdfStoreIsItsTexts(oldChunks: seq<Chunk>, pdfId: int, texts: seq<string>,
                                   embed: string -> Option<Embedding>, firstId: int)
    requires forall c :: c in oldChunks ==> c.pdfId != pdfId
    requires texts != [] && forall i :: 0 <= i < |texts| ==> embed(texts[i]).Some?
    ensures var store := PdfStore(oldChunks + UploadedChunks(pdfId, texts, embed, firstId), pdfId);
      && store.Some?
      && |store.value.passages| == |texts|
      && forall i :: 0 <= i < |texts| ==> store.value.passages[i] == Passage(texts[i], embed(texts[i]).value)
  {
    UploadedChunksAreThePdfChunks(oldChunks, pdfId, texts, embed, firstId);
  }

  /** GET /api/pdfs: 401 when the user is not resolved, otherwise exactly the user's pdf rows. */
  function GetPdfs(db: Session, user: Option<User>): (r: Result<seq<Pdf>, HttpError>)
    reads db
    ensures user.None? <==> r == Failure(InvalidCredentials)
    ensures user.Some? ==> r.Success? && forall p :: p in r.value <==> p in db.pdfs && p.ownerId == user.value.id
    ensures user.Some? && PdfIdsIncreasing(db.pdfs) ==> PdfIdsIncreasing(r.value)
  {
    if user.None? then Failure(InvalidCredentials) else Success(GetPdfsByUser(db.pdfs, user.value.id))
  }

  /**
   * The store ask_question and ask_voice build for a pdf id, as written: from
   * every chunk with that pdf id, whoever owns the pdf.
   */
  function PdfStore(chunks: seq<Chunk>, pdfId: int): (r: Option<VectorStore>)
    ensures r.None? <==> GetChunksByPdf(chunks, pdfId) == []
  {
    CreateVectorStoreFromDbChunks(GetChunksByPdf(chunks, pdfId))
  }

  /** Every passage of the store built for a pdf id comes from a chunk with that pdf id. */
  lemma PdfStoreHoldsOnlyThatPdf(chunks: seq<Chunk>, pdfId: int)
    requires PdfStore(chunks, pdfId).Some?
    ensures forall p :: p in PdfStore(chunks, pdfId).value.passages ==>
      exists c :: c in chunks && c.pdfId == pdfId && p == Passage(c.content, c.embedding)
  {
    forall p | p in PdfStore(chunks, pdfId).value.passages
      ensures exists c :: c in chunks && c.pdfId == pdfId && p == Passage(c.content, c.embedding)
    {
      StorePassagesComeFromChunks(GetChunksByPdf(chunks, pdfId), p);
    }
  }

  /** The answer to a question over a store: the chain's result, or the unhandled exception's 500. */
  function AnswerFromStore(store: VectorStore, question: string, caps: Capabilities): (r: Result<string, HttpError>)
    ensures r.Failure? ==> r.error == InternalServerError
    ensures r.Success? <==> InvokeQa(GetQaChain(store), question, caps).Success?
    ensures r.Success? ==> r.value == InvokeQa(GetQaChain(store), question, caps).value.result
  {
    match InvokeQa(GetQaChain(store), question, caps)
    case Success(result) => Success(result.result)
    case Failure(_) => Failure(InternalServerError)
  }

  /**
   * ask_question, as written: 401 when the user is not resolved; 404 when no
   * chunk has the requested pdf id; otherwise the chain's answer over those
   * chunks.  The pdf's owner is never consulted.
   */
  function AskQuestion(db: Session, user: Option<User>, request: QuestionRequest, caps: Capabilities): (r: Result<string, HttpError>)
    reads db
    ensures user.None? ==> r == Failure(InvalidCredentials)
    ensures user.Some? ==> (r == Failure(NoContent) <==> GetChunksByPdf(db.chunks, request.pdfId) == [])
    ensures user.Some? && r.Failure? ==> r.error == NoContent || r.error == InternalServerError
    ensures user.Some? && GetChunksByPdf(db.chunks, request.pdfId) != [] ==>
      r == AnswerFromStore(PdfStore(db.chunks, request.pdfId).value, request.question, caps)
  {
    if user.None? then Failure(InvalidCredentials)
    else
      var store := PdfStore(db.chunks, request.pdfId);
      if store.None? then Failure(NoContent)
      else AnswerFromStore(store.value, request.question, caps)
  }

  /**
   * What ask_question gives a user does not depend on who the user is: any
   * resolved user reads any pdf whose id they send, and gets the same answer
   * as its owner.
   */
  lemma AnyUserReadsAnyPdf(db: Session, owner: User, other: User, request: QuestionRequest, caps: Capabilities)
    requires exists p :: p in db.pdfs && p.id == request.pdfId && p.ownerId == owner.id
    requires other.id != owner.id
    requires GetChunksByPdf(db.chunks, request.pdfId) != []
    requires forall s: VectorStore, q: string, k: nat :: caps.search(s, q, k).Some?
    requires forall prompt :: caps.llm(prompt).Some?
    ensures AskQuestion(db, Some(other), request, caps).Success?
    ensures AskQuestion(db, Some(other), request, caps) == AskQuestion(db, Some(owner), request, caps)
  {
    var store := PdfStore(db.chunks, request.pdfId).value;
    assert InvokeQa(GetQaChain(store), request.question, caps).Success?;
  }

  /** The user owns the pdf: get_pdfs_by_user lists a row with that id. */
  predicate OwnsPdf(pdfs: seq<Pdf>, userId: int, pdfId: int)
  {
    exists p :: p in GetPdfsByUser(pdfs, userId) && p.id == pdfId
  }

  /** The store for a pdf id, built only when the pdf belongs to the user. */
  function OwnedPdfStore(pdfs: seq<Pdf>, chunks: seq<Chunk>, userId: int, pdfId: int): (r: Option<VectorStore>)
    ensures r.None? <==> !OwnsPdf(pdfs, userId, pdfId) || GetChunksByPdf(chunks, pdfId) == []
    ensures r.Some? ==> r == PdfStore(chunks, pdfId)
  {
    if !OwnsPdf(pdfs, userId, pdfId) then None else PdfStore(chunks, pdfId)
  }

  /** Every passage of an owned store comes from a chunk of a pdf the user owns. */
  lemma OwnedPdfStoreHoldsOnlyOwnChunks(pdfs: seq<Pdf>, chunks: seq<Chunk>, userId: int, pdfId: int)
    requires OwnedPdfStore(pdfs, chunks, userId, pdfId).Some?
    ensures forall p :: p in OwnedPdfStore(pdfs, chunks, userId, pdfId).value.passages ==>
      exists c, d :: c in chunks && d in pdfs && c.pdfId == d.id && d.ownerId == userId
                     && p == Passage(c.content, c.embedding)
  {
    var d :| d in GetPdfsByUser(pdfs, userId) && d.id == pdfId;
    assert d in pdfs && d.ownerId == userId;
    PdfStoreHoldsOnlyThatPdf(chunks, pdfId);
  }

  /**
   * ask_question with the owner check it evidently intends: a pdf the user
   * does not own is answered with the same 404 as a pdf without content.
   */
  function AskQuestionForOwner(db: Session, user: Option<User>, request: QuestionRequest, caps: Capabilities)
    : (r: Result<string, HttpError>)
    reads db
    ensures user.None? ==> r == Failure(InvalidCredentials)
    ensures user.Some? && !OwnsPdf(db.pdfs, user.value.id, request.pdfId) ==> r == Failure(NoContent)
    ensures user.Some? && OwnsPdf(db.pdfs, user.value.id, request.pdfId) ==> r == AskQuestion(db, user, request, caps)
    ensures user.Some? && r.Success? ==>
      && OwnsPdf(db.pdfs, user.value.id, request.pdfId)
      && r == AnswerFromStore(OwnedPdfStore(db.pdfs, db.chunks, user.value.id, request.pdfId).value, request.question, caps)
  {
    if user.None? then Failure(InvalidCredentials)
    else
      var store := OwnedPdfStore(db.pdfs, db.chunks, user.value.id, request.pdfId);
      if store.None? then Failure(NoContent)
      else AnswerFromStore(store.value, request.question, caps)
  }

  /** Pdf ids being unique, at most one user owns a pdf id. */
  lemma PdfOwnerIsUnique(pdfs: seq<Pdf>, pdfId: int, a: int, b: int)
    requires PdfIdsIncreasing(pdfs)
    ensures OwnsPdf(pdfs, a, pdfId) && OwnsPdf(pdfs, b, pdfId) ==> a == b
  {
    if OwnsPdf(pdfs, a, pdfId) && OwnsPdf(pdfs, b, pdfId) {
      var p :| p in GetPdfsByUser(pdfs, a) && p.id == pdfId;
      var q :| q in GetPdfsByUser(pdfs, b) && q.id == pdfId;
      var i :| 0 <= i < |pdfs| && pdfs[i] == p;
      var j :| 0 <= j < |pdfs| && pdfs[j] == q;
      assert i == j;
    }
  }

  /** With the owner check, a user who does not own the pdf gets no answer from it. */
  lemma OtherUsersCannotReadOwnedPdf(db: Session, owner: User, other: User, request: QuestionRequest, caps: Capabilities)
    requires PdfIdsIncreasing(db.pdfs)
    requires exists p :: p in db.pdfs && p.id == request.pdfId && p.ownerId == owner.id
    requires other.id != owner.id
    ensures AskQuestionForOwner(db, Some(other), request, caps) == Failure(NoContent)
  {
    var p :| p in db.pdfs && p.id == request.pdfId && p.ownerId == owner.id;
    assert p in GetPdfsByUser(db.pdfs, owner.id);
    PdfOwnerIsUnique(db.pdfs, request.pdfId, owner.id, other.id);
  }

  /** The files on disk, as far as temporary audio files are concerned. */
  class FileSystem {
    var files: set<string>

    constructor (files: set<string>)
      ensures this.files == files
    {
      this.files := files;
    }

    /** os.path.exists */
    function Exists(path: string): (b: bool)
      reads this
      ensures b <==> path in files
    {
      path in files
    }

    /** tempfile.NamedTemporaryFile(delete=False): a new file under a name the system chose free. */
    method CreateTemp(name: string)
      requires name !in files
      modifies this
      ensures files == old(files) + {name}
    {
      files := files + {name};
    }

    /** os.remove */
    method Remove(path: string)
      requires path in files
      modifies this
      ensures files == old(files) - {path}
    {
      files := files - {path};
    }
  }

  /** What the body of ask_voice's try block raises. */
  datatype Raised = HttpException(error: HttpError) | OtherException

  /**
   * The try block of ask_voice once the audio is converted: transcribe, raise
   * 500 for an empty transcript, 404 for a pdf without a store, run the chain
   * (an exception there is some other exception), translate the answer back
   * to the user's language.
   */
  function VoiceQuery(store: Option<VectorStore>, wav: Audio, userLang: string, languageModel: string,
                      caps: Capabilities): (r: Result<VoiceAnswer, Raised>)
    ensures var transcript := TranscribeAudio(wav, languageModel, caps);
      && (transcript.0 == "" ==> r == Failure(HttpException(TranscriptionFailed)))
      && (transcript.0 != "" && store.None? ==> r == Failure(HttpException(NoContent)))
      && (transcript.0 != "" && store.Some? ==>
            var qa := InvokeQa(GetQaChain(store.value), transcript.0, caps);
            && (qa.Success? ==>
                  r == Success(VoiceAnswer(TranslateText(qa.value.result, userLang, "en", caps.translate), transcript.0)))
            && (qa.Failure? ==> r == Failure(OtherException)))
  {
    var (question, detectedLang) := TranscribeAudio(wav, languageModel, caps);
    if question == "" then Failure(HttpException(TranscriptionFailed))
    else if store.None? then Failure(HttpException(NoContent))
    else
      match InvokeQa(GetQaChain(store.value), question, caps)
      case Failure(_) => Failure(OtherException)
      case Success(result) =>
        Success(VoiceAnswer(TranslateText(result.result, userLang, "en", caps.translate), question))
  }

  /** `except Exception`: every exception of the try block, HTTPExceptions included, becomes one 500. */
  function CatchAll(outcome: Result<VoiceAnswer, Raised>): (r: Result<VoiceAnswer, HttpError>)
    ensures outcome.Success? ==> r == Success(outcome.value)
    ensures outcome.Failure? ==> r == Failure(VoiceQueryFailed)
  {
    match outcome
    case Success(answer) => Success(answer)
    case Failure(_) => Failure(VoiceQueryFailed)
  }

  /** Choosing the "indian" model with no Sarvam key set yields the one 500 of a voice query, whatever the audio. */
  lemma IndianModelWithoutKeyFails(store: Option<VectorStore>, wav: Audio, userLang: string, caps: Capabilities)
    requires caps.sarvamKey.None? || caps.sarvamKey == Some("")
    ensures CatchAll(VoiceQuery(store, wav, userLang, "indian", caps)) == Failure(VoiceQueryFailed)
  {
  }

  /**
   * ask_voice, as written: 401 outside the try block; inside it, the
   * temporary file is created before the audio is decoded, but its path is
   * recorded only after decoding and export succeed, so the finally block
   * removes it only then.  Every failure inside is the one 500.
   */
  method AskVoice(db: Session, fs: FileSystem, user: Option<User>, audio: Bytes, pdfId: int,
                  userLang: string, languageModel: string, tempName: string, caps: Capabilities)
    returns (r: Result<VoiceAnswer, HttpError>)
    requires tempName != "" && tempName !in fs.files
    modifies fs
    ensures user.None? ==> r == Failure(InvalidCredentials) && fs.files == old(fs.files)
    ensures user.Some? ==> r.Success? || r == Failure(VoiceQueryFailed)
    ensures user.Some? && caps.toWav(audio).None? ==>
      r == Failure(VoiceQueryFailed) && fs.files == old(fs.files) + {tempName}
    ensures user.Some? && caps.toWav(audio).Some? ==>
      && r == CatchAll(VoiceQuery(PdfStore(db.chunks, pdfId), caps.toWav(audio).value, userLang, languageModel, caps))
      && fs.files == old(fs.files)
  {
    if user.None? {
      return Failure(InvalidCredentials);
    }
    var tempAudioPath := "";
    var outcome: Result<VoiceAnswer, Raised>;
    fs.CreateTemp(tempName);
    var wav := caps.toWav(audio);
    if wav.None? {
      outcome := Failure(OtherException);
    } else {
      tempAudioPath := tempName;
      outcome := VoiceQuery(PdfStore(db.chunks, pdfId), wav.value, userLang, languageModel, caps);
    }
    r := CatchAll(outcome);
    if tempAudioPath != "" && fs.Exists(tempAudioPath) {
      fs.Remove(tempAudioPath);
    }
  }

  /**
   * ask_voice as evidently intended: the path is recorded as soon as the
   * temporary file exists, so it is removed on every path, and only the
   * user's own pdfs are answered.
   */
  method AskVoiceCleaned(db: Session, fs: FileSystem, user: Option<User>, audio: Bytes, pdfId: int,
                         userLang: string, languageModel: string, tempName: string, caps: Capabilities)
    returns (r: Result<VoiceAnswer, HttpError>)
    requires tempName != "" && tempName !in fs.files
    modifies fs
    ensures fs.files == old(fs.files)
    ensures user.None? ==> r == Failure(InvalidCredentials)
    ensures user.Some? ==> r.Success? || r == Failure(VoiceQueryFailed)
    ensures user.Some? && caps.toWav(audio).None? ==> r == Failure(VoiceQueryFailed)
    ensures user.Some? && caps.toWav(audio).Some? ==>
      r == CatchAll(VoiceQuery(OwnedPdfStore(db.pdfs, db.chunks, user.value.id, pdfId), caps.toWav(audio).value,
                               userLang, languageModel, caps))
  {
    if user.None? {
      return Failure(InvalidCredentials);
    }
    var tempAudioPath := "";
    var outcome: Result<VoiceAnswer, Raised>;
    fs.CreateTemp(tempName);
    tempAudioPath := tempName;
    var wav := caps.toWav(audio);
    if wav.None? {
      outcome := Failure(OtherException);
    } else {
      outcome := VoiceQuery(OwnedPdfStore(db.pdfs, db.chunks, user.value.id, pdfId), wav.value,
                            userLang, languageModel, caps);
    }
    r := CatchAll(outcome);
    if tempAudioPath != "" && fs.Exists(tempAudioPath) {
      fs.Remove(tempAudioPath);
    }
  }
}
