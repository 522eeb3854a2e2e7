/**
 * The HTTP handlers of the Node backend (api.js), each a sequential method
 * over the server: listing the caller's pdfs, uploading a pdf (parse, insert
 * the pdf row, then ingest under its new id) and asking a question.  The
 * caller's user id is the one the authentication middleware attached.
 */
module NodeApi {
  import opened Wrappers
  import opened Retrieval
  import opened NodeDb
  import opened NodeServer

  /** The JSON bodies the handlers send. */
  datatype Body =
    | ErrorBody(error: string)
    | MessageBody(message: string)
    | AnswerBody(answer: string)
    | PdfListBody(pdfs: seq<PdfSummary>)

  datatype Response = Response(status: int, body: Body)

  /** A multer in-memory upload: the file's bytes and its original name. */
  datatype UploadedFile = UploadedFile(buffer: Bytes, originalName: string)

  const NoFileError := Response(400, ErrorBody("No PDF file uploaded."))
  const UploadFailed := Response(500, ErrorBody("Failed to process PDF."))
  const UploadDone := Response(200, MessageBody("PDF processed and stored successfully."))
  const NoQuestionError := Response(400, ErrorBody("No question provided."))
  const AskFailed := Response(500, ErrorBody("Failed to get an answer."))

  /** GET /pdfs: the id and file name of exactly the caller's pdf rows. */
  function GetPdfs(db: Database, userId: UserId): (r: Response)
    reads db
    ensures r.status == 200 && r.body.PdfListBody?
    ensures forall s :: s in r.body.pdfs <==>
      exists p :: p in db.pdfs && p.userId == userId && s == PdfSummary(p.id, p.fileName)
    ensures PdfIdsIncreasing(db.pdfs) ==>
      forall i, j :: 0 <= i < j < |r.body.pdfs| ==> r.body.pdfs[i].id < r.body.pdfs[j].id
  {
    Response(200, PdfListBody(ListPdfsOf(db.pdfs, userId)))
  }

  /**
   * POST /upload: 400 without a file; parse the pdf before writing anything
   * (a parse failure is a 500 with nothing written); insert the pdf row, then
   * ingest the text under that row's id.  An ingestion failure is a 500 that
   * leaves the pdf row and the chunks stored so far.
   */
  method Upload(server: RagServer, userId: UserId, file: Option<UploadedFile>,
                parsePdf: Bytes -> Option<string>, caps: Capabilities) returns (r: Response)
    requires server.Valid()
    modifies server.db`pdfs, server.db`nextPdfId, server.db`chunks, server.db`nextChunkId, server`userVectorStores
    ensures server.Valid()
    ensures file.None? ==> r == NoFileError
    ensures file.Some? && parsePdf(file.value.buffer).None? ==> r == UploadFailed
    ensures (file.None? || parsePdf(file.value.buffer).None?) ==>
      && server.db.pdfs == old(server.db.pdfs) && server.db.nextPdfId == old(server.db.nextPdfId)
      && server.db.chunks == old(server.db.chunks) && server.db.nextChunkId == old(server.db.nextChunkId)
      && server.userVectorStores == old(server.userVectorStores)
    ensures file.Some? && parsePdf(file.value.buffer).Some? ==>
      var pdfId := old(server.db.nextPdfId);
      var docs := caps.split(parsePdf(file.value.buffer).value);
      var n := EmbeddedPrefix(docs, caps.embed);
      && server.db.pdfs == old(server.db.pdfs) + [PdfRow(pdfId, userId, file.value.originalName)]
      && server.db.chunks == old(server.db.chunks) + IngestedRows(pdfId, docs[..n], caps.embed, old(server.db.nextChunkId))
      && r == (if n == |docs| then UploadDone else UploadFailed)
      && server.userVectorStores
         == (if n == |docs| then old(server.userVectorStores) - {userId} else old(server.userVectorStores))
    ensures old(server.Coherent()) && r.status == 200 ==> server.Coherent()
  {
    if file.None? {
      return NoFileError;
    }
    var pdfData := parsePdf(file.value.buffer);
    if pdfData.None? {
      return UploadFailed;
    }
    var pdfId := server.db.InsertPdf(userId, file.value.originalName);
    assert PdfRow(pdfId, userId, file.value.originalName) in server.db.pdfs;
    if old(server.Coherent()) {
      NewPdfKeepsCoherence(old(server.db.pdfs), server.db.chunks, pdfId, server.userVectorStores,
                           PdfRow(pdfId, userId, file.value.originalName));
    }
    var ok := server.CreateVectorStoreForUser(userId, pdfId, pdfData.value, caps);
    r := if ok then UploadDone else UploadFailed;
  }

  /**
   * POST /ask: 400 for a missing or empty question, without touching the
   * store; otherwise the answer of queryUserVectorStore (the no-documents
   * message included) as a 200, or a 500 when the chain raises.
   */
  method Ask(server: RagServer, userId: UserId, question: Option<string>, caps: Capabilities) returns (r: Response)
    requires server.Valid()
    modifies server`userVectorStores, server`llmCalls
    ensures server.Valid()
    ensures (question.None? || question.value == "") ==>
      && r == NoQuestionError
      && server.userVectorStores == old(server.userVectorStores) && server.llmCalls == old(server.llmCalls)
    ensures question.Some? && question.value != "" ==>
      var store := old(server.Lookup(userId));
      && server.userVectorStores
         == (if store.Some? then old(server.userVectorStores)[userId := store.value] else old(server.userVectorStores))
      && (store.None? ==> r == Response(200, AnswerBody(NoDocumentsMessage)) && server.llmCalls == old(server.llmCalls))
      && (store.Some? ==>
            var run := RunChain(AnswerTemplate, RetrieverK, store.value, question.value, caps.search, caps.llm);
            var answer := ChainAnswer(run);
            && r == (if answer.Success? then Response(200, AnswerBody(answer.value)) else AskFailed)
            && server.llmCalls
               == (if run.Prompted? then old(server.llmCalls) + [LlmCall(run.retrieved, run.prompt)] else old(server.llmCalls)))
    ensures old(server.Coherent()) ==> server.Coherent()
  {
    if question.None? || question.value == "" {
      return NoQuestionError;
    }
    var answer := server.QueryUserVectorStore(userId, question.value, caps);
    r := if answer.Success? then Response(200, AnswerBody(answer.value)) else AskFailed;
  }
}
