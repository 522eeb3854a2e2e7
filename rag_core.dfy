/**
 * The pure decision functions of the Python backend (rag_core.py): the FAISS
 * store built from database chunks, the RetrievalQA chain configuration and
 * one run of it, answer translation with its language-code normalisation,
 * and the transcription router with its two transcribers.  Every model and
 * service they call is a capability passed in as a function.
 */
module RagCore {
  import opened Wrappers
  import opened Retrieval
  import opened PyDatabase

  /** text_splitter settings; the splitter itself is the `splitText` capability. */
  const ChunkSize := 1000
  const ChunkOverlap := 200

  /** The RetrievalQA retriever's search_kwargs k. */
  const QaK := 3

  /** The "stuff" chain's prompt: instructions, then CONTEXT, then QUESTION. */
  const QaTemplate := Template(
    "\n    You are an expert Q&A system. Your task is to answer the user's question with a brief and precise answer,"
    + " using only the information from the context below.\n"
    + "    Provide a direct answer. Do not repeat the question or use unnecessary filler words.\n"
    + "    If the information is not in the context, say \"The answer is not available in the document.\"\n\n"
    + "    CONTEXT:\n    ",
    "\n\n    QUESTION:\n    ",
    "\n\n    ANSWER:\n    ")

  const WhisperBeamSize := 5
  const SarvamModel := "saaras:v2.5"

  /** Audio converted to WAV: the content of the temporary file the transcribers read. */
  type Audio = Bytes

  /** The segments faster-whisper transcribes and the language it detects. */
  datatype WhisperOutput = WhisperOutput(segments: seq<string>, language: string)

  /** Sarvam's speech-to-text-translate response. */
  datatype SarvamOutput = SarvamOutput(transcript: string, languageCode: string)

  /** The external calls of the Python backend; None marks a call that raised. */
  datatype Capabilities = Capabilities(
    extractText: Bytes -> Option<string>,                    // pdfminer extract_text
    splitText: string -> seq<string>,                        // text_splitter.split_text
    embed: string -> Option<Embedding>,                      // embeddings_model.embed_documents([chunk])[0]
    search: Search,                                          // the FAISS retriever
    llm: string -> Option<string>,                           // OllamaLLM
    translate: (string, string, string) -> Option<string>,   // ts.translate_text(text, from, to)
    toWav: Bytes -> Option<Audio>,                           // pydub decode and WAV export, in main.py
    whisper: Audio -> Option<WhisperOutput>,                 // whisper_model.transcribe, segments consumed
    sarvamKey: Option<string>,                               // os.getenv("SARVAM_API_KEY")
    sarvam: (string, Audio) -> Option<SarvamOutput>)         // SarvamAI(key).speech_to_text.translate

  /**
   * zip(texts, embeddings): each chunk's content with its own embedding, in
   * input order.  The Node backend's NodeServer.Passages does the same over its
   * own row type, whose columns differ (no chunk index); the two backends share
   * no row type, so each keeps its own pairing.
   */
  function PairPassages(chunks: seq<Chunk>): (ps: seq<Passage>)
    ensures |ps| == |chunks|
    ensures forall i :: 0 <= i < |chunks| ==> ps[i] == Passage(chunks[i].content, chunks[i].embedding)
    decreases |chunks|
  {
    if chunks == [] then [] else [Passage(chunks[0].content, chunks[0].embedding)] + PairPassages(chunks[1..])
  }

  /** create_vector_store_from_db_chunks: None for no chunks, else a store of one passage per chunk, in order. */
  function CreateVectorStoreFromDbChunks(chunks: seq<Chunk>): (r: Option<VectorStore>)
    ensures r.None? <==> chunks == []
    ensures r.Some? ==>
      && |r.value.passages| == |chunks|
      && forall i :: 0 <= i < |chunks| ==> r.value.passages[i] == Passage(chunks[i].content, chunks[i].embedding)
  {
    if chunks == [] then None else Some(VectorStore(PairPassages(chunks)))
  }

  /** Every passage of the store comes from one of the chunks it was built from. */
  lemma StorePassagesComeFromChunks(chunks: seq<Chunk>, p: Passage)
    requires CreateVectorStoreFromDbChunks(chunks).Some?
    requires p in CreateVectorStoreFromDbChunks(chunks).value.passages
    ensures exists c :: c in chunks && p == Passage(c.content, c.embedding)
  {
    var ps := CreateVectorStoreFromDbChunks(chunks).value.passages;
    var i :| 0 <= i < |ps| && ps[i] == p;
    assert chunks[i] in chunks;
  }

  /** A RetrievalQA chain as get_qa_chain configures it. */
  datatype QaChain = QaChain(store: VectorStore, k: nat, template: Template, chainType: string,
                             returnSourceDocuments: bool)

  /** get_qa_chain: a "stuff" chain retrieving 3 passages of the store into the Q&A template. */
  function GetQaChain(store: VectorStore): (chain: QaChain)
    ensures chain.store == store && chain.k == QaK && chain.template == QaTemplate
    ensures chain.chainType == "stuff" && chain.returnSourceDocuments
  {
    QaChain(store, QaK, QaTemplate, "stuff", true)
  }

  /** The dictionary qa_chain.invoke returns: the answer and the retrieved source documents. */
  datatype QaResult = QaResult(result: string, sourceDocuments: seq<Passage>)

  /**
   * qa_chain.invoke({"query": q}): the answer is the model's reply to the
   * template filled with the sources as context and the query as question.
   */
  function InvokeQa(chain: QaChain, query: string, caps: Capabilities): (r: Result<QaResult, ChainError>)
    ensures r.Success? ==>
      caps.llm(Fill(chain.template, FormatDocuments(r.value.sourceDocuments), query)) == Some(r.value.result)
    ensures r.Success? ==> caps.search(chain.store, query, chain.k) == Some(r.value.sourceDocuments)
    ensures r.Success? && SearchStaysInStore(caps.search) ==>
      |r.value.sourceDocuments| <= chain.k && forall p :: p in r.value.sourceDocuments ==> p in chain.store.passages
    ensures r.Failure? <==>
      caps.search(chain.store, query, chain.k).None?
      || caps.llm(Fill(chain.template, FormatDocuments(caps.search(chain.store, query, chain.k).value), query)).None?
  {
    var run := RunChain(chain.template, chain.k, chain.store, query, caps.search, caps.llm);
    match ChainAnswer(run)
    case Success(answer) => Success(QaResult(answer, run.retrieved))
    case Failure(e) => Failure(e)
  }

  /** translate_text's first step: 'en-IN' is sent to the translator as 'en'. */
  function NormalisedTarget(target: string): (t: string)
    ensures target == "en-IN" ==> t == "en"
    ensures target != "en-IN" ==> t == target
  {
    if target == "en-IN" then "en" else target
  }

  /**
   * translate_text: the text itself when it is empty or already in the
   * (normalised) target language, the translator's output when it succeeds,
   * and the text itself when the translator raises.
   */
  function TranslateText(text: string, target: string, source: string,
                         translate: (string, string, string) -> Option<string>): (r: string)
    ensures r == text || translate(text, source, NormalisedTarget(target)) == Some(r)
    ensures text == "" || source == NormalisedTarget(target) ==> r == text
    ensures text != "" && source != NormalisedTarget(target) && translate(text, source, NormalisedTarget(target)).None? ==>
      r == text
    ensures text != "" && source != NormalisedTarget(target) && translate(text, source, NormalisedTarget(target)).Some? ==>
      r == translate(text, source, NormalisedTarget(target)).value
  {
    var to := NormalisedTarget(target);
    if text == "" || source == to then text
    else
      match translate(text, source, to)
      case Some(translated) => translated
      case None => text
  }

  /** Asking for 'en-IN' and asking for 'en' translate identically. */
  lemma TranslateEnInIsEn(text: string, source: string, translate: (string, string, string) -> Option<string>)
    ensures TranslateText(text, "en-IN", source, translate) == TranslateText(text, "en", source, translate)
  {
  }

  /** "".join(segment.text for segment in segments): empty exactly when every segment is. */
  function Concat(parts: seq<string>): (r: string)
    ensures |parts| == 1 ==> r == parts[0]
    ensures r == "" <==> forall i :: 0 <= i < |parts| ==> parts[i] == ""
    decreases |parts|
  {
    if parts == [] then "" else parts[0] + Concat(parts[1..])
  }

  /**
   * transcribe_with_whisper: the joined segments and the detected language;
   * for a language other than "en" the text is translated to English first;
   * ("", "") when transcription raises.
   */
  function TranscribeWithWhisper(audio: Audio, caps: Capabilities): (r: (string, string))
    ensures caps.whisper(audio).None? ==> r == ("", "")
    ensures caps.whisper(audio).Some? ==>
      var out := caps.whisper(audio).value;
      && r.1 == out.language
      && (out.language == "en" ==> r.0 == Concat(out.segments))
      && (out.language != "en" ==>
            r.0 == TranslateText(Concat(out.segments), "en", out.language, caps.translate))
  {
    match caps.whisper(audio)
    case None => ("", "")
    case Some(out) =>
      var transcribed := Concat(out.segments);
      if out.language != "en" then (TranslateText(transcribed, "en", out.language, caps.translate), out.language)
      else (transcribed, out.language)
  }

  /** A non-English Whisper transcript comes back as the translator's English output, or untranslated when it raises. */
  lemma WhisperTextIsTranscriptOrItsTranslation(audio: Audio, caps: Capabilities)
    requires caps.whisper(audio).Some?
    ensures var out := caps.whisper(audio).value;
            var r := TranscribeWithWhisper(audio, caps);
            r.0 == Concat(out.segments) || caps.translate(Concat(out.segments), out.language, "en") == Some(r.0)
  {
  }

  /**
   * transcribe_and_translate_with_sarvam_ai: ("", "") when the API key is
   * unset or empty or the call raises; otherwise the transcript and its
   * language code.
   */
  function TranscribeWithSarvam(audio: Audio, caps: Capabilities): (r: (string, string))
    ensures caps.sarvamKey.None? || caps.sarvamKey == Some("") ==> r == ("", "")
    ensures caps.sarvamKey.Some? && caps.sarvamKey.value != "" ==>
      match caps.sarvam(caps.sarvamKey.value, audio)
      case None => r == ("", "")
      case Some(out) => r == (out.transcript, out.languageCode)
  {
    if caps.sarvamKey.None? || caps.sarvamKey.value == "" then ("", "")
    else
      match caps.sarvam(caps.sarvamKey.value, audio)
      case None => ("", "")
      case Some(out) => (out.transcript, out.languageCode)
  }

  /** transcribe_audio: "indian" goes to Sarvam; "foreign" and every other value go to Whisper. */
  function TranscribeAudio(audio: Audio, languageModel: string, caps: Capabilities): (r: (string, string))
    ensures languageModel == "indian" ==> r == TranscribeWithSarvam(audio, caps)
    ensures languageModel != "indian" ==> r == TranscribeWithWhisper(audio, caps)
  {
    if languageModel == "indian" then TranscribeWithSarvam(audio, caps)
    else if languageModel == "foreign" then TranscribeWithWhisper(audio, caps)
    else TranscribeWithWhisper(audio, caps)
  }
}
