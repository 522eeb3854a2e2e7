# pdf-chat-agent in Dafny

This project models the bookkeeping of "chat with your PDFs", a system with two parallel backends.
The machine-learning calls are not modelled; only the bookkeeping around them is.

- **Node/Express backend.** `server.js` and `api.js` over the SQLite tables of `database.js`.
  - An upload inserts a `pdfs` row, then ingests the pdf's text. The text is split, each passage is embedded, and one `chunks` row is inserted per passage.
  - A process-wide map caches one in-memory vector store per user. A miss rebuilds the store from the join of `chunks` with `pdfs`.
  - A question either gets a fixed "no documents" answer or runs the retrieval chain over the user's store.
- **Python/FastAPI backend.** `database.py`, `main.py` and `rag_core.py`.
  - SQLAlchemy tables for users, pdfs and chunks. Each create commits on its own.
  - Handlers for registration, pdf upload with its per-chunk ingestion loop, listing, text questions and voice questions.
  - The pure helpers of `rag_core.py`: the store built from chunk rows, the RetrievalQA configuration, translation and the transcription router.

Every external capability is passed in as a function, and `None` marks a call that raised. Embeddings are opaque values.
- On the Node side, `NodeServer.Capabilities` holds the splitter, embedder, similarity search and language model. The pdf parser is a separate `parsePdf` parameter of `NodeApi.Upload`.
- On the Python side, `RagCore.Capabilities` holds the pdf text extractor, splitter, embedder, similarity search, language model, translator, audio converter, Whisper, the Sarvam key and Sarvam. The password hash is a `hash` parameter of `Session.CreateUser` and `PyMain.RegisterUser`.

Modules:

| module | file | models |
|---|---|---|
| `Wrappers` | `wrappers.dfy` | `Option` and `Result` |
| `Retrieval` | `retrieval.dfy` | Passages and vector stores, which both backends share. Also the prompt template, the "stuff" join of documents and one run of a retrieval chain. |
| `NodeDb` | `node_db.dfy` | The `pdfs` and `chunks` tables of `database.js`, and the SQL statements `server.js` and `api.js` run on them. |
| `NodeServer` | `node_server.dfy` | `server.js`. A `RagServer` class holds the `userVectorStores` map and a ghost trace of model calls. |
| `NodeApi` | `node_api.dfy` | The `api.js` handlers. |
| `PyDatabase` | `py_database.dfy` | `database.py`: a `Session` class over three tables and the three query filters. |
| `RagCore` | `rag_core.dfy` | `rag_core.py`, as pure functions. |
| `PyMain` | `py_main.dfy` | The `main.py` handlers. A `FileSystem` class holds the temporary audio files. |

The central Node invariant is `CoherentCache`: every cached store equals the store a rebuild from the tables would produce now.
- A successful upload keeps the invariant.
- An ingestion that stops partway breaks it. The user's entry, if cached, is now stale (`PartialIngestionLeavesStaleEntry`).
- Under the invariant, every passage given to the model comes from a chunk of a pdf the asking user owns.

## Model

| member | source | states |
|---|---|---|
| `NodeDb.ListPdfsOf` | pdf-chat-agent/api.js:13 | The listed `(id, fileName)` pairs are exactly those of the pdf rows whose `userId` is the caller, and there are no more of them than rows. With increasing pdf ids, the listed ids are strictly increasing, so each row appears once. |
| `NodeDb.UserChunks` | pdf-chat-agent/server.js:62-66 | The join returns exactly the chunk rows whose pdf row has `userId` = U. There are at most as many as chunk rows, and row ids stay increasing. |
| `NodeDb.UserChunksAppend` | pdf-chat-agent/server.js:62-66 | The join over appended chunk rows is the join of the old rows followed by the join of the new ones. |
| `NodeDb.UserChunksNewPdf` | pdf-chat-agent/api.js:28 | A new pdf row whose id no chunk uses yet leaves every user's join unchanged. |
| `NodeDb.OwnerIsUnique` | pdf-chat-agent/database.js:26-29 | Pdf ids are unique, so at most one user owns a pdf id. |
| `NodeDb.RowsOfOwnedPdfJoinOnlyOwner` | pdf-chat-agent/server.js:62-66 | Rows of one pdf join for its owner in full and for every other user not at all. |
| `NodeDb.NoOwnedRowsJoin` | pdf-chat-agent/server.js:62-66 | Rows of pdfs the user does not own contribute nothing to the user's join. |
| `NodeDb.AllOwnedRowsJoin` | pdf-chat-agent/server.js:62-66 | Rows of pdfs the user owns all join for the user, in their table order. |
| `NodeDb.Database.constructor` | pdf-chat-agent/database.js:25-43 | A fresh database has empty tables and satisfies the id invariant. |
| `NodeDb.Database.InsertPdf` | pdf-chat-agent/api.js:28-29 | Appends one row with the caller's id and the original file name under a fresh id, and returns that id as `lastID`. |
| `NodeDb.Database.InsertChunk` | pdf-chat-agent/server.js:42-45 | Appends one chunk row with exactly the given pdf id, content and embedding under a fresh id. |
| `NodeServer.Passages` | pdf-chat-agent/server.js:73-78 | Each joined row's content is paired with its own parsed embedding, one passage per row, in row order. |
| `NodeServer.IngestedRows` | pdf-chat-agent/server.js:40-46 | Ingestion writes one row per passage, in split order, each with the pdf id, the passage and that passage's embedding. |
| `NodeServer.RebuiltStoreHoldsOnlyOwnChunks` | pdf-chat-agent/server.js:62-78 | Every passage of a store rebuilt for U comes from a chunk of a pdf U owns. |
| `NodeServer.IngestionLeavesOthersStores` | pdf-chat-agent/server.js:40-51 | Rows ingested under U's pdf leave every other user's rebuilt store unchanged. |
| `NodeServer.IngestionChangesOwnerStore` | pdf-chat-agent/server.js:40-51 | Ingesting at least one row under U's pdf changes U's rebuilt store. This is why U's entry must be dropped. |
| `NodeServer.CompleteIngestionKeepsCoherence` | pdf-chat-agent/server.js:40-51 | A full ingestion followed by dropping U's entry keeps every cached store equal to its rebuild. |
| `NodeServer.NewPdfKeepsCoherence` | pdf-chat-agent/api.js:28 | Inserting the pdf row before ingesting keeps the cache coherent. |
| `NodeServer.PartialIngestionLeavesStaleEntry` | pdf-chat-agent/server.js:40-51 | If ingestion stops after storing some rows while U's entry is cached, the cache is no longer coherent. |
| `NodeServer.RagServer.constructor` | pdf-chat-agent/server.js:25 | The server starts with an empty `userVectorStores` map and no model calls. |
| `NodeServer.RagServer.InsertPassages` | pdf-chat-agent/server.js:40-46 | The loop inserts rows for exactly the leading passages whose embedding succeeds, and stops at the first that raises. |
| `NodeServer.RagServer.CreateVectorStoreForUser` | pdf-chat-agent/server.js:29-52 | Rows are written for the embedded prefix of the split passages. Only when every passage is stored is U's entry dropped, and the other entries stay. Coherence is kept on success. On a partial failure the rows remain and U's cached entry, if any, goes stale. |
| `NodeServer.RagServer.LoadVectorStoreForUser` | pdf-chat-agent/server.js:54-83 | A hit returns the cached store and leaves the map as it was. A miss with no joined rows returns None and caches nothing. Otherwise it returns the store built from U's chunks and caches it under U. Coherence is kept. |
| `NodeServer.RagServer.QueryUserVectorStore` | pdf-chat-agent/server.js:85-124 | With no store, the answer is the fixed message and no model call happens. Otherwise the answer is one chain run with k = 4 over U's store. Under coherence, every passage given to the model is one of U's own chunks. |
| `NodeApi.GetPdfs` | pdf-chat-agent/api.js:10-19 | A 200 whose list holds exactly the caller's pdf rows as `(id, fileName)`, each once, with ids increasing. |
| `NodeApi.Upload` | pdf-chat-agent/api.js:21-36 | No file: 400, nothing written. Parse failure: 500, nothing written. Otherwise one pdf row with the caller's id and original name, then ingestion under exactly that id. 200 only if every passage was stored. Otherwise 500 with the pdf row and the prefix of chunks left in place. A 200 keeps the cache coherent. |
| `NodeApi.Ask` | pdf-chat-agent/api.js:38-50 | A missing or empty question: 400, with the cache and the model untouched. Otherwise a 200 with the query's answer, including the no-documents message, or a 500 when the chain raises. The cache changes only by caching U's store, and exactly one model call is recorded when the model is reached. |
| `Retrieval.EmbeddedPrefix` | pdf-chat-agent/server.js:40-46 | The count of leading passages whose embedding succeeds. The next passage, if any, is the one whose embedding raises. |
| `Retrieval.EmbeddedPrefixIs` | pdf-chat-agent/main.py:66-68 | Characterises that count: n leading successes followed by a failure or the end means the prefix is n. |
| `Retrieval.Fill` | pdf-chat-agent/server.js:95-108 | The prompt is the head, then the context, then the middle, then the question, then the tail, each at its exact position. The context comes before the question. |
| `Retrieval.FormatDocumentsContainsEach` | pdf-chat-agent/server.js:112 | Every retrieved passage's content occurs verbatim in the joined context. |
| `Retrieval.FormatDocuments` | pdf-chat-agent/server.js:112 | The retrieved passages' contents joined with the "\n\n" separator: empty for no passages, the one content for one, and the first content, the separator, then the rest otherwise. The context is at least as long as the separators it holds. |
| `Retrieval.RunChain` | pdf-chat-agent/server.js:110-121 | The model is called only when retrieval succeeds. It is called with the template filled with the retrieved passages and the question. If search stays in the store, at most k passages are retrieved, all from the store. |
| `Retrieval.ChainAnswer` | pdf-chat-agent/server.js:121-123 | A run yields its model answer exactly when the model was called and replied. Retrieval and generation failures are told apart. |
| `PyDatabase.GetUserByEmail` | pdf-chat-agent/database.py:41-42 | Returns the first user in table order with the email. None exactly when no user has it. |
| `PyDatabase.GetPdfsByUser` | pdf-chat-agent/database.py:59-60 | Returns exactly the pdf rows with `owner_id` = user, with ids still increasing. |
| `PyDatabase.GetChunksByPdf` | pdf-chat-agent/database.py:69-70 | Returns exactly the chunk rows with `pdf_id` = the id, with ids still increasing. |
| `PyDatabase.GetChunksByPdfAppend` | pdf-chat-agent/database.py:69-70 | The filter distributes over appended rows. |
| `PyDatabase.Session.constructor` | pdf-chat-agent/database.py:39 | A new database has empty tables. |
| `PyDatabase.Session.CreateUser` | pdf-chat-agent/database.py:44-50 | Stores the hash of the password, never the password, with `is_active` true, under a fresh id. A taken email is an IntegrityError and changes nothing. Emails stay unique. |
| `PyDatabase.Session.CreatePdf` | pdf-chat-agent/database.py:52-57 | Appends one row with `owner_id` = user and the filename under a fresh id. Other rows are unchanged. |
| `PyDatabase.Session.CreateChunk` | pdf-chat-agent/database.py:62-67 | Appends one row with exactly the given pdf id, chunk index, content and embedding. |
| `RagCore.PairPassages` | pdf-chat-agent/rag_core.py:58-60 | `zip` pairs each chunk's content with its own embedding, in input order. |
| `RagCore.CreateVectorStoreFromDbChunks` | pdf-chat-agent/rag_core.py:55-62 | None exactly for an empty chunk list. Otherwise one passage per chunk, in order. |
| `RagCore.StorePassagesComeFromChunks` | pdf-chat-agent/rag_core.py:58-61 | Every passage of the built store comes from one of the given chunks. |
| `RagCore.GetQaChain` | pdf-chat-agent/rag_core.py:64-89 | A "stuff" chain over the store with k = 3, the Q&A template, and source documents returned. |
| `RagCore.InvokeQa` | pdf-chat-agent/rag_core.py:82-88 | The answer is the model's reply to the template filled with the retrieved sources and the query. The sources are what search returned, at most k, all from the store. The chain fails exactly when search or the model raises. |
| `RagCore.NormalisedTarget` | pdf-chat-agent/rag_core.py:94-95 | 'en-IN' becomes 'en'. Every other code is kept. |
| `RagCore.TranslateText` | pdf-chat-agent/rag_core.py:93-109 | The result is the input or the translator's output. The input is returned unchanged when it is empty or already in the normalised target language, and when the translator raises. |
| `RagCore.TranslateEnInIsEn` | pdf-chat-agent/rag_core.py:94-98 | Asking for 'en-IN' behaves exactly like asking for 'en', so an English answer for an 'en-IN' user is not translated. |
| `RagCore.Concat` | pdf-chat-agent/rag_core.py:118 | The joined Whisper segments: a single segment is itself, and the text is empty exactly when every segment is. |
| `RagCore.TranscribeWithWhisper` | pdf-chat-agent/rag_core.py:112-131 | Returns the joined segments with the detected language. For a language other than "en", the text is first translated to English. Returns ("", "") when Whisper raises. |
| `RagCore.WhisperTextIsTranscriptOrItsTranslation` | pdf-chat-agent/rag_core.py:118-128 | Whisper's text is the raw transcript or the translator's English output of it. |
| `RagCore.TranscribeWithSarvam` | pdf-chat-agent/rag_core.py:133-157 | Returns ("", "") when the API key is unset or empty, or when the call raises. Otherwise returns the transcript with its language code. |
| `RagCore.TranscribeAudio` | pdf-chat-agent/rag_core.py:160-170 | "indian" goes to Sarvam. "foreign" and every other value go to Whisper. |
| `PyMain.RegisterUser` | pdf-chat-agent/main.py:43-48 | An existing email gets 400 "Email already registered" with nothing created and the id counter unchanged. Otherwise exactly one user, holding the hashed password, is appended. |
| `PyMain.RegisteredUserIsFoundByEmail` | pdf-chat-agent/database.py:41-50 | A user registered under a fresh email is the one `get_user_by_email` then returns. |
| `PyMain.UploadedChunks` | pdf-chat-agent/main.py:66-68 | Chunk row i has `chunk_index` i, text i and text i's own embedding. |
| `PyMain.StoreChunks` | pdf-chat-agent/main.py:66-68 | The loop stores rows for exactly the leading texts whose embedding succeeds, and stops at the first that raises. |
| `PyMain.UploadPdf` | pdf-chat-agent/main.py:50-70 | An unresolved user gets 401, and an extraction failure gets 500. Both write nothing. Otherwise one pdf row owned by the user, then a prefix of its chunk rows. The pdf is returned only if every chunk was stored. Otherwise 500 with the rows left. When no earlier chunk used the new pdf id, a complete upload makes `get_chunks_by_pdf` return exactly its rows, and the pdf's store pairs each split text with its own embedding, in split order. |
| `PyMain.ChunksOfOnePdfAllFound` | pdf-chat-agent/database.py:69-70 | Rows all tagged with a pdf id are all found by that id. |
| `PyMain.ChunksOfOtherPdfsNotFound` | pdf-chat-agent/database.py:69-70 | Rows of other pdfs are not found. |
| `PyMain.UploadedChunksAreThePdfChunks` | pdf-chat-agent/main.py:64-68 | After an upload under a fresh pdf id, `get_chunks_by_pdf` returns exactly the rows the upload stored. |
| `PyMain.UploadedPdfStoreIsItsTexts` | pdf-chat-agent/main.py:64-68 | After a complete upload, the store built for the pdf pairs each split text with its own embedding, in split order. |
| `PyMain.GetPdfs` | pdf-chat-agent/main.py:72-77 | 401 exactly when the user is unresolved. Otherwise exactly the user's pdf rows, with ids increasing when the table's ids increase. |
| `PyMain.PdfStore` | pdf-chat-agent/main.py:89-90 | No store exactly when no chunk has the pdf id, whoever owns it. |
| `PyMain.PdfStoreHoldsOnlyThatPdf` | pdf-chat-agent/main.py:89-90 | Every passage of that store comes from a chunk with the requested pdf id. |
| `PyMain.AnswerFromStore` | pdf-chat-agent/main.py:95-98 | The chain's result on success. The unhandled exception's 500 otherwise. |
| `PyMain.AskQuestion` | pdf-chat-agent/main.py:79-98 | 401 for an unresolved user. 404 exactly when no chunk has the pdf id. Otherwise exactly `AnswerFromStore` over the store of those chunks: the chain's answer, or a 500 when the chain raises. The owner is never consulted. |
| `PyMain.AnyUserReadsAnyPdf` | pdf-chat-agent/main.py:89-93 | A user who does not own a pdf with chunks gets a successful answer from it. The request reaches the model with the same prompt over the owner's chunks as the owner's request would. |
| `PyMain.OwnedPdfStore` | pdf-chat-agent/main.py:89-93 | No store when the user does not own the pdf or it has no chunks. Otherwise the pdf's store. |
| `PyMain.OwnedPdfStoreHoldsOnlyOwnChunks` | pdf-chat-agent/main.py:89-93 | Every passage of an owned store comes from a chunk of a pdf the user owns. |
| `PyMain.AskQuestionForOwner` | pdf-chat-agent/main.py:79-98 | `ask_question` with the owner check: a pdf the user does not own is answered with the 404. For an owned pdf it answers exactly as `ask_question` does. |
| `PyMain.PdfOwnerIsUnique` | pdf-chat-agent/database.py:22-26 | Pdf ids being unique, at most one user owns a pdf id. |
| `PyMain.OtherUsersCannotReadOwnedPdf` | pdf-chat-agent/main.py:89-93 | With the owner check, a non-owner always gets the 404. |
| `PyMain.FileSystem.Exists` | pdf-chat-agent/main.py:149 | A path exists exactly when the file is on disk. |
| `PyMain.FileSystem.CreateTemp` | pdf-chat-agent/main.py:119 | Creates exactly one new file. |
| `PyMain.FileSystem.Remove` | pdf-chat-agent/main.py:150 | Removes exactly that file. |
| `PyMain.VoiceQuery` | pdf-chat-agent/main.py:125-143 | An empty transcript raises the 500 transcription error. A pdf without a store raises the 404. Otherwise, when the chain succeeds, the result carries the transcript as the question and the chain's answer translated from "en" to the user's language. When the chain fails, some other exception is raised. |
| `PyMain.CatchAll` | pdf-chat-agent/main.py:145-147 | Every exception of the try block, HTTPExceptions included, becomes 500 "Error processing voice query.". |
| `PyMain.IndianModelWithoutKeyFails` | pdf-chat-agent/rag_core.py:137-139 | With "indian" chosen and no Sarvam key set, every voice query fails with the one 500. |
| `PyMain.AskVoice` | pdf-chat-agent/main.py:102-150 | 401 before anything else. Every failure inside is the one 500. The temporary file is removed whenever its path was recorded. The file stays on disk when audio decoding fails. |
| `PyMain.AskVoiceCleaned` | pdf-chat-agent/main.py:115-150 | The corrected handler: the file set is unchanged on every path, and only the user's own pdfs are answered. |

## Left out

- Database write failures are not modelled. A failing INSERT or commit would stop the Node and Python ingestion loops at the same point as a failing embedding.
- The JSON text column for embeddings is modelled as the embedding itself. This assumes the `JSON.stringify`/`JSON.parse` and SQLAlchemy JSON round trips are exact.
- SQL gives no order without ORDER BY. The queries are modelled as returning rows in table (rowid) order, the order SQLite usually yields for these queries.
- Authentication (`auth.js`, `auth.get_current_user`, the JWT middleware) is not part of this model. The resolved user arrives as a parameter: a user id on the Node side, and `Option<User>` on the Python side.
- bcrypt and its salt are folded into the `hash` capability.
- The library internals are uninterpreted capabilities, with no assumption about ranking or tie-breaks. This covers text splitting, embeddings, similarity search, the language model, pdf text extraction, translation, Whisper, Sarvam and audio decoding. Only `SearchStaysInStore` is assumed, and only where a contract names it.
- Similarity arithmetic and floating point are not modelled.
- async/await, logging, CORS, routing, Swagger, the React frontend and `database.js` connection handling are not modelled. Each handler is a sequential method.
- The temporary audio file's content and the reading of audio bytes are not modelled. The converted WAV is passed straight to the transcribers.
- Node `/ask` accepts any truthy JSON value as `question`. The model takes an optional string, and an empty string counts as missing.
- A database error in Node `/pdfs` (its 500 branch) is not modelled. The query is total.
- Feedback recording, answer streaming and atomic ingestion do not exist in server.js, api.js or main.py. The code ingests non-atomically, and the model follows the code: `NodeApi.Upload` and `PyMain.UploadPdf` leave the pdf row and a prefix of chunks behind on failure.
- Every capability is a deterministic function of its inputs. The real language model samples, and a real embedder could fail on one occurrence of a passage and succeed on another. The model cannot express either. Statements such as `PyMain.AnyUserReadsAnyPdf` are therefore about the prompt the model receives, not about the text it returns.
- `NodeServer.RagServer.QueryUserVectorStore` does not model the model's or search's own exceptions in detail. Either failure is `Failure(...)`, which `/ask` maps to 500.
- The constants `ChunkSize`/`ChunkOverlap`, `WhisperBeamSize` and `SarvamModel` are configuration passed to capabilities. Nothing is proved about them.

## Findings

| source | as written | input that shows it | evidently intended | confidence | as-written member | corrected member |
|---|---|---|---|---|---|---|
| pdf-chat-agent/main.py:89-93 | `ask_question` and `ask_voice` load the chunks of whatever `pdf_id` the request names, without checking that the authenticated user owns that pdf. | User B sends `pdf_id` of a pdf owned by user A that has chunks. B gets the answer over A's document (`AnyUserReadsAnyPdf`). | Only the owner's pdfs are answered, as `/api/pdfs` lists only the owner's pdfs and the Node backend joins on `userId`. | not executed; medium | `PyMain.AskQuestion` | `PyMain.AskQuestionForOwner` |
| pdf-chat-agent/main.py:115-122 | The temporary file is created with `delete=False` before the audio is decoded, but `temp_audio_path` is set only after decoding and export succeed. | An upload whose audio `AudioSegment.from_file` cannot decode. The `finally` block sees an empty path and the `.wav` file stays on disk (`AskVoice` ensures the file set grows by it). | The file is removed on every path once created. | not executed; high | `PyMain.AskVoice` | `PyMain.AskVoiceCleaned` |
