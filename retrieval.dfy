/**
 * What both backends share: passages with their embeddings, the in-memory
 * vector store built from them, the prompt template with a context slot and a
 * question slot, and one run of a retrieval-augmented chain (retrieve the k
 * nearest passages, join them into the context, fill the template, call the
 * language model).  Similarity search and the model are capabilities passed in
 * as functions; nothing about their ranking is assumed.
 */
module Retrieval {
  import opened Wrappers

  newtype byte = b: int | 0 <= b < 256

  /** Raw bytes of an uploaded file. */
  type Bytes = seq<byte>

  /** An embedding vector; the model never looks at its coordinates. */
  type Embedding = seq<real>

  /** A passage of text paired with its embedding, as a vector store holds it. */
  datatype Passage = Passage(content: string, embedding: Embedding)

  /** An in-memory vector store (LangChain's MemoryVectorStore or FAISS): its passages in insertion order. */
  datatype VectorStore = VectorStore(passages: seq<Passage>)

  /**
   * Similarity search: the passages of the store nearest to the question, at
   * most k of them, or None when embedding the question or searching raises.
   */
  type Search = (VectorStore, string, nat) -> Option<seq<Passage>>

  /**
   * The one property of the vector-store library the model relies on: a search
   * returns at most k passages, each taken from the store searched.
   */
  ghost predicate SearchStaysInStore(search: Search)
  {
    forall store: VectorStore, q: string, k: nat ::
      search(store, q, k).Some? ==>
        |search(store, q, k).value| <= k &&
        forall p :: p in search(store, q, k).value ==> p in store.passages
  }

  /**
   * The number of passages, from the start, whose embedding succeeds: the
   * ingestion loop stops at the first one that raises.
   */
  function EmbeddedPrefix(passages: seq<string>, embed: string -> Option<Embedding>): (n: nat)
    ensures n <= |passages|
    ensures forall i :: 0 <= i < n ==> embed(passages[i]).Some?
    ensures n < |passages| ==> embed(passages[n]).None?
    decreases |passages|
  {
    if passages == [] || embed(passages[0]).None? then 0
    else 1 + EmbeddedPrefix(passages[1..], embed)
  }

  /** The prefix is exactly `n` long when the first `n` embeddings succeed and the next one, if any, raises. */
  lemma {:induction false} EmbeddedPrefixIs(passages: seq<string>, embed: string -> Option<Embedding>, n: nat)
    requires n <= |passages|
    requires forall i :: 0 <= i < n ==> embed(passages[i]).Some?
    requires n < |passages| ==> embed(passages[n]).None?
    ensures EmbeddedPrefix(passages, embed) == n
    decreases n
  {
    if n > 0 {
      EmbeddedPrefixIs(passages[1..], embed, n - 1);
    }
  }

  /** A prompt template: `head`, then the {context} slot, then `middle`, then the {question} slot, then `tail`. */
  datatype Template = Template(head: string, middle: string, tail: string)

  /** Fills the two slots of a template. */
  function Fill(t: Template, context: string, question: string): (prompt: string)
    ensures |prompt| == |t.head| + |context| + |t.middle| + |question| + |t.tail|
    ensures prompt[..|t.head|] == t.head
    ensures prompt[|t.head|..|t.head| + |context|] == context
    ensures prompt[|t.head| + |context|..|t.head| + |context| + |t.middle|] == t.middle
    ensures prompt[|t.head| + |context| + |t.middle|..|prompt| - |t.tail|] == question
    ensures prompt[|prompt| - |t.tail|..] == t.tail
  {
    var prompt := t.head + context + t.middle + question + t.tail;
    assert prompt == (t.head + context) + (t.middle + (question + t.tail));
    prompt
  }

  /** The separator LangChain puts between documents in a "stuff" context. */
  const DocumentSeparator := "\n\n"

  /** LangChain's formatDocumentsAsString / "stuff" combination: passage contents joined by a blank line. */
  function FormatDocuments(docs: seq<Passage>): (context: string)
    ensures docs == [] ==> context == ""
    ensures |docs| == 1 ==> context == docs[0].content
    ensures |docs| >= 2 ==> context == docs[0].content + DocumentSeparator + FormatDocuments(docs[1..])
    ensures |docs| >= 1 ==> |context| >= |DocumentSeparator| * (|docs| - 1)
    decreases |docs|
  {
    if docs == [] then ""
    else if |docs| == 1 then docs[0].content
    else docs[0].content + DocumentSeparator + FormatDocuments(docs[1..])
  }

  /** `part` occurs in `whole` starting at index `at`. */
  ghost predicate OccursAt(part: string, whole: string, at: int)
  {
    0 <= at && at + |part| <= |whole| && whole[at..at + |part|] == part
  }

  /** Every retrieved passage's content appears, verbatim, in the context built from them. */
  lemma {:induction false} FormatDocumentsContainsEach(docs: seq<Passage>, i: int)
    requires 0 <= i < |docs|
    ensures exists at :: OccursAt(docs[i].content, FormatDocuments(docs), at)
    decreases |docs|
  {
    var whole := FormatDocuments(docs);
    if |docs| == 1 {
      assert OccursAt(docs[i].content, whole, 0);
    } else if i == 0 {
      assert whole == docs[0].content + (DocumentSeparator + FormatDocuments(docs[1..]));
      assert OccursAt(docs[i].content, whole, 0);
    } else {
      FormatDocumentsContainsEach(docs[1..], i - 1);
      var rest := FormatDocuments(docs[1..]);
      var at :| OccursAt(docs[1..][i - 1].content, rest, at);
      var prefix := docs[0].content + DocumentSeparator;
      assert whole == prefix + rest;
      var at' := |prefix| + at;
      assert whole[at'..at' + |docs[i].content|] == rest[at..at + |docs[i].content|];
      assert OccursAt(docs[i].content, whole, at');
    }
  }

  /** What one run of a retrieval-augmented chain did. */
  datatype ChainRun =
    | RetrievalFailed
      // embedding the question or searching raised; the model was not called
    | Prompted(retrieved: seq<Passage>, prompt: string, answer: Option<string>)
      // the model was called with `prompt`; `answer` is None when that call raised

  /** The failures a chain run surfaces to its caller. */
  datatype ChainError = RetrievalError | GenerationError

  /**
   * One run of a chain: retrieve k passages for the question, put them in the
   * context slot and the question in the question slot, call the model.
   */
  function RunChain(t: Template, k: nat, store: VectorStore, question: string,
                    search: Search, llm: string -> Option<string>): (run: ChainRun)
    ensures run.RetrievalFailed? <==> search(store, question, k).None?
    ensures run.Prompted? ==>
      && run.retrieved == search(store, question, k).value
      && run.prompt == Fill(t, FormatDocuments(run.retrieved), question)
      && run.answer == llm(run.prompt)
    ensures run.Prompted? && SearchStaysInStore(search) ==>
      |run.retrieved| <= k && forall p :: p in run.retrieved ==> p in store.passages
  {
    match search(store, question, k)
    case None => RetrievalFailed
    case Some(retrieved) =>
      var prompt := Fill(t, FormatDocuments(retrieved), question);
      Prompted(retrieved, prompt, llm(prompt))
  }

  /** The answer of a run, or the failure it surfaces. */
  function ChainAnswer(run: ChainRun): (r: Result<string, ChainError>)
    ensures r.Success? <==> run.Prompted? && run.answer.Some?
    ensures r.Success? ==> r.value == run.answer.value
    ensures r == Failure(RetrievalError) <==> run.RetrievalFailed?
  {
    match run
    case RetrievalFailed => Failure(RetrievalError)
    case Prompted(_, _, answer) =>
      if answer.Some? then Success(answer.value) else Failure(GenerationError)
  }
}
