/** Pipeline initialisation (`initialize_rag_system`) and the lazily built,
    process-wide chain behind `get_rag_response`. Everything the source reaches
    through a library or the environment is a field of `Collaborators`. */
module Pipeline {
  import opened Wrappers
  import Extraction
  import Summaries
  import DualIndex
  import opened Generation

  /** The world one call sees: whether `chroma_db` exists, what
      `data_ingestion()` yields (the `metadata['source']` of each chunk, in
      order, or the loader's error), whether `Chroma(persist_directory=
      "chroma_db")` and `ChatGoogleGenerativeAI(...)` can be constructed (or
      the error each raises), the summarising model, the id supply standing
      for `uuid4`, similarity search, and the chat model. */
  datatype Collaborators = Collaborators(
    persistedIndexExists: bool,
    ingest: Result<seq<string>>,
    openStore: Result<()>,
    chatModel: Result<()>,
    generate: string -> Result<string>,
    mint: nat -> string,
    search: (Retriever, string) -> Result<seq<Retrieved>>,
    llm: seq<Message> -> Result<string>)

  /** The texts `initialize_rag_system` gathers: `extract_data` of each chunk's
      source, concatenated in chunk order. */
  function AllTexts(files: map<string, Extraction.PdfFile>, sources: seq<string>): seq<string> {
    if sources == [] then []
    else AllTexts(files, sources[..|sources| - 1]) + Extraction.ExtractedTexts(files, sources[|sources| - 1])
  }

  /** Gathering distributes over the chunk list: each chunk contributes its
      own extraction, in chunk order. */
  lemma {:induction false} AllTextsAppend(files: map<string, Extraction.PdfFile>, a: seq<string>, b: seq<string>)
    ensures AllTexts(files, a + b) == AllTexts(files, a) + AllTexts(files, b)
    decreases |b|
  {
    if b == [] {
      assert a + b == a;
    } else {
      var b' := b[..|b| - 1];
      assert (a + b)[..|a + b| - 1] == a + b';
      AllTextsAppend(files, a, b');
    }
  }

  function Repeat(texts: seq<string>, n: nat): seq<string> {
    if n == 0 then [] else Repeat(texts, n - 1) + texts
  }

  /** A file split into `n` chunks is extracted once per chunk: its pages are
      gathered `n` times over. */
  lemma {:induction false} ChunkedFileExtractedPerChunk(files: map<string, Extraction.PdfFile>, sources: seq<string>, path: string)
    requires forall i :: 0 <= i < |sources| ==> sources[i] == path
    ensures AllTexts(files, sources) == Repeat(Extraction.ExtractedTexts(files, path), |sources|)
    decreases |sources|
  {
    if sources != [] {
      ChunkedFileExtractedPerChunk(files, sources[..|sources| - 1], path);
    }
  }

  /** The built index holds each gathered text once, in order, as its own
      summary under the id minted for it, and that id resolves to the text. */
  ghost predicate IndexesTexts(index: DualIndex.Index, texts: seq<string>, mint: nat -> string) {
    && |index.vectors| == |texts|
    && DualIndex.Consistent(index)
    && forall i :: 0 <= i < |texts| ==>
         index.vectors[i] == DualIndex.SummaryDoc(texts[i], mint(i))
         && mint(i) in index.docstore && index.docstore[mint(i)] == texts[i]
  }

  /** What `initialize_rag_system` assigns to `rag_chain`, or the exception it
      raises. With `chroma_db` present nothing is loaded, extracted or
      summarised, and only opening the store or building the chat model can
      fail; otherwise the loader fails first, then opening the store, then
      building the chat model, and a built chain's index holds every gathered
      text. */
  function InitOutcome(c: Collaborators, files: map<string, Extraction.PdfFile>): (r: Result<Chain>)
    requires DualIndex.Injective(c.mint)
    ensures r.Ok? <==> (c.persistedIndexExists || c.ingest.Ok?) && c.openStore.Ok? && c.chatModel.Ok?
    ensures !c.persistedIndexExists && c.ingest.Err? ==> r == Err(c.ingest.error)
    ensures (c.persistedIndexExists || c.ingest.Ok?) && c.openStore.Err? ==> r == Err(c.openStore.error)
    ensures (c.persistedIndexExists || c.ingest.Ok?) && c.openStore.Ok? && c.chatModel.Err? ==>
      r == Err(c.chatModel.error)
    ensures c.persistedIndexExists && r.Ok? ==> r.value == TextRagChain(PersistedVectorStore)
    ensures !c.persistedIndexExists && r.Ok? ==>
      r.value.retriever.MultiVector?
      && IndexesTexts(r.value.retriever.index, AllTexts(files, c.ingest.value), c.mint)
  {
    if c.persistedIndexExists then
      if c.openStore.Err? then Err(c.openStore.error)
      else MakeTextRagChain(PersistedVectorStore, c.chatModel)
    else if c.ingest.Err? then Err(c.ingest.error)
    else
      var texts := AllTexts(files, c.ingest.value);
      // `extract_data` never returns a table, so `all_tables` stays empty.
      var tables: seq<string> := [];
      // With `summarize_texts` left false and no tables no model call is made,
      // and the texts are their own summaries: this step cannot fail.
      var summaries := Summaries.GenerateTextSummaries(texts, tables, false, c.generate).value;
      if c.openStore.Err? then Err(c.openStore.error)
      else
        // As many summaries as contents: neither `add_documents` can fail.
        DualIndex.BuildPathIndex(texts, c.mint);
        DualIndex.CreateIndexConsistent(texts, texts, [], [], c.mint);
        var index := DualIndex.CreateIndex(summaries.0, texts, summaries.1, tables, c.mint).value;
        MakeTextRagChain(MultiVector(index), c.chatModel)
  }

  /** The answer a ready chain gives: the model's text, or the invocation error
      behind the fixed prefix. */
  function Answer(chain: Chain, query: string, c: Collaborators): string {
    match Invoke(chain, query, c.search, c.llm)
    case Ok(text) => text
    case Err(e) => "Error during query processing: " + e
  }

  /** One `get_rag_response(query)`: the chain afterwards and the string
      returned. An unset chain is initialised first; a failed initialisation
      is reported and leaves the chain unset; a set chain is used as it is. */
  function Respond(chain: Option<Chain>, query: string, c: Collaborators,
                   files: map<string, Extraction.PdfFile>): (r: (Option<Chain>, string))
    requires DualIndex.Injective(c.mint)
    ensures chain.Some? ==> r == (chain, Answer(chain.value, query, c))
    ensures chain.None? && InitOutcome(c, files).Err? ==>
      r == (None, "RAG system error: " + InitOutcome(c, files).error)
    ensures chain.None? && InitOutcome(c, files).Ok? ==>
      r == (Some(InitOutcome(c, files).value), Answer(InitOutcome(c, files).value, query, c))
  {
    var ready := if chain.Some? then Ok(chain.value) else InitOutcome(c, files);
    match ready
    case Err(e) => (chain, "RAG system error: " + e)
    case Ok(built) => (Some(built), Answer(built, query, c))
  }

  /** One query and the world it meets. */
  datatype Call = Call(query: string, env: Collaborators, files: map<string, Extraction.PdfFile>)

  ghost predicate WellFormed(calls: seq<Call>) {
    forall i :: 0 <= i < |calls| ==> DualIndex.Injective(calls[i].env.mint)
  }

  /** A run of queries against one process: the final chain and every answer. */
  function Session(chain: Option<Chain>, calls: seq<Call>): (r: (Option<Chain>, seq<string>))
    requires WellFormed(calls)
    ensures |r.1| == |calls|
    decreases |calls|
  {
    if calls == [] then (chain, [])
    else
      var step := Respond(chain, calls[0].query, calls[0].env, calls[0].files);
      var rest := Session(step.0, calls[1..]);
      (rest.0, [step.1] + rest.1)
  }

  /** The chain the first successful initialisation of a run builds, if any. */
  function FirstBuilt(calls: seq<Call>): Option<Chain>
    requires WellFormed(calls)
    decreases |calls|
  {
    if calls == [] then None
    else
      var built := InitOutcome(calls[0].env, calls[0].files);
      if built.Ok? then Some(built.value) else FirstBuilt(calls[1..])
  }

  /** Once the chain is set it is never rebuilt: every later call, whatever
      the corpus or the persisted index then look like, is answered by that
      same chain. */
  lemma {:induction false} ReadyChainServesEveryCall(chain: Chain, calls: seq<Call>)
    requires WellFormed(calls)
    ensures Session(Some(chain), calls).0 == Some(chain)
    ensures forall i :: 0 <= i < |calls| ==>
      Session(Some(chain), calls).1[i] == Answer(chain, calls[i].query, calls[i].env)
  {
    if calls != [] {
      ReadyChainServesEveryCall(chain, calls[1..]);
    }
  }

  /** A failed initialisation leaves the chain unset, so the next call
      initialises again: starting unset, the process ends up with the chain of
      the first initialisation that succeeds, and stays unset if none does.
      The retry sees the world of its own call; in particular, a build that
      failed after `Chroma(persist_directory="chroma_db")` has left that
      directory behind, so the next call's `persistedIndexExists` is true. */
  lemma {:induction false} SessionKeepsFirstBuilt(calls: seq<Call>)
    requires WellFormed(calls)
    ensures Session(None, calls).0 == FirstBuilt(calls)
  {
    if calls != [] {
      var built := InitOutcome(calls[0].env, calls[0].files);
      if built.Ok? {
        ReadyChainServesEveryCall(built.value, calls[1..]);
      } else {
        SessionKeepsFirstBuilt(calls[1..]);
      }
    }
  }

  /** The process-wide state of `services/rag.py`: the global `rag_chain`. */
  class RagService {
    var ragChain: Option<Chain>

    /** Module import: `rag_chain = None`. */
    constructor ()
      ensures ragChain == None
    {
      ragChain := None;
    }

    /** `initialize_rag_system()`: assigns the chain only as its last step, so
        a failure leaves it as it was; no document handle stays open. */
    method InitializeRagSystem(c: Collaborators, fs: Extraction.FileSystem) returns (outcome: Result<()>)
      requires DualIndex.Injective(c.mint)
      modifies this, fs
      ensures outcome.Ok? <==> InitOutcome(c, fs.files).Ok?
      ensures outcome.Err? ==> outcome.error == InitOutcome(c, fs.files).error
      ensures ragChain == if outcome.Ok? then Some(InitOutcome(c, fs.files).value) else old(ragChain)
      ensures fs.openHandles == old(fs.openHandles)
    {
      if c.persistedIndexExists {
        if c.openStore.Err? {
          return Err(c.openStore.error);
        }
        var chain := MakeTextRagChain(PersistedVectorStore, c.chatModel);
        if chain.Err? {
          return Err(chain.error);
        }
        ragChain := Some(chain.value);
        return Ok(());
      }
      if c.ingest.Err? {
        return Err(c.ingest.error);
      }
      var docs := c.ingest.value;
      var allTexts: seq<string>, allTables: seq<string> := [], [];
      for i := 0 to |docs|
        invariant allTexts == AllTexts(fs.files, docs[..i])
        invariant allTables == []
        invariant fs.openHandles == old(fs.openHandles)
        invariant ragChain == old(ragChain)
      {
        var texts, tables := Extraction.ExtractData(fs, docs[i]);
        allTexts := allTexts + texts;
        allTables := allTables + tables;
        assert docs[..i + 1][..i] == docs[..i];
      }
      assert docs[..|docs|] == docs;
      // No model call on this path (see `InitOutcome`), so the summaries are the texts.
      var summaries := Summaries.GenerateTextSummaries(allTexts, allTables, false, c.generate).value;
      if c.openStore.Err? {
        return Err(c.openStore.error);
      }
      DualIndex.BuildPathIndex(allTexts, c.mint);
      var retriever := DualIndex.CreateMultiVectorRetriever(summaries.0, allTexts, summaries.1, allTables, c.mint);
      var chain := MakeTextRagChain(MultiVector(retriever.value.Contents()), c.chatModel);
      if chain.Err? {
        return Err(chain.error);
      }
      ragChain := Some(chain.value);
      outcome := Ok(());
    }

    /** `get_rag_response(query)`: never raises; initialises only while the
        chain is unset, and reports either failure as a string. */
    method GetRagResponse(query: string, c: Collaborators, fs: Extraction.FileSystem) returns (answer: string)
      requires DualIndex.Injective(c.mint)
      modifies this, fs
      ensures (ragChain, answer) == Respond(old(ragChain), query, c, fs.files)
      ensures fs.openHandles == old(fs.openHandles)
    {
      if ragChain.None? {
        var init := InitializeRagSystem(c, fs);
        if init.Err? {
          return "RAG system error: " + init.error;
        }
      }
      match Invoke(ragChain.value, query, c.search, c.llm)
      case Ok(text) => answer := text;
      case Err(e) => answer := "Error during query processing: " + e;
    }
  }
}
