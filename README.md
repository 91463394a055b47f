# fortunix RAG service — a Dafny model of its glue logic

The server answers financial questions over a directory of PDFs: it extracts
page texts, indexes them in a dual index (summaries in a vector store, each
tagged with an id, and the raw texts in a document store under those ids),
and answers a query by retrieving texts and asking a chat model. Almost every
step goes through a library (PyMuPDF, LangChain, Chroma, Gemini). This project
models the logic `server/services/rag.py` wraps around those calls. Each
library call is an explicit parameter or an in-memory value:

- `extraction.dfy` (`Extraction`): `extract_data`. It keeps the non-blank
  pages (Python `str.strip()` with the full Unicode whitespace set), in page
  order, up to the first page that fails to read. It never fails. Its table
  list is always empty. A `FileSystem` class counts open document handles,
  and `ExtractData` leaves that count unchanged: the handle is closed on every
  path on which it was opened.
- `summaries.dfy` (`Summaries`): `make_prompt` and `generate_text_summaries`.
  The Gemini call is the parameter `generate`, which returns either a text or
  the error it raises.
- `dual_index.dfy` (`DualIndex`): `add_documents` and
  `create_multi_vector_retriever`. A pure specification (`Add`,
  `CreateIndex`) sits next to the class `MultiVectorRetriever`, whose two
  stores the methods update in place. `uuid4` becomes an injective id
  supply, `mint`.
- `generation.dfy` (`Generation`): `process_texts`, the `"\n"` join,
  `text_prompt_func` and one invocation of the composed chain. Similarity
  search (`search`) and the chat model with its output parser (`llm`) are
  parameters.
- `pipeline.dfy` (`Pipeline`): the control flow of `initialize_rag_system`
  and the lazy global `rag_chain` behind `get_rag_response`. `RagService` is
  the class holding that global. `Respond` and `Session` are the pure
  specifications of one call and of a run of calls.

Where the intended design and the code differ, the model follows the code:

- On a page failure, extraction returns the texts read before the failed
  page, not an empty result for the file.
- `add_documents` accepts fewer summaries than contents, leaving contents
  that no summary points to. It fails on more summaries than contents. The
  lengths are not required to match.
- A failing summarisation call propagates the model's own exception; the
  failing index is not named.
- A build that fails after the Chroma store is opened (server/services/rag.py:150),
  for instance when the chat model cannot be constructed, leaves `chroma_db`
  behind. The retry on the next query then takes the persisted branch and
  does not ingest again, even if the store was left half written. In a
  `Session`, the calls after such a failure must therefore be given
  `persistedIndexExists` set to true.

## Model

| member | source | states |
|---|---|---|
| `Extraction.BlankIffAllSpace` | server/services/rag.py:44 | a page is skipped (`page_text.strip()` is empty) exactly when every character is Python white space |
| `Extraction.LStripEmptyIff` | server/services/rag.py:44 | `lstrip` empties a string exactly when it is all white space, and otherwise leaves a non-space first character |
| `Extraction.RStripKeepsHead` | server/services/rag.py:44 | `rstrip` cannot empty a string that starts with a non-space character |
| `Extraction.KeepNonBlankAppend` | server/services/rag.py:39-45 | the kept texts of a page run are the kept texts of its parts, concatenated in page order |
| `Extraction.KeepNonBlankMembers` | server/services/rag.py:44-45 | a text is kept if and only if it is one of the pages and is not blank |
| `Extraction.KeepNonBlankExtremes` | server/services/rag.py:39-45 | nothing is kept if and only if every page is blank; with no blank page every page is kept unchanged |
| `Extraction.PagesRead` | server/services/rag.py:39-47 | the pages read are a prefix of the document, and the whole document when no page fails |
| `Extraction.FailureKeepsPrefix` | server/services/rag.py:37-47 | a page failure keeps the texts gathered before it: a prefix of the failure-free result, and all of it when nothing fails |
| `Extraction.FileSystem.constructor` | server/services/rag.py:38 | a file system over the given files with no handle open |
| `Extraction.FileSystem.Open` | server/services/rag.py:38 | `fitz.open` succeeds exactly for an existing, readable PDF and then opens one more handle |
| `Extraction.FileSystem.GetText` | server/services/rag.py:43 | `get_text` fails exactly at the failing page and otherwise gives that page's text |
| `Extraction.FileSystem.Close` | server/services/rag.py:48-50 | `doc.close()` releases one handle |
| `Extraction.ExtractData` | server/services/rag.py:34-51 | returns the non-blank pages read before the first failure, in order, and an empty table list; never fails; the open-handle count is unchanged |
| `Summaries.PromptRoundTrip` | server/services/rag.py:53-56 | the element can be read back from its summarisation prompt, and only a prompt made from that element reads back to it |
| `Summaries.SummarizeAll` | server/services/rag.py:62 | one model summary per element, in order, if every call succeeds; otherwise the error of the first failing element |
| `Summaries.GenerateTextSummaries` | server/services/rag.py:58-67 | texts are their own summaries unless `summarize_texts`; otherwise, and always for tables, one model summary per element in order; it fails exactly when a model call it makes fails; with the default flag and no tables the result is `(texts, [])` |
| `DualIndex.MSetFacts` | server/services/rag.py:86 | with distinct ids, `mset` adds exactly those keys, binds each id to its content, and leaves every other key alone |
| `DualIndex.Add` | server/services/rag.py:77-86 | nothing changes when either list is empty; it fails with `IndexError` exactly when there are more summaries than contents; on success the old vector entries stay in place |
| `DualIndex.AddEqualLengthsResolve` | server/services/rag.py:80-86 | with equal lengths and fresh ids, summary i is appended tagged `ids[i]`, `ids[i]` resolves to content i, and every existing entry of both stores is kept |
| `DualIndex.AddPreservesConsistent` | server/services/rag.py:77-86 | after a successful add every vector entry still resolves in the document store |
| `DualIndex.FewerSummariesLeaveOrphans` | server/services/rag.py:80-86 | with fewer summaries than contents, each surplus content is stored under an id that no vector entry carries |
| `DualIndex.MintIds` | server/services/rag.py:80 | one distinct id per content, taken from the id supply |
| `DualIndex.CreateIndexConsistent` | server/services/rag.py:69-91 | a built index is consistent, and building fails exactly when some summary list is longer than its non-empty content list |
| `DualIndex.BuildPathIndex` | server/services/rag.py:87-88 | with texts as their own summaries, text i is vector entry i under id `mint(i)`, and that id resolves to text i |
| `DualIndex.MultiVectorRetriever.constructor` | server/services/rag.py:70-76 | a retriever over an empty vector store and a fresh document store |
| `DualIndex.MultiVectorRetriever.AddDocuments` | server/services/rag.py:77-86 | the stores become what `Add` gives; on `IndexError` neither store changes |
| `DualIndex.CreateMultiVectorRetriever` | server/services/rag.py:69-91 | a new retriever holding the index `CreateIndex` describes, or the error of the first failing add |
| `Generation.ProcessTexts` | server/services/rag.py:93-99 | one text per hit, in order: a `Document` gives its page content, anything else gives itself |
| `Generation.JoinLinesAt` | server/services/rag.py:102 | in the joined text each part sits at its offset, followed by a newline unless it is the last |
| `Generation.TextPromptFunc` | server/services/rag.py:101-110 | exactly one message |
| `Generation.PromptCarriesQuestion` | server/services/rag.py:103-106 | the message opens with the fixed instruction and contains the question verbatim |
| `Generation.PromptCarriesTexts` | server/services/rag.py:102-109 | every context text appears verbatim in the message |
| `Generation.PromptEndsWithTexts` | server/services/rag.py:102-109 | the message ends with the context texts joined by `"\n"` |
| `Generation.PromptCarriesQuestionAndTexts` | server/services/rag.py:101-110 | the message opens with the fixed instruction, contains the question and every context text verbatim, and ends with the `"\n"`-join of the texts, so that with `JoinLinesAt` the texts appear in context order separated by single newlines |
| `Generation.MakeTextRagChain` | server/services/rag.py:112-127 | building the chain fails exactly when the chat model cannot be constructed, with that error; otherwise the chain is wired to the given retriever |
| `Generation.Invoke` | server/services/rag.py:112-127 | a search error is the result; otherwise the result is the chat model's reply to exactly the `text_prompt_func` message for the query and the processed hits, in retrieval order |
| `Generation.InvokeAsksAboutQueryAndHits` | server/services/rag.py:118-125 | after a successful search the model is asked a single message that opens with the fixed instruction and contains the query and every retrieved text verbatim |
| `Pipeline.AllTextsAppend` | server/services/rag.py:143-146 | the gathered texts are each chunk's extraction, concatenated in chunk order |
| `Pipeline.ChunkedFileExtractedPerChunk` | server/services/rag.py:143-146 | a file split into n chunks is extracted n times, so its texts are gathered n times over |
| `Pipeline.InitOutcome` | server/services/rag.py:129-161 | it succeeds exactly when the loader (needed only without `chroma_db`), the Chroma store and the chat model all succeed; the first of them to fail, in that order, gives the error; with `chroma_db` present the chain uses the persisted store and nothing is ingested; otherwise the chain's index holds every gathered text in order, each resolving by its id |
| `Pipeline.Respond` | server/services/rag.py:163-173 | a set chain answers unchanged; an unset chain is initialised; a failed initialisation returns `"RAG system error: "` plus the message and leaves the chain unset |
| `Pipeline.Session` | server/services/rag.py:163-173 | a run of calls gives one answer per call |
| `Pipeline.ReadyChainServesEveryCall` | server/services/rag.py:165 | once set, the chain is never rebuilt: every later call is answered by it, whatever the environment |
| `Pipeline.SessionKeepsFirstBuilt` | server/services/rag.py:163-169 | starting unset, failed initialisations are retried and the process ends with the chain of the first successful one, or unset if none succeeds |
| `Pipeline.RagService.constructor` | server/services/rag.py:26 | the global chain starts unset |
| `Pipeline.RagService.InitializeRagSystem` | server/services/rag.py:129-161 | it fails exactly when `InitOutcome` does, with the same error; the chain is assigned as the last step, and only on success; no document handle stays open |
| `Pipeline.RagService.GetRagResponse` | server/services/rag.py:163-173 | the new chain and the returned string are what `Respond` gives; no handle stays open |

## Left out

- `server/main.py` (FastAPI and WebSocket transport, the receive loop and its empty-query guard): transport only.
- `data_ingestion` (`PyPDFDirectoryLoader`, and `RecursiveCharacterTextSplitter` with size 10000 and overlap 1000): library code. Its result is the input `Collaborators.ingest`: each chunk's `metadata['source']` in order, or the loader's error.
- PDF parsing (`fitz.open`, `page.get_text`): a PDF is its page texts plus the index of the first page that fails to read, or `Corrupt`.
- The `print` of the swallowed extraction error and of the persisted-store notice: console output only.
- Embedding, Chroma similarity search, `as_retriever(search_kwargs={"k": 5})` and the multi-vector retriever's id resolution at query time: library internals. Retrieval is the parameter `search`, and the vector store is the list of summary documents given to it.
- Failures while embedding or writing the vector store, and of `as_retriever`: not modelled. The initialisation failures the model has are the loader's, the `Chroma(persist_directory="chroma_db")` constructor's (`Collaborators.openStore`) and the chat model constructor's (`Collaborators.chatModel`).
- Chroma persistence: whether `chroma_db` exists is an input. The model does not show the build path creating it. It does not show that the in-memory document store is never persisted.
- `uuid4`: replaced by an injective id supply `mint`; randomness is not modelled.
- Gemini and `ChatGoogleGenerativeAI` (model name, temperature) and `StrOutputParser`: the parameters `generate` and `llm`; whether the chat model can be constructed is `Collaborators.chatModel`.
- The LangChain runnable composition (`|`, `RunnablePassthrough`, `RunnableLambda`): `Invoke` states what the composed chain computes.
- The `GenerativeModel` object made at the start of `generate_text_summaries`: it has no effect of its own.
- `load_dotenv`, `genai.configure`: environment setup.
- Concurrent first queries racing on the global chain: the model is sequential.
- The `__main__` command-line test at the end of the file: console I/O.
- A built chain holds its index by value. The retriever object is never changed after it is built, so this does not affect what the chain sees.
- Exception messages of library errors are arbitrary strings in the model. The only fixed one is `IndexError`'s `"list index out of range"`.
