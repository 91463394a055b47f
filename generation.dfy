/** The query-time chain built by `text_rag_chain`: retrieve, flatten the hits
    to texts (`process_texts`), assemble one human message from the question
    and the newline-joined texts (`text_prompt_func`), ask the chat model.
    Similarity search and the chat model (with its output parser) are the
    parameters `search` and `llm`. */
module Generation {
  import opened Wrappers
  import DualIndex

  /** A retrieval hit: a `Document` (what a plain vector-store retriever
      returns) or a raw stored value (what the multi-vector retriever resolves
      an id to in its document store). */
  datatype Retrieved = Document(pageContent: string, metadata: map<string, string>) | Raw(text: string)

  /** The `{"texts": [...]}` dictionary `process_texts` returns. */
  datatype Context = Context(texts: seq<string>)

  /** `HumanMessage(content=...)` */
  datatype Message = HumanMessage(content: string)

  /** The retriever a chain is wired to: the persisted Chroma store's own
      retriever, or a multi-vector retriever over a freshly built index. */
  datatype Retriever = PersistedVectorStore | MultiVector(index: DualIndex.Index)

  /** The composed runnable `{context, question} | prompt | model | parser`. */
  datatype Chain = TextRagChain(retriever: Retriever)

  /** `text_rag_chain(retriever)`: constructing the chat model may raise
      (`chatModel` is that construction's outcome); otherwise the composed
      chain is wired to `retriever`. */
  function MakeTextRagChain(retriever: Retriever, chatModel: Result<()>): (r: Result<Chain>)
    ensures r.Ok? <==> chatModel.Ok?
    ensures r.Err? ==> r.error == chatModel.error
    ensures r.Ok? ==> r.value.retriever == retriever
  {
    if chatModel.Err? then Err(chatModel.error) else Ok(TextRagChain(retriever))
  }

  function TextOf(doc: Retrieved): string {
    match doc
    case Document(content, _) => content
    case Raw(text) => text
  }

  /** `process_texts(docs)`: one text per hit, in retrieval order; a `Document`
      contributes its page content and anything else contributes itself. */
  function ProcessTexts(docs: seq<Retrieved>): (context: Context)
    ensures |context.texts| == |docs|
    ensures forall i :: 0 <= i < |docs| ==>
      context.texts[i] == if docs[i].Document? then docs[i].pageContent else docs[i].text
  {
    Context(seq(|docs|, i requires 0 <= i < |docs| => TextOf(docs[i])))
  }

  /** `"\n".join(parts)` */
  function JoinLines(parts: seq<string>): string {
    if parts == [] then ""
    else if |parts| == 1 then parts[0]
    else parts[0] + "\n" + JoinLines(parts[1..])
  }

  /** Where `parts[i]` begins in `JoinLines(parts)`: after every earlier part
      and its separating newline. */
  function Offset(parts: seq<string>, i: nat): nat
    requires i < |parts|
  {
    if i == 0 then 0 else |parts[0]| + 1 + Offset(parts[1..], i - 1)
  }

  /** The joined text is every part in order, each followed by one newline
      except the last: part `i` sits at `Offset(parts, i)`. */
  lemma {:induction false} JoinLinesAt(parts: seq<string>, i: nat)
    requires i < |parts|
    ensures Offset(parts, i) + |parts[i]| <= |JoinLines(parts)|
    ensures JoinLines(parts)[Offset(parts, i)..Offset(parts, i) + |parts[i]|] == parts[i]
    ensures i + 1 < |parts| ==> Offset(parts, i) + |parts[i]| < |JoinLines(parts)|
    ensures i + 1 < |parts| ==> JoinLines(parts)[Offset(parts, i) + |parts[i]|] == '\n'
    ensures i + 1 == |parts| ==> Offset(parts, i) + |parts[i]| == |JoinLines(parts)|
    decreases i
  {
    if i == 0 {
      if |parts| > 1 {
        assert JoinLines(parts) == parts[0] + ("\n" + JoinLines(parts[1..]));
      }
    } else {
      var rest := parts[1..];
      JoinLinesAt(rest, i - 1);
      var prefix := parts[0] + "\n";
      assert JoinLines(parts) == prefix + JoinLines(rest);
      assert rest[i - 1] == parts[i];
      SliceOfSuffix(prefix, JoinLines(rest), Offset(rest, i - 1), |parts[i]|);
    }
  }

  /** A window of `b` is the same window of `a + b`, shifted by `|a|`. */
  lemma SliceOfSuffix(a: string, b: string, k: nat, n: nat)
    requires k + n <= |b|
    ensures (a + b)[|a| + k..|a| + k + n] == b[k..k + n]
    ensures k + n < |b| ==> (a + b)[|a| + k + n] == b[k + n]
  {
  }

  /** `t` appears in `s` starting at position `k`. */
  ghost predicate OccursAt(t: string, s: string, k: int) {
    0 <= k <= |s| - |t| && s[k..k + |t|] == t
  }

  /** `t` appears somewhere in `s`. */
  ghost predicate Occurs(t: string, s: string) {
    exists k :: OccursAt(t, s, k)
  }

  /** In `a + b + t + c + d + e` the first part is a prefix and `t` starts
      right after `a + b`. */
  lemma OccursThird(a: string, b: string, t: string, c: string, d: string, e: string)
    ensures a <= a + b + t + c + d + e
    ensures OccursAt(t, a + b + t + c + d + e, |a + b|)
  {
  }

  lemma OccursAfter(t: string, a: string, s: string, k: int)
    requires OccursAt(t, s, k)
    ensures OccursAt(t, a + s, |a| + k)
  {
  }

  const AdvisorPreamble: string :=
    "You are financial analyst tasking with providing investment advice.\n"
    + "You will be given text and tables if not then use the data present.\n"
    + "Use this information to provide investment advice related to the user question.\n"

  /** The part of the message before the joined texts: the fixed instruction,
      the question line and the heading of the texts. */
  function QuestionBlock(question: string): string {
    AdvisorPreamble + "User-provided question: " + question + "\n\n" + "Text and / or tables:\n"
  }

  /** `text_prompt_func({"context": context, "question": question})` */
  function TextPromptFunc(question: string, context: Context): (messages: seq<Message>)
    ensures |messages| == 1
  {
    [HumanMessage(QuestionBlock(question) + JoinLines(context.texts))]
  }

  /** The message ends with the newline-joined texts. */
  lemma PromptEndsWithTexts(question: string, context: Context)
    ensures var content := TextPromptFunc(question, context)[0].content;
      OccursAt(JoinLines(context.texts), content, |content| - |JoinLines(context.texts)|)
  {
  }

  /** The message opens with the fixed instruction and then carries the
      question verbatim. */
  lemma PromptCarriesQuestion(question: string, context: Context)
    ensures var content := TextPromptFunc(question, context)[0].content;
      AdvisorPreamble <= content && Occurs(question, content)
  {
    OccursThird(AdvisorPreamble, "User-provided question: ", question, "\n\n",
                "Text and / or tables:\n", JoinLines(context.texts));
  }

  /** Every context text appears verbatim in the message. */
  lemma PromptCarriesTexts(question: string, context: Context)
    ensures var content := TextPromptFunc(question, context)[0].content;
      forall i :: 0 <= i < |context.texts| ==> Occurs(context.texts[i], content)
  {
    var head := QuestionBlock(question);
    var joined := JoinLines(context.texts);
    forall i | 0 <= i < |context.texts|
      ensures Occurs(context.texts[i], head + joined)
    {
      JoinLinesAt(context.texts, i);
      OccursAfter(context.texts[i], head, joined, Offset(context.texts, i));
    }
  }

  /** The one message opens with the fixed instruction and carries the question
      and every context text verbatim; it ends with the texts joined by
      newlines in context order, so (with `JoinLinesAt`) text `i` starts at
      `|content| - |joined| + Offset(texts, i)`. */
  lemma PromptCarriesQuestionAndTexts(question: string, context: Context)
    ensures var content := TextPromptFunc(question, context)[0].content;
      && AdvisorPreamble <= content
      && Occurs(question, content)
      && (forall i :: 0 <= i < |context.texts| ==> Occurs(context.texts[i], content))
      && OccursAt(JoinLines(context.texts), content, |content| - |JoinLines(context.texts)|)
  {
    PromptCarriesQuestion(question, context);
    PromptCarriesTexts(question, context);
    PromptEndsWithTexts(question, context);
  }

  /** `rag_chain.invoke(query)`: the retriever's error, or the model's answer to
      the templated message built from the query and the retrieved texts in
      retrieval order. */
  function Invoke(chain: Chain, query: string,
                  search: (Retriever, string) -> Result<seq<Retrieved>>,
                  llm: seq<Message> -> Result<string>): (r: Result<string>)
    ensures search(chain.retriever, query).Err? ==> r == Err(search(chain.retriever, query).error)
    ensures search(chain.retriever, query).Ok? ==>
      r == llm(TextPromptFunc(query, ProcessTexts(search(chain.retriever, query).value)))
  {
    match search(chain.retriever, query)
    case Err(e) => Err(e)
    case Ok(docs) => llm(TextPromptFunc(query, ProcessTexts(docs)))
  }

  /** After a successful search the model is asked one message that opens with
      the fixed instruction and carries the query and every retrieved text. */
  lemma InvokeAsksAboutQueryAndHits(chain: Chain, query: string,
                                    search: (Retriever, string) -> Result<seq<Retrieved>>,
                                    llm: seq<Message> -> Result<string>)
    requires search(chain.retriever, query).Ok?
    ensures var docs := search(chain.retriever, query).value;
      exists messages: seq<Message> :: Invoke(chain, query, search, llm) == llm(messages) && |messages| == 1
        && AdvisorPreamble <= messages[0].content && Occurs(query, messages[0].content)
        && forall i :: 0 <= i < |docs| ==> Occurs(TextOf(docs[i]), messages[0].content)
  {
    var docs := search(chain.retriever, query).value;
    var context := ProcessTexts(docs);
    PromptCarriesQuestionAndTexts(query, context);
    var messages := TextPromptFunc(query, context);
    assert forall i :: 0 <= i < |docs| ==> TextOf(docs[i]) == context.texts[i];
  }
}
