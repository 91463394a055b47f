/** Summary selection (`make_prompt`, `generate_text_summaries`). The Gemini call
    `model.generate_content(prompt).text` is the parameter `generate`: it either
    returns the model's text or fails with the message of the exception it raises. */
module Summaries {
  import opened Wrappers

  /** The fixed instruction that precedes each element; the backslash line
      continuations of the source's triple-quoted string drop the line breaks
      but keep the indentation of the following lines. */
  const PromptHead: string :=
    "You are an assistant tasked with summarising tables and text for retrieval."
    + "     These summaries will be embedded and used to retrieve the raw text or table elements."
    + "     Give a concise summary of the table or text that is well optimized for retrieval."
    + " Table or text : "

  /** `make_prompt(element)` */
  function MakePrompt(element: string): string {
    PromptHead + element + " "
  }

  /** Recovers the element a summarisation prompt was made from, if it is one. */
  function ElementOf(prompt: string): Option<string> {
    if |prompt| > |PromptHead| && prompt[..|PromptHead|] == PromptHead && prompt[|prompt| - 1] == ' '
    then Some(prompt[|PromptHead|..|prompt| - 1])
    else None
  }

  /** The element can be read back from its prompt, and only prompts built by
      `MakePrompt` read back: distinct elements never share a prompt. */
  lemma PromptRoundTrip(element: string, prompt: string)
    ensures ElementOf(MakePrompt(element)) == Some(element)
    ensures ElementOf(prompt) == Some(element) ==> MakePrompt(element) == prompt
  {
  }

  /** The list comprehension `[generate(make_prompt(x)) for x in elements]`:
      one summary per element, in order, or the error of the first element
      whose model call fails (the comprehension stops there). */
  function SummarizeAll(generate: string -> Result<string>, elements: seq<string>): (r: Result<seq<string>>)
    ensures r.Ok? <==> forall i :: 0 <= i < |elements| ==> generate(MakePrompt(elements[i])).Ok?
    ensures r.Ok? ==> |r.value| == |elements|
    ensures r.Ok? ==> forall i :: 0 <= i < |elements| ==> r.value[i] == generate(MakePrompt(elements[i])).value
    ensures r.Err? ==> exists k :: 0 <= k < |elements| && generate(MakePrompt(elements[k])) == Err(r.error)
                                   && forall j :: 0 <= j < k ==> generate(MakePrompt(elements[j])).Ok?
  {
    if elements == [] then Ok([])
    else
      match generate(MakePrompt(elements[0]))
      case Err(e) => Err(e)
      case Ok(summary) =>
        var rest := SummarizeAll(generate, elements[1..]);
        assert forall i :: 1 <= i < |elements| ==> elements[i] == elements[1..][i - 1];
        if rest.Err? then
          assert exists k :: 1 <= k < |elements| && generate(MakePrompt(elements[k])) == Err(rest.error)
                             && forall j :: 1 <= j < k ==> generate(MakePrompt(elements[j])).Ok?;
          Err(rest.error)
        else Ok([summary] + rest.value)
  }

  /** `generate_text_summaries(texts, tables, summarize_texts)`: the text
      summaries are the texts themselves unless `summarizeTexts`, in which case
      there is one model summary per text; every table is summarised by the
      model. The first failing model call aborts the whole call. */
  function GenerateTextSummaries(texts: seq<string>, tables: seq<string>, summarizeTexts: bool,
                                 generate: string -> Result<string>): (r: Result<(seq<string>, seq<string>)>)
    ensures r.Ok? <==> (summarizeTexts ==> SummarizeAll(generate, texts).Ok?) && SummarizeAll(generate, tables).Ok?
    ensures r.Ok? ==> |r.value.0| == |texts| && |r.value.1| == |tables|
    ensures r.Ok? ==> forall i :: 0 <= i < |texts| ==>
      r.value.0[i] == if summarizeTexts then generate(MakePrompt(texts[i])).value else texts[i]
    ensures r.Ok? ==> forall i :: 0 <= i < |tables| ==> r.value.1[i] == generate(MakePrompt(tables[i])).value
    ensures !summarizeTexts && tables == [] ==> r == Ok((texts, []))
  {
    var textSummaries :=
      if texts != [] && summarizeTexts then SummarizeAll(generate, texts)
      else Ok(texts);
    if textSummaries.Err? then Err(textSummaries.error)
    else
      var tableSummaries := if tables != [] then SummarizeAll(generate, tables) else Ok([]);
      if tableSummaries.Err? then Err(tableSummaries.error)
      else Ok((textSummaries.value, tableSummaries.value))
  }
}
