/** The dual-representation index written by `create_multi_vector_retriever`:
    a vector store of summaries, each tagged with a document id, and a document
    store from those ids to the original contents. Embedding and similarity
    search are not modelled; the vector store is the sequence of documents
    handed to `vectorstore.add_documents`. Ids come from `mint`, an injective
    supply standing for `uuid4`. */
module DualIndex {
  import opened Wrappers

  /** A summary `Document(page_content=s, metadata={"doc_id": id})`. */
  datatype SummaryDoc = SummaryDoc(pageContent: string, docId: string)

  /** The vector store's documents and the `InMemoryStore` document store. */
  datatype Index = Index(vectors: seq<SummaryDoc>, docstore: map<string, string>)

  /** What `str(e)` gives for the `IndexError` of `doc_ids[i]` past the end. */
  const IndexOutOfRange: string := "list index out of range"

  predicate Distinct(ids: seq<string>) {
    forall i, j :: 0 <= i < j < |ids| ==> ids[i] != ids[j]
  }

  /** Every summary in the vector store names a document held in the document
      store: a similarity hit can always be resolved to its content. */
  predicate Consistent(index: Index) {
    forall i :: 0 <= i < |index.vectors| ==> index.vectors[i].docId in index.docstore
  }

  /** `[Document(page_content=s, metadata={id_key: doc_ids[i]}) for i, s in enumerate(doc_summaries)]` */
  function SummaryDocs(summaries: seq<string>, ids: seq<string>): (docs: seq<SummaryDoc>)
    requires |summaries| <= |ids|
  {
    seq(|summaries|, i requires 0 <= i < |summaries| => SummaryDoc(summaries[i], ids[i]))
  }

  /** `docstore.mset(list(zip(ids, contents)))`: the pairs are stored in order,
      a later pair overwriting an earlier one with the same key. */
  function MSet(store: map<string, string>, ids: seq<string>, contents: seq<string>): map<string, string>
    requires |ids| == |contents|
    decreases |ids|
  {
    if ids == [] then store
    else MSet(store[ids[0] := contents[0]], ids[1..], contents[1..])
  }

  /** With distinct ids, `mset` adds exactly the given keys, binds each id to
      the content at its position, and leaves every other key as it was. */
  lemma {:induction false} MSetFacts(store: map<string, string>, ids: seq<string>, contents: seq<string>)
    requires |ids| == |contents| && Distinct(ids)
    ensures MSet(store, ids, contents).Keys == store.Keys + (set id | id in ids)
    ensures forall i :: 0 <= i < |ids| ==> MSet(store, ids, contents)[ids[i]] == contents[i]
    ensures forall k :: k in store && k !in ids ==> MSet(store, ids, contents)[k] == store[k]
    decreases |ids|
  {
    if ids != [] {
      var store' := store[ids[0] := contents[0]];
      MSetFacts(store', ids[1..], contents[1..]);
      assert forall i :: 1 <= i < |ids| ==> ids[i] == ids[1..][i - 1] && contents[i] == contents[1..][i - 1];
      assert ids[0] !in ids[1..];
      assert (set id | id in ids) == {ids[0]} + (set id | id in ids[1..]);
    }
  }

  /** `add_documents(retriever, summaries, contents)` with `ids` the ids it
      mints, one per content. Nothing happens when either list is empty; more
      summaries than contents raise `IndexError` before anything is written. */
  function Add(index: Index, summaries: seq<string>, contents: seq<string>, ids: seq<string>): (r: Result<Index>)
    requires |ids| == |contents|
    ensures summaries == [] || contents == [] ==> r == Ok(index)
    ensures r.Err? <==> summaries != [] && contents != [] && |summaries| > |contents|
    ensures r.Err? ==> r.error == IndexOutOfRange
    ensures r.Ok? ==> index.vectors <= r.value.vectors
  {
    if summaries == [] || contents == [] then Ok(index)
    else if |summaries| > |ids| then Err(IndexOutOfRange)
    else Ok(Index(index.vectors + SummaryDocs(summaries, ids), MSet(index.docstore, ids, contents)))
  }

  /** With as many summaries as contents and fresh, distinct ids, summary `i`
      enters the vector store tagged `ids[i]`, `ids[i]` resolves to content `i`,
      and nothing already in either store changes. */
  lemma AddEqualLengthsResolve(index: Index, summaries: seq<string>, contents: seq<string>, ids: seq<string>)
    requires |ids| == |contents| == |summaries| > 0 && Distinct(ids)
    requires forall i :: 0 <= i < |ids| ==> ids[i] !in index.docstore
    ensures Add(index, summaries, contents, ids).Ok?
    ensures var next := Add(index, summaries, contents, ids).value;
      && next.vectors == index.vectors + SummaryDocs(summaries, ids)
      && next.docstore.Keys == index.docstore.Keys + (set id | id in ids)
      && (forall i :: 0 <= i < |summaries| ==>
            next.vectors[|index.vectors| + i] == SummaryDoc(summaries[i], ids[i])
            && next.docstore[ids[i]] == contents[i])
      && (forall k :: k in index.docstore ==> next.docstore[k] == index.docstore[k])
  {
    MSetFacts(index.docstore, ids, contents);
  }

  /** Adding keeps the index consistent: every vector entry, old or new, still
      resolves in the document store. */
  lemma AddPreservesConsistent(index: Index, summaries: seq<string>, contents: seq<string>, ids: seq<string>)
    requires |ids| == |contents| && Distinct(ids) && Consistent(index)
    requires Add(index, summaries, contents, ids).Ok?
    ensures Consistent(Add(index, summaries, contents, ids).value)
  {
    if summaries != [] && contents != [] {
      MSetFacts(index.docstore, ids, contents);
      var next := Add(index, summaries, contents, ids).value;
      forall i | 0 <= i < |next.vectors|
        ensures next.vectors[i].docId in next.docstore
      {
        if i >= |index.vectors| {
          assert next.vectors[i].docId == ids[i - |index.vectors|];
        }
      }
    }
  }

  /** With fewer summaries than contents the surplus contents are stored under
      ids that no summary carries: they can never be reached by a search. */
  lemma FewerSummariesLeaveOrphans(index: Index, summaries: seq<string>, contents: seq<string>, ids: seq<string>, j: nat)
    requires |ids| == |contents| && Distinct(ids) && Consistent(index)
    requires forall i :: 0 <= i < |ids| ==> ids[i] !in index.docstore
    requires 0 < |summaries| <= j < |contents|
    ensures Add(index, summaries, contents, ids).Ok?
    ensures var next := Add(index, summaries, contents, ids).value;
      && ids[j] in next.docstore && next.docstore[ids[j]] == contents[j]
      && forall i :: 0 <= i < |next.vectors| ==> next.vectors[i].docId != ids[j]
  {
    MSetFacts(index.docstore, ids, contents);
    var next := Add(index, summaries, contents, ids).value;
    forall i | 0 <= i < |next.vectors|
      ensures next.vectors[i].docId != ids[j]
    {
      if i < |index.vectors| {
        assert next.vectors[i] == index.vectors[i];
      } else {
        assert next.vectors[i].docId == ids[i - |index.vectors|];
      }
    }
  }

  /** `uuid4` as a supply of ids: no id is ever minted twice. */
  ghost predicate Injective(mint: nat -> string) {
    forall i, j :: i != j ==> mint(i) != mint(j)
  }

  /** The ids minted for `count` contents, starting at position `from` of the supply. */
  function MintIds(mint: nat -> string, from: nat, count: nat): (ids: seq<string>)
    requires Injective(mint)
    ensures |ids| == count && Distinct(ids)
    ensures forall i :: 0 <= i < count ==> ids[i] == mint(from + i)
  {
    seq(count, i requires 0 <= i => mint(from + i))
  }

  /** The index `create_multi_vector_retriever` builds over an empty vector
      store and a fresh document store: texts first, then tables. */
  function CreateIndex(textSummaries: seq<string>, texts: seq<string>,
                       tableSummaries: seq<string>, tables: seq<string>,
                       mint: nat -> string): Result<Index>
    requires Injective(mint)
  {
    var empty := Index([], map[]);
    var afterTexts :=
      if textSummaries != [] then Add(empty, textSummaries, texts, MintIds(mint, 0, |texts|))
      else Ok(empty);
    if afterTexts.Err? || tableSummaries == [] then afterTexts
    else Add(afterTexts.value, tableSummaries, tables, MintIds(mint, |texts|, |tables|))
  }

  /** A built index is always consistent, and it fails exactly when a list of
      summaries is longer than its non-empty list of contents. */
  lemma CreateIndexConsistent(textSummaries: seq<string>, texts: seq<string>,
                              tableSummaries: seq<string>, tables: seq<string>,
                              mint: nat -> string)
    requires Injective(mint)
    ensures var r := CreateIndex(textSummaries, texts, tableSummaries, tables, mint);
      && (r.Ok? ==> Consistent(r.value))
      && (r.Err? <==> (texts != [] && |textSummaries| > |texts|) || (tables != [] && |tableSummaries| > |tables|))
  {
    var empty := Index([], map[]);
    var textIds := MintIds(mint, 0, |texts|);
    var afterTexts := if textSummaries != [] then Add(empty, textSummaries, texts, textIds) else Ok(empty);
    if afterTexts.Ok? {
      if textSummaries != [] {
        AddPreservesConsistent(empty, textSummaries, texts, textIds);
      }
      if tableSummaries != [] && Add(afterTexts.value, tableSummaries, tables, MintIds(mint, |texts|, |tables|)).Ok? {
        AddPreservesConsistent(afterTexts.value, tableSummaries, tables, MintIds(mint, |texts|, |tables|));
      }
    }
  }

  /** The build path's index (texts as their own summaries, no tables): one
      vector entry per text, in order, tagged with the id minted for it, and
      that id resolving to the text itself. */
  lemma BuildPathIndex(texts: seq<string>, mint: nat -> string)
    requires Injective(mint)
    ensures CreateIndex(texts, texts, [], [], mint).Ok?
    ensures var index := CreateIndex(texts, texts, [], [], mint).value;
      && |index.vectors| == |texts|
      && forall i :: 0 <= i < |texts| ==>
           index.vectors[i] == SummaryDoc(texts[i], mint(i))
           && mint(i) in index.docstore && index.docstore[mint(i)] == texts[i]
  {
    var empty, ids := Index([], map[]), MintIds(mint, 0, |texts|);
    if texts != [] {
      AddEqualLengthsResolve(empty, texts, texts, ids);
      var index := Add(empty, texts, texts, ids).value;
      assert CreateIndex(texts, texts, [], [], mint) == Ok(index);
      forall i | 0 <= i < |texts|
        ensures index.vectors[i] == SummaryDoc(texts[i], mint(i))
        ensures mint(i) in index.docstore && index.docstore[mint(i)] == texts[i]
      {
        assert ids[i] == mint(i);
        assert index.vectors[|empty.vectors| + i] == SummaryDoc(texts[i], ids[i]);
      }
    }
  }

  /** The retriever's two stores, written in place by `add_documents`. */
  class MultiVectorRetriever {
    var vectorstore: seq<SummaryDoc>
    var docstore: map<string, string>

    /** A retriever over a vector store that holds nothing yet and a fresh
        `InMemoryStore`. */
    constructor ()
      ensures vectorstore == [] && docstore == map[]
    {
      vectorstore := [];
      docstore := map[];
    }

    function Contents(): Index
      reads this
    {
      Index(vectorstore, docstore)
    }

    /** `add_documents(self, doc_summaries, doc_contents)`, with `ids` the
        ids it mints. */
    method AddDocuments(summaries: seq<string>, contents: seq<string>, ids: seq<string>) returns (outcome: Result<()>)
      requires |ids| == |contents|
      modifies this
      ensures outcome.Ok? <==> Add(old(Contents()), summaries, contents, ids).Ok?
      ensures outcome.Err? ==> outcome.error == IndexOutOfRange && Contents() == old(Contents())
      ensures outcome.Ok? ==> Contents() == Add(old(Contents()), summaries, contents, ids).value
    {
      if summaries == [] || contents == [] {
        return Ok(());
      }
      if |summaries| > |ids| {
        return Err(IndexOutOfRange);
      }
      vectorstore := vectorstore + SummaryDocs(summaries, ids);
      docstore := MSet(docstore, ids, contents);
      outcome := Ok(());
    }
  }

  /** `create_multi_vector_retriever(...)`: a new retriever filled with the text
      pairs and then the table pairs, or the error of the first failing add. */
  method CreateMultiVectorRetriever(textSummaries: seq<string>, texts: seq<string>,
                                    tableSummaries: seq<string>, tables: seq<string>,
                                    mint: nat -> string) returns (r: Result<MultiVectorRetriever>)
    requires Injective(mint)
    ensures var index := CreateIndex(textSummaries, texts, tableSummaries, tables, mint);
      && (r.Ok? <==> index.Ok?)
      && (r.Err? ==> r.error == index.error)
      && (r.Ok? ==> fresh(r.value) && r.value.Contents() == index.value)
  {
    var retriever := new MultiVectorRetriever();
    if textSummaries != [] {
      var added := retriever.AddDocuments(textSummaries, texts, MintIds(mint, 0, |texts|));
      if added.Err? {
        return Err(added.error);
      }
    }
    if tableSummaries != [] {
      var added := retriever.AddDocuments(tableSummaries, tables, MintIds(mint, |texts|, |tables|));
      if added.Err? {
        return Err(added.error);
      }
    }
    r := Ok(retriever);
  }
}
