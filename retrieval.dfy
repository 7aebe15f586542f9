/**
 * The retrieval half of query_chat (rag.py:167-180): load the saved index,
 * take the k = 3 spans closest to the query, and join their texts with
 * newlines into the context of the prompt. The similarity search is an
 * abstract function of the index, the query and k.
 */
module Retrieval {
  import opened Wrappers
  import opened Text
  import opened Pipeline

  /** similarity_search(query, k=3) (rag.py:179). */
  const TopK := 3

  /** What query_chat returns when the index does not load (rag.py:177). */
  const LoadError := "Error: Could not load FAISS index."

  /**
   * The context query_chat gives the prompt (rag.py:169-180), or the error
   * string it returns instead. FAISS.load_local raises when there is no saved
   * index, and when loadFails says the saved one is damaged.
   */
  function RetrieveContext(saved: Option<seq<Span>>, loadFails: bool,
                           search: (seq<Span>, string, int) -> seq<Span>, query: string): (r: Result<string, string>)
    ensures r.Failure? <==> saved.None? || loadFails
    ensures r.Failure? ==> r.error == LoadError
    ensures r.Success? && search(saved.value, query, TopK) == [] ==> r.value == ""
  {
    if saved.None? || loadFails then Failure(LoadError)
    else Success(JoinWith("\n", search(saved.value, query, TopK)))
  }

  /**
   * The context keeps the retrieved texts, in ranked order: split at its
   * newlines it gives them back, when none of them holds a newline itself.
   */
  lemma {:induction false} ContextKeepsRanking(saved: Option<seq<Span>>, search: (seq<Span>, string, int) -> seq<Span>, query: string)
    requires saved.Some?
    requires var docs := search(saved.value, query, TopK);
      |docs| >= 1 && forall i :: 0 <= i < |docs| ==> '\n' !in docs[i]
    ensures var r := RetrieveContext(saved, false, search, query);
      r.Success? && SplitOn('\n', r.value) == search(saved.value, query, TopK)
  {
    SplitJoin('\n', search(saved.value, query, TopK));
  }

  /**
   * Whatever the texts, the context starts with the best match and ends with
   * the last one kept.
   */
  lemma {:induction false} ContextEnds(saved: Option<seq<Span>>, search: (seq<Span>, string, int) -> seq<Span>, query: string)
    requires saved.Some?
    requires |search(saved.value, query, TopK)| >= 1
    ensures var docs, r := search(saved.value, query, TopK), RetrieveContext(saved, false, search, query);
      && r.Success?
      && |r.value| >= |docs[0]| && r.value[..|docs[0]|] == docs[0]
      && |r.value| >= |docs[|docs| - 1]| && r.value[|r.value| - |docs[|docs| - 1]|..] == docs[|docs| - 1]
  {
    JoinWithEnds("\n", search(saved.value, query, TopK));
  }
}
