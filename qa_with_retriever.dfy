/** The retrieval answer of modules/qa_with_retriever.py: the retrieved documents come back
    with a similarity per scored hit, and the answer is the hosted model's reply when there is
    one, otherwise an extract of the first retrieved document that mentions a query term. The
    index, the retriever and the model are inputs: `Retrieval` holds what the loaded index
    returned for the query, and the model is a function whose `None` stands for a failed call. */
module RetrieverQA {
  import opened Wrappers
  import opened Text
  import opened Seqs
  import opened Types

  const LOAD_ERROR: string := "Error: Could not load FAISS index."
  const NOT_FOUND: string := "I cannot find relevant information in the document."
  const OFFLINE_SUFFIX: string := "\n\n(Offline heuristic answer)"

  /** What a loaded index gives for the query: the retrieved documents, and the raw scores of
      `similarity_search_with_score`, `None` when that call raised. */
  datatype Retrieval = Retrieval(docs: seq<StoreDocument>, scores: Option<seq<real>>)

  /** The result dictionary of lines 39, 66 and 81. */
  datatype RetrievalAnswer = RetrievalAnswer(answer: string, docs: seq<StoreDocument>, similarities: seq<real>)

  // ---------------------------------------------------------------- similarities

  /** Line 54: a score above 1 is read as a distance and mapped into (0, 1/2); any other score
      is kept. */
  function Similarity(score: real): (r: real)
    ensures score > 1.0 ==> 0.0 < r < 0.5
    ensures score <= 1.0 ==> r == score
    ensures r <= 1.0
  {
    if score > 1.0 then 1.0 / (1.0 + score) else score
  }

  /** A larger distance gives a smaller similarity. */
  lemma SimilarityReversesDistance(s: real, t: real)
    requires 1.0 < s < t
    ensures Similarity(t) < Similarity(s)
  {
    var a, b := 1.0 + s, 1.0 + t;
    assert 1.0 / a - 1.0 / b == (b - a) / (a * b);
    assert a * b > 0.0;
  }

  /** The loop of lines 52-55. */
  method ConvertScores(scores: seq<real>) returns (similarities: seq<real>)
    ensures |similarities| == |scores|
    ensures forall i :: 0 <= i < |scores| ==> similarities[i] == Similarity(scores[i])
  {
    similarities := [];
    var i := 0;
    while i < |scores|
      invariant i <= |scores| && |similarities| == i
      invariant forall k :: 0 <= k < i ==> similarities[k] == Similarity(scores[k])
    {
      var score := scores[i];
      var sim := if score > 1.0 then 1.0 / (1.0 + score) else score;
      similarities := similarities + [sim];
      i := i + 1;
    }
  }

  /** The similarities of lines 47-58: the converted scores, or 0.5 per retrieved document
      when scoring failed. */
  function Similarities(r: Retrieval): (sims: seq<real>)
    ensures r.scores.Some? ==> (|sims| == |r.scores.value|
      && forall i :: 0 <= i < |sims| ==> sims[i] == Similarity(r.scores.value[i]))
    ensures r.scores.None? ==> (|sims| == |r.docs| && forall i :: 0 <= i < |sims| ==> sims[i] == 0.5)
  {
    match r.scores
    case Some(scores) => MapSeq(scores, Similarity)
    case None => seq(|r.docs|, _ => 0.5)
  }

  /** Every similarity is at most 1, and non-negative scores give similarities in [0, 1]. */
  lemma SimilaritiesBounded(r: Retrieval)
    requires r.scores.Some? ==> forall i :: 0 <= i < |r.scores.value| ==> r.scores.value[i] >= 0.0
    ensures forall i :: 0 <= i < |Similarities(r)| ==> 0.0 <= Similarities(r)[i] <= 1.0
  {
  }

  // ---------------------------------------------------------------- the offline answer

  predicate LongTerm(t: string) { |t| > 2 }

  /** `q_terms` (line 71): the words of the lower-cased query longer than two characters. */
  function QueryTerms(query: string): seq<string> {
    Filter(Words(Lower(query)), LongTerm)
  }

  /** The query terms are exactly the query's words longer than two characters. */
  lemma QueryTermsMembers(query: string, t: string)
    ensures t in QueryTerms(query) <==> t in Words(Lower(query)) && |t| > 2
  {
    FilterMembers(Words(Lower(query)), LongTerm, t);
  }

  /** Line 75: the lower-cased content contains some query term. */
  predicate Mentions(d: StoreDocument, terms: seq<string>) {
    exists i :: 0 <= i < |terms| && Contains(Lower(d.pageContent), terms[i])
  }

  /** The first retrieved document that mentions a term. */
  function FirstMention(docs: seq<StoreDocument>, terms: seq<string>): (r: Option<nat>)
    ensures r.Some? ==> (r.value < |docs| && Mentions(docs[r.value], terms)
      && forall j :: 0 <= j < r.value ==> !Mentions(docs[j], terms))
    ensures r.None? <==> forall j :: 0 <= j < |docs| ==> !Mentions(docs[j], terms)
  {
    if docs == [] then None
    else if Mentions(docs[0], terms) then Some(0)
    else
      var r := FirstMention(docs[1..], terms);
      assert forall j :: 1 <= j < |docs| ==> docs[j] == docs[1..][j - 1];
      if r.Some? then Some(r.value + 1) else None
  }

  /** The extract of lines 76 and 79: the first 600 characters, and "..." when more follow. */
  function Excerpt(content: string): (r: string)
    ensures |content| <= 600 ==> r == content
    ensures |content| > 600 ==> |r| == 603 && r[..600] == content[..600] && r[600..] == "..."
  {
    Take(content, 600) + (if |content| > 600 then "..." else "")
  }

  /** The loop of lines 72-77: the extract of the first document that mentions a term. */
  method ChooseMention(docs: seq<StoreDocument>, terms: seq<string>) returns (chosen: Option<string>)
    ensures FirstMention(docs, terms).None? ==> chosen == None
    ensures FirstMention(docs, terms).Some? ==> chosen == Some(Excerpt(docs[FirstMention(docs, terms).value].pageContent))
  {
    chosen := None;
    var i := 0;
    while i < |docs|
      invariant i <= |docs|
      invariant forall j :: 0 <= j < i ==> !Mentions(docs[j], terms)
    {
      if Mentions(docs[i], terms) {
        var content := docs[i].pageContent;
        chosen := Some(Take(content, 600) + (if |content| > 600 then "..." else ""));
        return;
      }
      i := i + 1;
    }
  }

  /** `chosen` after line 79: the mentioning extract, or else the first document's extract. An
      empty extract counts as no choice, as Python's `not chosen` does. */
  function Chosen(docs: seq<StoreDocument>, terms: seq<string>): Option<string> {
    var first := FirstMention(docs, terms);
    var mention := if first.Some? then Some(Excerpt(docs[first.value].pageContent)) else None;
    if (mention.None? || mention.value == []) && docs != [] then Some(Excerpt(docs[0].pageContent)) else mention
  }

  /** The answer of lines 72-81 for the query terms `terms`. */
  function OfflineAnswer(terms: seq<string>, docs: seq<StoreDocument>): string {
    var chosen := Chosen(docs, terms);
    (if chosen.None? || chosen.value == [] then NOT_FOUND else chosen.value) + OFFLINE_SUFFIX
  }

  /** The offline answer always ends with the offline marker. It is the extract of the first
      document mentioning a query term; failing that, of the first document; and the fixed
      "cannot find" text when there are no documents or the first one is empty. */
  lemma OfflineAnswerChoice(terms: seq<string>, docs: seq<StoreDocument>)
    requires forall i :: 0 <= i < |terms| ==> terms[i] != []
    ensures EndsWith(OfflineAnswer(terms, docs), OFFLINE_SUFFIX)
    ensures var first := FirstMention(docs, terms);
      && (first.Some? ==> OfflineAnswer(terms, docs) == Excerpt(docs[first.value].pageContent) + OFFLINE_SUFFIX)
      && (first.None? && docs != [] && docs[0].pageContent != [] ==>
            OfflineAnswer(terms, docs) == Excerpt(docs[0].pageContent) + OFFLINE_SUFFIX)
      && (first.None? && (docs == [] || docs[0].pageContent == []) ==> OfflineAnswer(terms, docs) == NOT_FOUND + OFFLINE_SUFFIX)
  {
    var first := FirstMention(docs, terms);
    if first.Some? {
      var d := docs[first.value];
      assert d.pageContent != [] by {
        var m :| 0 <= m < |terms| && Contains(Lower(d.pageContent), terms[m]);
        ContainsNonEmpty(Lower(d.pageContent), terms[m]);
      }
    }
  }

  /** Every query term is non-empty. */
  lemma QueryTermsNonEmpty(query: string)
    ensures forall i :: 0 <= i < |QueryTerms(query)| ==> QueryTerms(query)[i] != []
  {
    forall i | 0 <= i < |QueryTerms(query)| ensures QueryTerms(query)[i] != [] {
      QueryTermsMembers(query, QueryTerms(query)[i]);
    }
  }

  /** A string that contains a non-empty string is not empty. */
  lemma ContainsNonEmpty(s: string, t: string)
    requires Contains(s, t) && t != []
    ensures s != []
  {
  }

  // ---------------------------------------------------------------- the whole answer

  /** The instructions that open the prompt of line 63. */
  const HOSTED_INSTRUCTIONS: string :=
    "You are a legal document assistant. Answer the question using ONLY the context. If absent, say you cannot find it.\n\nContext:\n"

  /** The prompt of line 63. */
  function HostedPrompt(context: string, query: string): string {
    HOSTED_INSTRUCTIONS + context + "\n\nQuestion: " + query + "\n"
  }

  function Content(d: StoreDocument): string { d.pageContent }

  /** `answer_query_with_retriever` (lines 27-81), given what the index returned (`None` when it
      did not load) and the hosted model (`None` when unavailable; a reply of `None` when the
      call raised). */
  function Answered(query: string, index: Option<Retrieval>, gemini: Option<string -> Option<string>>): RetrievalAnswer {
    match index
    case None => RetrievalAnswer(LOAD_ERROR, [], [])
    case Some(r) =>
      var reply := if gemini.Some? then gemini.value(HostedPrompt(Join("\n\n", MapSeq(r.docs, Content)), query)) else None;
      RetrievalAnswer(if reply.Some? then reply.value else OfflineAnswer(QueryTerms(query), r.docs), r.docs, Similarities(r))
  }

  /** What the caller sees: a failed load gives the fixed error with nothing retrieved; otherwise
      the retrieved documents and their similarities come back, and the answer is the model's
      reply or else an offline answer with its marker. */
  lemma AnsweredShape(query: string, index: Option<Retrieval>, gemini: Option<string -> Option<string>>)
    ensures index.None? ==> Answered(query, index, gemini) == RetrievalAnswer(LOAD_ERROR, [], [])
    ensures index.Some? ==> (Answered(query, index, gemini).docs == index.value.docs
      && Answered(query, index, gemini).similarities == Similarities(index.value))
    ensures index.Some? && gemini.None? ==> EndsWith(Answered(query, index, gemini).answer, OFFLINE_SUFFIX)
  {
    if index.Some? {
      QueryTermsNonEmpty(query);
      OfflineAnswerChoice(QueryTerms(query), index.value.docs);
    }
  }

  /** The similarities of lines 47-58. */
  method ComputeSimilarities(r: Retrieval) returns (similarities: seq<real>)
    ensures similarities == Similarities(r)
  {
    if r.scores.Some? {
      similarities := ConvertScores(r.scores.value);
    } else {
      similarities := seq(|r.docs|, _ => 0.5);
    }
  }

  /** The fallback of lines 70-81, for the query terms `terms`. */
  method AnswerOffline(terms: seq<string>, docs: seq<StoreDocument>) returns (answer: string)
    ensures answer == OfflineAnswer(terms, docs)
  {
    var chosen := ChooseMention(docs, terms);
    if (chosen.None? || chosen.value == []) && docs != [] {
      chosen := Some(Excerpt(docs[0].pageContent));
    }
    var text := if chosen.None? || chosen.value == [] then NOT_FOUND else chosen.value;
    answer := text + OFFLINE_SUFFIX;
  }

  /** `answer_query_with_retriever` (lines 27-81). */
  method AnswerQueryWithRetriever(query: string, index: Option<Retrieval>, gemini: Option<string -> Option<string>>)
    returns (result: RetrievalAnswer)
    ensures result == Answered(query, index, gemini)
  {
    if index.None? {
      return RetrievalAnswer(LOAD_ERROR, [], []);
    }
    var r := index.value;
    var similarities := ComputeSimilarities(r);
    if gemini.Some? {
      var reply := gemini.value(HostedPrompt(Join("\n\n", MapSeq(r.docs, Content)), query));
      if reply.Some? {
        return RetrievalAnswer(reply.value, r.docs, similarities);
      }
    }
    var answer := AnswerOffline(QueryTerms(query), r.docs);
    result := RetrievalAnswer(answer, r.docs, similarities);
  }
}
