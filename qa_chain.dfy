/** The question-answering engine of src/rag/qa_chain.py: `QAChain.ask` with its definition
    fast path (question pattern, acronym expansion, cue-word hits, length shaping) and its
    general path (tokens, stemming, sentence scoring, top-5 selection, composition, confidence
    and highlighting), and `build_qa_chain`. The vector store is given by its docstore's
    documents and its retriever's search; the language model by `Fallback.Generate`. */
module QAChain {
  import opened Wrappers
  import opened Text
  import opened Seqs
  import opened Sorting
  import opened Types
  import opened Fallback

  // ---------------------------------------------------------------- the chain

  /** A FAISS store as the chain sees it: the documents of its docstore (None when the store
      has no `docstore` attribute) and the retriever's search (top 5 chunks for a query). */
  datatype VectorStore = VectorStore(docstore: Option<seq<StoreDocument>>, retrieve: string -> seq<StoreDocument>)

  /** One entry of the `citations` list. */
  datatype Citation = Citation(page: Option<int>, snippet: string)

  /** The dictionary `ask` returns; `confidence` is absent on the definition and fallback
      paths. */
  datatype Answer = Answer(answer: string, citations: seq<Citation>, confidence: Option<real>)

  /** A `QAChain`: its fields are fixed once constructed. */
  datatype Chain = Chain(config: AppConfig, vs: VectorStore, llm: LlmClient)

  /** The client `__init__` settles on: an injected one, else the Gemini client when
      `use_gemini` is set and constructing it did not raise (`gemini` is None when it raised),
      else the local wrapper. */
  function ChooseLlm(config: AppConfig, injected: Option<LlmClient>, gemini: Option<string -> string>, local: LocalLLM): LlmClient {
    if injected.Some? then injected.value
    else if config.useGemini && gemini.Some? then Hosted(gemini.value)
    else Local(local)
  }

  /** `build_qa_chain`: no chain without a store; otherwise a chain over that store with no
      injected client. */
  function BuildQAChain(config: AppConfig, vs: Option<VectorStore>, gemini: Option<string -> string>, local: LocalLLM): (r: Option<Chain>)
    ensures r.None? <==> vs.None?
    ensures r.Some? ==> r.value.vs == vs.value && r.value.config == config
  {
    match vs
    case None => None
    case Some(store) => Some(Chain(config, store, ChooseLlm(config, None, gemini, local)))
  }

  /** A chain built by `build_qa_chain` answers with the stub exactly when the Gemini client is
      not in use and the local wrapper has no pipeline. */
  lemma BuiltChainStub(config: AppConfig, vs: VectorStore, gemini: Option<string -> string>, local: LocalLLM)
    ensures var c := BuildQAChain(config, Some(vs), gemini, local).value;
      IsStub(c.llm) <==> (!config.useGemini || gemini.None?) && local.pipe.None?
  {
  }

  /** An injected client is used whatever the configuration. */
  lemma InjectedClientWins(config: AppConfig, llm: LlmClient, gemini: Option<string -> string>, local: LocalLLM)
    ensures ChooseLlm(config, Some(llm), gemini, local) == llm
  {
  }

  // ---------------------------------------------------------------- the definition question

  /** At the start of `s`, a run of at least one whitespace character followed by `w`: how
      much that consumes. */
  function WsThen(s: string, w: string): (r: Option<nat>)
    ensures r.Some? ==> |w| < r.value <= |s| && s[r.value - |w|..r.value] == w
    ensures r.Some? ==> IsSpace(s[0]) && AllChars(s[..r.value - |w|], IsSpace)
  {
    var n := |TakeWhile(s, IsSpace)|;
    if n > 0 && StartsWith(s[n..], w) then Some(n + |w|) else None
  }

  /** Where the alternation `what\s+is|define|meaning\s+of` ends when it matches at the start
      of `q`. */
  function PrefixEnd(q: string): (r: Option<nat>)
    ensures r.Some? ==> r.value <= |q|
  {
    if StartsWith(q, "what") then
      match WsThen(q[4..], "is")
      case Some(n) => Some(4 + n)
      case None => None
    else if StartsWith(q, "define") then Some(6)
    else if StartsWith(q, "meaning") then
      match WsThen(q[7..], "of")
      case Some(n) => Some(7 + n)
      case None => None
    else None
  }

  /** The characters of the term group `[\w\-\&\/\s\.]`. */
  predicate IsTermChar(c: char) {
    IsWordChar(c) || c == '-' || c == '&' || c == '/' || c == '.' || IsSpace(c)
  }

  predicate IsQuestionMark(c: char) { c == '?' }

  /** The term group of the question pattern, matched against the text after the prefix:
      `\s+` then a lazy run of term characters then `\?*` up to the end. The term stops
      where the trailing run of question marks begins; `\s+` takes the leading whitespace
      but leaves the term at least one character. */
  function TermGroup(rest: string): (r: Option<string>)
    ensures r.Some? ==> r.value != [] && AllChars(r.value, IsTermChar)
    ensures r.Some? ==> exists i, j :: 0 < i <= j <= |rest| && r.value == rest[i..j]
  {
    var e := |rest| - |TakeWhileEnd(rest, IsQuestionMark)|;
    if e >= 2 && IsSpace(rest[0]) && AllChars(rest[1..e], IsTermChar) then
      var m := Min(|TakeWhile(rest, IsSpace)|, e - 1);
      AllCharsSlice(rest[1..e], IsTermChar, m - 1, e - 1);
      assert rest[1..e][m - 1..e - 1] == rest[m..e];
      Some(rest[m..e])
    else None
  }

  /** `re.sub(r"^(the|a|an)\s+", "", s)` for one alternative: the text after `a` and the
      whitespace run that follows it. */
  function AfterArticle(s: string, a: string): (r: Option<string>)
    ensures r.Some? ==> |r.value| < |s| && r.value == s[|s| - |r.value|..]
  {
    if StartsWith(s, a) then
      var n := |TakeWhile(s[|a|..], IsSpace)|;
      if n > 0 then Some(s[|a| + n..]) else None
    else None
  }

  /** Removes one leading article followed by whitespace. */
  function DropArticle(s: string): (r: string)
    ensures |r| <= |s| && r == s[|s| - |r|..]
  {
    match AfterArticle(s, "the")
    case Some(r) => r
    case None =>
      match AfterArticle(s, "a")
      case Some(r) => r
      case None =>
        match AfterArticle(s, "an")
        case Some(r) => r
        case None => s
  }

  /** What follows an article and its whitespace in stripped text is itself stripped and
      non-empty. */
  lemma AfterArticleStripped(s: string, a: string)
    requires IsStripped(s) && AfterArticle(s, a).Some?
    ensures IsStripped(AfterArticle(s, a).value) && AfterArticle(s, a).value != []
  {
    var n := |TakeWhile(s[|a|..], IsSpace)|;
    assert IsSpace(s[|a|..][n - 1]);
    assert s[|a| + n - 1] == s[|a|..][n - 1];
  }

  lemma DropArticleStripped(s: string)
    requires IsStripped(s)
    ensures IsStripped(DropArticle(s))
    ensures s != [] ==> DropArticle(s) != []
  {
    if AfterArticle(s, "the").Some? {
      AfterArticleStripped(s, "the");
    } else if AfterArticle(s, "a").Some? {
      AfterArticleStripped(s, "a");
    } else if AfterArticle(s, "an").Some? {
      AfterArticleStripped(s, "an");
    }
  }

  /** The term of the question pattern with a leading article removed; None when nothing is
      left. */
  function TermTarget(g: string): Option<string> {
    var t := DropArticle(Strip(g));
    if t == [] then None else Some(t)
  }

  /** The target of a normalised question `q`. */
  function QuestionTerm(q: string): Option<string> {
    match PrefixEnd(q)
    case None => None
    case Some(p) =>
      match TermGroup(q[p..])
      case None => None
      case Some(g) => TermTarget(g)
  }

  /** The definition target of lines 40-48: the term of a "what is" / "define" / "meaning of"
      question, stripped and without a leading article; None when the question has another
      shape or the term is empty. */
  function DefinitionTarget(question: string): Option<string> {
    QuestionTerm(Lower(Strip(question)))
  }

  /** A definition target is non-empty and stripped. */
  lemma DefinitionTargetStripped(question: string)
    requires DefinitionTarget(question).Some?
    ensures var t := DefinitionTarget(question).value; t != [] && IsStripped(t)
  {
    var q := Lower(Strip(question));
    var p := PrefixEnd(q).value;
    var g := TermGroup(q[p..]).value;
    DropArticleStripped(Strip(g));
  }

  /** A definition target is lowercase. */
  lemma DefinitionTargetLower(question: string)
    requires DefinitionTarget(question).Some?
    ensures IsLower(DefinitionTarget(question).value)
  {
    LowerIdempotent(Strip(question));
    QuestionTermLower(Lower(Strip(question)));
  }

  lemma QuestionTermLower(q: string)
    requires IsLower(q) && QuestionTerm(q).Some?
    ensures IsLower(QuestionTerm(q).value)
  {
    var p := PrefixEnd(q).value;
    LowerInfix(q, p, |q|);
    GroupTargetLower(q[p..]);
  }

  lemma GroupTargetLower(rest: string)
    requires IsLower(rest) && TermGroup(rest).Some? && TermTarget(TermGroup(rest).value).Some?
    ensures IsLower(TermTarget(TermGroup(rest).value).value)
  {
    var g := TermGroup(rest).value;
    var i, j :| 0 < i <= j <= |rest| && g == rest[i..j];
    TermLower(rest, i, j);
  }

  /** A definition target is made of the term group's characters. */
  lemma DefinitionTargetChars(question: string)
    requires DefinitionTarget(question).Some?
    ensures AllChars(DefinitionTarget(question).value, IsTermChar)
  {
    var q := Lower(Strip(question));
    var p := PrefixEnd(q).value;
    var g := TermGroup(q[p..]).value;
    TermChars(g);
  }

  /** Stripping and removing an article keep a run of term characters one. */
  lemma TermChars(g: string)
    requires AllChars(g, IsTermChar)
    ensures AllChars(DropArticle(Strip(g)), IsTermChar)
  {
    var a, b := StripSlice(g);
    AllCharsSlice(g, IsTermChar, a, b);
    var t := DropArticle(Strip(g));
    AllCharsSlice(Strip(g), IsTermChar, |Strip(g)| - |t|, |Strip(g)|);
  }

  /** A term cut from lowercase text is lowercase. */
  lemma TermLower(rest: string, i: int, j: int)
    requires IsLower(rest) && 0 < i <= j <= |rest|
    ensures IsLower(DropArticle(Strip(rest[i..j])))
  {
    LowerInfix(rest, i, j);
    StripLower(rest[i..j]);
    DropArticleLower(Strip(rest[i..j]));
  }

  lemma StripLower(g: string)
    requires IsLower(g)
    ensures IsLower(Strip(g))
  {
    var a, b := StripSlice(g);
    LowerInfix(g, a, b);
  }

  lemma DropArticleLower(s: string)
    requires IsLower(s)
    ensures IsLower(DropArticle(s))
  {
    var t := DropArticle(s);
    LowerInfix(s, |s| - |t|, |s|);
  }

  lemma LowerInfix(s: string, i: int, j: int)
    requires IsLower(s) && 0 <= i <= j <= |s|
    ensures IsLower(s[i..j])
  {
    forall k | 0 <= k < j - i ensures !('A' <= s[i..j][k] <= 'Z') {
      assert s[i..j][k] == s[i + k];
    }
  }

  /** A term that can stand in the question pattern as it is. */
  predicate PlainTerm(t: string) {
    && t != [] && IsLower(t) && AllChars(t, IsTermChar)
    && !IsSpace(t[0]) && !IsSpace(t[|t| - 1])
    && DropArticle(t) == t
  }

  /** "what is <term>?" asks for the term, whatever the case of the question. */
  lemma WhatIsTarget(question: string, t: string)
    requires PlainTerm(t)
    requires Lower(question) == "what is " + t + "?"
    ensures DefinitionTarget(question) == Some(t)
  {
    assert LowerChar(question[0]) == 'w' && LowerChar(question[|question| - 1]) == '?';
    assert IsStripped(question);
    StripOfStripped(question);
    WhatIsTerm(t);
  }

  lemma WhatIsTerm(t: string)
    requires PlainTerm(t)
    ensures QuestionTerm("what is " + t + "?") == Some(t)
  {
    var q := "what is " + t + "?";
    assert q[..4] == "what";
    assert q[4..] == " is " + t + "?";
    TakeWhileExact(q[4..], IsSpace, 1);
    assert q[4..][1..][..2] == "is";
    assert PrefixEnd(q) == Some(7);
    var rest := q[7..];
    assert rest == " " + t + "?";
    AllCharsAt(t, IsTermChar, |t| - 1);
    TakeWhileEndSuffix(" " + t, "?", IsQuestionMark);
    assert rest[1..|t| + 1] == t;
    TakeWhileExact(rest, IsSpace, 1);
    assert TermGroup(rest) == Some(t);
    StripOfStripped(t);
  }

  /** A leading "the " is removed from the term. */
  lemma TheDropped(t: string)
    requires t != [] && !IsSpace(t[0])
    ensures DropArticle("the " + t) == t
  {
    var s := "the " + t;
    assert s[..3] == "the";
    assert s[3..] == " " + t;
    TakeWhileExact(s[3..], IsSpace, 1);
  }

  /** The question of the definition test asks for "saas". */
  lemma SaasQuestion()
    ensures DefinitionTarget("What is SaaS?") == Some("saas")
  {
    SaasPlain();
    SaasLower();
    WhatIsTarget("What is SaaS?", "saas");
  }

  lemma SaasPlain()
    ensures PlainTerm("saas")
  {
    var t := "saas";
    assert t[..3][0] == 's' && t[..1][0] == 's' && t[..2][0] == 's';
  }

  lemma SaasLower()
    ensures Lower("What is SaaS?") == "what is " + "saas" + "?"
  {
  }

  // ---------------------------------------------------------------- definition hits

  /** `acronyms.get(t, [])`: the spelled-out forms of three acronyms, each list ending with the
      acronym itself. */
  function Expansions(t: string): seq<string> {
    if t == "saas" then ["software as a service", "saas"]
    else if t == "sla" then ["service level agreement", "sla"]
    else if t == "nda" then ["non-disclosure agreement", "nda"]
    else []
  }

  /** The target tokens of lines 53-55: the target, then the expansions of its lowercase
      form. */
  function TargetTokens(target: string): (r: seq<string>)
    ensures r != [] && r[0] == target && |r| <= 3
  {
    [target] + Expansions(Lower(target))
  }

  /** `any(t in low for t in tokens)`. */
  predicate AnyPresent(tokens: seq<string>, low: string) {
    exists i :: 0 <= i < |tokens| && Contains(low, tokens[i])
  }

  /** How many entries of `tokens` occur in `low`, a repeated entry counted each time. */
  function CountPresent(tokens: seq<string>, low: string): (n: nat)
    ensures n <= |tokens|
    ensures n > 0 <==> AnyPresent(tokens, low)
  {
    if tokens == [] then 0
    else
      var init := tokens[..|tokens| - 1];
      var n := CountPresent(init, low);
      assert forall i :: 0 <= i < |init| ==> init[i] == tokens[i];
      n + if Contains(low, tokens[|tokens| - 1]) then 1 else 0
  }

  /** `re.search(r"\b(is|means|refers to|shall mean)\b", low)` succeeds. */
  predicate HasCue(low: string) {
    HasWord(low, "is") || HasWord(low, "means") || HasWord(low, "refers to") || HasWord(low, "shall mean")
  }

  /** The score of lines 70-76: 4 per target token present, then 3, 2 and 1 for the bare
      substrings "means", "refers to" and "is". */
  function HitScore(tokens: seq<string>, low: string): int {
    4 * CountPresent(tokens, low)
    + (if Contains(low, "means") then 3 else 0)
    + (if Contains(low, "refers to") then 2 else 0)
    + (if Contains(low, "is") then 1 else 0)
  }

  /** A scored sentence with the page of its document: the tuples of both scored lists. */
  datatype Scored = Scored(score: int, page: Option<int>, sent: string)

  /** What a definition hit satisfies: its length bounds, a target token, a cue word, and a
      score of at least 4 and at most 4 per token plus 6. */
  predicate IsHit(tokens: seq<string>, h: Scored) {
    && 10 < |h.sent| < 420 && IsStripped(h.sent)
    && AnyPresent(tokens, Lower(h.sent)) && HasCue(Lower(h.sent))
    && 4 <= h.score <= 4 * |tokens| + 6
  }

  /** One sentence of a docstore document (lines 62-77): kept, stripped and scored when it
      has the right length, a target token and a cue word. */
  function SentenceHit(tokens: seq<string>, page: Option<int>, sent: string): (r: Option<Scored>)
    ensures r.Some? ==> IsHit(tokens, r.value) && r.value.page == page && r.value.sent == Strip(sent)
  {
    var s := Strip(sent);
    var low := Lower(s);
    if 10 < |s| < 420 && AnyPresent(tokens, low) && HasCue(low) then
      HitScoreBounds(tokens, low);
      Some(Scored(HitScore(tokens, low), page, s))
    else None
  }

  /** A sentence with a target token scores at least 4 and at most 4 per token plus 6. */
  lemma HitScoreBounds(tokens: seq<string>, low: string)
    requires AnyPresent(tokens, low)
    ensures 4 <= HitScore(tokens, low) <= 4 * |tokens| + 6
  {
    var n := CountPresent(tokens, low);
    assert 1 <= n <= |tokens|;
  }

  /** The hits among the pieces of one document, in order. */
  function SentenceHits(tokens: seq<string>, page: Option<int>, sents: seq<string>): (r: seq<Scored>)
    ensures forall h :: h in r ==> IsHit(tokens, h) && h.page == page
  {
    if sents == [] then []
    else
      var init := SentenceHits(tokens, page, sents[..|sents| - 1]);
      match SentenceHit(tokens, page, sents[|sents| - 1])
      case None => init
      case Some(h) =>
        assert forall x :: x in init + [h] ==> x in init || x == h;
        init + [h]
  }

  lemma SentenceHitsStep(tokens: seq<string>, page: Option<int>, sents: seq<string>, k: nat)
    requires k < |sents|
    ensures var h := SentenceHit(tokens, page, sents[k]);
      SentenceHits(tokens, page, sents[..k + 1])
      == SentenceHits(tokens, page, sents[..k]) + (if h.Some? then [h.value] else [])
  {
    var s1 := sents[..k + 1];
    assert s1[..|s1| - 1] == sents[..k];
    assert s1[|s1| - 1] == sents[k];
    var init := SentenceHits(tokens, page, sents[..k]);
    if SentenceHit(tokens, page, sents[k]).None? {
      assert init + [] == init;
    }
  }

  /** The pieces `re.split(r"(?<=[.!?])\s+", ...)` makes of a document's text, with the page
      of its metadata. */
  function DocHits(tokens: seq<string>, d: StoreDocument): seq<Scored> {
    SentenceHits(tokens, d.Get("page"), Sentences(d.pageContent))
  }

  /** `definition_hits` after the loops over all docstore documents. */
  function AllHits(tokens: seq<string>, docs: seq<StoreDocument>): (r: seq<Scored>)
    ensures forall h :: h in r ==> IsHit(tokens, h)
  {
    if docs == [] then [] else AllHits(tokens, docs[..|docs| - 1]) + DocHits(tokens, docs[|docs| - 1])
  }

  /** The sort key `(-score, len(sentence))` as an order. */
  predicate ScoreLe(a: Scored, b: Scored) {
    a.score > b.score || (a.score == b.score && |a.sent| <= |b.sent|)
  }

  lemma ScoreLeTotal()
    ensures TotalPreorder(ScoreLe)
  {
  }

  /** The winning hit (lines 79-80): no hit has a better key, and every earlier hit has a
      strictly worse one, as the stable sort leaves it. */
  lemma TopHitIsFirstBest(hits: seq<Scored>) returns (j: nat)
    requires hits != []
    ensures j < |hits| && SortBy(hits, ScoreLe)[0] == hits[j]
    ensures forall k :: 0 <= k < |hits| ==>
      hits[j].score > hits[k].score || (hits[j].score == hits[k].score && |hits[j].sent| <= |hits[k].sent|)
    ensures forall k :: 0 <= k < j ==>
      hits[k].score < hits[j].score || (hits[k].score == hits[j].score && |hits[k].sent| > |hits[j].sent|)
  {
    ScoreLeTotal();
    j := SortByHead(hits, ScoreLe);
  }

  /** The score loop of lines 70-76. */
  method ScoreHit(tokens: seq<string>, low: string) returns (score: int)
    ensures score == HitScore(tokens, low)
  {
    score := 0;
    for k := 0 to |tokens|
      invariant score == 4 * CountPresent(tokens[..k], low)
    {
      assert tokens[..k + 1][..k] == tokens[..k];
      if Contains(low, tokens[k]) {
        score := score + 4;
      }
    }
    assert tokens[..|tokens|] == tokens;
    if Contains(low, "means") { score := score + 3; }
    if Contains(low, "refers to") { score := score + 2; }
    if Contains(low, "is") { score := score + 1; }
  }

  /** The sentence loop over one docstore document. */
  method DocHitsLoop(tokens: seq<string>, page: Option<int>, sents: seq<string>) returns (hits: seq<Scored>)
    ensures hits == SentenceHits(tokens, page, sents)
  {
    hits := [];
    for k := 0 to |sents|
      invariant hits == SentenceHits(tokens, page, sents[..k])
    {
      SentenceHitsStep(tokens, page, sents, k);
      var h := CheckSentence(tokens, page, sents[k]);
      if h.Some? {
        hits := hits + [h.value];
      }
    }
    assert sents[..|sents|] == sents;
  }

  /** The body of the sentence loop (lines 63-76) for one piece. */
  method CheckSentence(tokens: seq<string>, page: Option<int>, sent: string) returns (h: Option<Scored>)
    ensures h == SentenceHit(tokens, page, sent)
  {
    h := None;
    var s := Strip(sent);
    if 10 < |s| < 420 {
      var low := Lower(s);
      if AnyPresent(tokens, low) && HasCue(low) {
        var score := ScoreHit(tokens, low);
        h := Some(Scored(score, page, s));
      }
    }
  }

  /** The loops of lines 59-77 over the docstore. */
  method CollectHits(tokens: seq<string>, docs: seq<StoreDocument>) returns (hits: seq<Scored>)
    ensures hits == AllHits(tokens, docs)
  {
    hits := [];
    for i := 0 to |docs|
      invariant hits == AllHits(tokens, docs[..i])
    {
      assert docs[..i + 1][..i] == docs[..i];
      var h := DocHitsLoop(tokens, docs[i].Get("page"), Sentences(docs[i].pageContent));
      hits := hits + h;
    }
    assert docs[..|docs|] == docs;
  }

  // ---------------------------------------------------------------- shaping the definition

  /** The clean-up substitutions of lines 85-92 applied in order. */
  function Trimmed(trims: seq<string -> string>, s: string): string {
    if trims == [] then s else trims[|trims| - 1](Trimmed(trims[..|trims| - 1], s))
  }

  /** The substitutions compose: the second group works on what the first left. */
  lemma {:induction false} TrimmedAppend(a: seq<string -> string>, b: seq<string -> string>, s: string)
    ensures Trimmed(a + b, s) == Trimmed(b, Trimmed(a, s))
    decreases |b|
  {
    if b == [] {
      assert a + b == a;
    } else {
      assert (a + b)[..|a + b| - 1] == a + b[..|b| - 1];
      TrimmedAppend(a, b[..|b| - 1], s);
    }
  }

  /** The `for pat in trim_patterns` loop. */
  method ApplyTrims(trims: seq<string -> string>, base: string) returns (tmp: string)
    ensures tmp == Trimmed(trims, base)
  {
    tmp := base;
    for k := 0 to |trims|
      invariant tmp == Trimmed(trims[..k], base)
    {
      assert trims[..k + 1][..k] == trims[..k];
      tmp := trims[k](tmp);
    }
    assert trims[..|trims|] == trims;
  }

  /** Text that contains " means " contains "means" as a whole word. */
  lemma SpacedMeansIsWord(low: string)
    requires Contains(low, " means ")
    ensures HasWord(low, "means")
  {
    ContainsIff(low, " means ");
    var k :| OccursAt(low, " means ", k);
    var m := low[k..k + 7];
    assert m == " means ";
    assert m[1..6] == low[k + 1..k + 6];
    assert m[1..6] == "means";
    assert low[k] == m[0] == ' ' && low[k + 6] == m[6] == ' ';
    assert WordAt(low, "means", k + 1);
  }

  /** Where `re.split(r"\bmeans\b", tmp, flags=re.I)` makes its first cut. */
  function MeansAt(tmp: string): (i: nat)
    requires HasWord(Lower(tmp), "means")
    ensures i + 5 <= |tmp| && WordAt(Lower(tmp), "means", i)
    ensures forall k :: 0 <= k < i ==> !WordAt(Lower(tmp), "means", k)
  {
    WordIndexFrom(Lower(tmp), "means", 0).value
  }

  /** Where the second part of that split ends: the next whole-word "means", or the end. */
  function NextMeans(tmp: string): (j: nat)
    requires HasWord(Lower(tmp), "means")
    ensures MeansAt(tmp) + 5 <= j <= |tmp|
  {
    match WordIndexFrom(Lower(tmp), "means", MeansAt(tmp) + 5)
    case Some(k) => k
    case None => |tmp|
  }

  /** `pre.strip().split(',')[0]`: the stripped text before "means", up to its first comma. */
  function MeansHead(tmp: string): (r: string)
    requires HasWord(Lower(tmp), "means")
    ensures !Contains(r, ",") && |r| <= MeansAt(tmp)
  {
    var r := BeforeFirst(Strip(tmp[..MeansAt(tmp)]), ",");
    ContainsIff(r, ",");
    r
  }

  /** `post.split('.')[0]`: the text after "means", up to its first period. */
  function MeansTail(tmp: string): (r: string)
    requires HasWord(Lower(tmp), "means")
    ensures !Contains(r, ".") && StartsWith(tmp[MeansAt(tmp) + 5..], r)
  {
    var post := tmp[MeansAt(tmp) + 5..NextMeans(tmp)];
    var r := BeforeFirst(post, ".");
    ContainsIff(r, ".");
    r
  }

  /** Line 98: the clause around the first "means". */
  function MeansCut(tmp: string): string
    requires HasWord(Lower(tmp), "means")
  {
    MeansHead(tmp) + " means" + MeansTail(tmp) + "."
  }

  /** The clause around "means" is one sentence: its head has no comma, its tail no period,
      and it is at most two characters longer than the text it comes from. */
  lemma MeansCutShape(tmp: string)
    requires HasWord(Lower(tmp), "means")
    ensures var r := MeansCut(tmp);
      EndsWith(r, ".") && |r| <= |tmp| + 2 && StartsWith(r, MeansHead(tmp) + " means")
  {
    var h := MeansHead(tmp);
    var t := MeansTail(tmp);
    assert |t| <= |tmp| - MeansAt(tmp) - 5;
    SentenceShape(h + " means", t);
  }

  lemma SentenceShape(a: string, t: string)
    ensures var r := a + t + ".";
      EndsWith(r, ".") && |r| == |a| + |t| + 1 && StartsWith(r, a)
  {
    var r := a + t + ".";
    assert r[|r| - 1..] == ".";
    assert r[..|a|] == a;
  }

  /** Lines 100-101: text over 320 characters becomes its first 317, right-stripped of commas,
      semicolons and spaces, followed by "...". */
  function CapLength(tmp: string): (r: string)
    ensures |r| <= 320
    ensures |tmp| <= 320 ==> r == tmp
    ensures |tmp| > 320 ==> EndsWith(r, "...") && StartsWith(tmp, r[..|r| - 3])
  {
    if |tmp| > 320 then
      var head := RStripBy(tmp[..317], InSet({',', ';', ' '}));
      var r := head + "...";
      assert r[..|r| - 3] == head;
      r
    else tmp
  }

  /** Lines 94-101: the cut around "means" for long text, then the length cap. */
  function Shape(tmp: string): (r: string)
    ensures |r| <= 320
    ensures |tmp| <= 260 ==> r == tmp
  {
    var cut :=
      if |tmp| > 260 && Contains(Lower(tmp), " means ") then
        SpacedMeansIsWord(Lower(tmp));
        MeansCut(tmp)
      else tmp;
    CapLength(cut)
  }

  /** `concise_def` (line 102). */
  function Concise(trims: seq<string -> string>, base: string): (r: string)
    ensures |r| <= 320 && IsStripped(r)
  {
    Strip(Shape(Trimmed(trims, base)))
  }

  /** The prompt of line 106. */
  function RefinePrompt(target: string, base: string): string {
    REFINE_LEAD + target + REFINE_MIDDLE + base + "\nAnswer:"
  }

  const REFINE_LEAD: string := "Provide a concise plain-language definition of '"
  const REFINE_MIDDLE: string :=
    "' grounded strictly in this contract sentence, and optionally expand acronyms. Sentence: "

  /** The model's refinement when it is asked for (the client is not the stub) and its
      stripped length is in (15, 400); None otherwise (lines 104-112). */
  function Refinement(llm: LlmClient, target: string, base: string): (r: Option<string>)
    ensures IsStub(llm) ==> r.None?
    ensures r.Some? ==> 15 < |r.value| < 400 && IsStripped(r.value)
  {
    if IsStub(llm) then None
    else
      var refined := Strip(Generate(llm, RefinePrompt(target, base)));
      if 15 < |refined| < 400 then Some(refined) else None
  }

  /** The heuristic answer of lines 114-116: the concise definition when its length is in
      (15, 400), else the concise definition or, when that is empty, the sentence. */
  function HeuristicDefinition(trims: seq<string -> string>, base: string): (r: string)
    ensures base != [] ==> r != []
    ensures |r| <= 320 || r == base
  {
    var concise := Concise(trims, base);
    if 15 < |concise| < 400 then concise
    else if concise != [] then concise else base
  }

  /** The answer of the fast path for the winning hit (lines 82-116): the refinement when
      there is one, else the heuristic definition; one citation, no confidence. */
  function DefinitionAnswer(llm: LlmClient, trims: seq<string -> string>, target: string, top: Scored): (r: Answer)
    ensures r.confidence.None? && r.citations == [Citation(top.page, Take(top.sent, 300))]
  {
    var citations := [Citation(top.page, Take(top.sent, 300))];
    match Refinement(llm, target, top.sent)
    case Some(refined) => Answer(refined, citations, None)
    case None => Answer(HeuristicDefinition(trims, top.sent), citations, None)
  }

  /** The fast-path answer of a hit is non-empty and shorter than 420 characters. */
  lemma DefinitionAnswerBounds(llm: LlmClient, trims: seq<string -> string>, target: string, top: Scored)
    requires 10 < |top.sent| < 420
    ensures var a := DefinitionAnswer(llm, trims, target, top).answer; a != [] && |a| < 420
  {
    var refined := Refinement(llm, target, top.sent);
    if refined.None? {
      var h := HeuristicDefinition(trims, top.sent);
      assert h != [] && (|h| <= 320 || h == top.sent);
    }
  }

  /** The stub is never asked for a refinement: the answer is the concise definition, or the
      sentence when that is empty. */
  lemma StubDefinition(llm: LlmClient, trims: seq<string -> string>, target: string, top: Scored)
    requires IsStub(llm)
    ensures var c := Concise(trims, top.sent);
      DefinitionAnswer(llm, trims, target, top).answer == if c != [] then c else top.sent
  {
  }

  /** A short sentence that the clean-ups leave alone is its own definition when there is no
      refinement. */
  lemma ShortSentenceAnswers(llm: LlmClient, trims: seq<string -> string>, target: string, top: Scored)
    requires Trimmed(trims, top.sent) == top.sent && 15 < |top.sent| <= 260 && IsStripped(top.sent)
    requires Refinement(llm, target, top.sent).None?
    ensures DefinitionAnswer(llm, trims, target, top).answer == top.sent
  {
    ConciseOfShort(trims, top.sent);
  }

  /** Short stripped text that the clean-ups leave alone is its own concise form. */
  lemma ConciseOfShort(trims: seq<string -> string>, s: string)
    requires Trimmed(trims, s) == s && |s| <= 260 && IsStripped(s)
    ensures Concise(trims, s) == s
  {
    assert Shape(s) == s;
    StripOfStripped(s);
  }

  // ---------------------------------------------------------------- question tokens

  predicate NotLetter(c: char) { !IsAsciiLetter(c) }

  /** `re.findall(r"[a-zA-Z]{3,}", s)`: the maximal runs of ASCII letters of length at least
      3, in order. */
  function LetterRuns(s: string): (r: seq<string>)
    ensures forall w :: w in r ==> |w| >= 3 && AllChars(w, IsAsciiLetter)
    decreases |s|
  {
    var rest := LStripBy(s, NotLetter);
    if rest == [] then []
    else
      var w := TakeWhile(rest, IsAsciiLetter);
      assert w != [] by {
        assert !NotLetter(rest[0]);
      }
      (if |w| >= 3 then [w] else []) + LetterRuns(rest[|w|..])
  }

  /** The runs of lowercase text are lowercase. */
  lemma {:induction false} LetterRunsLower(s: string)
    requires IsLower(s)
    ensures forall w :: w in LetterRuns(s) ==> IsLower(w)
    decreases |s|
  {
    var rest := LStripBy(s, NotLetter);
    if rest != [] {
      var w := TakeWhile(rest, IsAsciiLetter);
      var tail := rest[|w|..];
      var head := LetterRunsUnfold(s);
      LowerSplitAt(s, rest, |w|);
      LetterRunsLower(tail);
      forall v | v in LetterRuns(s) ensures IsLower(v) {
        if v !in head {
          assert v in LetterRuns(tail);
        }
      }
    }
  }

  /** One step of `LetterRuns` on text that has a letter left after its leading non-letters. */
  lemma LetterRunsUnfold(s: string) returns (head: seq<string>)
    requires LStripBy(s, NotLetter) != []
    ensures var rest := LStripBy(s, NotLetter);
            var w := TakeWhile(rest, IsAsciiLetter);
            && head == (if |w| >= 3 then [w] else [])
            && LetterRuns(s) == head + LetterRuns(rest[|w|..])
  {
    var rest := LStripBy(s, NotLetter);
    var w := TakeWhile(rest, IsAsciiLetter);
    head := if |w| >= 3 then [w] else [];
  }

  /** Both pieces of a lowercase suffix cut at `n` are lowercase. */
  lemma LowerSplitAt(s: string, rest: string, n: nat)
    requires IsLower(s) && |rest| <= |s| && rest == s[|s| - |rest|..] && n <= |rest|
    ensures IsLower(rest[..n]) && IsLower(rest[n..])
  {
    LowerInfix(s, |s| - |rest|, |s|);
    LowerInfix(rest, 0, n);
    LowerInfix(rest, n, |rest|);
  }

  /** The stopwords of line 127. */
  const STOPWORDS: set<string> := {
    "the", "a", "an", "is", "are", "to", "of", "and", "or", "in", "on", "for", "with", "does",
    "do", "shall", "may", "which", "how", "please"
  }

  predicate NotStopword(t: string) { t !in STOPWORDS }

  /** `raw_tokens` (line 128). */
  function RawTokens(question: string): seq<string> {
    Filter(LetterRuns(Lower(question)), NotStopword)
  }

  /** Raw tokens are lowercase letter runs of length at least 3 that are not stopwords. */
  lemma RawTokensShape(question: string)
    ensures forall t :: t in RawTokens(question) ==>
      |t| >= 3 && AllChars(t, IsAsciiLetter) && IsLower(t) && t !in STOPWORDS
  {
    var runs := LetterRuns(Lower(question));
    LowerIdempotent(question);
    LetterRunsLower(Lower(question));
    forall t | t in RawTokens(question) ensures t in runs && NotStopword(t) {
      FilterMembers(runs, NotStopword, t);
    }
  }

  /** The suffixes of `stem`, in the order they are tried. */
  const SUFFIXES: seq<string> := ["ing", "tion", "ions", "ed", "es", "ly", "al", "ment"]

  /** Strips the first suffix of `sufs` that `t` ends with and that leaves more than two
      characters. */
  function StemBy(t: string, sufs: seq<string>): (r: string)
    ensures StartsWith(t, r)
    ensures r == t || |r| > 2
    ensures r != t ==> exists k :: 0 <= k < |sufs| && t == r + sufs[k]
  {
    if sufs == [] then t
    else if EndsWith(t, sufs[0]) && |t| > |sufs[0]| + 2 then
      var r := t[..|t| - |sufs[0]|];
      assert t == r + sufs[0];
      r
    else
      var r := StemBy(t, sufs[1..]);
      assert r != t ==> exists k :: 0 <= k < |sufs| && t == r + sufs[k] by {
        if r != t {
          var k :| 0 <= k < |sufs[1..]| && t == r + sufs[1..][k];
          assert sufs[1..][k] == sufs[k + 1];
        }
      }
      r
  }

  /** `stem` (lines 129-133). */
  function Stem(t: string): string {
    StemBy(t, SUFFIXES)
  }

  /** A stem is a prefix of its word of at least three characters, and what it drops is one
      of the suffixes. */
  lemma StemShape(t: string)
    requires |t| >= 3
    ensures StartsWith(t, Stem(t)) && |Stem(t)| >= 3
    ensures Stem(t) != t ==> exists k :: 0 <= k < |SUFFIXES| && t == Stem(t) + SUFFIXES[k]
  {
  }

  /** A word with none of the suffixes is its own stem. */
  lemma {:induction false} StemNone(t: string, sufs: seq<string>)
    requires forall k :: 0 <= k < |sufs| ==> !EndsWith(t, sufs[k])
    ensures StemBy(t, sufs) == t
    decreases |sufs|
  {
    if sufs != [] {
      assert !EndsWith(t, sufs[0]);
      forall k | 0 <= k < |sufs[1..]| ensures !EndsWith(t, sufs[1..][k]) {
        assert sufs[1..][k] == sufs[k + 1];
      }
      StemNone(t, sufs[1..]);
    }
  }

  /** "terminated" stems to "terminat" and "payment" to "pay". */
  lemma StemExamples()
    ensures Stem("terminated") == "terminat" && Stem("payment") == "pay"
  {
    StemTerminated();
    StemPayment();
  }

  lemma StemTerminated()
    ensures Stem("terminated") == "terminat"
  {
    assert EndsWith("terminated", "ed") && !EndsWith("terminated", "ing");
    assert !EndsWith("terminated", "tion") && !EndsWith("terminated", "ions");
  }

  lemma StemPayment()
    ensures Stem("payment") == "pay"
  {
    assert EndsWith("payment", "ment") && !EndsWith("payment", "ing") && !EndsWith("payment", "tion");
    assert !EndsWith("payment", "ions") && !EndsWith("payment", "ed") && !EndsWith("payment", "es");
    assert !EndsWith("payment", "ly") && !EndsWith("payment", "al");
  }

  /** `tokens` (line 134). */
  function QueryTokens(question: string): seq<string> {
    MapSeq(RawTokens(question), Stem)
  }

  /** Query tokens are lowercase and at least three characters long. */
  lemma QueryTokensShape(question: string)
    ensures forall t :: t in QueryTokens(question) ==> |t| >= 3 && IsLower(t)
  {
    var raw := RawTokens(question);
    var r := QueryTokens(question);
    RawTokensShape(question);
    forall i | 0 <= i < |r| ensures |r[i]| >= 3 && IsLower(r[i]) {
      assert raw[i] in raw;
      StemShape(raw[i]);
      LowerInfix(raw[i], 0, |r[i]|);
    }
  }

  // ---------------------------------------------------------------- sentence scoring

  /** `SYN.get(t, [])` (line 136). The key "payment" never matches a token, since "payment"
      stems to "pay". */
  function Synonyms(t: string): seq<string> {
    if t == "saas" then ["software as a service"]
    else if t == "terminate" then ["termination", "end"]
    else if t == "payment" then ["fee", "fees", "charge"]
    else if t == "confidentiality" then ["confidential"]
    else if t == "liability" then ["liable"]
    else if t == "indemnity" then ["indemnify", "indemnification"]
    else []
  }

  /** The domain boosts of line 169, in dictionary order. */
  const BOOSTS: seq<(string, int)> := [
    ("terminate", 3), ("renew", 2), ("payment", 3), ("fee", 2), ("confidential", 2),
    ("indemn", 3), ("liabil", 3), ("jurisdiction", 2)
  ]

  /** What one token adds: 3 when present, else 2 when one of its synonyms is. */
  function TokenScore(t: string, low: string): (r: int)
    ensures 0 <= r <= 3
    ensures r == 0 <==> !Contains(low, t) && !AnyPresent(Synonyms(t), low)
  {
    if Contains(low, t) then 3 else if AnyPresent(Synonyms(t), low) then 2 else 0
  }

  /** The token loop of lines 160-167. */
  function TokensScore(tokens: seq<string>, low: string): (r: int)
    ensures 0 <= r <= 3 * |tokens|
  {
    if tokens == [] then 0
    else TokensScore(tokens[..|tokens| - 1], low) + TokenScore(tokens[|tokens| - 1], low)
  }

  /** The booster loop of lines 169-171. */
  function BoostScore(boosts: seq<(string, int)>, low: string): int {
    if boosts == [] then 0
    else
      var b := boosts[|boosts| - 1];
      BoostScore(boosts[..|boosts| - 1], low) + if Contains(low, b.0) then b.1 else 0
  }

  /** `low.startswith(tuple(t + " " for t in tokens))`. */
  predicate StartsWithToken(tokens: seq<string>, low: string) {
    exists i :: 0 <= i < |tokens| && StartsWith(low, tokens[i] + " ")
  }

  /** The definitional shape of line 173. */
  predicate DefinitionalShape(tokens: seq<string>, low: string) {
    AnyPresent(tokens, low)
    && (Contains(low, " means ") || Contains(low, " refers to ") || StartsWithToken(tokens, low))
  }

  /** `score_sentence` (lines 157-178). */
  function ScoreSentence(tokens: seq<string>, s: string): int {
    var low := Lower(s);
    TokensScore(tokens, low) + BoostScore(BOOSTS, low)
    + (if DefinitionalShape(tokens, low) then 4 else 0)
    - (if |s| > 250 then 2 else 0)
  }

  /** No token, synonym or boost key contributes to a sentence: then the tokens add 0. */
  lemma {:induction false} TokensScoreZero(tokens: seq<string>, low: string)
    requires forall i :: 0 <= i < |tokens| ==> !Contains(low, tokens[i]) && !AnyPresent(Synonyms(tokens[i]), low)
    ensures TokensScore(tokens, low) == 0
    decreases |tokens|
  {
    if tokens != [] {
      var init := tokens[..|tokens| - 1];
      forall i | 0 <= i < |init| ensures !Contains(low, init[i]) && !AnyPresent(Synonyms(init[i]), low) {
        assert init[i] == tokens[i];
      }
      TokensScoreZero(init, low);
    }
  }

  /** A present token adds at least 3. */
  lemma {:induction false} TokensScorePresent(tokens: seq<string>, low: string, k: nat)
    requires k < |tokens| && Contains(low, tokens[k])
    ensures TokensScore(tokens, low) >= 3
    decreases |tokens|
  {
    if k < |tokens| - 1 {
      TokensScorePresent(tokens[..|tokens| - 1], low, k);
    }
  }

  /** The boosts add between 0 and their total. */
  lemma {:induction false} BoostScoreBounds(boosts: seq<(string, int)>, low: string)
    requires forall i :: 0 <= i < |boosts| ==> boosts[i].1 >= 0
    ensures 0 <= BoostScore(boosts, low) <= BoostTotal(boosts)
    ensures (forall i :: 0 <= i < |boosts| ==> !Contains(low, boosts[i].0)) ==> BoostScore(boosts, low) == 0
    decreases |boosts|
  {
    if boosts != [] {
      var init := boosts[..|boosts| - 1];
      assert forall i :: 0 <= i < |init| ==> init[i] == boosts[i];
      BoostScoreBounds(init, low);
    }
  }

  function BoostTotal(boosts: seq<(string, int)>): int {
    if boosts == [] then 0 else BoostTotal(boosts[..|boosts| - 1]) + boosts[|boosts| - 1].1
  }

  /** A sentence with no token, synonym or boost key scores at most 0, so it is never kept;
      a positive score therefore needs one of them. */
  lemma NoSignalNoScore(tokens: seq<string>, s: string)
    requires var low := Lower(s);
      && (forall i :: 0 <= i < |tokens| ==> !Contains(low, tokens[i]) && !AnyPresent(Synonyms(tokens[i]), low))
      && (forall i :: 0 <= i < |BOOSTS| ==> !Contains(low, BOOSTS[i].0))
    ensures ScoreSentence(tokens, s) <= 0
  {
    var low := Lower(s);
    TokensScoreZero(tokens, low);
    BoostScoreBounds(BOOSTS, low);
    assert !AnyPresent(tokens, low);
  }

  /** Scores lie between -2 and 3 per token plus the 20 of the boosts plus 4; a sentence of at
      most 250 characters that contains a token scores at least 3. */
  lemma ScoreSentenceBounds(tokens: seq<string>, s: string)
    ensures -2 <= ScoreSentence(tokens, s) <= 3 * |tokens| + 24
    ensures |s| <= 250 && AnyPresent(tokens, Lower(s)) ==> ScoreSentence(tokens, s) >= 3
  {
    var low := Lower(s);
    BoostScoreBounds(BOOSTS, low);
    BoostTotalIs20();
    if AnyPresent(tokens, low) {
      var k :| 0 <= k < |tokens| && Contains(low, tokens[k]);
      TokensScorePresent(tokens, low, k);
    }
  }

  lemma BoostTotalIs20()
    ensures BoostTotal(BOOSTS) == 20
  {
    var b := BOOSTS;
    assert b[..1][..0] == [];
    assert BoostTotal(b[..1]) == 3;
    assert b[..2][..1] == b[..1];
    assert BoostTotal(b[..2]) == 5;
    assert b[..3][..2] == b[..2];
    assert BoostTotal(b[..3]) == 8;
    assert b[..4][..3] == b[..3];
    assert BoostTotal(b[..4]) == 10;
    assert b[..5][..4] == b[..4];
    assert BoostTotal(b[..5]) == 12;
    assert b[..6][..5] == b[..5];
    assert BoostTotal(b[..6]) == 15;
    assert b[..7][..6] == b[..6];
    assert BoostTotal(b[..7]) == 18;
    assert b[..8][..7] == b[..7];
    assert b[..8] == b;
  }

  // ---------------------------------------------------------------- candidates and the top five

  /** A candidate sentence with the page of its document (the pairs of `collect_sentences`). */
  datatype Candidate = Candidate(page: Option<int>, sent: string)

  /** What a candidate satisfies: stripped, with a length in [12, 400]. */
  predicate IsCandidate(c: Candidate) {
    12 <= |c.sent| <= 400 && IsStripped(c.sent)
  }

  /** The pieces of one document kept by `collect_sentences`. */
  function PageCandidates(page: Option<int>, sents: seq<string>): (r: seq<Candidate>)
    ensures forall c :: c in r ==> IsCandidate(c) && c.page == page
  {
    if sents == [] then []
    else
      var init := PageCandidates(page, sents[..|sents| - 1]);
      var s := Strip(sents[|sents| - 1]);
      if 12 <= |s| <= 400 then init + [Candidate(page, s)] else init
  }

  /** `collect_sentences(doc_list)` (lines 139-147). */
  function Collected(docs: seq<StoreDocument>): (r: seq<Candidate>)
    ensures forall c :: c in r ==> IsCandidate(c)
  {
    if docs == [] then []
    else
      var d := docs[|docs| - 1];
      Collected(docs[..|docs| - 1]) + PageCandidates(d.Get("page"), Sentences(d.pageContent))
  }

  /** The sentence loop of `collect_sentences` over one document. */
  method PageCandidatesLoop(page: Option<int>, sents: seq<string>) returns (cands: seq<Candidate>)
    ensures cands == PageCandidates(page, sents)
  {
    cands := [];
    for k := 0 to |sents|
      invariant cands == PageCandidates(page, sents[..k])
    {
      assert sents[..k + 1][..k] == sents[..k];
      var s := Strip(sents[k]);
      if 12 <= |s| <= 400 {
        cands := cands + [Candidate(page, s)];
      }
    }
    assert sents[..|sents|] == sents;
  }

  /** `collect_sentences`. */
  method CollectSentences(docs: seq<StoreDocument>) returns (cands: seq<Candidate>)
    ensures cands == Collected(docs)
  {
    cands := [];
    for i := 0 to |docs|
      invariant cands == Collected(docs[..i])
    {
      assert docs[..i + 1][..i] == docs[..i];
      var more := PageCandidatesLoop(docs[i].Get("page"), Sentences(docs[i].pageContent));
      cands := cands + more;
    }
    assert docs[..|docs|] == docs;
  }

  /** The candidates of lines 148-154: those of the retrieved documents, or those of the whole
      docstore when there are fewer than five and the store has a docstore. */
  function CandidatePool(vs: VectorStore, docs: seq<StoreDocument>): (r: seq<Candidate>)
    ensures forall c :: c in r ==> IsCandidate(c)
  {
    var cands := Collected(docs);
    if |cands| < 5 && vs.docstore.Some? then Collected(vs.docstore.value) else cands
  }

  /** The tuple `(score_sentence(sent), page, sent)` of line 180. */
  function ScoreOf(tokens: seq<string>): Candidate -> Scored {
    (c: Candidate) => Scored(ScoreSentence(tokens, c.sent), c.page, c.sent)
  }

  predicate IsPositive(x: Scored) { x.score > 0 }

  /** `scored` after the filter of line 181. */
  function Positives(tokens: seq<string>, cands: seq<Candidate>): seq<Scored> {
    Filter(MapSeq(cands, ScoreOf(tokens)), IsPositive)
  }

  /** `top_sents` (line 184): the first five of the positives sorted by (-score, length). */
  function TopSentences(tokens: seq<string>, cands: seq<Candidate>): seq<Scored> {
    Take(SortBy(Positives(tokens, cands), ScoreLe), 5)
  }

  /** Every positive is a scored candidate. */
  lemma PositivesScored(tokens: seq<string>, cands: seq<Candidate>, x: Scored)
    requires x in Positives(tokens, cands)
    ensures x.score > 0 && x.score == ScoreSentence(tokens, x.sent)
    ensures Candidate(x.page, x.sent) in cands
  {
    FilterMembers(MapSeq(cands, ScoreOf(tokens)), IsPositive, x);
    var i :| 0 <= i < |cands| && MapSeq(cands, ScoreOf(tokens))[i] == x;
    assert cands[i] == Candidate(x.page, x.sent);
  }

  /** The top five: at most five, in (-score, length) order, each a positive scored
      candidate, and none of the positives left out ranks before one of them. There are none
      exactly when no candidate scores above 0. */
  lemma TopSentencesProps(tokens: seq<string>, cands: seq<Candidate>)
    ensures var top := TopSentences(tokens, cands);
      |top| <= 5 && SortedBy(top, ScoreLe)
      && (top == [] <==> Positives(tokens, cands) == [])
      && multiset(top) <= multiset(Positives(tokens, cands))
    ensures var top := TopSentences(tokens, cands);
      forall x, y :: x in top && y in multiset(Positives(tokens, cands)) - multiset(top) ==> ScoreLe(x, y)
  {
    var pos := Positives(tokens, cands);
    var sorted := SortBy(pos, ScoreLe);
    ScoreLeTotal();
    SortBySorted(pos, ScoreLe);
    var top := Take(sorted, 5);
    PrefixSorted(sorted, ScoreLe, |top|);
    PrefixRanksFirst(sorted, ScoreLe, |top|);
  }

  /** Every sentence of the top five is a positive scored candidate. */
  lemma TopSentencesScored(tokens: seq<string>, cands: seq<Candidate>, x: Scored)
    requires x in TopSentences(tokens, cands)
    ensures x.score > 0 && x.score == ScoreSentence(tokens, x.sent)
    ensures Candidate(x.page, x.sent) in cands
  {
    var pos := Positives(tokens, cands);
    assert x in SortBy(pos, ScoreLe);
    assert x in multiset(SortBy(pos, ScoreLe));
    assert x in pos;
    PositivesScored(tokens, cands, x);
  }

  // ---------------------------------------------------------------- the chunk-level fallback

  /** The fixed answer when nothing grounded was found (lines 197 and 221). */
  const NO_MATCH: string := "No grounded sentence match found for the question tokens."

  /** The prefix of the stub reply, as the fallback checks for it in lowercase. */
  const STUB_MARK: string := "fallback (no local model)"

  /** `f"{page}"` for a page that may be missing. */
  function PageText(page: Option<int>): string {
    match page
    case None => "None"
    case Some(p) => IntToString(p)
  }

  /** The chunk snippet of line 191: its first 280 characters with newlines made spaces. */
  function ChunkSnippet(d: StoreDocument): (r: string)
    ensures |r| <= 280 && forall i :: 0 <= i < |r| ==> r[i] != '\n'
  {
    ReplaceChar(Take(d.pageContent, 280), '\n', ' ')
  }

  /** One context block of line 192. */
  function ContextBlock(d: StoreDocument): string {
    "[Page " + PageText(d.Get("page")) + "] " + ChunkSnippet(d)
  }

  /** One citation of line 193. */
  function ChunkCitation(d: StoreDocument): Citation {
    Citation(d.Get("page"), ChunkSnippet(d))
  }

  /** The loop of lines 189-193. */
  method FallbackBlocks(docs: seq<StoreDocument>) returns (blocks: seq<string>, citations: seq<Citation>)
    ensures blocks == MapSeq(docs, ContextBlock) && citations == MapSeq(docs, ChunkCitation)
  {
    blocks, citations := [], [];
    for i := 0 to |docs|
      invariant blocks == MapSeq(docs[..i], ContextBlock) && citations == MapSeq(docs[..i], ChunkCitation)
    {
      MapSeqSnoc(docs, i, ContextBlock);
      MapSeqSnoc(docs, i, ChunkCitation);
      var d := docs[i];
      var page := d.Get("page");
      var snippet := ReplaceChar(Take(d.pageContent, 280), '\n', ' ');
      blocks := blocks + ["[Page " + PageText(page) + "] " + snippet];
      citations := citations + [Citation(page, snippet)];
    }
    assert docs[..|docs|] == docs;
  }

  /** Lines 196-197: a reply that is the stub's, or shorter than 25 characters, becomes the
      fixed message. */
  function GroundedReply(raw: string): (r: string)
    ensures r == NO_MATCH || (r == raw && |raw| >= 25 && !StartsWith(Lower(raw), STUB_MARK))
  {
    if StartsWith(Lower(raw), STUB_MARK) || |raw| < 25 then NO_MATCH else raw
  }

  /** The prompt of line 194, given the template of src/prompts/rag_qa.txt as a function of
      the context and the question. */
  function FallbackPrompt(template: (string, string) -> string, question: string, docs: seq<StoreDocument>): string {
    template(Join("\n\n", MapSeq(docs, ContextBlock)), question)
  }

  /** The answer of lines 185-198: the grounded reply to the chunk-level prompt, one citation
      per retrieved chunk, no confidence. */
  function FallbackAnswer(llm: LlmClient, template: (string, string) -> string, question: string, docs: seq<StoreDocument>): (r: Answer)
    ensures r.confidence.None? && |r.citations| == |docs|
    ensures forall i :: 0 <= i < |docs| ==> r.citations[i] == Citation(docs[i].Get("page"), ChunkSnippet(docs[i]))
  {
    Answer(GroundedReply(Strip(Generate(llm, FallbackPrompt(template, question, docs)))), MapSeq(docs, ChunkCitation), None)
  }

  /** Whatever the stub's reply, once stripped it is recognised and replaced. */
  lemma GroundedStub(reply: string)
    requires StartsWith(reply, STUB_PREFIX)
    ensures GroundedReply(Strip(reply)) == NO_MATCH
  {
    var mark := StubMarkFacts();
    assert StartsWith(reply, mark);
    StripKeepsPrefix(reply, mark);
    var s := Strip(reply);
    LowerSlice(s, 0, |mark|);
  }

  /** The stub's reply opens with the marker, in its own capitalisation. */
  lemma StubMarkFacts() returns (mark: string)
    ensures StartsWith(STUB_PREFIX, mark) && Lower(mark) == STUB_MARK && |mark| == |STUB_MARK|
  {
    mark := "Fallback (no local model)";
    StubMarkPrefix();
    StubMarkLower();
  }

  lemma StubMarkPrefix()
    ensures StartsWith(STUB_PREFIX, "Fallback (no local model)")
  {
    assert STUB_PREFIX[..25] == "Fallback (no local model)";
  }

  lemma StubMarkLower()
    ensures Lower("Fallback (no local model)") == STUB_MARK
  {
  }

  /** With the stub client the fallback answer is always the fixed message. */
  lemma StubFallback(llm: LlmClient, template: (string, string) -> string, question: string, docs: seq<StoreDocument>)
    requires IsStub(llm)
    ensures FallbackAnswer(llm, template, question, docs).answer == NO_MATCH
  {
    var prompt := FallbackPrompt(template, question, docs);
    assert Generate(llm, prompt) == StubReply(prompt);
    GroundedStub(StubReply(prompt));
  }

  // ---------------------------------------------------------------- composing the answer

  /** `sent.split("; ")[0].strip()` (line 205). */
  function FirstClause(sent: string): (r: string)
    ensures IsStripped(r) && |r| <= |sent|
  {
    Strip(BeforeFirst(sent, "; "))
  }

  /** The key of the `seen` set: the first clause in lowercase. */
  function ClauseKey(x: Scored): string {
    Lower(FirstClause(x.sent))
  }

  function ClauseOf(x: Scored): string {
    FirstClause(x.sent)
  }

  /** One citation of line 211. */
  function SentenceCitation(x: Scored): Citation {
    Citation(x.page, Take(x.sent, 300))
  }

  /** The top sentences the loop of lines 204-211 keeps: the first of each clause key. */
  function Kept(top: seq<Scored>): seq<Scored> {
    DedupeBy(top, ClauseKey)
  }

  /** The loop of lines 201-211: `used_sentences` (their clauses) and `citations`. */
  method SelectSentences(top: seq<Scored>) returns (used: seq<string>, citations: seq<Citation>)
    ensures used == MapSeq(Kept(top), ClauseOf) && citations == MapSeq(Kept(top), SentenceCitation)
  {
    used, citations := [], [];
    var seen: set<string> := {};
    ghost var kept: seq<Scored> := [];
    for i := 0 to |top|
      invariant kept == DedupeBy(top[..i], ClauseKey) && seen == KeysOf(kept, ClauseKey)
      invariant used == MapSeq(kept, ClauseOf) && citations == MapSeq(kept, SentenceCitation)
    {
      var x := top[i];
      DedupeStep(top, i, kept, ClauseKey);
      var key := ClauseKey(x);
      if key !in seen {
        MapSeqAppend(kept, x, ClauseOf);
        MapSeqAppend(kept, x, SentenceCitation);
        seen := seen + {key};
        used := used + [ClauseOf(x)];
        citations := citations + [SentenceCitation(x)];
        kept := kept + [x];
      }
    }
    assert top[..|top|] == top;
  }

  /** The kept sentences have pairwise different clause keys, cover every key of the top
      sentences, and come from them in order; the first top sentence is always kept. */
  lemma KeptProps(top: seq<Scored>)
    ensures DistinctKeys(Kept(top), ClauseKey) && KeysOf(Kept(top), ClauseKey) == KeysOf(top, ClauseKey)
    ensures Subseq(Kept(top), top) && |Kept(top)| <= |top|
    ensures top != [] ==> Kept(top) != [] && Kept(top)[0] == top[0]
  {
    DedupeByProperties(top, ClauseKey);
    SubseqLength(Kept(top), top);
    if top != [] {
      DedupeByHead(top, ClauseKey);
    }
  }

  lemma {:induction false} SubseqLength<T>(r: seq<T>, s: seq<T>)
    requires Subseq(r, s)
    ensures |r| <= |s|
    decreases |s|
  {
    if r != [] {
      if r[|r| - 1] == s[|s| - 1] && Subseq(r[..|r| - 1], s[..|s| - 1]) {
        SubseqLength(r[..|r| - 1], s[..|s| - 1]);
      } else {
        SubseqLength(r, s[..|s| - 1]);
      }
    }
  }

  /** " means " or " refers to " in the lowercase clause (line 214). */
  predicate IsDefinitional(s: string) {
    Contains(Lower(s), " means ") || Contains(Lower(s), " refers to ")
  }

  predicate NotDefinitional(s: string) { !IsDefinitional(s) }

  /** `s not in xs`, as a filter. */
  function NotIn(xs: seq<string>): string -> bool {
    s => s !in xs
  }

  /** `ordered` (lines 214-218): the definitional clauses, then the clauses not among them;
      the clauses as they are when none is definitional. */
  function Ordered(clauses: seq<string>): seq<string> {
    var definitional := Filter(clauses, IsDefinitional);
    if definitional != [] then definitional + Filter(clauses, NotIn(definitional)) else clauses
  }

  /** The order is a stable partition: definitional clauses first, then the others, each
      group in its original order, and nothing lost or repeated. */
  lemma OrderedPartition(clauses: seq<string>)
    ensures Ordered(clauses) == Filter(clauses, IsDefinitional) + Filter(clauses, NotDefinitional)
    ensures multiset(Ordered(clauses)) == multiset(clauses)
  {
    forall i | 0 <= i < |clauses| ensures NotDefinitional(clauses[i]) == !IsDefinitional(clauses[i]) {
    }
    PartitionBy(clauses, IsDefinitional, NotDefinitional);
  }

  /** Keeping what is not among the kept is keeping the complement; the two filters together
      are a permutation. */
  lemma PartitionBy(clauses: seq<string>, p: string -> bool, q: string -> bool)
    requires forall i :: 0 <= i < |clauses| ==> q(clauses[i]) == !p(clauses[i])
    ensures var kept := Filter(clauses, p);
            kept != [] ==> Filter(clauses, NotIn(kept)) == Filter(clauses, q)
    ensures Filter(clauses, p) == [] ==> clauses == Filter(clauses, p) + Filter(clauses, q)
    ensures multiset(Filter(clauses, p) + Filter(clauses, q)) == multiset(clauses)
  {
    var kept := Filter(clauses, p);
    forall i | 0 <= i < |clauses| ensures NotIn(kept)(clauses[i]) == q(clauses[i]) {
      FilterMembers(clauses, p, clauses[i]);
    }
    FilterSame(clauses, NotIn(kept), q);
    FilterPartition(clauses, p, q);
    if kept == [] {
      forall i | 0 <= i < |clauses| ensures q(clauses[i]) {
        FilterMembers(clauses, p, clauses[i]);
      }
      FilterAll(clauses, q);
    }
  }

  /** Lines 219-221: the clauses joined with "; ", cut to 500 characters; the fixed message
      when that is empty. */
  function Compose(ordered: seq<string>): (r: string)
    ensures r != [] && |r| <= 500
  {
    var a := Take(Join("; ", ordered), 500);
    if a == [] then NO_MATCH else a
  }

  /** The answer begins with the first clause (cut to 500 characters). */
  lemma ComposeStartsWithFirst(ordered: seq<string>)
    requires ordered != [] && ordered[0] != []
    ensures StartsWith(Compose(ordered), Take(ordered[0], 500))
  {
    JoinStartsWith("; ", ordered);
  }

  /** Sum of the scores. */
  function SumScores(top: seq<Scored>): int {
    if top == [] then 0 else SumScores(top[..|top| - 1]) + top[|top| - 1].score
  }

  /** Lines 223-227: twelve times the mean score, capped at 100 (0 without sentences). */
  function Confidence(top: seq<Scored>): real {
    if top == [] then 0.0
    else MinReal(100.0, (SumScores(top) as real / |top| as real) * 12.0)
  }

  lemma {:induction false} SumScoresPositive(top: seq<Scored>)
    requires forall i :: 0 <= i < |top| ==> top[i].score > 0
    ensures SumScores(top) >= |top|
    decreases |top|
  {
    if top != [] {
      var init := top[..|top| - 1];
      assert forall i :: 0 <= i < |init| ==> init[i] == top[i];
      SumScoresPositive(init);
    }
  }

  lemma MeanAtLeast(s: real, n: real, k: real)
    requires n > 0.0 && s >= k * n
    ensures s / n >= k
  {
    var m := s / n;
    assert m * n == s;
    if m < k {
      assert m * n < k * n;
    }
  }

  /** For positive scores the confidence lies in (0, 100], and it reaches 100 once the mean
      score is at least 25/3. */
  lemma ConfidenceRange(top: seq<Scored>)
    requires top != [] && forall i :: 0 <= i < |top| ==> top[i].score > 0
    ensures 0.0 < Confidence(top) <= 100.0
    ensures SumScores(top) * 3 >= 25 * |top| ==> Confidence(top) == 100.0
  {
    SumScoresPositive(top);
    var n := |top| as real;
    var s := SumScores(top) as real;
    MeanAtLeast(s, n, 1.0);
    if SumScores(top) * 3 >= 25 * |top| {
      MeanAtLeast(s, n, 25.0 / 3.0);
    }
  }

  // ---------------------------------------------------------------- highlighting

  /** The replacement text of line 233: the raw string `**\\1**` is the template `**\1**`
      with an escaped backslash, so each match becomes these six characters literally. */
  const MARK: string := "**\\1**"

  /** Every maximal run of word characters whose lowercase form is in `toks` replaced by
      `MARK` (a `\b(t)\b` match under re.I is exactly such a run equal to `t`), the rest kept. */
  function HighlightSet(s: string, toks: set<string>): string
    decreases |s|
  {
    if s == [] then []
    else if !IsWordChar(s[0]) then [s[0]] + HighlightSet(s[1..], toks)
    else
      var w := TakeWhile(s, IsWordChar);
      (if Lower(w) in toks then MARK else w) + HighlightSet(s[|w|..], toks)
  }

  /** The tokens line 231 lets through. */
  function Highlighted(order: seq<string>): set<string> {
    set t | t in order && |t| >= 3
  }

  /** Lines 229-233: one `re.sub` per token, longest first. The result does not depend on
      the order in which the tokens are applied. */
  method Highlight(answer: string, order: seq<string>) returns (hl: string)
    ensures hl == HighlightSet(answer, Highlighted(order))
  {
    hl := answer;
    HighlightNone(answer);
    assert Highlighted(order[..0]) == {};
    for i := 0 to |order|
      invariant hl == HighlightSet(answer, Highlighted(order[..i]))
    {
      var t := order[i];
      assert order[..i + 1] == order[..i] + [t];
      if |t| < 3 {
        assert Highlighted(order[..i + 1]) == Highlighted(order[..i]);
        continue;
      }
      HighlightTwice(answer, Highlighted(order[..i]), {t});
      assert Highlighted(order[..i + 1]) == Highlighted(order[..i]) + {t};
      hl := HighlightSet(hl, {t});
    }
    assert order[..|order|] == order;
  }

  /** With no token nothing changes. */
  lemma {:induction false} HighlightNone(s: string)
    ensures HighlightSet(s, {}) == s
    decreases |s|
  {
    if s != [] {
      if !IsWordChar(s[0]) {
        HighlightNone(s[1..]);
      } else {
        var w := TakeWhile(s, IsWordChar);
        HighlightNone(s[|w|..]);
      }
    }
  }

  /** A leading non-word character is copied. */
  lemma NonWordHead(c: char, rest: string, toks: set<string>)
    requires !IsWordChar(c)
    ensures HighlightSet([c] + rest, toks) == [c] + HighlightSet(rest, toks)
  {
    assert ([c] + rest)[1..] == rest;
  }

  /** A leading word run that ends where a non-word character (or the end) follows. */
  lemma WordHead(w: string, rest: string, toks: set<string>)
    requires w != [] && AllChars(w, IsWordChar) && (rest == [] || !IsWordChar(rest[0]))
    ensures HighlightSet(w + rest, toks) == (if Lower(w) in toks then MARK else w) + HighlightSet(rest, toks)
  {
    var s := w + rest;
    assert s[..|w|] == w;
    TakeWhileExact(s, IsWordChar, |w|);
    assert s[|w|..] == rest;
    AllCharsAt(w, IsWordChar, 0);
  }

  /** The digit inside the marker is a word of its own. */
  lemma OneHead(tail: string, toks: set<string>)
    requires "1" !in toks && (tail == [] || !IsWordChar(tail[0]))
    ensures HighlightSet("1" + tail, toks) == "1" + HighlightSet(tail, toks)
  {
    assert Lower("1") == "1" by {
      assert Lower("1")[0] == LowerChar('1');
    }
    WordHead("1", tail, toks);
  }

  predicate NotWordChar(c: char) { !IsWordChar(c) }

  /** A leading run of non-word characters is copied. */
  lemma {:induction false} NonWordPrefix(p: string, rest: string, toks: set<string>)
    requires AllChars(p, NotWordChar)
    ensures HighlightSet(p + rest, toks) == p + HighlightSet(rest, toks)
    decreases |p|
  {
    if p != [] {
      AllCharsAt(p, NotWordChar, 0);
      AllCharsSlice(p, NotWordChar, 1, |p|);
      NonWordPrefix(p[1..], rest, toks);
      ConsConcat(p, rest);
      NonWordHead(p[0], p[1..] + rest, toks);
    } else {
      assert p + rest == rest;
    }
  }

  /** The marker is the digit between two runs of non-word characters. */
  lemma MarkSplit(rest: string)
    ensures MARK + rest == "**\\" + ("1" + ("**" + rest))
    ensures AllChars("**\\", NotWordChar) && AllChars("**", NotWordChar)
  {
  }

  /** The marker survives a later pass whose tokens do not include "1". */
  lemma MarkHead(rest: string, toks: set<string>)
    requires "1" !in toks && (rest == [] || !IsWordChar(rest[0]))
    ensures HighlightSet(MARK + rest, toks) == MARK + HighlightSet(rest, toks)
  {
    MarkSplit(rest);
    MarkSplit(HighlightSet(rest, toks));
    var t := "**" + rest;
    NonWordPrefix("**", rest, toks);
    OneHead(t, toks);
    NonWordPrefix("**\\", "1" + t, toks);
  }

  /** The highlighted text begins with a non-word character when the text does. */
  lemma HighlightHead(s: string, toks: set<string>)
    requires s == [] || !IsWordChar(s[0])
    ensures HighlightSet(s, toks) == [] || !IsWordChar(HighlightSet(s, toks)[0])
  {
  }

  /** Two passes are one pass with both token sets: the marker of the first pass is left
      alone by the second, and every other word is still a whole word. */
  lemma {:induction false} HighlightTwice(s: string, first: set<string>, second: set<string>)
    requires "1" !in second
    ensures HighlightSet(HighlightSet(s, first), second) == HighlightSet(s, first + second)
    decreases |s|
  {
    if s == [] {
    } else if !IsWordChar(s[0]) {
      HighlightTwice(s[1..], first, second);
      NonWordHead(s[0], HighlightSet(s[1..], first), second);
    } else {
      var w := TakeWhile(s, IsWordChar);
      var rest := s[|w|..];
      var y := HighlightSet(rest, first);
      HighlightTwice(rest, first, second);
      HighlightHead(rest, first);
      if Lower(w) in first {
        MarkHead(y, second);
      } else {
        WordHead(w, y, second);
      }
    }
  }

  lemma LowerFees()
    ensures Lower("Fees") == "fees"
  {
  }

  lemma AllWordFees()
    ensures AllChars("Fees", IsWordChar)
  {
  }

  /** The case-insensitive whole-word match: a token found in the answer with its first
      letter in capitals is replaced as well, the characters after it are kept. */
  lemma HighlightCapital(rest: string)
    requires rest == [] || !IsWordChar(rest[0])
    ensures HighlightSet("Fees" + rest, {"fees"}) == MARK + HighlightSet(rest, {"fees"})
  {
    AllWordFees();
    WordHead("Fees", rest, {"fees"});
    LowerFees();
  }

  lemma PaymentWord()
    ensures AllChars("payment", IsWordChar) && Lower("payment") == "payment"
  {
  }

  /** A word containing a token is not a match: "payment" is left alone for "pay". */
  lemma HighlightWholeWords()
    ensures HighlightSet("payment", {"pay"}) == "payment"
  {
    PaymentWord();
    WordHead("payment", [], {"pay"});
    assert "payment" + [] == "payment";
  }

  // ---------------------------------------------------------------- ask

  /** The general path (lines 119-234) for the retrieved chunks `docs`: the chunk-level
      fallback when no sentence scores, else the highlighted composition of the kept
      clauses, their citations and the confidence of the top sentences. */
  function GeneralAnswer(chain: Chain, template: (string, string) -> string, question: string): (r: Answer)
    ensures var docs := chain.vs.retrieve(question);
      var top := TopSentences(QueryTokens(question), CandidatePool(chain.vs, docs));
      && (top == [] ==> r == FallbackAnswer(chain.llm, template, question, docs))
      && (top != [] ==> r.confidence == Some(Confidence(top)) && r.citations == MapSeq(Kept(top), SentenceCitation))
  {
    var docs := chain.vs.retrieve(question);
    var tokens := QueryTokens(question);
    var top := TopSentences(tokens, CandidatePool(chain.vs, docs));
    if top == [] then FallbackAnswer(chain.llm, template, question, docs)
    else
      var kept := Kept(top);
      var answer := Compose(Ordered(MapSeq(kept, ClauseOf)));
      Answer(HighlightSet(answer, Highlighted(tokens)), MapSeq(kept, SentenceCitation), Some(Confidence(top)))
  }

  /** The definition hits of the fast path, when there is a definition question and the store
      has a docstore (lines 38-74). */
  function DefinitionHits(chain: Chain, question: string): seq<Scored> {
    match DefinitionTarget(question)
    case None => []
    case Some(t) => if chain.vs.docstore.Some? then AllHits(TargetTokens(t), chain.vs.docstore.value) else []
  }

  /** `QAChain.ask`: the fast-path answer for the best definition hit when there is one,
      else the general answer. `template` is the RAG prompt template, `trims` the three
      clean-up substitutions of lines 87-91. */
  function AskSpec(chain: Chain, template: (string, string) -> string, trims: seq<string -> string>, question: string): Answer {
    var hits := DefinitionHits(chain, question);
    if hits != [] then DefinitionAnswer(chain.llm, trims, DefinitionTarget(question).value, SortBy(hits, ScoreLe)[0])
    else GeneralAnswer(chain, template, question)
  }

  /** The hit collection of the fast path (lines 52-74). */
  method FindDefinitionHits(chain: Chain, question: string) returns (hits: seq<Scored>)
    ensures hits == DefinitionHits(chain, question)
  {
    hits := [];
    var target := DefinitionTarget(question);
    if target.Some? && chain.vs.docstore.Some? {
      hits := CollectHits(TargetTokens(target.value), chain.vs.docstore.value);
    }
  }

  /** The general path (lines 119-234), step by step. */
  method AnswerGeneral(chain: Chain, template: (string, string) -> string, question: string) returns (r: Answer)
    ensures r == GeneralAnswer(chain, template, question)
  {
    var docs := chain.vs.retrieve(question);
    var tokens := QueryTokens(question);
    var candidates := CollectSentences(docs);
    if |candidates| < 5 && chain.vs.docstore.Some? {
      candidates := CollectSentences(chain.vs.docstore.value);
    }
    var top := TopSentences(tokens, candidates);
    if top == [] {
      var blocks, citations := FallbackBlocks(docs);
      var raw := Strip(Generate(chain.llm, template(Join("\n\n", blocks), question)));
      r := Answer(GroundedReply(raw), citations, None);
      return;
    }
    var used, citations := SelectSentences(top);
    var answer := Compose(Ordered(used));
    var conf := Confidence(top);
    var hl := Highlight(answer, tokens);
    r := Answer(hl, citations, Some(conf));
  }

  /** `QAChain.ask`, step by step. */
  method Ask(chain: Chain, template: (string, string) -> string, trims: seq<string -> string>, question: string)
    returns (r: Answer)
    ensures r == AskSpec(chain, template, trims, question)
  {
    var hits := FindDefinitionHits(chain, question);
    if hits != [] {
      var sorted := SortBy(hits, ScoreLe);
      r := DefinitionAnswer(chain.llm, trims, DefinitionTarget(question).value, sorted[0]);
    } else {
      r := AnswerGeneral(chain, template, question);
    }
  }

  /** Hits exist only for a definition question over a store with a docstore. */
  lemma DefinitionHitsNeedTarget(chain: Chain, question: string)
    requires DefinitionHits(chain, question) != []
    ensures DefinitionTarget(question).Some? && chain.vs.docstore.Some?
  {
  }

  /** The first hit after sorting is a hit and none ranks before it. */
  lemma BestHit(hits: seq<Scored>)
    requires hits != []
    ensures var best := SortBy(hits, ScoreLe)[0];
      best in hits && forall h :: h in hits ==> ScoreLe(best, h)
  {
    var j := TopHitIsFirstBest(hits);
    forall h | h in hits ensures ScoreLe(hits[j], h) {
      var k :| 0 <= k < |hits| && hits[k] == h;
    }
  }

  /** A definition question answered from the docstore is answered from the best hit: one
      citation, that hit's sentence, and no confidence; no hit ranks before it. */
  lemma FastPathAnswer(chain: Chain, template: (string, string) -> string, trims: seq<string -> string>, question: string)
    requires DefinitionHits(chain, question) != []
    ensures var r := AskSpec(chain, template, trims, question);
      var best := SortBy(DefinitionHits(chain, question), ScoreLe)[0];
      && r == DefinitionAnswer(chain.llm, trims, DefinitionTarget(question).value, best)
      && r.confidence.None? && r.citations == [Citation(best.page, Take(best.sent, 300))]
      && best in DefinitionHits(chain, question)
      && forall h :: h in DefinitionHits(chain, question) ==> ScoreLe(best, h)
  {
    BestHit(DefinitionHits(chain, question));
  }

  /** When no sentence scores and the client is the stub, the answer is the fixed message,
      with one citation per retrieved chunk. */
  lemma StubNoMatch(chain: Chain, template: (string, string) -> string, trims: seq<string -> string>, question: string)
    requires DefinitionHits(chain, question) == [] && IsStub(chain.llm)
    requires TopSentences(QueryTokens(question), CandidatePool(chain.vs, chain.vs.retrieve(question))) == []
    ensures var r := AskSpec(chain, template, trims, question);
      r.answer == NO_MATCH && r.confidence.None? && |r.citations| == |chain.vs.retrieve(question)|
  {
    StubFallback(chain.llm, template, question, chain.vs.retrieve(question));
  }

  /** On the general path with scoring sentences the confidence is in (0, 100], there are
      between one and five citations, one per distinct first clause, and the first cites
      the best sentence. */
  lemma GeneralAnswerShape(chain: Chain, template: (string, string) -> string, question: string)
    requires TopSentences(QueryTokens(question), CandidatePool(chain.vs, chain.vs.retrieve(question))) != []
    ensures var r := GeneralAnswer(chain, template, question);
      var top := TopSentences(QueryTokens(question), CandidatePool(chain.vs, chain.vs.retrieve(question)));
      && r.confidence.Some? && 0.0 < r.confidence.value <= 100.0
      && 1 <= |r.citations| <= 5
      && r.citations[0] == SentenceCitation(top[0])
  {
    var tokens := QueryTokens(question);
    var cands := CandidatePool(chain.vs, chain.vs.retrieve(question));
    var top := TopSentences(tokens, cands);
    TopSentencesProps(tokens, cands);
    forall i | 0 <= i < |top| ensures top[i].score > 0 {
      TopSentencesScored(tokens, cands, top[i]);
    }
    ConfidenceRange(top);
    KeptProps(top);
  }
}
