/** `extract_clauses` of src/analysis/clauses.py. With the stub language model the clauses are
    found by keyword scoring (a strict pass, then a relaxed one when the strict pass finds
    nothing); otherwise the model's reply is parsed line by line. Both feed a shared
    deduplicate / merge / sort tail. */
module Clauses {
  import opened Wrappers
  import opened Text
  import opened Seqs
  import opened Sorting
  import opened Types
  import opened Fallback
  import opened LinePattern

  const TARGET_CLAUSES: seq<string> := [
    "Term/Duration", "Termination", "Payment", "Late fees/penalties", "Confidentiality",
    "IP ownership", "Liability", "Indemnity", "Arbitration/Jurisdiction", "Auto-renewal",
    "Unusual obligations"]

  /** `IMPORTANCE_RULES.get(t)`. */
  function ImportanceRule(t: string): Option<string> {
    if t == "Indemnity" || t == "Liability" then Some("High")
    else if t == "Auto-renewal" || t == "Late fees/penalties" then Some("Medium")
    else None
  }

  /** `IMPORTANCE_RULES.get(t, "Low")`. */
  function DefaultImportance(t: string): string {
    ImportanceRule(t).GetOr("Low")
  }

  // ---------------------------------------------------------------- keyword scoring

  /** A keyword of the heuristic table: one phrase, or a tuple whose parts must all occur. */
  datatype Keyword = Phrase(text: string) | AllOf(parts: seq<string>)

  /** `KEYWORDS`, in its dictionary order. */
  const KEYWORDS: seq<(string, seq<Keyword>)> := [
    ("Term/Duration", [Phrase("term"), Phrase("duration"), Phrase("renew"), Phrase("renewal"),
      Phrase("expiration"), Phrase("expiry"), Phrase("initial subscription term"), Phrase("renewal period")]),
    ("Termination", [Phrase("terminate"), Phrase("termination"), Phrase("expire"),
      Phrase("early termination"), Phrase("notice period")]),
    ("Payment", [Phrase("payment"), Phrase("fee"), Phrase("fees"), Phrase("charge"), Phrase("charges"),
      Phrase("invoice"), Phrase("billing"), Phrase("payable")]),
    ("Late fees/penalties", [AllOf(["late", "fee"]), AllOf(["late", "payment"]),
      AllOf(["overdue", "interest"]), Phrase("penalt"), Phrase("liquidated damages")]),
    ("Confidentiality", [Phrase("confidential"), Phrase("non-disclosure"), Phrase("confidential information")]),
    ("IP ownership", [Phrase("intellectual property"), Phrase("ip rights"), Phrase("ownership"),
      Phrase("retain ownership"), Phrase("license"), Phrase("licence")]),
    ("Liability", [Phrase("liability"), Phrase("liable"), Phrase("limitation of liability"),
      Phrase("limit liability"), Phrase("liability cap")]),
    ("Indemnity", [Phrase("indemnify"), Phrase("indemnification"), Phrase("hold harmless")]),
    ("Arbitration/Jurisdiction", [Phrase("jurisdiction"), Phrase("governing law"), Phrase("arbitration"),
      Phrase("venue"), Phrase("court")]),
    ("Auto-renewal", [Phrase("auto-renew"), Phrase("automatic renewal")]),
    ("Unusual obligations", [Phrase("sole discretion"), Phrase("audit rights"), Phrase("beta services"),
      Phrase("unlimited liability"), Phrase("exclusive remedy")])]

  /** The categories a keyword table names, in its order. */
  function Categories(table: seq<(string, seq<Keyword>)>): (r: seq<string>)
    ensures |r| == |table| && forall i :: 0 <= i < |table| ==> r[i] == table[i].0
  {
    seq(|table|, i requires 0 <= i < |table| => table[i].0)
  }

  /** The keyword table and the target list name the same categories in the same order. */
  lemma KeywordTableCoversTargets()
    ensures Categories(KEYWORDS) == TARGET_CLAUSES
  {
  }

  /** `KEYWORDS[t]`, or no keywords for a category outside the table. */
  function KeywordsOf(t: string): seq<Keyword> {
    KeywordsIn(KEYWORDS, t)
  }

  function KeywordsIn(table: seq<(string, seq<Keyword>)>, t: string): seq<Keyword> {
    if table == [] then [] else if table[0].0 == t then table[0].1 else KeywordsIn(table[1..], t)
  }

  /** A keyword is present in the lowercased sentence. */
  predicate Matches(kw: Keyword, low: string) {
    match kw
    case Phrase(p) => Contains(low, p)
    case AllOf(ps) => forall i :: 0 <= i < |ps| ==> Contains(low, ps[i])
  }

  /** The score loop of `score_sentence` over a keyword list: +2 per phrase hit, +3 per tuple
      whose parts all occur. */
  function ScoreWith(kws: seq<Keyword>, low: string): nat {
    if kws == [] then 0
    else
      var kw := kws[|kws| - 1];
      ScoreWith(kws[..|kws| - 1], low) + (if !Matches(kw, low) then 0 else if kw.Phrase? then 2 else 3)
  }

  /** `score_sentence(t, sent)`. */
  function Score(t: string, sent: string): nat {
    ScoreWith(KeywordsOf(t), Lower(sent))
  }

  function PhraseHits(kws: seq<Keyword>, low: string): seq<Keyword> {
    Filter(kws, (k: Keyword) => k.Phrase? && Matches(k, low))
  }

  function TupleHits(kws: seq<Keyword>, low: string): seq<Keyword> {
    Filter(kws, (k: Keyword) => k.AllOf? && Matches(k, low))
  }

  /** The score is twice the number of phrases found plus three times the number of tuples
      found. */
  lemma {:induction false} ScoreCounts(kws: seq<Keyword>, low: string)
    ensures ScoreWith(kws, low) == 2 * |PhraseHits(kws, low)| + 3 * |TupleHits(kws, low)|
    decreases |kws|
  {
    if kws != [] {
      ScoreCounts(kws[..|kws| - 1], low);
    }
  }

  /** The strict threshold `score >= 3` holds iff two phrases or one tuple are found. */
  lemma ScoreThreshold(kws: seq<Keyword>, low: string)
    ensures ScoreWith(kws, low) >= 3 <==> |PhraseHits(kws, low)| >= 2 || |TupleHits(kws, low)| >= 1
  {
    ScoreCounts(kws, low);
  }

  /** The relaxed loop's hit counter over a keyword list. */
  function HitCount(kws: seq<Keyword>, low: string): nat {
    if kws == [] then 0
    else HitCount(kws[..|kws| - 1], low) + (if Matches(kws[|kws| - 1], low) then 1 else 0)
  }

  /** A relaxed hit is exactly a positive strict score. */
  lemma {:induction false} HitsIffScore(kws: seq<Keyword>, low: string)
    ensures HitCount(kws, low) >= 1 <==> ScoreWith(kws, low) > 0
    ensures HitCount(kws, low) >= 1 <==> exists i :: 0 <= i < |kws| && Matches(kws[i], low)
    decreases |kws|
  {
    if kws != [] {
      var init := kws[..|kws| - 1];
      HitsIffScore(init, low);
      assert forall i :: 0 <= i < |init| ==> init[i] == kws[i];
      if Matches(kws[|kws| - 1], low) {
        assert Matches(kws[|kws| - 1], low);
      } else {
        assert forall i :: 0 <= i < |kws| && Matches(kws[i], low) ==> i < |init|;
      }
    }
  }

  // ---------------------------------------------------------------- strict pass

  /** The class `[A-Za-z0-9\s]` of the definition-noise pattern. */
  predicate InHeadingClass(c: char) { IsAsciiLetter(c) || IsDigit(c) || IsSpace(c) }

  /** The alternation `(means|the)`, which the pattern requires right after the spaces. */
  predicate DefinitionWord(rest: string) {
    StartsWith(rest, "means") || StartsWith(rest, "the")
  }

  /** `^[A-Z][cls]{0,40}:[sp]*(means|the)` matches at the start of `s`, read the way the
      greedy repetitions take characters: `cls` as far as it goes, then `sp` as far as it goes. */
  predicate NoisePattern(s: string, cls: char -> bool, sp: char -> bool) {
    && s != [] && 'A' <= s[0] <= 'Z'
    && var m := |TakeWhile(s[1..], cls)|;
    && m <= 40 && 1 + m < |s| && s[1 + m] == ':'
    && DefinitionWord(LStripBy(s[2 + m..], sp))
  }

  /** `^[A-Z][A-Za-z0-9\s]{0,40}:\s*(means|the)` matches at the start of `s`. */
  predicate DefinitionNoise(s: string) {
    NoisePattern(s, InHeadingClass, IsSpace)
  }

  /** The pattern matches with the class repeated `m` times and the spaces taking `w`
      characters. */
  predicate NoiseAt(s: string, m: int, w: int, cls: char -> bool, sp: char -> bool) {
    && 0 <= m <= 40 && 0 <= w && 2 + m + w <= |s|
    && 'A' <= s[0] <= 'Z'
    && AllChars(s[1..][..m], cls)
    && s[1 + m] == ':'
    && AllChars(s[2 + m..][..w], sp)
    && DefinitionWord(s[2 + m..][w..])
  }

  /** The regular expression read as a search over its two repetitions. */
  ghost predicate DefinitionNoiseSpec(s: string) {
    exists m, w :: NoiseAt(s, m, w, InHeadingClass, IsSpace)
  }

  lemma DefinitionNoiseMatchesPattern(s: string)
    ensures DefinitionNoise(s) <==> DefinitionNoiseSpec(s)
  {
    if DefinitionNoise(s) {
      NoiseFound(s, InHeadingClass, IsSpace);
    }
    if DefinitionNoiseSpec(s) {
      var m, w :| NoiseAt(s, m, w, InHeadingClass, IsSpace);
      assert !InHeadingClass(':') && !IsSpace('m') && !IsSpace('t');
      NoiseForced(s, m, w, InHeadingClass, IsSpace);
    }
  }

  lemma NoiseFound(s: string, cls: char -> bool, sp: char -> bool)
    requires NoisePattern(s, cls, sp)
    ensures exists m, w :: NoiseAt(s, m, w, cls, sp)
  {
    var m := |TakeWhile(s[1..], cls)|;
    var u := s[2 + m..];
    var w := |u| - |LStripBy(u, sp)|;
    assert NoiseAt(s, m, w, cls, sp);
  }

  lemma NoiseForced(s: string, m: int, w: int, cls: char -> bool, sp: char -> bool)
    requires NoiseAt(s, m, w, cls, sp)
    requires !cls(':') && !sp('m') && !sp('t')
    ensures NoisePattern(s, cls, sp)
  {
    TakeWhileExact(s[1..], cls, m);
    var u := s[2 + m..];
    assert u[w..][0] == 'm' || u[w..][0] == 't';
    LStripByExact(u, sp, w);
  }

  /** A strict-pass hit: a category, the chunk's page, the score and the stripped sentence. */
  datatype Candidate = Candidate(clauseType: string, page: int, score: nat, sentence: string)

  const REPLACEMENT_CHAR: char := '�'

  /** The categories of `types` scoring at least 3 on a sentence, in order. */
  function TypeCandidates(page: int, s: string, types: seq<string>): seq<Candidate> {
    if types == [] then []
    else
      var t := types[|types| - 1];
      TypeCandidates(page, s, types[..|types| - 1])
        + (if Score(t, s) >= 3 then [Candidate(t, page, Score(t, s), s)] else [])
  }

  /** The length and noise filters on a stripped sentence. */
  predicate StrictSentence(s: string) {
    30 <= |s| <= 450 && !DefinitionNoise(s)
  }

  function SentenceCandidates(page: int, sents: seq<string>): seq<Candidate> {
    if sents == [] then []
    else
      var s := Strip(sents[|sents| - 1]);
      SentenceCandidates(page, sents[..|sents| - 1])
        + (if StrictSentence(s) then TypeCandidates(page, s, TARGET_CLAUSES) else [])
  }

  /** A chunk takes part unless it holds more than five replacement characters. */
  predicate Readable(ch: Chunk) {
    multiset(ch.content)[REPLACEMENT_CHAR] <= 5
  }

  function ChunkCandidates(ch: Chunk): seq<Candidate> {
    if Readable(ch) then SentenceCandidates(ch.page, SentencesAndLines(ch.content)) else []
  }

  /** Every strict-pass hit, in the order the loops find them. */
  function Candidates(chunks: seq<Chunk>): seq<Candidate> {
    if chunks == [] then []
    else Candidates(chunks[..|chunks| - 1]) + ChunkCandidates(chunks[|chunks| - 1])
  }

  /** How a sentence becomes candidates: once per category of `types` scoring at least 3. */
  lemma {:induction false} TypeCandidatesIff(page: int, s: string, types: seq<string>, c: Candidate)
    ensures c in TypeCandidates(page, s, types) <==>
      c.clauseType in types && c.page == page && c.sentence == s
      && c.score == Score(c.clauseType, s) && c.score >= 3
    decreases |types|
  {
    if types != [] {
      var init := types[..|types| - 1];
      TypeCandidatesIff(page, s, init, c);
      assert types == init + [types[|types| - 1]];
    }
  }

  lemma {:induction false} SentenceCandidatesSound(page: int, sents: seq<string>, c: Candidate)
    requires c in SentenceCandidates(page, sents)
    ensures c.page == page && StrictSentence(c.sentence) && c.clauseType in TARGET_CLAUSES
    ensures c.score == Score(c.clauseType, c.sentence) >= 3
    ensures exists i :: 0 <= i < |sents| && c.sentence == Strip(sents[i])
    decreases |sents|
  {
    var init := sents[..|sents| - 1];
    var s := Strip(sents[|sents| - 1]);
    if c in SentenceCandidates(page, init) {
      SentenceCandidatesSound(page, init, c);
      var i :| 0 <= i < |init| && c.sentence == Strip(init[i]);
      TakeIndex(sents, |sents| - 1, i);
    } else {
      TypeCandidatesIff(page, s, TARGET_CLAUSES, c);
    }
  }

  /** `c` was found in a stripped sentence or line of the readable chunk `ch`. */
  predicate FromChunk(c: Candidate, ch: Chunk) {
    Readable(ch) && c.page == ch.page
    && exists i :: 0 <= i < |SentencesAndLines(ch.content)| && c.sentence == Strip(SentencesAndLines(ch.content)[i])
  }

  lemma ChunkCandidatesSound(ch: Chunk, c: Candidate)
    requires c in ChunkCandidates(ch)
    ensures FromChunk(c, ch) && StrictSentence(c.sentence) && c.clauseType in TARGET_CLAUSES
    ensures c.score == Score(c.clauseType, c.sentence) >= 3
  {
    SentenceCandidatesSound(ch.page, SentencesAndLines(ch.content), c);
  }

  /** Every strict-pass candidate comes from a readable chunk, is a stripped sentence of it of
      length 30 to 450 that is not definition noise, and scores at least 3 in its category. */
  lemma {:induction false} CandidatesSound(chunks: seq<Chunk>, c: Candidate)
    requires c in Candidates(chunks)
    ensures exists j :: 0 <= j < |chunks| && FromChunk(c, chunks[j])
    ensures StrictSentence(c.sentence) && c.clauseType in TARGET_CLAUSES
    ensures c.score == Score(c.clauseType, c.sentence) >= 3
    decreases |chunks|
  {
    var init := chunks[..|chunks| - 1];
    var last := chunks[|chunks| - 1];
    assert Candidates(chunks) == Candidates(init) + ChunkCandidates(last);
    if c in Candidates(init) {
      CandidatesSound(init, c);
      var j :| 0 <= j < |init| && FromChunk(c, init[j]);
      TakeIndex(chunks, |chunks| - 1, j);
    } else {
      ChunkCandidatesSound(last, c);
      assert FromChunk(c, chunks[|chunks| - 1]);
    }
  }

  // ---------------------------------------------------------------- grouping and reduction

  /** A `(score, sentence)` entry of a `best` list. */
  datatype Scored = Scored(score: nat, sentence: string)

  /** The `best` dictionary after the candidates have been appended in order. */
  function GroupMap(cands: seq<Candidate>): map<(string, int), seq<Scored>> {
    if cands == [] then map[]
    else
      var m := GroupMap(cands[..|cands| - 1]);
      var c := cands[|cands| - 1];
      var k := (c.clauseType, c.page);
      m[k := (if k in m then m[k] else []) + [Scored(c.score, c.sentence)]]
  }

  /** The keys of `best` in insertion order. */
  function GroupKeys(cands: seq<Candidate>): seq<(string, int)> {
    if cands == [] then []
    else
      var ks := GroupKeys(cands[..|cands| - 1]);
      var c := cands[|cands| - 1];
      if (c.clauseType, c.page) in ks then ks else ks + [(c.clauseType, c.page)]
  }

  /** Selects the candidates of one (type, page) group. */
  function AtKey(k: (string, int)): Candidate -> bool {
    (c: Candidate) => (c.clauseType, c.page) == k
  }

  /** `best` holds one list per (type, page), listing that group's entries in the order they
      were found; its keys are recorded once each, in insertion order. */
  lemma {:induction false} GroupShape(cands: seq<Candidate>)
    ensures forall k :: k in GroupMap(cands) <==> k in GroupKeys(cands)
    ensures forall i, j :: 0 <= i < j < |GroupKeys(cands)| ==> GroupKeys(cands)[i] != GroupKeys(cands)[j]
    ensures forall k :: Entries(Filter(cands, AtKey(k))) == if k in GroupMap(cands) then GroupMap(cands)[k] else []
    decreases |cands|
  {
    if cands != [] {
      var init := cands[..|cands| - 1];
      GroupShape(init);
      var c := cands[|cands| - 1];
      var k0 := (c.clauseType, c.page);
      forall k ensures Entries(Filter(cands, AtKey(k))) == if k in GroupMap(cands) then GroupMap(cands)[k] else [] {
        assert Filter(cands, AtKey(k)) == Filter(init, AtKey(k)) + (if AtKey(k)(c) then [c] else []);
        if k == k0 {
          EntriesAppend(Filter(init, AtKey(k)), [c]);
        }
      }
    }
  }

  /** The entries a list of candidates puts in `best`. */
  function Entries(cands: seq<Candidate>): seq<Scored> {
    seq(|cands|, i requires 0 <= i < |cands| => Scored(cands[i].score, cands[i].sentence))
  }

  lemma EntriesAppend(a: seq<Candidate>, b: seq<Candidate>)
    ensures Entries(a + b) == Entries(a) + Entries(b)
  {
  }

  /** `key=lambda x: (-x[0], len(x[1]))`: higher score first, then shorter sentence. */
  predicate ScoredLe(a: Scored, b: Scored) {
    a.score > b.score || (a.score == b.score && |a.sentence| <= |b.sentence|)
  }

  lemma ScoredLeTotalPreorder()
    ensures TotalPreorder(ScoredLe)
  {
  }

  /** `lst[:2]` after `lst.sort(...)`. */
  function TopTwo(lst: seq<Scored>): seq<Scored> {
    Take(SortBy(lst, ScoredLe), 2)
  }

  /** The two kept entries of a group are its best by score, then by length. */
  lemma TopTwoBest(lst: seq<Scored>)
    ensures |TopTwo(lst)| <= 2 && multiset(TopTwo(lst)) <= multiset(lst)
    ensures forall x :: x in TopTwo(lst) ==> x in lst
    ensures forall i, j :: 0 <= i < |TopTwo(lst)| && 2 <= j < |lst| ==> ScoredLe(TopTwo(lst)[i], SortBy(lst, ScoredLe)[j])
    ensures |lst| >= 2 ==> |TopTwo(lst)| == 2
  {
    var sorted := SortBy(lst, ScoredLe);
    ScoredLeTotalPreorder();
    SortBySorted(lst, ScoredLe);
    PrefixMultiset(sorted, |TopTwo(lst)|);
    forall x | x in TopTwo(lst) ensures x in lst {
      assert x in multiset(TopTwo(lst));
      assert x in multiset(lst);
    }
  }

  lemma PrefixMultiset<T>(s: seq<T>, n: nat)
    requires n <= |s|
    ensures multiset(s[..n]) <= multiset(s)
  {
    assert s == s[..n] + s[n..];
  }

  /** The importance of a strict-pass result: the table's, raised to High for Indemnity and
      Liability scoring at least 5, else to Medium from Low for a score of at least 6. */
  function Importance(t: string, score: int): (r: string)
    ensures r == "High" || r == "Medium" || r == "Low"
    ensures (t == "Indemnity" || t == "Liability") && score >= 5 ==> r == "High"
    ensures score < 5 ==> r == DefaultImportance(t)
    ensures score >= 6 && DefaultImportance(t) == "Low" ==> r == "Medium"
    ensures r != DefaultImportance(t) ==> score >= 6 && DefaultImportance(t) == "Low" && r == "Medium"
  {
    var base := DefaultImportance(t);
    if (t == "Indemnity" || t == "Liability") && score >= 5 then "High"
    else if score >= 6 && base == "Low" then "Medium"
    else base
  }

  /** The result built for a kept entry. */
  function StrictResult(key: (string, int), e: Scored): ClauseResult {
    var snippet := Take(e.sentence, 350);
    ClauseResult(key.0, Take(BeforeFirst(snippet, ". "), 180), snippet, key.1, Importance(key.0, e.score))
  }

  function GroupResults(key: (string, int), entries: seq<Scored>): seq<ClauseResult> {
    seq(|entries|, i requires 0 <= i < |entries| => StrictResult(key, entries[i]))
  }

  lemma GroupResultsKeyed(key: (string, int), entries: seq<Scored>)
    ensures forall i :: 0 <= i < |GroupResults(key, entries)| ==>
      (GroupResults(key, entries)[i].clauseType, GroupResults(key, entries)[i].page) == key
  {
  }

  /** The results the reduction loop makes of the group of key `k`. */
  function GroupBlock(best: map<(string, int), seq<Scored>>): ((string, int)) -> seq<ClauseResult> {
    (k: (string, int)) => if k in best then GroupResults(k, TopTwo(best[k])) else []
  }

  /** The results of the reduction loop before the `snippet_seen` check. */
  function Selected(best: map<(string, int), seq<Scored>>, keys: seq<(string, int)>): seq<ClauseResult> {
    Blocks(keys, GroupBlock(best))
  }

  /** The string the source hashes into `snippet_seen`: `clause_type + str(page) +
      snippet.lower()`, with no separator between the parts. md5 is treated as injective, so
      the string itself stands for its digest. */
  function StrictKeyAsWritten(r: ClauseResult): string {
    r.clauseType + IntToString(r.page) + Lower(r.snippet)
  }

  /** The key the hash is meant to identify: the category, the page and the lowercased
      snippet, kept apart. */
  function StrictKey(r: ClauseResult): (string, int, string) {
    (r.clauseType, r.page, Lower(r.snippet))
  }

  /** Two results share the corrected key exactly when they agree on category, page and
      lowercased snippet. */
  lemma StrictKeyIdentifies(a: ClauseResult, b: ClauseResult)
    ensures StrictKey(a) == StrictKey(b) <==>
      a.clauseType == b.clauseType && a.page == b.page && Lower(a.snippet) == Lower(b.snippet)
  {
  }

  /** The strict pass's results. */
  function StrictResults(chunks: seq<Chunk>): seq<ClauseResult> {
    var cands := Candidates(chunks);
    DedupeBy(Selected(GroupMap(cands), GroupKeys(cands)), StrictKey)
  }

  lemma SelectedPerKey(best: map<(string, int), seq<Scored>>, keys: seq<(string, int)>, k: (string, int))
    requires forall i, j :: 0 <= i < j < |keys| ==> keys[i] != keys[j]
    ensures Filter(Selected(best, keys), (r: ClauseResult) => (r.clauseType, r.page) == k)
      == if k in keys && k in best then GroupResults(k, TopTwo(best[k])) else []
  {
    var p := (r: ClauseResult) => (r.clauseType, r.page) == k;
    forall j, v | 0 <= j < |keys| && v in GroupBlock(best)(keys[j]) ensures p(v) <==> keys[j] == k {
      if keys[j] in best {
        GroupResultsKeyed(keys[j], TopTwo(best[keys[j]]));
      }
    }
    BlocksFilter(keys, GroupBlock(best), p, k);
  }

  /** The strict pass emits at most two results per (type, page), with snippets of at most 350
      characters. */
  lemma StrictAtMostTwo(chunks: seq<Chunk>, k: (string, int))
    ensures |Filter(StrictResults(chunks), (r: ClauseResult) => (r.clauseType, r.page) == k)| <= 2
    ensures forall r :: r in StrictResults(chunks) ==> |r.snippet| <= 350
  {
    var cands := Candidates(chunks);
    var sel := Selected(GroupMap(cands), GroupKeys(cands));
    var p := (r: ClauseResult) => (r.clauseType, r.page) == k;
    GroupShape(cands);
    SelectedPerKey(GroupMap(cands), GroupKeys(cands), k);
    if k in GroupMap(cands) {
      TopTwoBest(GroupMap(cands)[k]);
    }
    DedupeByProperties(sel, StrictKey);
    SubseqFilter(DedupeBy(sel, StrictKey), sel, p);
    SubseqMembers(DedupeBy(sel, StrictKey), sel);
    SelectedSnippets(GroupMap(cands), GroupKeys(cands));
  }

  lemma {:induction false} SelectedSnippets(best: map<(string, int), seq<Scored>>, keys: seq<(string, int)>)
    ensures forall r :: r in Selected(best, keys) ==> |r.snippet| <= 350
    decreases |keys|
  {
    if keys != [] {
      SelectedSnippets(best, keys[..|keys| - 1]);
    }
  }

  /** Because the hashed string has no separators, results on different pages can share it:
      a snippet `"2" + x` on page 1 and the snippet `x` on page 12 of the same category give
      the same string, although their corrected keys differ. */
  lemma StrictKeyCollision(t: string, x: string, imp: string)
    ensures var a := ClauseResult(t, "", "2" + x, 1, imp);
      var b := ClauseResult(t, "", x, 12, imp);
      a.page != b.page && StrictKeyAsWritten(a) == StrictKeyAsWritten(b) && StrictKey(a) != StrictKey(b)
  {
    assert IntToString(1) == "1" && IntToString(12) == "12";
    LowerConcat("2", x);
    assert Lower("2") == "2";
    assert t + "1" + ("2" + Lower(x)) == t + "12" + Lower(x);
  }

  /** The results of the reduction loop before the `snippet_seen` check, for the strict pass. */
  function StrictSelected(chunks: seq<Chunk>): seq<ClauseResult> {
    var cands := Candidates(chunks);
    Selected(GroupMap(cands), GroupKeys(cands))
  }

  /** With the corrected key only true repeats are dropped: the results have pairwise distinct
      keys, every key of a selected result survives, and each selected result that is the first
      of its key is kept, in the selection's order. */
  lemma StrictResultsDropOnlyRepeats(chunks: seq<Chunk>)
    ensures DistinctKeys(StrictResults(chunks), StrictKey)
    ensures KeysOf(StrictResults(chunks), StrictKey) == KeysOf(StrictSelected(chunks), StrictKey)
    ensures Subseq(StrictResults(chunks), StrictSelected(chunks))
    ensures var sel := StrictSelected(chunks);
      forall i :: 0 <= i < |sel| && (forall j :: 0 <= j < i ==> StrictKey(sel[j]) != StrictKey(sel[i]))
        ==> sel[i] in StrictResults(chunks)
  {
    var sel := StrictSelected(chunks);
    assert StrictResults(chunks) == DedupeBy(sel, StrictKey);
    DedupeByProperties(sel, StrictKey);
    forall i | 0 <= i < |sel| && (forall j :: 0 <= j < i ==> StrictKey(sel[j]) != StrictKey(sel[i]))
      ensures sel[i] in DedupeBy(sel, StrictKey)
    {
      DedupeByFirst(sel, StrictKey, i);
    }
  }

  /** What the strict pass yields as the source writes it, with the separator-free key: a
      subsequence of the corrected results, with pairwise distinct hashed strings. */
  function StrictResultsAsWritten(chunks: seq<Chunk>): (r: seq<ClauseResult>)
    ensures Subseq(r, StrictResults(chunks))
    ensures DistinctKeys(r, StrictKeyAsWritten)
  {
    var sel := StrictSelected(chunks);
    DedupeCoarserSubseq(sel, StrictKey, StrictKeyAsWritten);
    DedupeByProperties(sel, StrictKeyAsWritten);
    DedupeBy(sel, StrictKeyAsWritten)
  }

  /** When no two selected results share the hashed string without sharing the corrected key,
      the source's strict pass and the corrected one agree. */
  lemma StrictResultsAgree(chunks: seq<Chunk>)
    requires forall a, b ::
      (a in StrictSelected(chunks) && b in StrictSelected(chunks) && StrictKeyAsWritten(a) == StrictKeyAsWritten(b))
        ==> StrictKey(a) == StrictKey(b)
    ensures StrictResultsAsWritten(chunks) == StrictResults(chunks)
  {
    DedupeSameKeys(StrictSelected(chunks), StrictKey, StrictKeyAsWritten);
  }

  /** With the as-written key the second of the two colliding results above is lost. */
  lemma StrictKeyAsWrittenDrops(t: string, x: string, imp: string)
    ensures var a := ClauseResult(t, "", "2" + x, 1, imp);
      var b := ClauseResult(t, "", x, 12, imp);
      DedupeBy([a, b], StrictKeyAsWritten) == [a] && DedupeBy([a, b], StrictKey) == [a, b]
  {
    var a := ClauseResult(t, "", "2" + x, 1, imp);
    var b := ClauseResult(t, "", x, 12, imp);
    StrictKeyCollision(t, x, imp);
    assert [a, b][..1] == [a];
    assert [a][..0] == [];
    assert DedupeBy([a], StrictKeyAsWritten) == [a];
    assert DedupeBy([a], StrictKey) == [a];
    assert StrictKeyAsWritten(b) in KeysOf([a], StrictKeyAsWritten) by {
      assert StrictKeyAsWritten([a][0]) in KeysOf([a], StrictKeyAsWritten);
    }
    assert StrictKey(b) !in KeysOf([a], StrictKey);
  }

  // ---------------------------------------------------------------- relaxed pass

  /** The first category of the table with at least one keyword hit (the `break` of the
      relaxed loop). */
  function FirstCategory(table: seq<(string, seq<Keyword>)>, low: string): (r: Option<string>)
    ensures r.None? <==> forall i :: 0 <= i < |table| ==> HitCount(table[i].1, low) == 0
    ensures r.Some? ==> exists i :: (0 <= i < |table| && table[i].0 == r.value
      && HitCount(table[i].1, low) >= 1
      && forall j :: 0 <= j < i ==> HitCount(table[j].1, low) == 0)
  {
    if table == [] then None
    else if HitCount(table[0].1, low) >= 1 then Some(table[0].0)
    else
      var r := FirstCategory(table[1..], low);
      assert forall i :: 1 <= i < |table| ==> table[i] == table[1..][i - 1];
      if r.Some? then
        var i :| 0 <= i < |table[1..]| && table[1..][i].0 == r.value
          && HitCount(table[1..][i].1, low) >= 1
          && forall j :: 0 <= j < i ==> HitCount(table[1..][j].1, low) == 0;
        assert table[i + 1] == table[1..][i];
        assert forall j :: 0 <= j < i + 1 ==> HitCount(table[j].1, low) == 0 by {
          forall j | 0 <= j < i + 1 ensures HitCount(table[j].1, low) == 0 {
            if j > 0 { assert table[j] == table[1..][j - 1]; }
          }
        }
        r
      else r
  }

  /** The relaxed result for one stripped sentence under a keyword table, if any. */
  function RelaxedResult(table: seq<(string, seq<Keyword>)>, page: int, s: string): Option<ClauseResult> {
    if !(20 <= |s| <= 500) then None
    else
      match FirstCategory(table, Lower(s))
      case None => None
      case Some(t) => Some(ClauseResult(t, Take(BeforeFirst(s, ". "), 160), Take(s, 350), page, DefaultImportance(t)))
  }

  function RelaxedSentences(table: seq<(string, seq<Keyword>)>, page: int, sents: seq<string>): seq<ClauseResult> {
    if sents == [] then []
    else
      var r := RelaxedResult(table, page, Strip(sents[|sents| - 1]));
      RelaxedSentences(table, page, sents[..|sents| - 1]) + (if r.Some? then [r.value] else [])
  }

  /** The relaxed pass's results, in chunk and sentence order. */
  function RelaxedResults(table: seq<(string, seq<Keyword>)>, chunks: seq<Chunk>): seq<ClauseResult> {
    if chunks == [] then []
    else
      var ch := chunks[|chunks| - 1];
      RelaxedResults(table, chunks[..|chunks| - 1]) + RelaxedSentences(table, ch.page, SentencesAndLines(ch.content))
  }

  /** The relaxed pass gives a sentence a result exactly when it has the right length and some
      category has a hit; the result is the first such category, with the table's importance. */
  lemma RelaxedResultIff(table: seq<(string, seq<Keyword>)>, page: int, s: string)
    ensures RelaxedResult(table, page, s).Some? <==>
      20 <= |s| <= 500 && exists i :: 0 <= i < |table| && HitCount(table[i].1, Lower(s)) >= 1
    ensures RelaxedResult(table, page, s).Some? ==>
      var r := RelaxedResult(table, page, s).value;
      && r.page == page && r.snippet == Take(s, 350) && |r.explanation| <= 160
      && r.importance == DefaultImportance(r.clauseType)
      && exists i :: (0 <= i < |table| && table[i].0 == r.clauseType && HitCount(table[i].1, Lower(s)) >= 1
        && forall j :: 0 <= j < i ==> HitCount(table[j].1, Lower(s)) == 0)
  {
  }

  /** What a relaxed result for a sentence on `page` satisfies. */
  predicate RelaxedShaped(table: seq<(string, seq<Keyword>)>, page: int, r: ClauseResult) {
    r.page == page && |r.snippet| <= 350 && |r.explanation| <= 160
    && r.importance == DefaultImportance(r.clauseType) && r.clauseType in Categories(table)
  }

  lemma RelaxedResultShaped(table: seq<(string, seq<Keyword>)>, page: int, s: string)
    ensures RelaxedResult(table, page, s).Some? ==> RelaxedShaped(table, page, RelaxedResult(table, page, s).value)
  {
    if 20 <= |s| <= 500 {
      var c := FirstCategory(table, Lower(s));
      if c.Some? {
        var i :| 0 <= i < |table| && table[i].0 == c.value && HitCount(table[i].1, Lower(s)) >= 1
          && forall j :: 0 <= j < i ==> HitCount(table[j].1, Lower(s)) == 0;
        assert c.value == Categories(table)[i];
      }
    }
  }

  /** Each sentence contributes at most one relaxed result, on the chunk's page, with bounded
      snippet and explanation, a category of the table and that category's importance. */
  lemma {:induction false} RelaxedAtMostOnePerSentence(table: seq<(string, seq<Keyword>)>, page: int, sents: seq<string>)
    ensures |RelaxedSentences(table, page, sents)| <= |sents|
    ensures forall r :: r in RelaxedSentences(table, page, sents) ==> RelaxedShaped(table, page, r)
    decreases |sents|
  {
    if sents != [] {
      var init := sents[..|sents| - 1];
      var o := RelaxedResult(table, page, Strip(sents[|sents| - 1]));
      var a := RelaxedSentences(table, page, init);
      var b := if o.Some? then [o.value] else [];
      assert RelaxedSentences(table, page, sents) == a + b;
      RelaxedAtMostOnePerSentence(table, page, init);
      RelaxedResultShaped(table, page, Strip(sents[|sents| - 1]));
      forall r | r in a + b ensures RelaxedShaped(table, page, r) {
        if r !in a {
          assert r == o.value;
        }
      }
    }
  }

  /** The heuristic mode: the strict pass, or the relaxed pass when it found nothing. */
  function HeuristicResults(chunks: seq<Chunk>): (r: seq<ClauseResult>)
    ensures StrictResults(chunks) != [] ==> r == StrictResults(chunks)
    ensures StrictResults(chunks) == [] ==> r == RelaxedResults(KEYWORDS, chunks)
  {
    var strict := StrictResults(chunks);
    if strict != [] then strict else RelaxedResults(KEYWORDS, chunks)
  }

  // ---------------------------------------------------------------- language-model pass

  /** The tags of `CLAUSE_LINE_RE`; its groups are the type, the explanation, the snippet and
      the page digits. */
  const CLAUSE_TAGS: Tags := Tags("CLAUSE:", "|EXPLANATION:", "|SNIPPET:", "|PAGE:")

  /** Where `(\d+)$` puts the page tag: just before the digit run that ends the line. */
  function PageTagAt(line: string): int {
    |line| - |TakeWhileEnd(line, IsDigit)| - |CLAUSE_TAGS.t3|
  }

  /** `CLAUSE_LINE_RE.match(line)` and its groups. */
  function ParseClauseLine(line: string): (r: Option<Groups>)
    ensures r.Some? ==> IsDigits(r.value.tail)
  {
    if TakeWhileEnd(line, IsDigit) == [] then None else Cut(line, CLAUSE_TAGS, PageTagAt(line))
  }

  /** A match assembles back to the line, and its type and explanation are the shortest the
      pattern allows: neither holds an earlier occurrence of the tag that ends it. */
  lemma ParseClauseLineSound(line: string)
    requires ParseClauseLine(line).Some?
    ensures Assemble(CLAUSE_TAGS, ParseClauseLine(line).value) == line
    ensures var t := CLAUSE_TAGS; var g := ParseClauseLine(line).value;
      forall k :: |t.t0| <= k < |t.t0| + |g.g1| ==> !OccursAt(line, t.t1, k)
    ensures var t := CLAUSE_TAGS; var g := ParseClauseLine(line).value; var e := |t.t0| + |g.g1| + |t.t1|;
      forall k :: e <= k < e + |g.g2| ==> !OccursAt(line, t.t2, k)
  {
  }

  /** In a line of the grammar the page tag sits just before the page digits. */
  lemma PageTagOfAssembled(g: Groups)
    requires IsDigits(g.tail)
    ensures TakeWhileEnd(Assemble(CLAUSE_TAGS, g), IsDigit) == g.tail
    ensures PageTagAt(Assemble(CLAUSE_TAGS, g)) == LastTagAt(CLAUSE_TAGS, g)
  {
    AssembleTail(CLAUSE_TAGS, g);
    var h := Assemble(CLAUSE_TAGS, g.(tail := []));
    assert CLAUSE_TAGS.t3[|CLAUSE_TAGS.t3| - 1] == ':';
    TakeWhileEndSuffix(h, g.tail, IsDigit);
  }

  /** Every line of the grammar is accepted; when the type and the explanation hold no `|`,
      the groups are exactly the parts the line was built from. */
  lemma ParseClauseLineComplete(g: Groups)
    requires IsDigits(g.tail)
    ensures ParseClauseLine(Assemble(CLAUSE_TAGS, g)).Some?
    ensures '|' !in g.g1 && '|' !in g.g2 ==> ParseClauseLine(Assemble(CLAUSE_TAGS, g)) == Some(g)
  {
    PageTagOfAssembled(g);
    CutFound(CLAUSE_TAGS, g);
    if '|' !in g.g1 && '|' !in g.g2 {
      assert CLAUSE_TAGS.t1[0] == '|' && CLAUSE_TAGS.t2[0] == '|';
      CutExact(CLAUSE_TAGS, g);
    }
  }

  /** What every result read from a reply looks like: a stripped type, fields of at most 400
      characters, a non-negative page and the table's importance. */
  predicate LlmShaped(r: ClauseResult) {
    |r.explanation| <= 400 && |r.snippet| <= 400 && r.page >= 0
    && r.importance == DefaultImportance(r.clauseType) && IsStripped(r.clauseType)
  }

  /** The result built from a matched line: stripped type and fields, the explanation and
      snippet cut to 400 characters, the page's value and the table's importance. */
  function FromGroups(g: Groups): (r: ClauseResult)
    requires IsDigits(g.tail)
    ensures r.clauseType == Strip(g.g1) && r.explanation == Take(Strip(g.g2), 400) && r.snippet == Take(Strip(g.g3), 400)
    ensures r.page == DigitsValue(g.tail)
  {
    var t := Strip(g.g1);
    ClauseResult(t, Take(Strip(g.g2), 400), Take(Strip(g.g3), 400), DigitsValue(g.tail), DefaultImportance(t))
  }

  /** A result built from a matched line has the shape of every model-read result. */
  lemma FromGroupsShaped(g: Groups)
    requires IsDigits(g.tail)
    ensures LlmShaped(FromGroups(g))
  {
    var r := FromGroups(g);
    assert IsStripped(r.clauseType);
    assert |r.explanation| <= 400 && |r.snippet| <= 400;
  }

  /** The result of one reply line, when its stripped form matches. */
  function LineResult(line: string): (r: Option<ClauseResult>)
    ensures r.Some? <==> ParseClauseLine(Strip(line)).Some?
    ensures r.Some? ==> LlmShaped(r.value)
  {
    match ParseClauseLine(Strip(line))
    case None => None
    case Some(g) => FromGroupsShaped(g); Some(FromGroups(g))
  }

  /** The results read from the lines of one reply. */
  function LineResults(lines: seq<string>): (r: seq<ClauseResult>)
    ensures forall c :: c in r ==> LlmShaped(c)
  {
    if lines == [] then []
    else
      var c := LineResult(lines[|lines| - 1]);
      LineResults(lines[..|lines| - 1]) + (if c.Some? then [c.value] else [])
  }

  /** A line is kept iff its stripped form matches, and then it yields that line's result. */
  lemma LineResultsStep(lines: seq<string>, j: nat)
    requires j < |lines|
    ensures LineResults(lines[..j + 1]) == LineResults(lines[..j])
      + (if ParseClauseLine(Strip(lines[j])).Some? then [FromGroups(ParseClauseLine(Strip(lines[j])).value)] else [])
  {
    assert lines[..j + 1][..j] == lines[..j];
  }

  /** The prompt for one batch: the chunk texts joined by blank lines and the target list. */
  function BatchPrompt(template: (string, string) -> string, batch: seq<Chunk>): string {
    template(Join("\n\n", Contents(batch)), Join(", ", TARGET_CLAUSES))
  }

  function Contents(chunks: seq<Chunk>): seq<string> {
    seq(|chunks|, i requires 0 <= i < |chunks| => chunks[i].content)
  }

  /** The results read from the replies to the batches' prompts, batch after batch; `reply`
      is the client's `generate`. */
  function LlmResults(reply: string -> string, prompt: seq<Chunk> -> string, batches: seq<seq<Chunk>>): seq<ClauseResult> {
    Blocks(batches, (b: seq<Chunk>) => LineResults(SplitLines(reply(prompt(b)))))
  }

  /** The results gathered before the shared tail. */
  function RawResults(llm: LlmClient, template: (string, string) -> string, chunks: seq<Chunk>): seq<ClauseResult> {
    if IsStub(llm) then HeuristicResults(chunks)
    else LlmResults((p: string) => Generate(llm, p), (b: seq<Chunk>) => BatchPrompt(template, b), Batches(chunks, 10))
  }

  // ---------------------------------------------------------------- deduplicate, merge, sort

  /** `(clause_type, page, snippet[:60])`. */
  function DedupeKey(r: ClauseResult): (string, int, string) {
    (r.clauseType, r.page, Take(r.snippet, 60))
  }

  function MergeKey(r: ClauseResult): (string, int) {
    (r.clauseType, r.page)
  }

  /** A later result replaces the kept one only with a strictly shorter explanation that is
      not a case-insensitive substring of the kept one. */
  predicate Replaces(r: ClauseResult, cur: ClauseResult) {
    |r.explanation| < |cur.explanation| && !Contains(Lower(cur.explanation), Lower(r.explanation))
  }

  /** The position of the entry with key `k`, if any. */
  function KeyIndex(acc: seq<ClauseResult>, k: (string, int)): (r: Option<nat>)
    ensures r.Some? ==> r.value < |acc| && MergeKey(acc[r.value]) == k
    ensures r.None? ==> forall i :: 0 <= i < |acc| ==> MergeKey(acc[i]) != k
  {
    if acc == [] then None
    else if MergeKey(acc[|acc| - 1]) == k then Some(|acc| - 1)
    else KeyIndex(acc[..|acc| - 1], k)
  }

  /** One step of the merge loop on the dictionary's values in insertion order: a new key is
      appended, a known one keeps its place and takes `r` when `r` replaces it. */
  function MergeStep(acc: seq<ClauseResult>, r: ClauseResult): (m: seq<ClauseResult>)
    ensures KeyIndex(acc, MergeKey(r)).None? ==> m == acc + [r]
    ensures KeyIndex(acc, MergeKey(r)).Some? ==> |m| == |acc|
    ensures KeyIndex(acc, MergeKey(r)).Some? && DistinctKeys(acc, MergeKey) ==> forall i :: 0 <= i < |acc| ==>
      if MergeKey(acc[i]) == MergeKey(r) && Replaces(r, acc[i]) then m[i] == r else m[i] == acc[i]
  {
    match KeyIndex(acc, MergeKey(r))
    case None => acc + [r]
    case Some(i) => if Replaces(r, acc[i]) then acc[i := r] else acc
  }

  /** `list(merged.values())` after the merge loop. */
  function Merged(rs: seq<ClauseResult>): seq<ClauseResult> {
    if rs == [] then [] else MergeStep(Merged(rs[..|rs| - 1]), rs[|rs| - 1])
  }

  /** A merge step keeps keys distinct, adds the key of `r`, and takes its entries from the
      kept ones and `r`. */
  lemma MergeStepShape(acc: seq<ClauseResult>, r: ClauseResult)
    requires DistinctKeys(acc, MergeKey)
    ensures DistinctKeys(MergeStep(acc, r), MergeKey)
    ensures KeysOf(MergeStep(acc, r), MergeKey) == KeysOf(acc, MergeKey) + {MergeKey(r)}
    ensures forall x :: x in MergeStep(acc, r) ==> x in acc || x == r
  {
    var m := MergeStep(acc, r);
    KeysOfAppend(acc, r, MergeKey);
    if KeyIndex(acc, MergeKey(r)).Some? {
      var i := KeyIndex(acc, MergeKey(r)).value;
      assert MergeKey(r) in KeysOf(acc, MergeKey) by {
        assert MergeKey(acc[i]) == MergeKey(r);
      }
      assert forall j :: 0 <= j < |m| ==> MergeKey(m[j]) == MergeKey(acc[j]);
      assert KeysOf(m, MergeKey) == KeysOf(acc, MergeKey);
    }
  }

  /** The merged list has one entry per (type, page) of the input, each taken from the input. */
  lemma {:induction false} MergedShape(rs: seq<ClauseResult>)
    ensures DistinctKeys(Merged(rs), MergeKey)
    ensures KeysOf(Merged(rs), MergeKey) == KeysOf(rs, MergeKey)
    ensures forall x :: x in Merged(rs) ==> x in rs
    decreases |rs|
  {
    if rs != [] {
      var init := rs[..|rs| - 1];
      var r := rs[|rs| - 1];
      MergedShape(init);
      assert rs == init + [r];
      KeysOfAppend(init, r, MergeKey);
      MergeStepShape(Merged(init), r);
    }
  }

  /** Later merge steps keep an entry's position and key and never lengthen its explanation. */
  lemma {:induction false} MergedMonotone(rs: seq<ClauseResult>, n: nat, i: nat)
    requires n <= |rs| && i < |Merged(rs[..n])|
    ensures i < |Merged(rs)| && MergeKey(Merged(rs)[i]) == MergeKey(Merged(rs[..n])[i])
    ensures |Merged(rs)[i].explanation| <= |Merged(rs[..n])[i].explanation|
    decreases |rs| - n
  {
    if n < |rs| {
      var pre := rs[..n + 1];
      assert pre[..n] == rs[..n];
      assert Merged(pre) == MergeStep(Merged(rs[..n]), rs[n]);
      MergedMonotone(rs, n + 1, i);
    } else {
      assert rs[..n] == rs;
    }
  }

  /** The entry kept for a (type, page) never has a longer explanation than the first result
      with that key. */
  lemma MergedNotLonger(rs: seq<ClauseResult>, j: nat, i: nat)
    requires j < |rs| && forall l :: 0 <= l < j ==> MergeKey(rs[l]) != MergeKey(rs[j])
    requires i < |Merged(rs)| && MergeKey(Merged(rs)[i]) == MergeKey(rs[j])
    ensures |Merged(rs)[i].explanation| <= |rs[j].explanation|
  {
    var pre := rs[..j];
    MergedShape(pre);
    assert MergeKey(rs[j]) !in KeysOf(pre, MergeKey);
    assert KeyIndex(Merged(pre), MergeKey(rs[j])).None?;
    assert rs[..j + 1][..j] == pre;
    var at := |Merged(pre)|;
    assert Merged(rs[..j + 1])[at] == rs[j];
    MergedMonotone(rs, j + 1, at);
    MergedShape(rs);
  }

  /** Two results for the same (type, page): the second is kept iff it replaces the first. */
  lemma MergePair(a: ClauseResult, b: ClauseResult)
    requires MergeKey(a) == MergeKey(b)
    ensures Merged([a, b]) == if Replaces(b, a) then [b] else [a]
  {
    assert [a, b][..1] == [a];
    assert [a][..0] == [];
    assert Merged([a]) == [a];
    assert KeyIndex([a], MergeKey(b)) == Some(0);
  }

  /** `ord_map.get(importance, 3)`. */
  function Rank(importance: string): nat {
    if importance == "High" then 0 else if importance == "Medium" then 1 else if importance == "Low" then 2 else 3
  }

  /** The sort key `(rank, page, clause_type)` compared as a Python tuple. */
  predicate ClauseLe(a: ClauseResult, b: ClauseResult) {
    Rank(a.importance) < Rank(b.importance)
    || (Rank(a.importance) == Rank(b.importance)
        && (a.page < b.page || (a.page == b.page && LexLe(a.clauseType, b.clauseType))))
  }

  lemma ClauseLeTotalPreorder()
    ensures TotalPreorder(ClauseLe)
  {
    forall a, b ensures ClauseLe(a, b) || ClauseLe(b, a) {
      LexLeTotal(a.clauseType, b.clauseType);
    }
    forall a, b, c | ClauseLe(a, b) && ClauseLe(b, c) ensures ClauseLe(a, c) {
      if Rank(a.importance) == Rank(b.importance) == Rank(c.importance) && a.page == b.page == c.page {
        LexLeTransitive(a.clauseType, b.clauseType, c.clauseType);
      }
    }
  }

  /** What `extract_clauses` returns. */
  function ExtractedClauses(llm: LlmClient, template: (string, string) -> string, chunks: seq<Chunk>): seq<ClauseResult> {
    SortBy(Merged(DedupeBy(RawResults(llm, template, chunks), DedupeKey)), ClauseLe)
  }

  /** The output is sorted by (rank, page, type), has one entry per (type, page) that occurs
      in the deduplicated results, and each entry is one of the gathered results. */
  lemma ExtractedClausesProperties(llm: LlmClient, template: (string, string) -> string, chunks: seq<Chunk>)
    ensures SortedBy(ExtractedClauses(llm, template, chunks), ClauseLe)
    ensures DistinctKeys(ExtractedClauses(llm, template, chunks), MergeKey)
    ensures KeysOf(ExtractedClauses(llm, template, chunks), MergeKey) == KeysOf(RawResults(llm, template, chunks), MergeKey)
    ensures forall x :: x in ExtractedClauses(llm, template, chunks) ==> x in RawResults(llm, template, chunks)
  {
    var raw := RawResults(llm, template, chunks);
    var d := DedupeBy(raw, DedupeKey);
    var m := Merged(d);
    var out := SortBy(m, ClauseLe);
    ClauseLeTotalPreorder();
    SortBySorted(m, ClauseLe);
    MergedShape(d);
    DedupeByProperties(raw, DedupeKey);
    SubseqMembers(d, raw);
    DedupeKeysThrough(raw);
    SortByKeys(m, ClauseLe, MergeKey);
    forall x | x in out ensures x in raw {
      assert x in multiset(out);
    }
  }

  /** Deduplicating on (type, page, snippet prefix) loses no (type, page). */
  lemma DedupeKeysThrough(raw: seq<ClauseResult>)
    ensures KeysOf(DedupeBy(raw, DedupeKey), MergeKey) == KeysOf(raw, MergeKey)
  {
    DedupeKeepsCoarseKeys(raw, DedupeKey, MergeKey);
  }

  // ---------------------------------------------------------------- the extraction loops

  /** The `for clause_type in TARGET_CLAUSES` loop over one stripped sentence. */
  method TypeHits(page: int, s: string, types: seq<string>) returns (hits: seq<Candidate>)
    ensures hits == TypeCandidates(page, s, types)
  {
    hits := [];
    for k := 0 to |types|
      invariant hits == TypeCandidates(page, s, types[..k])
    {
      assert types[..k + 1][..k] == types[..k];
      var sc := Score(types[k], s);
      if sc >= 3 {
        hits := hits + [Candidate(types[k], page, sc, s)];
      }
    }
    assert types[..|types|] == types;
  }

  /** The sentence loop of the strict pass over one chunk's pieces. */
  method SentenceHits(page: int, sents: seq<string>) returns (hits: seq<Candidate>)
    ensures hits == SentenceCandidates(page, sents)
  {
    hits := [];
    for j := 0 to |sents|
      invariant hits == SentenceCandidates(page, sents[..j])
    {
      SentenceCandidatesStep(page, sents, j);
      var s := Strip(sents[j]);
      if 30 <= |s| <= 450 && !DefinitionNoise(s) {
        var h := TypeHits(page, s, TARGET_CLAUSES);
        hits := hits + h;
      } else {
        assert hits + [] == hits;
      }
    }
    assert sents[..|sents|] == sents;
  }

  lemma SentenceCandidatesStep(page: int, sents: seq<string>, j: nat)
    requires j < |sents|
    ensures var s := Strip(sents[j]);
      SentenceCandidates(page, sents[..j + 1])
      == SentenceCandidates(page, sents[..j]) + (if StrictSentence(s) then TypeCandidates(page, s, TARGET_CLAUSES) else [])
  {
    var s1 := sents[..j + 1];
    assert s1[..|s1| - 1] == sents[..j];
    assert s1[|s1| - 1] == sents[j];
  }

  /** The chunk loop of the strict pass: the hits in the order the loops find them. */
  method FindCandidates(chunks: seq<Chunk>) returns (cands: seq<Candidate>)
    ensures cands == Candidates(chunks)
  {
    cands := [];
    for i := 0 to |chunks|
      invariant cands == Candidates(chunks[..i])
    {
      assert chunks[..i + 1][..i] == chunks[..i];
      var ch := chunks[i];
      if multiset(ch.content)[REPLACEMENT_CHAR] <= 5 {
        var h := SentenceHits(ch.page, SentencesAndLines(ch.content));
        cands := cands + h;
      }
    }
    assert chunks[..|chunks|] == chunks;
  }

  /** `best.setdefault(key, []).append((sc, s_clean))` for every hit, in order; `keys` is the
      dictionary's insertion order. */
  method GroupCandidates(cands: seq<Candidate>) returns (best: map<(string, int), seq<Scored>>, keys: seq<(string, int)>)
    ensures best == GroupMap(cands) && keys == GroupKeys(cands)
  {
    best, keys := map[], [];
    for i := 0 to |cands|
      invariant best == GroupMap(cands[..i]) && keys == GroupKeys(cands[..i])
      invariant forall k :: k in best <==> k in keys
    {
      assert cands[..i + 1][..i] == cands[..i];
      var c := cands[i];
      var key := (c.clauseType, c.page);
      if key !in best {
        best := best[key := []];
        keys := keys + [key];
      }
      best := best[key := best[key] + [Scored(c.score, c.sentence)]];
    }
    assert cands[..|cands|] == cands;
  }

  /** The result the reduction loop builds for a kept entry: the snippet cut to 350
      characters, its first sentence cut to 180 as the explanation, and the upgraded
      importance. */
  method BuildStrictResult(key: (string, int), e: Scored) returns (r: ClauseResult)
    ensures r == StrictResult(key, e)
  {
    var snippet := Take(e.sentence, 350);
    var explanation := Take(BeforeFirst(snippet, ". "), 180);
    var importance := DefaultImportance(key.0);
    if (key.0 == "Indemnity" || key.0 == "Liability") && e.score >= 5 {
      importance := "High";
    } else if e.score >= 6 && importance == "Low" {
      importance := "Medium";
    }
    r := ClauseResult(key.0, explanation, snippet, key.1, importance);
  }

  /** The `for sc, sent in take` loop for one group, continuing the deduplication of `before`. */
  method AddGroup(key: (string, int), take: seq<Scored>, results: seq<ClauseResult>, seen: set<(string, int, string)>,
                  ghost before: seq<ClauseResult>)
    returns (results': seq<ClauseResult>, seen': set<(string, int, string)>)
    requires results == DedupeBy(before, StrictKey) && seen == KeysOf(results, StrictKey)
    ensures results' == DedupeBy(before + GroupResults(key, take), StrictKey)
    ensures seen' == KeysOf(results', StrictKey)
  {
    results', seen' := results, seen;
    var g := GroupResults(key, take);
    assert before + g[..0] == before;
    for j := 0 to |take|
      invariant results' == DedupeBy(before + g[..j], StrictKey)
      invariant seen' == KeysOf(results', StrictKey)
    {
      var r := BuildStrictResult(key, take[j]);
      PrefixSnoc(before, g, j);
      results', seen' := AddIfNew(r, StrictKey, results', seen', before + g[..j]);
    }
    assert g[..|take|] == g;
  }

  /** The reduction loop: the best two entries of each group, in insertion order, skipping a
      result whose key is already in `snippet_seen`. */
  method ReduceGroups(best: map<(string, int), seq<Scored>>, keys: seq<(string, int)>) returns (results: seq<ClauseResult>)
    requires forall k :: k in keys ==> k in best
    ensures results == DedupeBy(Selected(best, keys), StrictKey)
  {
    results := [];
    var seen: set<(string, int, string)> := {};
    for i := 0 to |keys|
      invariant results == DedupeBy(Selected(best, keys[..i]), StrictKey)
      invariant seen == KeysOf(results, StrictKey)
    {
      var key := keys[i];
      var take := TopTwo(best[key]);
      results, seen := AddGroup(key, take, results, seen, Selected(best, keys[..i]));
      assert keys[..i + 1][..i] == keys[..i];
      assert Selected(best, keys[..i + 1]) == Selected(best, keys[..i]) + GroupResults(key, take);
    }
    assert keys[..|keys|] == keys;
  }

  /** The strict pass of the heuristic mode. */
  method StrictPass(chunks: seq<Chunk>) returns (results: seq<ClauseResult>)
    ensures results == StrictResults(chunks)
  {
    var cands := FindCandidates(chunks);
    var best, keys := GroupCandidates(cands);
    GroupShape(cands);
    results := ReduceGroups(best, keys);
  }

  /** The inner `for kw in kws` loop of the relaxed pass. */
  method CountHits(kws: seq<Keyword>, low: string) returns (hits: nat)
    ensures hits == HitCount(kws, low)
  {
    hits := 0;
    for k := 0 to |kws|
      invariant hits == HitCount(kws[..k], low)
    {
      assert kws[..k + 1][..k] == kws[..k];
      if Matches(kws[k], low) {
        hits := hits + 1;
      }
    }
    assert kws[..|kws|] == kws;
  }

  /** The category loop of the relaxed pass, which stops at the first category with a hit. */
  method FirstHitCategory(table: seq<(string, seq<Keyword>)>, low: string) returns (r: Option<string>)
    ensures r == FirstCategory(table, low)
  {
    var i := 0;
    r := None;
    while i < |table|
      invariant 0 <= i <= |table|
      invariant FirstCategory(table[i..], low) == FirstCategory(table, low)
    {
      var hits := CountHits(table[i].1, low);
      assert table[i..][0] == table[i] && table[i..][1..] == table[i + 1..];
      if hits >= 1 {
        r := Some(table[i].0);
        return;
      }
      i := i + 1;
    }
  }

  lemma RelaxedSentencesStep(table: seq<(string, seq<Keyword>)>, page: int, sents: seq<string>, j: nat)
    requires j < |sents|
    ensures var o := RelaxedResult(table, page, Strip(sents[j]));
      RelaxedSentences(table, page, sents[..j + 1]) == RelaxedSentences(table, page, sents[..j]) + (if o.Some? then [o.value] else [])
  {
    assert sents[..j + 1][..j] == sents[..j];
  }

  /** The sentence loop of the relaxed pass over one chunk's pieces. */
  method RelaxedSentencesLoop(table: seq<(string, seq<Keyword>)>, page: int, sents: seq<string>) returns (results: seq<ClauseResult>)
    ensures results == RelaxedSentences(table, page, sents)
  {
    results := [];
    for j := 0 to |sents|
      invariant results == RelaxedSentences(table, page, sents[..j])
    {
      RelaxedSentencesStep(table, page, sents, j);
      var s := Strip(sents[j]);
      if 20 <= |s| <= 500 {
        var t := FirstHitCategory(table, Lower(s));
        if t.Some? {
          var r := ClauseResult(t.value, Take(BeforeFirst(s, ". "), 160), Take(s, 350), page, DefaultImportance(t.value));
          assert RelaxedResult(table, page, s) == Some(r);
          results := results + [r];
        }
      }
    }
    assert sents[..|sents|] == sents;
  }

  /** The relaxed pass over all chunks, under a keyword table. */
  method RelaxedPass(table: seq<(string, seq<Keyword>)>, chunks: seq<Chunk>) returns (results: seq<ClauseResult>)
    ensures results == RelaxedResults(table, chunks)
  {
    results := [];
    for i := 0 to |chunks|
      invariant results == RelaxedResults(table, chunks[..i])
    {
      RelaxedResultsStep(table, chunks, i);
      var ch := chunks[i];
      var rs := RelaxedSentencesLoop(table, ch.page, SentencesAndLines(ch.content));
      results := results + rs;
    }
    assert chunks[..|chunks|] == chunks;
  }

  /** One more chunk appends that chunk's relaxed results. */
  lemma RelaxedResultsStep(table: seq<(string, seq<Keyword>)>, chunks: seq<Chunk>, i: nat)
    requires i < |chunks|
    ensures RelaxedResults(table, chunks[..i + 1]) ==
      RelaxedResults(table, chunks[..i]) + RelaxedSentences(table, chunks[i].page, SentencesAndLines(chunks[i].content))
  {
    assert chunks[..i + 1][..i] == chunks[..i];
  }

  /** The line loop over one reply of the language model. */
  method ParseReply(lines: seq<string>) returns (results: seq<ClauseResult>)
    ensures results == LineResults(lines)
  {
    results := [];
    for j := 0 to |lines|
      invariant results == LineResults(lines[..j])
    {
      LineResultsStep(lines, j);
      var m := ParseClauseLine(Strip(lines[j]));
      if m.Some? {
        var g := m.value;
        var t := Strip(g.g1);
        var r := ClauseResult(t, Take(Strip(g.g2), 400), Take(Strip(g.g3), 400), DigitsValue(g.tail), DefaultImportance(t));
        assert r == FromGroups(g);
        results := results + [r];
      }
    }
    assert lines[..|lines|] == lines;
  }

  /** The batch loop of the model mode: ten chunks per prompt. */
  method LlmPass(reply: string -> string, prompt: seq<Chunk> -> string, chunks: seq<Chunk>) returns (results: seq<ClauseResult>)
    ensures results == LlmResults(reply, prompt, Batches(chunks, 10))
  {
    var block := (b: seq<Chunk>) => LineResults(SplitLines(reply(prompt(b))));
    results := [];
    var start := 0;
    while start < |chunks|
      invariant 0 <= start <= |chunks|
      invariant Blocks(Batches(chunks, 10), block) == results + Blocks(Batches(chunks[start..], 10), block)
      decreases |chunks| - start
    {
      var batch := Take(chunks[start..], 10);
      var rs := ParseReply(SplitLines(reply(prompt(batch))));
      var next := NextBatchStart(|chunks|, start, 10);
      BlocksLoopStep(chunks, start, 10, block, results, rs);
      results := results + rs;
      start := next;
    }
    BlocksLoopDone(chunks, 10, block, results);
  }

  /** The `seen` loop of the shared tail. */
  method Dedupe(results: seq<ClauseResult>) returns (deduped: seq<ClauseResult>)
    ensures deduped == DedupeBy(results, DedupeKey)
  {
    deduped := [];
    var seen: set<(string, int, string)> := {};
    for i := 0 to |results|
      invariant deduped == DedupeBy(results[..i], DedupeKey)
      invariant seen == KeysOf(deduped, DedupeKey)
    {
      assert results[..i + 1] == results[..i] + [results[i]];
      deduped, seen := AddIfNew(results[i], DedupeKey, deduped, seen, results[..i]);
    }
    assert results[..|results|] == results;
  }

  /** The values of the `merged` dictionary in insertion order. */
  function ValuesInOrder(order: seq<(string, int)>, merged: map<(string, int), ClauseResult>): seq<ClauseResult>
    requires forall j :: 0 <= j < |order| ==> order[j] in merged
  {
    seq(|order|, j requires 0 <= j < |order| => merged[order[j]])
  }

  /** The dictionary `merged` with insertion order `order` holds the entries of `acc`: the
      keys in order, each to its entry. */
  ghost predicate Mirrors(order: seq<(string, int)>, merged: map<(string, int), ClauseResult>, acc: seq<ClauseResult>) {
    && (forall k :: k in merged <==> k in order)
    && |order| == |acc|
    && (forall j :: 0 <= j < |order| ==> order[j] in merged && merged[order[j]] == acc[j] && MergeKey(acc[j]) == order[j])
    && DistinctKeys(acc, MergeKey)
  }

  /** A dictionary update for `r` mirrors the merge step: a new key is added at the end, a
      known one takes `r` when `r` replaces its entry. */
  lemma MirrorsStep(order: seq<(string, int)>, merged: map<(string, int), ClauseResult>, acc: seq<ClauseResult>, r: ClauseResult)
    requires Mirrors(order, merged, acc)
    ensures MergeKey(r) !in merged ==> Mirrors(order + [MergeKey(r)], merged[MergeKey(r) := r], MergeStep(acc, r))
    ensures MergeKey(r) in merged && Replaces(r, merged[MergeKey(r)]) ==> Mirrors(order, merged[MergeKey(r) := r], MergeStep(acc, r))
    ensures MergeKey(r) in merged && !Replaces(r, merged[MergeKey(r)]) ==> Mirrors(order, merged, MergeStep(acc, r))
  {
    if MergeKey(r) !in merged {
      MirrorsNew(order, merged, acc, r);
    } else {
      MirrorsKnown(order, merged, acc, r);
    }
  }

  lemma MirrorsNew(order: seq<(string, int)>, merged: map<(string, int), ClauseResult>, acc: seq<ClauseResult>, r: ClauseResult)
    requires Mirrors(order, merged, acc) && MergeKey(r) !in merged
    ensures Mirrors(order + [MergeKey(r)], merged[MergeKey(r) := r], MergeStep(acc, r))
  {
    var k := MergeKey(r);
    MergeStepShape(acc, r);
    forall j | 0 <= j < |acc| ensures MergeKey(acc[j]) != k {
      assert order[j] in merged;
    }
    assert KeyIndex(acc, k).None?;
    var m := MergeStep(acc, r);
    assert m == acc + [r];
    var o := order + [k];
    var d := merged[k := r];
    forall j | 0 <= j < |o| ensures o[j] in d && d[o[j]] == m[j] && MergeKey(m[j]) == o[j] {
      if j < |order| {
        assert o[j] == order[j] && m[j] == acc[j];
      }
    }
  }

  lemma MirrorsKnown(order: seq<(string, int)>, merged: map<(string, int), ClauseResult>, acc: seq<ClauseResult>, r: ClauseResult)
    requires Mirrors(order, merged, acc) && MergeKey(r) in merged
    ensures Replaces(r, merged[MergeKey(r)]) ==> Mirrors(order, merged[MergeKey(r) := r], MergeStep(acc, r))
    ensures !Replaces(r, merged[MergeKey(r)]) ==> Mirrors(order, merged, MergeStep(acc, r))
  {
    var k := MergeKey(r);
    MergeStepShape(acc, r);
    var at :| 0 <= at < |order| && order[at] == k;
    var idx := KeyIndex(acc, k);
    assert MergeKey(acc[at]) == k;
    assert idx.Some? && idx.value == at;
    var m := MergeStep(acc, r);
    if Replaces(r, merged[k]) {
      assert m == acc[at := r];
      var d := merged[k := r];
      forall j | 0 <= j < |order| ensures order[j] in d && d[order[j]] == m[j] && MergeKey(m[j]) == order[j] {
        if j != at {
          assert order[j] != k;
        }
      }
    } else {
      assert m == acc;
    }
  }

  /** `list(merged.values())` is the mirrored list. */
  lemma MirrorsValues(order: seq<(string, int)>, merged: map<(string, int), ClauseResult>, acc: seq<ClauseResult>)
    requires Mirrors(order, merged, acc)
    ensures ValuesInOrder(order, merged) == acc
  {
  }

  /** The `merged` loop of the shared tail, then `list(merged.values())`. */
  method Merge(deduped: seq<ClauseResult>) returns (finalList: seq<ClauseResult>)
    ensures finalList == Merged(deduped)
  {
    var merged: map<(string, int), ClauseResult> := map[];
    var order: seq<(string, int)> := [];
    for i := 0 to |deduped|
      invariant Mirrors(order, merged, Merged(deduped[..i]))
    {
      var r := deduped[i];
      var k := (r.clauseType, r.page);
      assert deduped[..i + 1][..i] == deduped[..i];
      MirrorsStep(order, merged, Merged(deduped[..i]), r);
      if k !in merged {
        merged := merged[k := r];
        order := order + [k];
      } else {
        var cur := merged[k];
        if |r.explanation| < |cur.explanation| && !Contains(Lower(cur.explanation), Lower(r.explanation)) {
          merged := merged[k := r];
        }
      }
    }
    assert deduped[..|deduped|] == deduped;
    MirrorsValues(order, merged, Merged(deduped));
    finalList := ValuesInOrder(order, merged);
  }

  /** `extract_clauses` for a chosen client: the heuristic passes for the stub, the model's
      replies otherwise, then the shared tail and the sort by (rank, page, type). */
  method ExtractClauses(llm: LlmClient, template: (string, string) -> string, chunks: seq<Chunk>) returns (out: seq<ClauseResult>)
    ensures out == ExtractedClauses(llm, template, chunks)
  {
    var results: seq<ClauseResult>;
    if IsStub(llm) {
      results := StrictPass(chunks);
      if results == [] {
        results := RelaxedPass(KEYWORDS, chunks);
      }
    } else {
      results := LlmPass((p: string) => Generate(llm, p), (b: seq<Chunk>) => BatchPrompt(template, b), chunks);
    }
    var deduped := Dedupe(results);
    var merged := Merge(deduped);
    out := SortBy(merged, ClauseLe);
  }
}
