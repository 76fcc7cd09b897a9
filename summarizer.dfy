/** The document summariser of src/summarize/summarizer.py. With the stub language model a
    document's summary is extractive: sentences are scored by keyword, the best one per
    category becomes a bullet, and bullets follow a fixed category order. With a real model,
    the chunk texts go to the model six at a time, the replies are consolidated by one more
    call, and the consolidated lines are cleaned into at most ten bullets. */
module Summarizer {
  import opened Wrappers
  import opened Text
  import opened Seqs
  import opened Sorting
  import opened Types
  import opened Fallback

  // ---------------------------------------------------------------- tables

  const NO_TEXT: string := "- (No text extracted)"

  /** The `categories` table of lines 29-40, in dict order. */
  const CATEGORIES: seq<(string, seq<string>)> := [
    ("Parties/Purpose", ["party", "parties", "purpose", "provide", "service", "agreement"]),
    ("Term & Renewal", ["term", "renew", "expiration", "renewal", "duration"]),
    ("Payment & Fees", ["payment", "fee", "invoice", "pricing", "charges", "payable"]),
    ("Data & Privacy", ["data", "personal", "privacy", "gdpr", "processing", "controller", "processor"]),
    ("Confidentiality & IP", ["confidential", "secret", "ip ", "intellectual", "license", "licence", "ownership"]),
    ("Liability & Indemnity", ["liability", "indemn", "limit", "cap", "damages"]),
    ("Termination", ["terminate", "termination", "notice", "breach", "suspend"]),
    ("Warranties & Disclaimers", ["warrant", "disclaim", "as is"]),
    ("Dispute / Law", ["jurisdiction", "govern", "law", "dispute", "arbitr", "court"]),
    ("Risks / Unusual", ["auto-renew", "penalt", "liquidated", "sole discretion", "unilateral"])]

  /** The bullet order of lines 59-63; the model path uses the same order (line 123). */
  const ORDER: seq<string> := [
    "Parties/Purpose", "Term & Renewal", "Payment & Fees", "Termination", "Data & Privacy",
    "Confidentiality & IP", "Liability & Indemnity", "Warranties & Disclaimers", "Dispute / Law",
    "Risks / Unusual"]

  /** `categories_map` of lines 105-112, in dict order. */
  const CATEGORY_MAP: seq<(string, string)> := [
    ("parties", "Parties/Purpose"), ("purpose", "Parties/Purpose"), ("term", "Term & Renewal"),
    ("renew", "Term & Renewal"), ("payment", "Payment & Fees"), ("fee", "Payment & Fees"),
    ("invoice", "Payment & Fees"), ("data", "Data & Privacy"), ("privacy", "Data & Privacy"),
    ("confidential", "Confidentiality & IP"), ("ip ", "Confidentiality & IP"),
    ("intellectual", "Confidentiality & IP"), ("indemn", "Liability & Indemnity"),
    ("liability", "Liability & Indemnity"), ("terminate", "Termination"), ("notice", "Termination"),
    ("warrant", "Warranties & Disclaimers"), ("disclaim", "Warranties & Disclaimers"),
    ("jurisdiction", "Dispute / Law"), ("law", "Dispute / Law"), ("arbitr", "Dispute / Law"),
    ("auto-renew", "Risks / Unusual"), ("penalt", "Risks / Unusual"),
    ("sole discretion", "Risks / Unusual")]

  /** The category names of a table. */
  function Names(table: seq<(string, seq<string>)>): (r: set<string>)
    ensures |r| <= |table|
  {
    if table == [] then {} else {table[0].0} + Names(table[1..])
  }

  /** `all_keywords` (line 41): every keyword of every category. */
  function AllKeywords(table: seq<(string, seq<string>)>): set<string> {
    if table == [] then {} else (set k | k in table[0].1) + AllKeywords(table[1..])
  }

  // ---------------------------------------------------------------- scoring

  /** `any(k in low for k in kws)`. */
  predicate AnyIn(kws: seq<string>, low: string) {
    exists k :: k in kws && Contains(low, k)
  }

  /** `sum(1 for k in all_keywords if k in low)` (line 45): how many distinct keywords the
      lowercased text contains. */
  function KeywordScore(keywords: set<string>, low: string): nat {
    |set k | k in keywords && Contains(low, k)|
  }

  /** The first category, in table order, with a keyword in `low` (the inner loop of lines
      52-56). */
  function FirstCategory(table: seq<(string, seq<string>)>, low: string): (r: Option<string>)
    ensures r.Some? ==> r.value in Names(table)
  {
    if table == [] then None
    else if AnyIn(table[0].1, low) then Some(table[0].0)
    else FirstCategory(table[1..], low)
  }

  /** Some category matches exactly when some keyword of the table occurs. */
  lemma {:induction false} FirstCategoryIff(table: seq<(string, seq<string>)>, low: string)
    ensures FirstCategory(table, low).Some? <==> exists k :: k in AllKeywords(table) && Contains(low, k)
    decreases |table|
  {
    if table != [] {
      FirstCategoryIff(table[1..], low);
    }
  }

  /** A positive keyword score means some keyword occurs, and the other way round. */
  lemma ScorePositive(keywords: set<string>, low: string)
    ensures KeywordScore(keywords, low) > 0 <==> exists k :: k in keywords && Contains(low, k)
  {
    var hits := set k | k in keywords && Contains(low, k);
    if k :| k in keywords && Contains(low, k) {
      assert k in hits;
    }
  }

  /** A sentence scores above zero exactly when its first matching category exists: the
      candidates of lines 43-47 are exactly the sentences the category loop can place. */
  lemma ScoreIffCategory(table: seq<(string, seq<string>)>, low: string)
    ensures KeywordScore(AllKeywords(table), low) > 0 <==> FirstCategory(table, low).Some?
  {
    FirstCategoryIff(table, low);
    ScorePositive(AllKeywords(table), low);
  }

  /** The classifier of the heuristic path: the first category with a keyword in the
      lowercased sentence. */
  function Classify(table: seq<(string, seq<string>)>): string -> Option<string> {
    s => FirstCategory(table, Lower(s))
  }

  /** A scored sentence, `(score, s.strip())` of line 47. */
  datatype Candidate = Candidate(score: nat, sent: string)

  function SentOf(c: Candidate): string { c.sent }

  /** The candidate a piece of text makes (lines 44-47): a length in (15, 300) before
      stripping and at least one keyword; the candidate holds the stripped text. */
  function CandidateOf(keywords: set<string>, s: string): (r: Option<Candidate>)
    ensures r.Some? ==> r.value.score > 0 && |r.value.sent| < 300 && IsStripped(r.value.sent)
    ensures r.Some? <==> 15 < |s| < 300 && exists k :: k in keywords && Contains(Lower(s), k)
  {
    ScorePositive(keywords, Lower(s));
    var score := KeywordScore(keywords, Lower(s));
    if 15 < |s| < 300 && score > 0 then Some(Candidate(score, Strip(s))) else None
  }

  /** `scored` after the loop of lines 43-47. */
  function Candidates(keywords: set<string>, sents: seq<string>): (r: seq<Candidate>)
    ensures |r| <= |sents|
    ensures forall c :: c in r ==> c.score > 0 && |c.sent| < 300
  {
    if sents == [] then []
    else
      var init := Candidates(keywords, sents[..|sents| - 1]);
      var c := CandidateOf(keywords, sents[|sents| - 1]);
      if c.Some? then
        assert forall x :: x in init + [c.value] ==> x in init || x == c.value;
        init + [c.value]
      else init
  }

  lemma CandidatesStep(keywords: set<string>, sents: seq<string>, i: nat)
    requires i < |sents|
    ensures var c := CandidateOf(keywords, sents[i]);
      Candidates(keywords, sents[..i + 1]) == Candidates(keywords, sents[..i]) + (if c.Some? then [c.value] else [])
  {
    var s1 := sents[..i + 1];
    assert s1[..|s1| - 1] == sents[..i];
    assert s1[|s1| - 1] == sents[i];
    if CandidateOf(keywords, sents[i]).None? {
      assert Candidates(keywords, sents[..i]) + [] == Candidates(keywords, sents[..i]);
    }
  }

  /** The scoring loop of lines 43-47. */
  method ScoreSentences(keywords: set<string>, sents: seq<string>) returns (scored: seq<Candidate>)
    ensures scored == Candidates(keywords, sents)
  {
    scored := [];
    for i := 0 to |sents|
      invariant scored == Candidates(keywords, sents[..i])
    {
      CandidatesStep(keywords, sents, i);
      var s := sents[i];
      var low := Lower(s);
      var score := KeywordScore(keywords, low);
      if 15 < |s| < 300 && score > 0 {
        scored := scored + [Candidate(score, Strip(s))];
      }
    }
    assert sents[..|sents|] == sents;
  }

  /** The sort key `(-score, len(s))` of line 48, as an order. */
  predicate CandidateLe(a: Candidate, b: Candidate) {
    a.score > b.score || (a.score == b.score && |a.sent| <= |b.sent|)
  }

  lemma CandidateLeTotal()
    ensures TotalPreorder(CandidateLe)
  {
  }

  /** The sorted candidates are ordered by score, then length, and are the candidates. */
  lemma SortedCandidates(scored: seq<Candidate>)
    ensures var r := SortBy(scored, CandidateLe);
      multiset(r) == multiset(scored)
      && forall i, j :: 0 <= i < j < |r| ==>
        r[i].score > r[j].score || (r[i].score == r[j].score && |r[i].sent| <= |r[j].sent|)
  {
    CandidateLeTotal();
    SortBySorted(scored, CandidateLe);
  }

  // ---------------------------------------------------------------- one sentence per category

  /** `category_best` after a loop over `sents` that gives each category the first sentence
      classified under it. */
  function Best(classify: string -> Option<string>, sents: seq<string>): map<string, string> {
    if sents == [] then map[]
    else
      var m := Best(classify, sents[..|sents| - 1]);
      var c := classify(sents[|sents| - 1]);
      if c.Some? && c.value !in m then m[c.value := sents[|sents| - 1]] else m
  }

  lemma BestStep(classify: string -> Option<string>, sents: seq<string>, i: nat)
    requires i < |sents|
    ensures var m := Best(classify, sents[..i]);
      var c := classify(sents[i]);
      Best(classify, sents[..i + 1]) == if c.Some? && c.value !in m then m[c.value := sents[i]] else m
  {
    var s1 := sents[..i + 1];
    assert s1[..|s1| - 1] == sents[..i];
    assert s1[|s1| - 1] == sents[i];
  }

  /** A category is in the map exactly when some sentence is classified under it, and its
      sentence is the first such one. */
  lemma {:induction false} BestIsFirst(classify: string -> Option<string>, sents: seq<string>, cat: string)
    returns (i: nat)
    ensures cat in Best(classify, sents) <==> exists j :: 0 <= j < |sents| && classify(sents[j]) == Some(cat)
    ensures cat in Best(classify, sents) ==>
      i < |sents| && sents[i] == Best(classify, sents)[cat] && classify(sents[i]) == Some(cat)
      && forall j :: 0 <= j < i ==> classify(sents[j]) != Some(cat)
    decreases |sents|
  {
    if sents == [] {
      i := 0;
    } else {
      var init := sents[..|sents| - 1];
      var last := sents[|sents| - 1];
      i := BestIsFirst(classify, init, cat);
      forall j | 0 <= j < |init| ensures init[j] == sents[j] {
      }
      if cat !in Best(classify, init) && classify(last) == Some(cat) {
        i := |sents| - 1;
      }
    }
  }

  /** Every key of the map is a category the classifier can give. */
  lemma {:induction false} BestKeys(classify: string -> Option<string>, sents: seq<string>, names: set<string>)
    requires forall s :: classify(s).Some? ==> classify(s).value in names
    ensures Best(classify, sents).Keys <= names
    decreases |sents|
  {
    if sents != [] {
      BestKeys(classify, sents[..|sents| - 1], names);
    }
  }

  /** Once every category has its sentence, later sentences change nothing: the early exit
      of lines 57-58 does not change the map. */
  lemma {:induction false} BestSaturated(classify: string -> Option<string>, sents: seq<string>, i: nat, names: set<string>)
    requires i <= |sents|
    requires forall s :: classify(s).Some? ==> classify(s).value in names
    requires Best(classify, sents[..i]).Keys == names
    ensures Best(classify, sents) == Best(classify, sents[..i])
    decreases |sents| - i
  {
    if i < |sents| {
      BestStep(classify, sents, i);
      BestSaturated(classify, sents, i + 1, names);
    } else {
      assert sents[..i] == sents;
    }
  }

  /** The category loop of lines 50-58, with its early exit once ten categories are filled. */
  method PickBest(table: seq<(string, seq<string>)>, sorted: seq<Candidate>) returns (best: map<string, string>)
    requires |table| <= 10
    ensures best == Best(Classify(table), MapSeq(sorted, SentOf))
  {
    ClassifyNames(table);
    best := PickBestBy(Classify(table), Names(table), sorted);
  }

  /**
   * The selection loop for any classifier whose categories lie in `names`
   * (at most ten of them): it stops as soon as ten categories are filled.
   */
  method PickBestBy(classify: string -> Option<string>, ghost names: set<string>, sorted: seq<Candidate>)
    returns (best: map<string, string>)
    requires |names| <= 10
    requires forall s :: classify(s).Some? ==> classify(s).value in names
    ensures best == Best(classify, MapSeq(sorted, SentOf))
  {
    ghost var sents := MapSeq(sorted, SentOf);
    best := map[];
    var i := 0;
    while i < |sorted|
      invariant i <= |sorted|
      invariant best == Best(classify, sents[..i])
      invariant best.Keys <= names
    {
      BestStep(classify, sents, i);
      var sent := sorted[i].sent;
      var cat := classify(sent);
      if cat.Some? && cat.value !in best {
        best := best[cat.value := sent];
      }
      i := i + 1;
      if |best| >= 10 {
        BestFull(classify, sents, i, names);
        return;
      }
    }
    assert sents[..i] == sents;
  }

  /** The heuristic classifier gives only the table's categories. */
  lemma ClassifyNames(table: seq<(string, seq<string>)>)
    ensures forall s :: Classify(table)(s).Some? ==> Classify(table)(s).value in Names(table)
  {
  }

  /** With ten categories filled out of at most ten, the rest of the loop changes nothing. */
  lemma BestFull(classify: string -> Option<string>, sents: seq<string>, i: nat, names: set<string>)
    requires i <= |sents| && |names| <= 10
    requires forall s :: classify(s).Some? ==> classify(s).value in names
    requires Best(classify, sents[..i]).Keys <= names && |Best(classify, sents[..i])| >= 10
    ensures Best(classify, sents) == Best(classify, sents[..i])
  {
    var best := Best(classify, sents[..i]);
    assert |best.Keys| == |best|;
    SubsetFull(best.Keys, names);
    BestSaturated(classify, sents, i, names);
  }

  /** A subset at least as large as a set of at most ten elements is that set. */
  lemma SubsetFull(a: set<string>, b: set<string>)
    requires a <= b && |a| >= 10 && |b| <= 10
    ensures a == b
  {
    assert |b - a| == |b| - |a|;
  }

  // ---------------------------------------------------------------- bullets

  /** The length of an article at the head of `s` with the whitespace after it: `the`, `a` or
      `an` in any case, then at least one whitespace character, all of which the match takes
      (`\b(the|a|an)\b\s+`, the leading `\b` aside); 0 when there is none. */
  function ArticleAt(s: string): (n: nat)
    ensures n <= |s|
    ensures n > 0 ==> n >= 2 && IsSpace(s[n - 1]) && (n == |s| || !IsSpace(s[n]))
  {
    var w := if |s| > 3 && Lower(s[..3]) == "the" && IsSpace(s[3]) then 3
      else if |s| > 1 && Lower(s[..1]) == "a" && IsSpace(s[1]) then 1
      else if |s| > 2 && Lower(s[..2]) == "an" && IsSpace(s[2]) then 2
      else 0;
    if w == 0 then 0
    else
      var run := TakeWhile(s[w..], IsSpace);
      assert run != [] && run[|run| - 1] == s[w + |run| - 1];
      assert w + |run| < |s| ==> s[w + |run|] == s[w..][|run|];
      w + |run|
  }

  /** `re.sub(r'\b(the|a|an)\b\s+', '', s, flags=re.I)` on the rest of a text whose previous
      character was a word character when `afterWord` holds. A match starts only after a
      non-word character or at the start, and the scan resumes right after it. */
  function StripArticlesFrom(s: string, afterWord: bool): (r: string)
    ensures |r| <= |s|
    decreases |s|
  {
    if s == [] then []
    else if !afterWord && ArticleAt(s) > 0 then StripArticlesFrom(s[ArticleAt(s)..], false)
    else [s[0]] + StripArticlesFrom(s[1..], IsWordChar(s[0]))
  }

  function StripArticles(s: string): (r: string)
    ensures |r| <= |s|
  {
    StripArticlesFrom(s, false)
  }

  /** Text without whitespace has no article to remove. */
  lemma {:induction false} StripArticlesNoSpace(s: string, afterWord: bool)
    requires forall i :: 0 <= i < |s| ==> !IsSpace(s[i])
    ensures StripArticlesFrom(s, afterWord) == s
    decreases |s|
  {
    if s != [] {
      StripArticlesNoSpace(s[1..], IsWordChar(s[0]));
    }
  }

  /** The article must stand alone: "Theory" keeps its first three letters. */
  lemma ArticleInsideWord()
    ensures ArticleAt("Theory x") == 0
  {
    var s := "Theory x";
    assert !IsSpace(s[3]) && !IsSpace(s[1]) && !IsSpace(s[2]);
  }

  /** A leading article goes, whatever its case. */
  lemma ArticleAnyCase(rest: string)
    requires rest != [] && !IsSpace(rest[0])
    ensures ArticleAt("An " + rest) == 3
  {
    var s := "An " + rest;
    assert s[..2] == "An";
    assert Lower("An") == "an" by {
      assert LowerChar('A') == 'a';
    }
    assert s[1] == 'n';
    assert s[2..] == " " + rest;
    TakeWhileExact(s[2..], IsSpace, 1);
  }

  predicate DotOrSpace(c: char) { c == '.' || c == ' ' }

  /** Lines 69-70: text longer than 170 characters is cut to 167 and given "...". */
  function Shortened(txt: string): (r: string)
    ensures |r| <= 170
    ensures |txt| <= 170 ==> r == txt
  {
    if |txt| > 170 then txt[..167] + "..." else txt
  }

  /** The text of a category's bullet: articles removed, shortened, trailing dots and spaces
      removed. */
  function BulletBody(sent: string): (r: string)
    ensures |r| <= 170
    ensures r == [] || !DotOrSpace(r[|r| - 1])
  {
    RStripBy(Shortened(StripArticles(sent)), DotOrSpace)
  }

  /** `f"- {cat}: {txt.rstrip('. ')}."` (line 71). */
  function Bullet(cat: string, sent: string): string {
    "- " + cat + ": " + BulletBody(sent) + "."
  }

  /** A bullet is the category, a body of at most 170 characters and one final dot. The
      "..." of a shortened text is removed again by the `rstrip`, so no bullet ends with two
      dots, and only an empty body leaves a space before the final dot. */
  lemma BulletShape(cat: string, sent: string)
    ensures var b := Bullet(cat, sent);
      StartsWith(b, "- " + cat + ": ") && EndsWith(b, ".")
      && |b| <= |cat| + 175 && !EndsWith(b, "..") && (EndsWith(b, " .") ==> BulletBody(sent) == [])
  {
    var body := BulletBody(sent);
    var head := "- " + cat + ": ";
    var b := Bullet(cat, sent);
    assert b == head + (body + ".");
    assert b[..|head|] == head;
    assert b[|b| - 1] == '.';
    if body == [] {
      assert b[|b| - 2] == head[|head| - 1] == ' ';
    } else {
      assert b[|b| - 2] == body[|body| - 1];
    }
  }

  /** The bullet of a category that has a sentence. */
  function BulletOf(best: map<string, string>): string -> string {
    cat => if cat in best then Bullet(cat, best[cat]) else ""
  }

  /** The bullets of lines 64-71: one per category of `order` that has a sentence. */
  function Bullets(order: seq<string>, best: map<string, string>): (r: seq<string>)
    ensures |r| <= |order|
  {
    if order == [] then []
    else
      var cat := order[|order| - 1];
      Bullets(order[..|order| - 1], best) + (if cat in best then [Bullet(cat, best[cat])] else [])
  }

  lemma BulletsStep(order: seq<string>, best: map<string, string>, i: nat)
    requires i < |order|
    ensures var cat := order[i];
      Bullets(order[..i + 1], best) == Bullets(order[..i], best) + (if cat in best then [Bullet(cat, best[cat])] else [])
  {
    var s1 := order[..i + 1];
    assert s1[..|s1| - 1] == order[..i];
    assert s1[|s1| - 1] == order[i];
  }

  /** The bullets are those of the categories in `order` that have a sentence, in that
      order. */
  lemma {:induction false} BulletsFollowOrder(order: seq<string>, best: map<string, string>)
    ensures Bullets(order, best) == MapSeq(Filter(order, cat => cat in best), BulletOf(best))
    decreases |order|
  {
    if order != [] {
      var init := order[..|order| - 1];
      var cat := order[|order| - 1];
      BulletsFollowOrder(init, best);
      var f := Filter(init, cat => cat in best);
      if cat in best {
        MapSeqAppend(f, cat, BulletOf(best));
      }
    }
  }

  /** There is a bullet exactly when some category of `order` has a sentence. */
  lemma {:induction false} BulletsEmpty(order: seq<string>, best: map<string, string>)
    ensures Bullets(order, best) == [] <==> forall i :: 0 <= i < |order| ==> order[i] !in best
    decreases |order|
  {
    if order != [] {
      BulletsEmpty(order[..|order| - 1], best);
      assert forall i :: 0 <= i < |order| - 1 ==> order[..|order| - 1][i] == order[i];
    }
  }

  /** The bullet loop of lines 64-71. */
  method MakeBullets(order: seq<string>, best: map<string, string>) returns (bullets: seq<string>)
    ensures bullets == Bullets(order, best)
  {
    bullets := [];
    for i := 0 to |order|
      invariant bullets == Bullets(order[..i], best)
    {
      BulletsStep(order, best, i);
      var cat := order[i];
      if cat in best {
        var txt := StripArticles(best[cat]);
        if |txt| > 170 {
          txt := txt[..167] + "...";
        }
        bullets := bullets + ["- " + cat + ": " + RStripBy(txt, DotOrSpace) + "."];
      }
    }
    assert order[..|order|] == order;
  }

  // ---------------------------------------------------------------- the heuristic summary

  /** The plain bullets of lines 72-74, for when no category bullet was made. */
  function PlainBullets(scored: seq<Candidate>): seq<string> {
    MapSeq(Take(scored, 8), (c: Candidate) => "- " + c.sent)
  }

  /** The heuristic summary's bullets for a non-empty block list. */
  function SummaryBullets(blocks: seq<string>): seq<string> {
    var scored := SortBy(Candidates(AllKeywords(CATEGORIES), Sentences(Join(" \n", blocks))), CandidateLe);
    var bullets := Bullets(ORDER, Best(Classify(CATEGORIES), MapSeq(scored, SentOf)));
    if bullets != [] then bullets else PlainBullets(scored)
  }

  /** `heuristic_document_summary` (lines 22-75). */
  function HeuristicSummary(blocks: seq<string>): string {
    if blocks == [] then NO_TEXT else Join("\n", Take(SummaryBullets(blocks), 10))
  }

  /** `heuristic_document_summary`, step by step. */
  method HeuristicDocumentSummary(blocks: seq<string>) returns (summary: string)
    ensures summary == HeuristicSummary(blocks)
  {
    if blocks == [] {
      return NO_TEXT;
    }
    var sentences := Sentences(Join(" \n", blocks));
    var scored := ScoreSentences(AllKeywords(CATEGORIES), sentences);
    scored := SortBy(scored, CandidateLe);
    var best := PickBest(CATEGORIES, scored);
    var bullets := MakeBullets(ORDER, best);
    if bullets == [] {
      bullets := PlainBullets(scored);
    }
    summary := Join("\n", Take(bullets, 10));
  }

  /** Every category of the table is in the bullet order. */
  lemma OrderCoversCategories()
    ensures forall i :: 0 <= i < |CATEGORIES| ==> CATEGORIES[i].0 in ORDER
  {
  }

  /** A name of a table is the name of one of its entries. */
  lemma {:induction false} NamesMember(table: seq<(string, seq<string>)>, c: string) returns (i: nat)
    requires c in Names(table)
    ensures i < |table| && table[i].0 == c
    decreases |table|
  {
    if table[0].0 == c {
      i := 0;
    } else {
      var j := NamesMember(table[1..], c);
      i := j + 1;
    }
  }

  /** When every category of the table has a place in the order, there is no category bullet
      only when there is no candidate: the plain bullets of lines 72-74 are used only when
      some candidate's stripped text no longer holds a keyword (the table's "ip " loses its
      space when it ends the text). */
  lemma PlainBulletsOnlyUnplaced(table: seq<(string, seq<string>)>, order: seq<string>, scored: seq<Candidate>)
    requires forall i :: 0 <= i < |table| ==> table[i].0 in order
    requires forall c :: c in scored ==> FirstCategory(table, Lower(c.sent)).Some?
    ensures Bullets(order, Best(Classify(table), MapSeq(scored, SentOf))) == [] <==> scored == []
  {
    var sents := MapSeq(scored, SentOf);
    var best := Best(Classify(table), sents);
    BulletsEmpty(order, best);
    if scored != [] {
      var cat := FirstCategory(table, Lower(scored[0].sent)).value;
      assert Classify(table)(sents[0]) == Some(cat);
      var j := BestIsFirst(Classify(table), sents, cat);
      var k := NamesMember(table, cat);
      var i :| 0 <= i < |order| && order[i] == cat;
      assert order[i] in best;
    }
  }

  /** The same for the summariser's own tables. */
  lemma PlainBulletsUnused(scored: seq<Candidate>)
    requires forall c :: c in scored ==> FirstCategory(CATEGORIES, Lower(c.sent)).Some?
    ensures Bullets(ORDER, Best(Classify(CATEGORIES), MapSeq(scored, SentOf))) == [] <==> scored == []
  {
    OrderCoversCategories();
    PlainBulletsOnlyUnplaced(CATEGORIES, ORDER, scored);
  }

  // ---------------------------------------------------------------- the model summary

  /** The instructions that begin the consolidation prompt (line 99). The model functions take
      them as the parameter `instructions`, which the application sets to this text. */
  const CONSOLIDATE: string := "You will be given bullet lists extracted from a legal agreement. Consolidate them into 5-10 NEW, UNIQUE, plain-language bullets (each starting with '- '). Focus on: parties & purpose, key obligations, payment & fees, term & renewal/termination, liability & indemnity, confidentiality/IP, jurisdiction/dispute, unusual penalties or auto-renewal traps. Avoid repetition; no legalese; <=25 words per bullet.\n\n"

  /** The consolidation prompt of lines 98-100: the instructions, then the batch replies one per
      line. */
  function ConsolidationPrompt(instructions: string, accum: seq<string>): string {
    instructions + Join("\n", accum)
  }

  /** The stripped reply to one batch of chunk texts (lines 94-97); `template` fills the
      summary prompt template with the text. */
  function BatchReply(reply: string -> string, template: string -> string, batch: seq<string>): string {
    Strip(reply(template(Join("\n\n", batch))))
  }

  function ReplyBlock(reply: string -> string, template: string -> string): seq<string> -> seq<string> {
    b => [BatchReply(reply, template, b)]
  }

  /** `bullet_accum` after the loop of lines 93-97: the replies to the batches of six. */
  function BatchReplies(reply: string -> string, template: string -> string, parts: seq<string>): seq<string> {
    Blocks(Batches(parts, 6), ReplyBlock(reply, template))
  }

  /** One reply per batch: none for no chunks, otherwise as many as it takes to cover the
      chunks six at a time. */
  lemma BatchRepliesCount(reply: string -> string, template: string -> string, parts: seq<string>)
    ensures var r := BatchReplies(reply, template, parts);
      |r| == |Batches(parts, 6)| && (parts == [] <==> r == [])
      && (parts != [] ==> (|r| - 1) * 6 < |parts| <= |r| * 6)
  {
    BatchesCount(parts, 6);
    BlocksOfSingletons(Batches(parts, 6), ReplyBlock(reply, template));
  }

  /** The batch loop of lines 93-97. */
  method CollectReplies(reply: string -> string, template: string -> string, parts: seq<string>) returns (accum: seq<string>)
    ensures accum == BatchReplies(reply, template, parts)
  {
    var block := ReplyBlock(reply, template);
    accum := [];
    var start := 0;
    while start < |parts|
      invariant 0 <= start <= |parts|
      invariant Blocks(Batches(parts, 6), block) == accum + Blocks(Batches(parts[start..], 6), block)
      decreases |parts| - start
    {
      var batch := Take(parts[start..], 6);
      var resp := reply(template(Join("\n\n", batch)));
      var next := NextBatchStart(|parts|, start, 6);
      BlocksLoopStep(parts, start, 6, block, accum, [Strip(resp)]);
      accum := accum + [Strip(resp)];
      start := next;
    }
    BlocksLoopDone(parts, 6, block, accum);
  }

  predicate DashOrSpace(c: char) { c == '-' || c == ' ' }

  predicate NotBlank(l: string) { Strip(l) != [] }

  /** `l.strip('- ').strip()`. */
  function Tidy(l: string): (r: string)
    ensures IsStripped(r) && |r| <= |l|
  {
    Strip(StripBy(l, DashOrSpace))
  }

  /** The lines of the consolidated reply (line 103): its non-blank lines, tidied. */
  function ReplyLines(overall: string): (r: seq<string>)
    ensures |r| <= |SplitLines(overall)|
    ensures forall i :: 0 <= i < |r| ==> IsStripped(r[i])
  {
    MapSeq(Filter(SplitLines(overall), NotBlank), Tidy)
  }

  // ---------------------------------------------------------------- category mapping of the reply

  /** The category of the first key of `table` contained in `low`: the search of lines 117-121
      stops at the first key that occurs, whether or not its category is already taken. */
  function FirstMapped(table: seq<(string, string)>, low: string): (r: Option<string>)
    ensures r.Some? ==> exists i :: 0 <= i < |table| && table[i].1 == r.value && Contains(low, table[i].0)
    ensures r.None? <==> forall i :: 0 <= i < |table| ==> !Contains(low, table[i].0)
  {
    if table == [] then None
    else if Contains(low, table[0].0) then Some(table[0].1)
    else
      var r := FirstMapped(table[1..], low);
      assert forall i :: 1 <= i < |table| ==> table[i] == table[1..][i - 1];
      r
  }

  /** The classifier of the model path. */
  function MapClassify(table: seq<(string, string)>): string -> Option<string> {
    l => FirstMapped(table, Lower(l))
  }

  /** `if cat in cat_best` (line 124). */
  function Found(best: map<string, string>): string -> bool {
    cat => cat in best
  }

  /** `f"{cat}: {cat_best[cat]}"` (line 124). */
  function LabelOf(best: map<string, string>): string -> string {
    cat => if cat in best then cat + ": " + best[cat] else ""
  }

  /** The lines after lines 113-124: when between one and ten categories were found, one line
      per found category in `order`, otherwise the lines unchanged. */
  function Arranged(order: seq<string>, table: seq<(string, string)>, lines: seq<string>): seq<string> {
    var best := Best(MapClassify(table), lines);
    if 0 < |best| <= 10 then MapSeq(Filter(order, Found(best)), LabelOf(best)) else lines
  }

  /** The categories the model path can find lie in the order, so at most ten are found and
      the `<= 10` of line 122 always holds. */
  lemma MappedBounded(order: seq<string>, table: seq<(string, string)>, lines: seq<string>)
    requires |order| <= 10
    requires forall i :: 0 <= i < |table| ==> table[i].1 in order
    ensures Best(MapClassify(table), lines).Keys <= KeysOf(order, (c: string) => c)
    ensures |Best(MapClassify(table), lines)| <= 10
  {
    var names := KeysOf(order, (c: string) => c);
    var classify := MapClassify(table);
    forall s | classify(s).Some? ensures classify(s).value in names {
      var i :| 0 <= i < |table| && table[i].1 == classify(s).value && Contains(Lower(s), table[i].0);
      var j :| 0 <= j < |order| && order[j] == table[i].1;
    }
    BestKeys(classify, lines, names);
    KeysOfSize(order, (c: string) => c);
    var best := Best(classify, lines);
    assert |best.Keys| == |best|;
    assert |best.Keys| <= |names| by {
      SubsetSize(best.Keys, names);
    }
  }

  lemma SubsetSize(a: set<string>, b: set<string>)
    requires a <= b
    ensures |a| <= |b|
  {
    assert b == a + (b - a);
  }

  /** Every category of the model path's table is in the bullet order. */
  lemma MapCategoriesOrdered()
    ensures forall i :: 0 <= i < |CATEGORY_MAP| ==> CATEGORY_MAP[i].1 in ORDER
  {
  }

  /** No category is found exactly when no sentence is classified. */
  lemma BestEmpty(classify: string -> Option<string>, sents: seq<string>)
    ensures Best(classify, sents) == map[] <==> forall i :: 0 <= i < |sents| ==> classify(sents[i]).None?
  {
    var best := Best(classify, sents);
    if exists i :: 0 <= i < |sents| && classify(sents[i]).Some? {
      var i :| 0 <= i < |sents| && classify(sents[i]).Some?;
      var _ := BestIsFirst(classify, sents, classify(sents[i]).value);
    } else {
      forall cat | cat in best ensures false {
        var _ := BestIsFirst(classify, sents, cat);
      }
      assert best.Keys == {};
    }
  }

  /** A reply none of whose lines names a category keeps its lines. */
  lemma ArrangedUnmapped(order: seq<string>, table: seq<(string, string)>, lines: seq<string>)
    requires forall i :: 0 <= i < |lines| ==> FirstMapped(table, Lower(lines[i])).None?
    ensures Arranged(order, table, lines) == lines
  {
    BestEmpty(MapClassify(table), lines);
  }

  /** When line `i` names a category, each line becomes "category: line" for a found
      category, in the order, the line being the first one classified under that category
      (`BestIsFirst`). */
  lemma ArrangedMapped(order: seq<string>, table: seq<(string, string)>, lines: seq<string>, i: nat)
    requires |order| <= 10
    requires forall i :: 0 <= i < |table| ==> table[i].1 in order
    requires i < |lines| && FirstMapped(table, Lower(lines[i])).Some?
    ensures 0 < |Arranged(order, table, lines)| <= |order|
    ensures var best := Best(MapClassify(table), lines);
      var r := Arranged(order, table, lines);
      forall k :: 0 <= k < |r| ==> IsLabelled(r[k], order, best)
  {
    var best := Best(MapClassify(table), lines);
    MappedBounded(order, table, lines);
    var cat := FoundAt(MapClassify(table), lines, i);
    ArrangedFound(order, table, lines);
    FilterMembers(order, Found(best), cat);
    LabelledLines(order, best);
  }

  /** A classified sentence gives its category a sentence. */
  lemma FoundAt(classify: string -> Option<string>, sents: seq<string>, i: nat) returns (cat: string)
    requires i < |sents| && classify(sents[i]).Some?
    ensures cat in Best(classify, sents) && 0 < |Best(classify, sents)|
  {
    cat := classify(sents[i]).value;
    var _ := BestIsFirst(classify, sents, cat);
    var best := Best(classify, sents);
    assert |best.Keys| == |best| && cat in best.Keys;
  }

  lemma ArrangedFound(order: seq<string>, table: seq<(string, string)>, lines: seq<string>)
    requires 0 < |Best(MapClassify(table), lines)| <= 10
    ensures var best := Best(MapClassify(table), lines);
      Arranged(order, table, lines) == MapSeq(Filter(order, Found(best)), LabelOf(best))
  {
  }

  /** `l` is "category: line" for a category of the order that was found. */
  predicate IsLabelled(l: string, order: seq<string>, best: map<string, string>) {
    exists cat :: cat in order && cat in best && l == cat + ": " + best[cat]
  }

  /** The labelled lines of the found categories, in the order. */
  lemma LabelledLines(order: seq<string>, best: map<string, string>)
    ensures var r := MapSeq(Filter(order, Found(best)), LabelOf(best));
      forall k :: 0 <= k < |r| ==> IsLabelled(r[k], order, best)
  {
    var f := Filter(order, Found(best));
    var r := MapSeq(f, LabelOf(best));
    forall k | 0 <= k < |r| ensures IsLabelled(r[k], order, best) {
      var c := f[k];
      FilterMembers(order, Found(best), c);
      assert c in order && c in best && r[k] == c + ": " + best[c];
    }
  }

  // ---------------------------------------------------------------- cleaning

  predicate NonEmpty(l: string) { l != [] }

  /** `'- ' + l[:160]`. */
  function BulletLine(l: string): string { "- " + Take(l, 160) }

  /** `cleaned` after lines 125-136: the first ten of the non-empty lines, each kept only when
      no earlier kept line is equal to it ignoring case, as bullets of at most 160 characters. */
  function Cleaned(lines: seq<string>): seq<string> {
    Take(MapSeq(DedupeBy(Filter(lines, NonEmpty), Lower), BulletLine), 10)
  }

  /** At most ten bullets, each "- " and at most 160 characters of a non-empty line of the
      input; bullets that were not cut differ from each other ignoring case. */
  lemma CleanedBullets(lines: seq<string>)
    ensures var r := Cleaned(lines);
      |r| <= 10
      && (forall i :: 0 <= i < |r| ==> |r[i]| <= 162 && exists l :: l in lines && l != [] && r[i] == "- " + Take(l, 160))
      && forall i, j :: 0 <= i < j < |r| && |r[i]| < 162 && |r[j]| < 162 ==> Lower(r[i]) != Lower(r[j])
  {
    var ne := Filter(lines, NonEmpty);
    var kept := DedupeBy(ne, Lower);
    DedupeByProperties(ne, Lower);
    SubseqMembers(kept, ne);
    var m := MapSeq(kept, BulletLine);
    var r := Cleaned(lines);
    forall i | 0 <= i < |r| ensures exists l :: l in lines && l != [] && r[i] == "- " + Take(l, 160) {
      assert r[i] == m[i] == BulletLine(kept[i]);
      assert kept[i] in ne;
      FilterMembers(lines, NonEmpty, kept[i]);
    }
    forall i, j | 0 <= i < j < |r| && |r[i]| < 162 && |r[j]| < 162 ensures Lower(r[i]) != Lower(r[j]) {
      assert r[i] == "- " + kept[i] && r[j] == "- " + kept[j];
      LowerConcat("- ", kept[i]);
      LowerConcat("- ", kept[j]);
      assert Lower(kept[i]) != Lower(kept[j]);
      assert Lower(r[i])[2..] == Lower(kept[i]);
      assert Lower(r[j])[2..] == Lower(kept[j]);
    }
  }

  /** One step of the cleaning loop: an empty line or one whose lowercase was seen is skipped,
      any other is kept. */
  lemma CleanStep(lines: seq<string>, i: nat, kept: seq<string>)
    requires i < |lines| && kept == DedupeBy(Filter(lines[..i], NonEmpty), Lower)
    ensures lines[i] == [] ==> DedupeBy(Filter(lines[..i + 1], NonEmpty), Lower) == kept
    ensures lines[i] != [] && Lower(lines[i]) in KeysOf(kept, Lower) ==>
      DedupeBy(Filter(lines[..i + 1], NonEmpty), Lower) == kept
    ensures lines[i] != [] && Lower(lines[i]) !in KeysOf(kept, Lower) ==>
      DedupeBy(Filter(lines[..i + 1], NonEmpty), Lower) == kept + [lines[i]]
      && KeysOf(kept + [lines[i]], Lower) == KeysOf(kept, Lower) + {Lower(lines[i])}
  {
    FilterSnoc(lines, i, NonEmpty);
    var f := Filter(lines[..i], NonEmpty);
    if lines[i] != [] {
      DedupeBySnoc(f, lines[i], Lower);
      KeysOfAppend(kept, lines[i], Lower);
    } else {
      assert f + [] == f;
    }
  }

  /** Once ten lines are kept, the later lines add nothing to the first ten bullets: the
      `break` of line 136 does not change the result. */
  lemma CleanedEarly(lines: seq<string>, i: nat, kept: seq<string>)
    requires i <= |lines| && kept == DedupeBy(Filter(lines[..i], NonEmpty), Lower) && |kept| == 10
    ensures Cleaned(lines) == MapSeq(kept, BulletLine)
  {
    var a, b := lines[..i], lines[i..];
    assert lines == a + b;
    FilterAppend(a, b, NonEmpty);
    var fa, fb := Filter(a, NonEmpty), Filter(b, NonEmpty);
    DedupeByPrefix(fa, fb, Lower);
    var all := DedupeBy(fa + fb, Lower);
    assert all == kept + all[10..];
    MapSeqConcat(kept, all[10..], BulletLine);
    var m := MapSeq(kept, BulletLine);
    assert (m + MapSeq(all[10..], BulletLine))[..10] == m;
  }

  /** The cleaning loop of lines 125-136. */
  method CleanBullets(lines: seq<string>) returns (cleaned: seq<string>)
    ensures cleaned == Cleaned(lines)
  {
    ghost var kept: seq<string> := [];
    var seen: set<string> := {};
    cleaned := [];
    var i := 0;
    while i < |lines|
      invariant i <= |lines|
      invariant kept == DedupeBy(Filter(lines[..i], NonEmpty), Lower)
      invariant seen == KeysOf(kept, Lower)
      invariant cleaned == MapSeq(kept, BulletLine) && |cleaned| < 10
    {
      CleanStep(lines, i, kept);
      var l := lines[i];
      if l != [] {
        var key := Lower(l);
        if key !in seen {
          seen := seen + {key};
          MapSeqAppend(kept, l, BulletLine);
          kept := kept + [l];
          cleaned := cleaned + [BulletLine(l)];
          if |cleaned| >= 10 {
            CleanedEarly(lines, i + 1, kept);
            return;
          }
        }
      }
      i := i + 1;
    }
    assert lines[..i] == lines;
  }

  // ---------------------------------------------------------------- the model summary of a document

  /** The consolidated reply of lines 92-101: the model's reply to the consolidation prompt
      built from its replies to the batches. */
  function Consolidated(reply: string -> string, template: string -> string, instructions: string, parts: seq<string>): string {
    reply(ConsolidationPrompt(instructions, BatchReplies(reply, template, parts)))
  }

  /** The bullets made from the consolidated reply (lines 103-137), with `table` for the
      category map and `order` for the bullet order. */
  function ReplySummary(order: seq<string>, table: seq<(string, string)>, overall: string): string {
    Join("\n", Cleaned(Arranged(order, table, ReplyLines(overall))))
  }

  /** The summary of one document with a real model (lines 92-137). */
  function ModelSummary(reply: string -> string, template: string -> string, instructions: string, order: seq<string>,
                        table: seq<(string, string)>, parts: seq<string>): string
  {
    ReplySummary(order, table, Consolidated(reply, template, instructions, parts))
  }

  /** The category loop of lines 115-121. */
  method MapBest(table: seq<(string, string)>, lines: seq<string>) returns (best: map<string, string>)
    ensures best == Best(MapClassify(table), lines)
  {
    best := map[];
    for i := 0 to |lines|
      invariant best == Best(MapClassify(table), lines[..i])
    {
      BestStep(MapClassify(table), lines, i);
      var l := lines[i];
      var cat := FirstMapped(table, Lower(l));
      if cat.Some? && cat.value !in best {
        best := best[cat.value := l];
      }
    }
    assert lines[..|lines|] == lines;
  }

  /** Lines 92-101, step by step. */
  method Consolidate(reply: string -> string, template: string -> string, instructions: string, parts: seq<string>)
    returns (overall: string)
    ensures overall == Consolidated(reply, template, instructions, parts)
  {
    var accum := CollectReplies(reply, template, parts);
    overall := reply(ConsolidationPrompt(instructions, accum));
  }

  /** Lines 103-137, step by step. */
  method SummarizeReply(order: seq<string>, table: seq<(string, string)>, overall: string) returns (summary: string)
    ensures summary == ReplySummary(order, table, overall)
  {
    var lines := ReplyLines(overall);
    var best := MapBest(table, lines);
    if 0 < |best| <= 10 {
      lines := MapSeq(Filter(order, Found(best)), LabelOf(best));
    }
    var cleaned := CleanBullets(lines);
    summary := Join("\n", cleaned);
  }

  /** Lines 92-137, step by step. */
  method ModelDocumentSummary(reply: string -> string, template: string -> string, instructions: string,
                              order: seq<string>, table: seq<(string, string)>, parts: seq<string>) returns (summary: string)
    ensures summary == ModelSummary(reply, template, instructions, order, table, parts)
  {
    var overall := Consolidate(reply, template, instructions, parts);
    summary := SummarizeReply(order, table, overall);
  }

  // ---------------------------------------------------------------- all documents

  function DocOf(c: Chunk): string { c.documentName }

  function ContentOf(c: Chunk): string { c.content }

  function NameOf(d: Document): string { d.name }

  function OfDoc(name: string): Chunk -> bool {
    (c: Chunk) => c.documentName == name
  }

  /** `chunks_by_doc.get(name, [])`: the texts of the document's chunks, in chunk order. */
  function PartsOf(chunks: seq<Chunk>, name: string): seq<string> {
    MapSeq(Filter(chunks, OfDoc(name)), ContentOf)
  }

  lemma PartsStep(chunks: seq<Chunk>, i: nat, name: string)
    requires i < |chunks|
    ensures PartsOf(chunks[..i + 1], name)
      == PartsOf(chunks[..i], name) + (if chunks[i].documentName == name then [chunks[i].content] else [])
  {
    FilterSnoc(chunks, i, OfDoc(name));
    var f := Filter(chunks[..i], OfDoc(name));
    if chunks[i].documentName == name {
      MapSeqAppend(f, chunks[i], ContentOf);
    } else {
      assert f + [] == f;
    }
  }

  /** A document without chunks has no parts. */
  lemma PartsOfAbsent(chunks: seq<Chunk>, name: string)
    requires name !in KeysOf(chunks, DocOf)
    ensures PartsOf(chunks, name) == []
  {
    forall i | 0 <= i < |chunks| ensures !OfDoc(name)(chunks[i]) {
      assert DocOf(chunks[i]) in KeysOf(chunks, DocOf);
    }
    FilterNone(chunks, OfDoc(name));
  }

  /** The grouping of the chunks before `c`, extended by `c` (the `setdefault(...).append` of
      line 83). */
  function AddChunk(byDoc: map<string, seq<string>>, c: Chunk): map<string, seq<string>> {
    byDoc[c.documentName := (if c.documentName in byDoc then byDoc[c.documentName] else []) + [c.content]]
  }

  /** The grouping of a prefix of the chunks: a key per document with chunks there, holding
      their texts in order. */
  predicate GroupsPrefix(byDoc: map<string, seq<string>>, chunks: seq<Chunk>) {
    byDoc.Keys == KeysOf(chunks, DocOf) && forall name :: name in byDoc ==> byDoc[name] == PartsOf(chunks, name)
  }

  lemma GroupStep(byDoc: map<string, seq<string>>, chunks: seq<Chunk>, i: nat)
    requires i < |chunks| && GroupsPrefix(byDoc, chunks[..i])
    ensures GroupsPrefix(AddChunk(byDoc, chunks[i]), chunks[..i + 1])
  {
    var c := chunks[i];
    var next := AddChunk(byDoc, c);
    var pre := chunks[..i];
    assert chunks[..i + 1] == pre + [c];
    KeysOfAppend(pre, c, DocOf);
    assert next.Keys == byDoc.Keys + {c.documentName};
    forall name | name in next ensures next[name] == PartsOf(chunks[..i + 1], name) {
      PartsStep(chunks, i, name);
      if name == c.documentName {
        if name !in byDoc {
          PartsOfAbsent(pre, name);
        }
      } else {
        assert next[name] == byDoc[name];
      }
    }
  }

  /** The grouping loop of lines 81-83: a key per document that has chunks, holding its chunk
      texts in order; the `.get(name, [])` of line 86 then gives every document its parts. */
  method GroupChunks(chunks: seq<Chunk>) returns (byDoc: map<string, seq<string>>)
    ensures byDoc.Keys == KeysOf(chunks, DocOf)
    ensures forall name :: name in byDoc ==> byDoc[name] == PartsOf(chunks, name)
    ensures forall name :: name !in byDoc ==> PartsOf(chunks, name) == []
  {
    byDoc := map[];
    for i := 0 to |chunks|
      invariant GroupsPrefix(byDoc, chunks[..i])
    {
      GroupStep(byDoc, chunks, i);
      var c := chunks[i];
      if c.documentName in byDoc {
        byDoc := byDoc[c.documentName := byDoc[c.documentName] + [c.content]];
      } else {
        byDoc := byDoc[c.documentName := [c.content]];
      }
    }
    assert chunks[..|chunks|] == chunks;
    forall name | name !in byDoc ensures PartsOf(chunks, name) == [] {
      PartsOfAbsent(chunks, name);
    }
  }

  /** `llm.generate` as a function of the prompt. */
  function ModelReply(llm: LlmClient): string -> string {
    p => Generate(llm, p)
  }

  /** The summary of one document: heuristic with the stub model (lines 87-90), the model
      summary otherwise. */
  function DocSummary(llm: LlmClient, template: string -> string, instructions: string, parts: seq<string>): string {
    if IsStub(llm) then HeuristicSummary(parts)
    else ModelSummary(ModelReply(llm), template, instructions, ORDER, CATEGORY_MAP, parts)
  }

  /** The body of the document loop (lines 86-137). */
  method SummarizeParts(llm: LlmClient, template: string -> string, instructions: string, parts: seq<string>)
    returns (s: string)
    ensures s == DocSummary(llm, template, instructions, parts)
  {
    if IsStub(llm) {
      s := HeuristicDocumentSummary(parts);
    } else {
      s := ModelDocumentSummary(ModelReply(llm), template, instructions, ORDER, CATEGORY_MAP, parts);
    }
  }

  /** Every summary in the map is the summary of its document's chunk texts. */
  predicate Summarized(summaries: map<string, string>, llm: LlmClient, template: string -> string, instructions: string,
                       chunks: seq<Chunk>) {
    forall name :: name in summaries ==> summaries[name] == DocSummary(llm, template, instructions, PartsOf(chunks, name))
  }

  lemma SummarizedStep(summaries: map<string, string>, llm: LlmClient, template: string -> string, instructions: string,
                       chunks: seq<Chunk>,
                       name: string, s: string)
    requires Summarized(summaries, llm, template, instructions, chunks)
    requires s == DocSummary(llm, template, instructions, PartsOf(chunks, name))
    ensures Summarized(summaries[name := s], llm, template, instructions, chunks)
  {
    forall n | n in summaries[name := s]
      ensures summaries[name := s][n] == DocSummary(llm, template, instructions, PartsOf(chunks, n))
    {
      if n != name {
        assert summaries[name := s][n] == summaries[n];
      }
    }
  }

  /** Recording a summary for the next document adds its name to the keys. */
  lemma NamesStep(summaries: map<string, string>, docs: seq<Document>, i: nat, s: string)
    requires i < |docs| && summaries.Keys == KeysOf(docs[..i], NameOf)
    ensures summaries[docs[i].name := s].Keys == KeysOf(docs[..i + 1], NameOf)
  {
    assert docs[..i + 1] == docs[..i] + [docs[i]];
    KeysOfAppend(docs[..i], docs[i], NameOf);
  }

  /** `summarize_documents` (lines 78-138): a summary for every document name, made from the
      texts of that document's chunks. */
  method SummarizeDocuments(llm: LlmClient, template: string -> string, instructions: string, docs: seq<Document>,
                            chunks: seq<Chunk>)
    returns (summaries: map<string, string>)
    ensures summaries.Keys == KeysOf(docs, NameOf)
    ensures Summarized(summaries, llm, template, instructions, chunks)
  {
    var byDoc := GroupChunks(chunks);
    summaries := map[];
    for i := 0 to |docs|
      invariant summaries.Keys == KeysOf(docs[..i], NameOf)
      invariant Summarized(summaries, llm, template, instructions, chunks)
    {
      var doc := docs[i];
      var parts := if doc.name in byDoc then byDoc[doc.name] else [];
      assert parts == PartsOf(chunks, doc.name);
      var s := SummarizeParts(llm, template, instructions, parts);
      SummarizedStep(summaries, llm, template, instructions, chunks, doc.name, s);
      NamesStep(summaries, docs, i, s);
      summaries := summaries[doc.name := s];
    }
    assert docs[..|docs|] == docs;
  }
}
