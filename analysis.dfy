/** The legacy analysis helpers of modules/analysis.py: keyword-based key clauses with a
    snippet window, keyword severities, and the three numeric scores (the answer confidence,
    the similarity confidence and the risk index). Python floats are modelled as reals. */
module LegacyAnalysis {
  import opened Wrappers
  import opened Text
  import opened Seqs
  import opened Types
  import Embeddings

  // ---------------------------------------------------------------- rounding

  /** Python's `round(x)`: the nearest integer, ties to the even one. */
  function RoundHalfEven(x: real): (r: int)
    ensures x - 0.5 <= r as real <= x + 0.5
    ensures (r as real == x - 0.5 || r as real == x + 0.5) ==> r % 2 == 0
  {
    var f := x.Floor;
    var d := x - f as real;
    if d < 0.5 then f else if d > 0.5 then f + 1 else if f % 2 == 0 then f else f + 1
  }

  /** Rounding never reverses an order. */
  lemma RoundMonotone(x: real, y: real)
    requires x <= y
    ensures RoundHalfEven(x) <= RoundHalfEven(y)
  {
  }

  /** Rounding keeps an integer. */
  lemma RoundOfInt(n: int)
    ensures RoundHalfEven(n as real) == n
  {
  }

  /** Python's `round(x, 2)`. */
  function Round2(x: real): real {
    RoundHalfEven(x * 100.0) as real / 100.0
  }

  /** Rounding to cents keeps a value that lies between two whole cents between them. */
  lemma Round2Between(x: real, lo: int, hi: int)
    requires lo as real / 100.0 <= x <= hi as real / 100.0
    ensures lo as real / 100.0 <= Round2(x) <= hi as real / 100.0
  {
    RoundMonotone(lo as real, x * 100.0);
    RoundMonotone(x * 100.0, hi as real);
    RoundOfInt(lo);
    RoundOfInt(hi);
  }

  /** Rounding a whole number of cents to cents keeps it. */
  lemma Round2OfCents(n: int)
    ensures Round2(n as real / 100.0) == n as real / 100.0
  {
    assert n as real / 100.0 * 100.0 == n as real;
    RoundOfInt(n);
  }

  /** `max(0.05, min(0.95, x))`. */
  function Clamp(x: real): (r: real)
    ensures 0.05 <= r <= 0.95
    ensures 0.05 <= x <= 0.95 ==> r == x
  {
    MaxReal(0.05, MinReal(0.95, x))
  }

  /** `round(max(0.05, min(0.95, x)), 2)` (lines 160 and 174): always in [0.05, 0.95]. */
  function RoundedClamp(x: real): (r: real)
    ensures 0.05 <= r <= 0.95
  {
    Round2Between(Clamp(x), 5, 95);
    Round2(Clamp(x))
  }

  // ---------------------------------------------------------------- key clauses

  /** `RISK_KEYWORDS` (lines 18-30), in dictionary order: a keyword and its note. */
  const RISK_KEYWORDS: seq<(string, string)> := [
    ("penalty", "Potential penalty clause – check amounts and triggers."),
    ("terminate", "Termination terms – verify notice periods and conditions."),
    ("auto-renew", "Auto-renewal – ensure you know how to opt out."),
    ("renew", "Renewal terms – look for automatic extensions."),
    ("indemnify", "Indemnification – check scope of liability."),
    ("liability", "Liability limitation – confirm caps and exclusions."),
    ("warranty", "Warranty/guarantee terms – confirm duration and scope."),
    ("confidential", "Confidentiality obligations – check duration & carve-outs."),
    ("governing law", "Jurisdiction – ensure acceptable governing law."),
    ("exclusive", "Exclusivity – may restrict other partnerships."),
    ("non-compete", "Non-compete – evaluate scope & duration.")
  ]

  /** `CLAUSE_CATEGORIES` (lines 33-52): a keyword and its category. */
  const CLAUSE_CATEGORIES: seq<(string, string)> := [
    ("terminate", "Termination"), ("termination", "Termination"), ("penalty", "Penalty"),
    ("auto-renew", "Renewal"), ("renew", "Renewal"), ("indemnify", "Indemnification"),
    ("indemnification", "Indemnification"), ("liability", "Liability"), ("warranty", "Warranty"),
    ("confidential", "Confidentiality"), ("governing law", "Jurisdiction"), ("jurisdiction", "Jurisdiction"),
    ("exclusive", "Exclusivity"), ("non-compete", "Non-Compete"), ("payment", "Payment"), ("fee", "Payment"),
    ("intellectual property", "Intellectual Property"), ("ownership", "Intellectual Property")
  ]

  /** `table.get(key, default)` on a table of key-value pairs. */
  function Lookup(table: seq<(string, string)>, key: string, default: string): (r: string)
    ensures (forall i :: 0 <= i < |table| ==> table[i].0 != key) ==> r == default
    ensures (exists i :: 0 <= i < |table| && table[i].0 == key) ==> (key, r) in table
  {
    if table == [] then default
    else if table[0].0 == key then table[0].1
    else
      var r := Lookup(table[1..], key, default);
      assert forall i :: 1 <= i < |table| ==> table[i] == table[1..][i - 1];
      r
  }

  /** The entry of lines 86-92. */
  datatype KeyClause = KeyClause(keyword: string, category: string, snippet: string, page: Option<int>, note: string)

  /** `d.metadata.get("page", d.metadata.get("page_number"))` (line 90). */
  function PageOf(d: StoreDocument): (r: Option<int>)
    ensures "page" in d.metadata ==> r == Some(d.metadata["page"])
    ensures "page" !in d.metadata ==> r == d.Get("page_number")
  {
    if "page" in d.metadata then d.Get("page") else d.Get("page_number")
  }

  /** The snippet of lines 82-84: up to 120 characters before `idx` and 180 from it, clipped to
      the text, with newlines replaced by spaces. */
  function Snippet(text: string, idx: nat): (r: string)
    requires idx <= |text|
    ensures |r| == Min(idx, 120) + Min(|text| - idx, 180)
    ensures '\n' !in r
  {
    var start := Max(0, idx - 120);
    var end := Min(|text|, idx + 180);
    var r := ReplaceChar(text[start..end], '\n', ' ');
    assert forall k :: 0 <= k < |r| ==> r[k] != '\n';
    r
  }

  /** The snippet shows the keyword it was cut around, whenever the keyword fits in the 180
      characters after its start and has no newline. */
  lemma SnippetShowsKeyword(text: string, kw: string, idx: nat)
    requires OccursAt(Lower(text), kw, idx) && |kw| <= 180 && '\n' !in kw
    ensures Contains(Lower(Snippet(text, idx)), kw)
  {
    var start := Max(0, idx - 120);
    var low := Lower(Snippet(text, idx));
    var off := idx - start;
    forall m | 0 <= m < |kw| ensures low[off + m] == kw[m] {
      SnippetChar(text, idx, off + m);
      assert Lower(text)[idx + m] == kw[m];
    }
    assert low[off..off + |kw|] == kw;
    ContainsWitness(low, kw, off);
  }

  /** A character of the snippet, lower-cased, is the lower-cased character of the text unless
      that one is a newline. */
  lemma SnippetChar(text: string, idx: nat, k: nat)
    requires idx <= |text| && k < Min(idx, 120) + Min(|text| - idx, 180)
    ensures var c := text[Max(0, idx - 120) + k];
      c != '\n' ==> Lower(Snippet(text, idx))[k] == LowerChar(c)
  {
  }

  /** The entry for keyword `risk.0` in a document whose lower-cased text contains it. */
  function ClauseAt(risk: (string, string), categories: seq<(string, string)>, d: StoreDocument): KeyClause
    requires Contains(Lower(d.pageContent), risk.0)
  {
    var idx := IndexOf(Lower(d.pageContent), risk.0).value;
    KeyClause(risk.0, Lookup(categories, risk.0, "General"), Snippet(d.pageContent, idx), PageOf(d), risk.1)
  }

  /** Lines 80-92 for one keyword: an entry iff the keyword occurs case-insensitively. */
  function KeywordHit(risk: (string, string), categories: seq<(string, string)>, d: StoreDocument): seq<KeyClause> {
    if Contains(Lower(d.pageContent), risk.0) then [ClauseAt(risk, categories, d)] else []
  }

  function HitBlock(categories: seq<(string, string)>, d: StoreDocument): ((string, string)) -> seq<KeyClause> {
    risk => KeywordHit(risk, categories, d)
  }

  /** The inner loop of lines 79-92: the entries of one document, in keyword order. */
  function DocClauses(risks: seq<(string, string)>, categories: seq<(string, string)>, d: StoreDocument): seq<KeyClause> {
    Blocks(risks, HitBlock(categories, d))
  }

  function DocBlock(risks: seq<(string, string)>, categories: seq<(string, string)>): StoreDocument -> seq<KeyClause> {
    d => DocClauses(risks, categories, d)
  }

  /** The outer loop of lines 77-92: the entries of all documents, in document order. */
  function Candidates(risks: seq<(string, string)>, categories: seq<(string, string)>, docs: seq<StoreDocument>): seq<KeyClause> {
    Blocks(docs, DocBlock(risks, categories))
  }

  /** The deduplication key of line 97. */
  function PageKey(c: KeyClause): (string, Option<int>) {
    (c.keyword, c.page)
  }

  /** `extract_key_clauses` (lines 74-101) over the given tables. */
  function KeyClauses(risks: seq<(string, string)>, categories: seq<(string, string)>, docs: seq<StoreDocument>,
                      topN: int): seq<KeyClause> {
    PyTake(DedupeBy(Candidates(risks, categories, docs), PageKey), topN)
  }

  /** Every entry of one keyword carries that keyword, its note and its category, and a snippet
      of at most 300 characters without newlines that shows the keyword. */
  lemma KeywordHitShaped(risk: (string, string), categories: seq<(string, string)>, d: StoreDocument, c: KeyClause)
    requires c in KeywordHit(risk, categories, d)
    ensures Contains(Lower(d.pageContent), c.keyword)
    ensures c.keyword == risk.0 && c.note == risk.1 && c.page == PageOf(d)
    ensures c.category == Lookup(categories, risk.0, "General")
    ensures |c.snippet| <= 300 && '\n' !in c.snippet
    ensures |risk.0| <= 180 && '\n' !in risk.0 ==> Contains(Lower(c.snippet), risk.0)
  {
    var idx := IndexOf(Lower(d.pageContent), risk.0).value;
    if |risk.0| <= 180 && '\n' !in risk.0 {
      SnippetShowsKeyword(d.pageContent, risk.0, idx);
    }
  }

  /** Every candidate comes from a keyword of the table found in one of the documents. */
  lemma CandidateOrigin(risks: seq<(string, string)>, categories: seq<(string, string)>, docs: seq<StoreDocument>,
                        c: KeyClause)
    requires c in Candidates(risks, categories, docs)
    ensures exists i, j :: 0 <= i < |docs| && 0 <= j < |risks| && c in KeywordHit(risks[j], categories, docs[i])
  {
    BlocksMember(docs, DocBlock(risks, categories), c);
    var i :| 0 <= i < |docs| && c in DocClauses(risks, categories, docs[i]);
    BlocksMember(risks, HitBlock(categories, docs[i]), c);
    var j :| 0 <= j < |risks| && c in KeywordHit(risks[j], categories, docs[i]);
  }

  /** What lines 93-101 promise: at most one entry per (keyword, page), at most `top_n` entries
      (a prefix of the deduplicated list), each from a keyword found in a document; and when
      nothing is cut, every (keyword, page) found is reported. */
  lemma KeyClausesProperties(risks: seq<(string, string)>, categories: seq<(string, string)>, docs: seq<StoreDocument>,
                             topN: int)
    ensures var r := KeyClauses(risks, categories, docs, topN);
      && DistinctKeys(r, PageKey)
      && (topN >= 0 ==> |r| <= topN)
      && r == DedupeBy(Candidates(risks, categories, docs), PageKey)[..|r|]
      && (forall c :: c in r ==> c in Candidates(risks, categories, docs))
      && (topN >= |Candidates(risks, categories, docs)| ==>
            KeysOf(r, PageKey) == KeysOf(Candidates(risks, categories, docs), PageKey))
  {
    var all := Candidates(risks, categories, docs);
    var u := DedupeBy(all, PageKey);
    var r := PyTake(u, topN);
    DedupeByProperties(all, PageKey);
    SubseqMembers(u, all);
    forall i, j | 0 <= i < j < |r| ensures PageKey(r[i]) != PageKey(r[j]) {
      assert r[i] == u[i] && r[j] == u[j];
    }
    if topN >= |all| {
      KeysOfSize(u, PageKey);
      SubseqLength(u, all);
      assert r == u;
    }
  }

  /** One keyword of the inner loop. */
  lemma ScanStep(risks: seq<(string, string)>, categories: seq<(string, string)>, docs: seq<StoreDocument>, i: nat, j: nat)
    requires i < |docs| && j < |risks|
    ensures Blocks(docs[..i], DocBlock(risks, categories)) + DocClauses(risks[..j + 1], categories, docs[i])
      == (Blocks(docs[..i], DocBlock(risks, categories)) + DocClauses(risks[..j], categories, docs[i]))
         + KeywordHit(risks[j], categories, docs[i])
  {
    BlocksSnoc(risks, j, HitBlock(categories, docs[i]));
  }

  /** One document of the outer loop. */
  lemma DocStep(risks: seq<(string, string)>, categories: seq<(string, string)>, docs: seq<StoreDocument>, i: nat)
    requires i < |docs|
    ensures Blocks(docs[..i + 1], DocBlock(risks, categories))
      == Blocks(docs[..i], DocBlock(risks, categories)) + DocClauses(risks[..|risks|], categories, docs[i])
  {
    BlocksSnoc(docs, i, DocBlock(risks, categories));
    assert risks[..|risks|] == risks;
  }

  /** The scanning loops of lines 77-92. */
  method CollectKeyClauses(risks: seq<(string, string)>, categories: seq<(string, string)>, docs: seq<StoreDocument>)
    returns (clauses: seq<KeyClause>)
    ensures clauses == Candidates(risks, categories, docs)
  {
    clauses := [];
    var i := 0;
    while i < |docs|
      invariant i <= |docs|
      invariant clauses == Blocks(docs[..i], DocBlock(risks, categories))
    {
      var d := docs[i];
      var low := Lower(d.pageContent);
      var j := 0;
      while j < |risks|
        invariant j <= |risks|
        invariant clauses == Blocks(docs[..i], DocBlock(risks, categories)) + DocClauses(risks[..j], categories, d)
      {
        ScanStep(risks, categories, docs, i, j);
        var kw := risks[j].0;
        if Contains(low, kw) {
          var idx := IndexOf(low, kw).value;
          clauses := clauses + [KeyClause(kw, Lookup(categories, kw, "General"), Snippet(d.pageContent, idx), PageOf(d), risks[j].1)];
        }
        j := j + 1;
      }
      DocStep(risks, categories, docs, i);
      i := i + 1;
    }
    assert docs[..i] == docs;
  }

  /** The `seen`-set loop of lines 94-100. */
  method DedupePages(clauses: seq<KeyClause>) returns (unique: seq<KeyClause>)
    ensures unique == DedupeBy(clauses, PageKey)
  {
    var seen: set<(string, Option<int>)> := {};
    unique := [];
    var i := 0;
    while i < |clauses|
      invariant i <= |clauses|
      invariant unique == DedupeBy(clauses[..i], PageKey)
      invariant seen == KeysOf(unique, PageKey)
    {
      DedupeStep(clauses, i, unique, PageKey);
      var key := (clauses[i].keyword, clauses[i].page);
      if key !in seen {
        seen := seen + {key};
        unique := unique + [clauses[i]];
      }
      i := i + 1;
    }
    assert clauses[..i] == clauses;
  }

  /** `extract_key_clauses` (lines 74-101) with the module's tables. */
  method ExtractKeyClauses(docs: seq<StoreDocument>, topN: int) returns (clauses: seq<KeyClause>)
    ensures clauses == KeyClauses(RISK_KEYWORDS, CLAUSE_CATEGORIES, docs, topN)
  {
    var found := CollectKeyClauses(RISK_KEYWORDS, CLAUSE_CATEGORIES, docs);
    var unique := DedupePages(found);
    clauses := PyTake(unique, topN);
  }

  // ---------------------------------------------------------------- red flags

  /** The keywords of line 111. */
  const HIGH_KEYWORDS: set<string> := {"penalty", "indemnify", "liability", "exclusive", "non-compete"}

  /** The severity of lines 109-114: the renewal and termination branch sets the same
      "medium" as the default. */
  function Severity(keyword: string): (r: string)
    ensures r == "high" || r == "medium"
  {
    if keyword in HIGH_KEYWORDS then "high"
    else if keyword in {"auto-renew", "renew", "terminate"} then "medium"
    else "medium"
  }

  /** `{**c, "severity": severity}` (line 115): the entry with every field kept. */
  datatype LegacyFlag = LegacyFlag(clause: KeyClause, severity: string)

  /** `detect_red_flags` (lines 106-116). */
  method DetectRedFlags(clauses: seq<KeyClause>) returns (flags: seq<LegacyFlag>)
    ensures |flags| == |clauses|
    ensures forall i :: 0 <= i < |clauses| ==> flags[i].clause == clauses[i]
    ensures forall i :: 0 <= i < |clauses| ==>
      (flags[i].severity == "high" <==> clauses[i].keyword in HIGH_KEYWORDS)
      && (flags[i].severity == "medium" <==> clauses[i].keyword !in HIGH_KEYWORDS)
  {
    flags := [];
    var i := 0;
    while i < |clauses|
      invariant i <= |clauses| && |flags| == i
      invariant forall k :: 0 <= k < i ==> flags[k] == LegacyFlag(clauses[k], Severity(clauses[k].keyword))
    {
      var severity := "medium";
      var kw := clauses[i].keyword;
      if kw in HIGH_KEYWORDS {
        severity := "high";
      } else if kw in {"auto-renew", "renew", "terminate"} {
        severity := "medium";
      }
      flags := flags + [LegacyFlag(clauses[i], severity)];
      i := i + 1;
    }
  }

  // ---------------------------------------------------------------- risk index

  /** `weights.get(f.get("severity", "low"), 1)` (lines 178-179): an absent severity counts as
      "low". */
  function Weight(severity: Option<string>): (w: nat)
    ensures 1 <= w <= 3
    ensures severity == Some("high") <==> w == 3
    ensures severity == Some("medium") <==> w == 2
  {
    if severity == Some("high") then 3 else if severity == Some("medium") then 2 else 1
  }

  /** `raw` (line 179): the sum of the weights. */
  function RawScore(severities: seq<Option<string>>): nat {
    if severities == [] then 0 else RawScore(severities[..|severities| - 1]) + Weight(severities[|severities| - 1])
  }

  /** Every flag weighs between 1 and 3. */
  lemma {:induction false} RawScoreBounds(severities: seq<Option<string>>)
    ensures |severities| <= RawScore(severities) <= 3 * |severities|
    decreases |severities|
  {
    if severities != [] {
      RawScoreBounds(severities[..|severities| - 1]);
    }
  }

  /** The severities that `detect_red_flags` attaches. */
  function SeverityOf(f: LegacyFlag): Option<string> {
    Some(f.severity)
  }

  /** The severities `detect_red_flags` attaches, all "high" or "medium", weigh 2 each plus 1
      per "high"; the top score means every one is "high". */
  lemma {:induction false} RawScoreOfFlagged(severities: seq<Option<string>>)
    requires forall i :: 0 <= i < |severities| ==> severities[i] == Some("high") || severities[i] == Some("medium")
    ensures 2 * |severities| <= RawScore(severities) <= 3 * |severities|
    ensures RawScore(severities) == 3 * |severities| <==> forall i :: 0 <= i < |severities| ==> severities[i] == Some("high")
    decreases |severities|
  {
    if severities != [] {
      var init := severities[..|severities| - 1];
      assert forall i :: 0 <= i < |init| ==> init[i] == severities[i];
      RawScoreOfFlagged(init);
    }
  }

  /** The flags of `detect_red_flags` weigh between 2 and 3 each, and the top score means
      every flag is high. */
  lemma FlaggedRawScore(flags: seq<LegacyFlag>)
    requires forall i :: 0 <= i < |flags| ==> flags[i].severity == "high" || flags[i].severity == "medium"
    ensures 2 * |flags| <= RawScore(MapSeq(flags, SeverityOf)) <= 3 * |flags|
    ensures RawScore(MapSeq(flags, SeverityOf)) == 3 * |flags| <==> forall i :: 0 <= i < |flags| ==> flags[i].severity == "high"
  {
    var s := MapSeq(flags, SeverityOf);
    assert forall i :: 0 <= i < |flags| ==> (s[i] == Some("high") <==> flags[i].severity == "high");
    RawScoreOfFlagged(s);
  }

  /** `denom` (line 181), given `math.log10`: never below 1. */
  function Denominator(log10: real -> real, totalChars: int): (r: real)
    ensures r >= 1.0
  {
    MaxReal(1.0, log10(Max(50, totalChars) as real / 1000.0 + 1.0))
  }

  /** `scaled` (line 182): in [0, 100]. */
  function Scaled(raw: nat, denom: real): (r: real)
    requires denom >= 1.0
    ensures 0.0 <= r <= 100.0
  {
    MinReal(100.0, raw as real / denom * 14.0)
  }

  /** The level of line 183. */
  function RiskLevel(scaled: real): string {
    if scaled < 26.0 then "Low" else if scaled < 56.0 then "Moderate" else if scaled < 76.0 then "Elevated" else "High"
  }

  /** The order of the levels. */
  function LevelRank(level: string): nat {
    if level == "Low" then 0 else if level == "Moderate" then 1 else if level == "Elevated" then 2 else 3
  }

  datatype RiskIndex = RiskIndex(index: int, level: string)

  /** `compute_risk_index` (lines 177-184), given `math.log10`: the index is the rounded scaled
      score, in [0, 100]. */
  function ComputeRiskIndex(log10: real -> real, severities: seq<Option<string>>, totalChars: int): (r: RiskIndex)
    ensures 0 <= r.index <= 100
    ensures r.level in {"Low", "Moderate", "Elevated", "High"}
  {
    var scaled := Scaled(RawScore(severities), Denominator(log10, totalChars));
    RoundMonotone(0.0, scaled);
    RoundMonotone(scaled, 100.0);
    RoundOfInt(0);
    RoundOfInt(100);
    RiskIndex(RoundHalfEven(scaled), RiskLevel(scaled))
  }

  /** The level agrees with the index away from the band edges: the level is computed from the
      unrounded score, so an index of 26, 56 or 76 can still carry the level below. */
  lemma RiskLevelOfIndex(log10: real -> real, severities: seq<Option<string>>, totalChars: int)
    ensures var r := ComputeRiskIndex(log10, severities, totalChars);
      && (r.index <= 25 ==> r.level == "Low")
      && (27 <= r.index <= 55 ==> r.level == "Moderate")
      && (57 <= r.index <= 75 ==> r.level == "Elevated")
      && (77 <= r.index ==> r.level == "High")
  {
  }

  /** More weight never lowers the index or the level. */
  lemma RiskIndexMonotone(log10: real -> real, a: seq<Option<string>>, b: seq<Option<string>>, totalChars: int)
    requires RawScore(a) <= RawScore(b)
    ensures ComputeRiskIndex(log10, a, totalChars).index <= ComputeRiskIndex(log10, b, totalChars).index
    ensures LevelRank(ComputeRiskIndex(log10, a, totalChars).level) <= LevelRank(ComputeRiskIndex(log10, b, totalChars).level)
  {
    var d := Denominator(log10, totalChars);
    var x, y := RawScore(a) as real / d, RawScore(b) as real / d;
    assert x <= y by {
      DivMonotone(RawScore(a) as real, RawScore(b) as real, d);
    }
    RoundMonotone(Scaled(RawScore(a), d), Scaled(RawScore(b), d));
  }

  lemma DivMonotone(p: real, q: real, d: real)
    requires p <= q && d > 0.0
    ensures p / d <= q / d
  {
    assert q / d - p / d == (q - p) / d;
  }

  /** No flags give index 0 and level "Low". */
  lemma RiskIndexOfNoFlags(log10: real -> real, totalChars: int)
    ensures ComputeRiskIndex(log10, [], totalChars) == RiskIndex(0, "Low")
  {
    RoundOfInt(0);
  }

  /** Two high, one medium and one low flag over 5000 characters (where `log10(6) <= 1`) reach
      the cap: index 100, level "High". */
  lemma RiskIndexOfFourFlags(log10: real -> real)
    requires log10(6.0) <= 1.0
    ensures ComputeRiskIndex(log10, [Some("high"), Some("high"), Some("medium"), Some("low")], 5000) == RiskIndex(100, "High")
  {
    var s := [Some("high"), Some("high"), Some("medium"), Some("low")];
    assert RawScore(s) == 9 by {
      var s1: seq<Option<string>> := [Some("high")];
      var s2 := s1 + [Some("high")];
      var s3 := s2 + [Some("medium")];
      assert s1[..0] == [] && RawScore(s1) == 3;
      assert s2[..1] == s1 && RawScore(s2) == 6;
      assert s3[..2] == s2 && RawScore(s3) == 8;
      assert s == s3 + [Some("low")] && s[..3] == s3;
    }
    assert Max(50, 5000) as real / 1000.0 + 1.0 == 6.0;
    RoundOfInt(100);
  }

  // ---------------------------------------------------------------- answer confidence

  const HEDGE_WORDS: seq<string> := ["cannot", "not provided", "unsure", "uncertain"]
  const DECISIVE_WORDS: seq<string> := ["must", "shall", "requires"]

  /** `any(w in low for w in words)`. */
  predicate MentionsAny(low: string, words: seq<string>) {
    exists i :: 0 <= i < |words| && Contains(low, words[i])
  }

  /** `score` after lines 153-159. */
  function AnswerScore(answer: string): real {
    var low := Lower(answer);
    0.5 - (if MentionsAny(low, HEDGE_WORDS) then 0.2 else 0.0)
        + (if |answer| < 400 then 0.1 else 0.0)
        + (if MentionsAny(low, DECISIVE_WORDS) then 0.1 else 0.0)
  }

  datatype ScoredAnswer = ScoredAnswer(answer: string, confidence: real)

  /** `answer_with_confidence` (lines 150-160). */
  function AnswerWithConfidence(answer: string): (r: ScoredAnswer)
    ensures r.answer == answer && 0.05 <= r.confidence <= 0.95
  {
    ScoredAnswer(answer, RoundedClamp(AnswerScore(answer)))
  }

  /** The clamp never binds: the confidence is one of 0.3, 0.4, ..., 0.7; a hedge keeps it at
      most 0.5, its absence at least 0.5, and 0.7 is reached exactly by a short, decisive answer
      without hedges. */
  lemma AnswerConfidenceValues(answer: string)
    ensures var c := AnswerWithConfidence(answer).confidence;
      var low := Lower(answer);
      && c in {0.3, 0.4, 0.5, 0.6, 0.7}
      && (MentionsAny(low, HEDGE_WORDS) ==> c <= 0.5)
      && (!MentionsAny(low, HEDGE_WORDS) ==> c >= 0.5)
      && (c == 0.7 <==> !MentionsAny(low, HEDGE_WORDS) && |answer| < 400 && MentionsAny(low, DECISIVE_WORDS))
  {
    var s := AnswerScore(answer);
    var n: int := (s * 100.0).Floor;
    assert s == n as real / 100.0;
    Round2OfCents(n);
  }

  // ---------------------------------------------------------------- similarity confidence

  /** `(s + 1) / 2` (line 169). */
  function Normalized(s: real): real {
    (s + 1.0) / 2.0
  }

  /** `base * 0.7 + length_factor * 0.3` (lines 169-173) for a non-empty list. */
  function SimilarityBlend(similarities: seq<real>, answer: string): real
    requires similarities != []
  {
    var top3 := Take(MapSeq(similarities, Normalized), 3);
    var base := Embeddings.Sum(top3) / |top3| as real;
    var lengthFactor := MinReal(1.0, |answer| as real / 180.0);
    base * 0.7 + lengthFactor * 0.3
  }

  /** `compute_similarity_confidence` (lines 163-174): 0.1 for no similarities, otherwise the
      rounded, clamped blend. */
  function SimilarityConfidence(similarities: seq<real>, answer: string): (c: real)
    ensures similarities == [] ==> c == 0.1
    ensures 0.05 <= c <= 0.95
  {
    if similarities == [] then 0.1 else RoundedClamp(SimilarityBlend(similarities, answer))
  }

  /** Sums of bounded values are bounded. */
  lemma {:induction false} SumBetween(xs: seq<real>, lo: real, hi: real)
    requires forall i :: 0 <= i < |xs| ==> lo <= xs[i] <= hi
    ensures |xs| as real * lo <= Embeddings.Sum(xs) <= |xs| as real * hi
    decreases |xs|
  {
    if xs != [] {
      SumBetween(xs[..|xs| - 1], lo, hi);
    }
  }

  /** For similarities in [-1, 1] the blend is in [0, 1], so the clamp only trims its ends. */
  lemma SimilarityBlendRange(similarities: seq<real>, answer: string)
    requires similarities != []
    requires forall i :: 0 <= i < |similarities| ==> -1.0 <= similarities[i] <= 1.0
    ensures 0.0 <= SimilarityBlend(similarities, answer) <= 1.0
  {
    var top3 := Take(MapSeq(similarities, Normalized), 3);
    SumBetween(top3, 0.0, 1.0);
    var n := |top3| as real;
    var base := Embeddings.Sum(top3) / n;
    assert 0.0 <= base <= 1.0 by {
      assert Embeddings.Sum(top3) <= n;
      DivMonotone(Embeddings.Sum(top3), n, n);
      DivMonotone(0.0, Embeddings.Sum(top3), n);
    }
  }

  /** Only the first three similarities count. */
  lemma SimilarityTopThree(a: seq<real>, b: seq<real>, answer: string)
    requires a != [] && Take(a, 3) == Take(b, 3)
    ensures SimilarityConfidence(a, answer) == SimilarityConfidence(b, answer)
  {
    TakeMapSeq(a, 3);
    TakeMapSeq(b, 3);
  }

  lemma TakeMapSeq(s: seq<real>, n: nat)
    ensures Take(MapSeq(s, Normalized), n) == MapSeq(Take(s, n), Normalized)
  {
  }

  /** Perfect matches with an answer of 180 characters or more give the cap 0.95. */
  lemma SimilarityPerfect(similarities: seq<real>, answer: string)
    requires similarities != [] && |answer| >= 180
    requires forall i :: 0 <= i < |similarities| ==> similarities[i] == 1.0
    ensures SimilarityConfidence(similarities, answer) == 0.95
  {
    var top3 := Take(MapSeq(similarities, Normalized), 3);
    SumBetween(top3, 1.0, 1.0);
    assert Embeddings.Sum(top3) / |top3| as real == 1.0;
    Round2OfCents(95);
  }
}
