/** The red-flag detector of src/analysis/redflags.py. With the stub client every clause is
    scored by the `RISK_KEYWORDS` table; with a real model the clauses go out in batches of
    twelve and the reply lines of the `LINE_RE` grammar come back as results. Confidences are
    then clamped to [0, 100] and filtered by the threshold; when nothing passes, a broadened
    pattern scan and the "no liability cap" rule run over the clauses. */
module RedFlags {
  import opened Wrappers
  import opened Text
  import opened Seqs
  import opened Types
  import opened Fallback
  import opened LinePattern

  // ---------------------------------------------------------------- heuristic scores

  /** An entry of `RISK_KEYWORDS`: the alternatives of its case-insensitive pattern, the
      points it adds and its label. */
  datatype RiskRule = RiskRule(phrases: seq<string>, delta: nat, name: string)

  const RISK_KEYWORDS: seq<RiskRule> := [
    RiskRule(["sole discretion"], 15, "Unilateral discretion"),
    RiskRule(["indemnif"], 20, "Broad indemnity"),
    RiskRule(["automatic renewal", "auto-renew"], 10, "Auto-renewal"),
    RiskRule(["liquidated damages"], 15, "Penalties")
  ]

  const BASE_SCORE: int := 30

  /** `pattern.search(snippet)` for a case-insensitive alternation of literals. */
  predicate SearchAny(snippet: string, phrases: seq<string>) {
    exists k | 0 <= k < |phrases| :: Contains(Lower(snippet), phrases[k])
  }

  /** The test the rule loop applies to each rule. */
  function Hits(snippet: string): RiskRule -> bool {
    (r: RiskRule) => SearchAny(snippet, r.phrases)
  }

  /** The rules whose pattern the snippet matches, in table order. */
  function Matched(snippet: string): seq<RiskRule> {
    Filter(RISK_KEYWORDS, Hits(snippet))
  }

  function SumDeltas(rules: seq<RiskRule>): nat {
    if rules == [] then 0 else SumDeltas(rules[..|rules| - 1]) + rules[|rules| - 1].delta
  }

  function Labels(rules: seq<RiskRule>): seq<string> {
    MapSeq(rules, (r: RiskRule) => r.name)
  }

  /** `base_score` after the rule loop: 30 plus the points of every matched rule. */
  function Score(snippet: string): int {
    BASE_SCORE + SumDeltas(Matched(snippet))
  }

  /** The reasons after the rule loop: the labels of the matched rules, in table order. */
  function Reasons(snippet: string): seq<string> {
    Labels(Matched(snippet))
  }

  /** Filtering never adds points. */
  lemma {:induction false} SumDeltasFilter(rules: seq<RiskRule>, p: RiskRule -> bool)
    ensures SumDeltas(Filter(rules, p)) <= SumDeltas(rules)
    decreases |rules|
  {
    if rules != [] {
      SumDeltasFilter(rules[..|rules| - 1], p);
      var last := rules[|rules| - 1];
      var f := Filter(rules[..|rules| - 1], p);
      if p(last) {
        assert Filter(rules, p) == f + [last];
        assert (f + [last])[..|f|] == f;
        assert SumDeltas(f + [last]) == SumDeltas(f) + last.delta;
      } else {
        assert Filter(rules, p) == f;
      }
    }
  }

  /** A score lies between 30 (no rule matched) and 90 (all four matched), so the cap at 95
      of the heuristic confidence never applies. */
  lemma ScoreBounds(snippet: string)
    ensures BASE_SCORE <= Score(snippet) <= 90
    ensures Matched(snippet) == [] ==> Score(snippet) == BASE_SCORE
  {
    SumDeltasFilter(RISK_KEYWORDS, Hits(snippet));
    var k := RISK_KEYWORDS;
    assert SumDeltas(k[..1]) == 15 by { assert k[..1][..0] == []; }
    assert SumDeltas(k[..2]) == 35 by { assert k[..2][..1] == k[..1]; }
    assert SumDeltas(k[..3]) == 45 by { assert k[..3][..2] == k[..2]; }
    assert SumDeltas(k) == 60 by { assert k[..3] == k[..|k| - 1]; }
  }

  /** A rule's label is among the reasons iff the snippet matches that rule's pattern. */
  lemma ReasonsIff(snippet: string, i: nat)
    requires i < |RISK_KEYWORDS|
    ensures RISK_KEYWORDS[i].name in Reasons(snippet) <==> SearchAny(snippet, RISK_KEYWORDS[i].phrases)
  {
    KeywordNamesDistinct();
    LabelsFilterIff(RISK_KEYWORDS, Hits(snippet), i);
  }

  lemma KeywordNamesDistinct()
    ensures forall a, b :: 0 <= a < b < |RISK_KEYWORDS| ==> RISK_KEYWORDS[a].name != RISK_KEYWORDS[b].name
  {
  }

  /** With distinct names, a rule's name is among the labels of the rules that pass `p` iff
      the rule passes. */
  lemma LabelsFilterIff(rules: seq<RiskRule>, p: RiskRule -> bool, i: nat)
    requires i < |rules| && forall a, b :: 0 <= a < b < |rules| ==> rules[a].name != rules[b].name
    ensures rules[i].name in Labels(Filter(rules, p)) <==> p(rules[i])
  {
    var m := Filter(rules, p);
    FilterMembers(rules, p, rules[i]);
    if rules[i].name in Labels(m) {
      var j :| 0 <= j < |m| && Labels(m)[j] == rules[i].name;
      FilterMembers(rules, p, m[j]);
      var a :| 0 <= a < |rules| && rules[a] == m[j];
      assert rules[a].name == rules[i].name;
    }
    if p(rules[i]) {
      var j :| 0 <= j < |m| && m[j] == rules[i];
      assert Labels(m)[j] == rules[i].name;
    }
  }

  /** The rule loop for one snippet. */
  method ScoreSnippet(snippet: string) returns (score: int, reasons: seq<string>)
    ensures score == Score(snippet) && reasons == Reasons(snippet)
  {
    var p := Hits(snippet);
    score, reasons := BASE_SCORE, [];
    for k := 0 to |RISK_KEYWORDS|
      invariant score == BASE_SCORE + SumDeltas(Filter(RISK_KEYWORDS[..k], p))
      invariant reasons == Labels(Filter(RISK_KEYWORDS[..k], p))
    {
      var rule := RISK_KEYWORDS[k];
      MatchStep(RISK_KEYWORDS, k, p);
      if SearchAny(snippet, rule.phrases) {
        score := score + rule.delta;
        reasons := reasons + [rule.name];
      }
    }
    assert RISK_KEYWORDS[..|RISK_KEYWORDS|] == RISK_KEYWORDS;
  }

  /** One more rule of the table adds its points and its label exactly when it matches. */
  lemma MatchStep(rules: seq<RiskRule>, k: nat, p: RiskRule -> bool)
    requires k < |rules|
    ensures var f := Filter(rules[..k], p);
            && (p(rules[k]) ==> SumDeltas(Filter(rules[..k + 1], p)) == SumDeltas(f) + rules[k].delta)
            && (p(rules[k]) ==> Labels(Filter(rules[..k + 1], p)) == Labels(f) + [rules[k].name])
            && (!p(rules[k]) ==> Filter(rules[..k + 1], p) == f)
  {
    var f := Filter(rules[..k], p);
    FilterSnoc(rules, k, p);
    if p(rules[k]) {
      assert (f + [rules[k]])[..|f|] == f;
      MapSeqAppend(f, rules[k], (r: RiskRule) => r.name);
    } else {
      assert f + [] == f;
    }
  }

  /** The reason text of a heuristic flag: the labels joined by "; ", or a generic text naming
      the clause type when no rule matched. */
  function ReasonText(c: ClauseResult): string {
    var reasons := Reasons(c.snippet);
    if reasons != [] then Join("; ", reasons) else "Potential " + Lower(c.clauseType) + " exposure"
  }

  /** The flag the heuristic mode raises for a clause that reaches the threshold. */
  function HeuristicFlag(c: ClauseResult): RedFlagResult {
    RedFlagResult(c.clauseType, Take(ReasonText(c), 300), Take(c.snippet, 400), Min(Score(c.snippet), 95) as real, c.page)
  }

  /** The heuristic mode's results for `clauses`. */
  function HeuristicFlags(clauses: seq<ClauseResult>, threshold: int): seq<RedFlagResult> {
    if clauses == [] then []
    else
      var c := clauses[|clauses| - 1];
      HeuristicFlags(clauses[..|clauses| - 1], threshold)
        + (if Score(c.snippet) < threshold then [] else [HeuristicFlag(c)])
  }

  /** The clauses the heuristic mode keeps. */
  function Reaches(threshold: int): ClauseResult -> bool {
    (c: ClauseResult) => Score(c.snippet) >= threshold
  }

  /** A heuristic flag carries its clause's type and page, a reason of at most 300 and a
      snippet of at most 400 characters, and the clause's score as its confidence. */
  lemma HeuristicFlagShape(c: ClauseResult)
    ensures var r := HeuristicFlag(c);
      && r.riskType == c.clauseType && r.page == c.page
      && |r.reason| <= 300 && r.snippet == Take(c.snippet, 400)
      && r.confidence == Score(c.snippet) as real && 30.0 <= r.confidence <= 90.0
    ensures Reasons(c.snippet) == [] ==> HeuristicFlag(c).reason == Take("Potential " + Lower(c.clauseType) + " exposure", 300)
  {
    ScoreBounds(c.snippet);
  }

  /** The heuristic mode keeps exactly the clauses whose score reaches the threshold, in their
      order, one flag each. */
  lemma {:induction false} HeuristicFlagsFilter(clauses: seq<ClauseResult>, threshold: int)
    ensures HeuristicFlags(clauses, threshold) == MapSeq(Filter(clauses, Reaches(threshold)), HeuristicFlag)
    decreases |clauses|
  {
    if clauses != [] {
      var init := clauses[..|clauses| - 1];
      var c := clauses[|clauses| - 1];
      HeuristicFlagsFilter(init, threshold);
      var f := Filter(init, Reaches(threshold));
      if Score(c.snippet) >= threshold {
        assert (f + [c])[..|f|] == f;
      }
    }
  }

  /** At a threshold of at most 30 every clause is flagged, under its own type. */
  lemma HeuristicFlagsAll(clauses: seq<ClauseResult>, threshold: int)
    requires threshold <= BASE_SCORE
    ensures HeuristicFlags(clauses, threshold) == MapSeq(clauses, HeuristicFlag)
  {
    forall c | c in clauses ensures Reaches(threshold)(c) {
      ScoreBounds(c.snippet);
    }
    FilterAll(clauses, Reaches(threshold));
    HeuristicFlagsFilter(clauses, threshold);
  }

  /** The heuristic mode's clause loop. */
  method HeuristicPass(clauses: seq<ClauseResult>, threshold: int) returns (results: seq<RedFlagResult>)
    ensures results == HeuristicFlags(clauses, threshold)
  {
    results := [];
    for i := 0 to |clauses|
      invariant results == HeuristicFlags(clauses[..i], threshold)
    {
      assert clauses[..i + 1][..i] == clauses[..i];
      var c := clauses[i];
      var score, reasons := ScoreSnippet(c.snippet);
      if score >= threshold {
        var text := if reasons != [] then Join("; ", reasons) else "Potential " + Lower(c.clauseType) + " exposure";
        results := results + [RedFlagResult(c.clauseType, Take(text, 300), Take(c.snippet, 400), Min(score, 95) as real, c.page)];
      }
    }
    assert clauses[..|clauses|] == clauses;
  }

  // ---------------------------------------------------------------- language-model mode

  /** The tags of `LINE_RE` up to the page; the text after `|PAGE:` is the page digits, the
      score tag and the score digits. */
  const RISK_TAGS: Tags := Tags("RISK:", "|REASON:", "|SNIPPET:", "|PAGE:")

  const SCORE_TAG: string := "|SCORE:"

  /** A matched line: the groups of the pattern, and the page and score digits. */
  datatype RiskFields = RiskFields(groups: Groups, page: string, score: string)

  /** `(\d+)$`: the score digits that end the line. */
  function ScoreDigits(line: string): string {
    TakeWhileEnd(line, IsDigit)
  }

  /** Where `\|SCORE:` must sit: just before the score digits. */
  function ScoreTagAt(line: string): int {
    |line| - |ScoreDigits(line)| - |SCORE_TAG|
  }

  /** The page digits `(\d+)` that end the text before the score tag. */
  function PageDigits(line: string): string
    requires 0 <= ScoreTagAt(line)
  {
    TakeWhileEnd(line[..ScoreTagAt(line)], IsDigit)
  }

  /** The line ends in page digits, the score tag and score digits. */
  predicate HasTail(line: string) {
    && ScoreDigits(line) != []
    && OccursAt(line, SCORE_TAG, ScoreTagAt(line))
    && PageDigits(line) != []
  }

  /** Where `\|PAGE:` must sit: just before the page digits. */
  function PageTagAt(line: string): int
    requires HasTail(line)
  {
    ScoreTagAt(line) - |PageDigits(line)| - |RISK_TAGS.t3|
  }

  /** The text from the page tag on is the page tag, the page digits, the score tag and the
      score digits. */
  lemma TailSplit(line: string)
    requires HasTail(line)
    ensures 0 <= PageTagAt(line) + |RISK_TAGS.t3| <= |line|
    ensures line[PageTagAt(line) + |RISK_TAGS.t3|..] == PageDigits(line) + SCORE_TAG + ScoreDigits(line)
  {
    var s := ScoreTagAt(line);
    var page := PageDigits(line);
    var before := line[..s];
    assert page == before[|before| - |page|..];
    assert before[|before| - |page|..] == line[s - |page|..s];
    assert line[s..s + |SCORE_TAG|] == SCORE_TAG;
    var score := ScoreDigits(line);
    assert line[s + |SCORE_TAG|..] == score;
    SliceThree(line, s - |page|, s, s + |SCORE_TAG|);
  }

  /** `LINE_RE.match(line)`: the tail fixes where the page tag sits, and the tags fix the three
      lazy groups before it. */
  function ParseRiskLine(line: string): (r: Option<RiskFields>)
    ensures r.Some? ==> IsDigits(r.value.page) && IsDigits(r.value.score)
    ensures r.Some? ==> r.value.groups.tail == r.value.page + SCORE_TAG + r.value.score
  {
    if !HasTail(line) then None
    else
      match Cut(line, RISK_TAGS, PageTagAt(line))
      case None => None
      case Some(g) =>
        TailSplit(line);
        Some(RiskFields(g, PageDigits(line), ScoreDigits(line)))
  }

  /** A match assembles back to the line, and its risk type and reason are the shortest the
      pattern allows. */
  lemma ParseRiskLineSound(line: string)
    requires ParseRiskLine(line).Some?
    ensures Assemble(RISK_TAGS, ParseRiskLine(line).value.groups) == line
    ensures var t := RISK_TAGS; var g := ParseRiskLine(line).value.groups;
      forall k :: |t.t0| <= k < |t.t0| + |g.g1| ==> !OccursAt(line, t.t1, k)
    ensures var t := RISK_TAGS; var g := ParseRiskLine(line).value.groups; var e := |t.t0| + |g.g1| + |t.t1|;
      forall k :: e <= k < e + |g.g2| ==> !OccursAt(line, t.t2, k)
  {
  }

  /** In a line of the grammar the tail is found where it was put. */
  lemma TailOfAssembled(h: string, page: string, score: string)
    requires |h| >= |RISK_TAGS.t3| && h[|h| - 1] == ':'
    requires IsDigits(page) && IsDigits(score)
    ensures HasTail(h + page + SCORE_TAG + score)
    ensures PageTagAt(h + page + SCORE_TAG + score) == |h| - |RISK_TAGS.t3|
    ensures PageDigits(h + page + SCORE_TAG + score) == page
    ensures ScoreDigits(h + page + SCORE_TAG + score) == score
  {
    var x := h + page + SCORE_TAG;
    var line := x + score;
    assert x[|x| - 1] == ':';
    TakeWhileEndSuffix(x, score, IsDigit);
    var s := ScoreTagAt(line);
    assert line[s..s + |SCORE_TAG|] == SCORE_TAG;
    assert line[..s] == h + page;
    TakeWhileEndSuffix(h, page, IsDigit);
  }

  /** Every line of the grammar is accepted; when the risk type and the reason hold no `|`,
      the fields are exactly the parts the line was built from. */
  lemma ParseRiskLineComplete(g1: string, g2: string, g3: string, page: string, score: string)
    requires IsDigits(page) && IsDigits(score)
    ensures var g := Groups(g1, g2, g3, page + SCORE_TAG + score);
      ParseRiskLine(Assemble(RISK_TAGS, g)).Some?
    ensures var g := Groups(g1, g2, g3, page + SCORE_TAG + score);
      '|' !in g1 && '|' !in g2 ==> ParseRiskLine(Assemble(RISK_TAGS, g)) == Some(RiskFields(g, page, score))
  {
    var g := Groups(g1, g2, g3, page + SCORE_TAG + score);
    GrammarTail(g, page, score);
    CutFound(RISK_TAGS, g);
    if '|' !in g1 && '|' !in g2 {
      assert RISK_TAGS.t1[0] == '|' && RISK_TAGS.t2[0] == '|';
      CutExact(RISK_TAGS, g);
    }
  }

  /** The tail of a line of the grammar is read back from where the page tag was put. */
  lemma GrammarTail(g: Groups, page: string, score: string)
    requires IsDigits(page) && IsDigits(score) && g.tail == page + SCORE_TAG + score
    ensures HasTail(Assemble(RISK_TAGS, g))
    ensures PageTagAt(Assemble(RISK_TAGS, g)) == LastTagAt(RISK_TAGS, g)
    ensures PageDigits(Assemble(RISK_TAGS, g)) == page && ScoreDigits(Assemble(RISK_TAGS, g)) == score
  {
    var line := Assemble(RISK_TAGS, g);
    var h := Assemble(RISK_TAGS, g.(tail := []));
    AssembleTail(RISK_TAGS, g);
    assert h[|h| - 1] == ':';
    assert line == h + page + SCORE_TAG + score;
    TailOfAssembled(h, page, score);
  }

  /** The result read from a matched line: stripped fields, the reason cut to 300 and the
      snippet to 400 characters, the page's value and the score's value as the confidence. */
  function FieldsFlag(f: RiskFields): (r: RedFlagResult)
    requires IsDigits(f.page) && IsDigits(f.score)
    ensures IsStripped(r.riskType) && |r.reason| <= 300 && |r.snippet| <= 400
    ensures r.page >= 0 && r.confidence >= 0.0
  {
    RedFlagResult(Strip(f.groups.g1), Take(Strip(f.groups.g2), 300), Take(Strip(f.groups.g3), 400),
      DigitsValue(f.score) as real, DigitsValue(f.page))
  }

  /** The result of one reply line, when its stripped form matches. */
  function LineFlag(line: string): Option<RedFlagResult> {
    match ParseRiskLine(Strip(line))
    case None => None
    case Some(f) => Some(FieldsFlag(f))
  }

  /** The results read from the lines of one reply. */
  function LineFlags(lines: seq<string>): seq<RedFlagResult> {
    if lines == [] then []
    else
      var r := LineFlag(lines[|lines| - 1]);
      LineFlags(lines[..|lines| - 1]) + (if r.Some? then [r.value] else [])
  }

  /** A line of the grammar, written by the model with a score, gives back that score as its
      confidence and its page digits' value as its page. */
  lemma LineFlagOfGrammar(g1: string, g2: string, g3: string, page: string, score: string)
    requires IsDigits(page) && IsDigits(score)
    requires '|' !in g1 && '|' !in g2
    requires IsStripped(Assemble(RISK_TAGS, Groups(g1, g2, g3, page + SCORE_TAG + score)))
    ensures var r := LineFlag(Assemble(RISK_TAGS, Groups(g1, g2, g3, page + SCORE_TAG + score)));
      r.Some? && r.value.riskType == Strip(g1) && r.value.confidence == DigitsValue(score) as real
      && r.value.page == DigitsValue(page)
  {
    var g := Groups(g1, g2, g3, page + SCORE_TAG + score);
    var line := Assemble(RISK_TAGS, g);
    var f := RiskFields(g, page, score);
    ParseRiskLineComplete(g1, g2, g3, page, score);
    LineFlagOfParsed(line, f);
  }

  /** A stripped line that matches gives the result of its fields. */
  lemma LineFlagOfParsed(line: string, f: RiskFields)
    requires IsStripped(line) && ParseRiskLine(line) == Some(f)
    ensures LineFlag(line) == Some(FieldsFlag(f))
  {
    StripOfStripped(line);
  }

  /** The prompt line for one clause: its type, snippet, page and heuristic score. */
  function ClauseLine(c: ClauseResult): string {
    "CLAUSE:" + c.clauseType + "|SNIPPET:" + c.snippet + "|PAGE:" + IntToString(c.page)
      + "|BASE:" + IntToString(Score(c.snippet))
  }

  /** The prompt for one batch: the template filled with the clause lines joined by
      newlines. */
  function BatchPrompt(template: string -> string, batch: seq<ClauseResult>): string {
    template(Join("\n", MapSeq(batch, ClauseLine)))
  }

  /** The results read from the reply to one batch's prompt; `reply` is the client's
      `generate`. */
  function BatchFlags(reply: string -> string, template: string -> string, batch: seq<ClauseResult>): seq<RedFlagResult> {
    LineFlags(SplitLines(reply(BatchPrompt(template, batch))))
  }

  /** The results of all batches, batch after batch. */
  function LlmFlags(reply: string -> string, template: string -> string, batches: seq<seq<ClauseResult>>): seq<RedFlagResult> {
    Blocks(batches, (b: seq<ClauseResult>) => BatchFlags(reply, template, b))
  }

  /** The prompts hold every clause once: batches of at most twelve, in order. */
  lemma BatchesOfTwelve(clauses: seq<ClauseResult>)
    ensures Flatten(Batches(clauses, 12)) == clauses
    ensures forall b :: b in Batches(clauses, 12) ==> 0 < |b| <= 12
  {
    BatchesFlatten(clauses, 12);
    BatchSizes(clauses, 12);
  }

  /** The heuristic line loop of one batch. */
  method BatchLines(batch: seq<ClauseResult>) returns (lines: seq<string>)
    ensures lines == MapSeq(batch, ClauseLine)
  {
    lines := [];
    for i := 0 to |batch|
      invariant lines == MapSeq(batch[..i], ClauseLine)
    {
      MapSeqSnoc(batch, i, ClauseLine);
      var c := batch[i];
      var score, _ := ScoreSnippet(c.snippet);
      lines := lines + ["CLAUSE:" + c.clauseType + "|SNIPPET:" + c.snippet + "|PAGE:" + IntToString(c.page)
        + "|BASE:" + IntToString(score)];
    }
    assert batch[..|batch|] == batch;
  }

  /** The line loop over one reply. */
  method ParseReply(lines: seq<string>) returns (results: seq<RedFlagResult>)
    ensures results == LineFlags(lines)
  {
    results := [];
    for j := 0 to |lines|
      invariant results == LineFlags(lines[..j])
    {
      assert lines[..j + 1][..j] == lines[..j];
      var m := ParseRiskLine(Strip(lines[j]));
      if m.Some? {
        var g := m.value.groups;
        results := results + [RedFlagResult(Strip(g.g1), Take(Strip(g.g2), 300), Take(Strip(g.g3), 400),
          DigitsValue(m.value.score) as real, DigitsValue(m.value.page))];
      }
    }
    assert lines[..|lines|] == lines;
  }

  /** The batch loop of the model mode: twelve clauses per prompt. */
  method LlmPass(reply: string -> string, template: string -> string, clauses: seq<ClauseResult>) returns (results: seq<RedFlagResult>)
    ensures results == LlmFlags(reply, template, Batches(clauses, 12))
  {
    var block := (b: seq<ClauseResult>) => BatchFlags(reply, template, b);
    results := [];
    var start := 0;
    while start < |clauses|
      invariant 0 <= start <= |clauses|
      invariant Blocks(Batches(clauses, 12), block) == results + Blocks(Batches(clauses[start..], 12), block)
      decreases |clauses| - start
    {
      var batch := Take(clauses[start..], 12);
      var lines := BatchLines(batch);
      var rs := ParseReply(SplitLines(reply(template(Join("\n", lines)))));
      assert rs == block(batch);
      var next := NextBatchStart(|clauses|, start, 12);
      BlocksLoopStep(clauses, start, 12, block, results, rs);
      results := results + rs;
      start := next;
    }
    BlocksLoopDone(clauses, 12, block, results);
  }

  // ---------------------------------------------------------------- clamp and filter

  /** The clamp applied to each result: above 100 becomes 100, below 0 becomes 0. */
  function Clamp(r: RedFlagResult): RedFlagResult {
    var c := if r.confidence > 100.0 then 100.0 else r.confidence;
    r.(confidence := if c < 0.0 then 0.0 else c)
  }

  /** Clamping puts the confidence in [0, 100], leaves a confidence already there alone, and
      changes nothing else. */
  lemma ClampRange(r: RedFlagResult)
    ensures 0.0 <= Clamp(r).confidence <= 100.0
    ensures 0.0 <= r.confidence <= 100.0 ==> Clamp(r) == r
    ensures Clamp(r).(confidence := r.confidence) == r
  {
  }

  /** The clamping loop, which updates each result in place. */
  method ClampAll(results: seq<RedFlagResult>) returns (clamped: seq<RedFlagResult>)
    ensures clamped == MapSeq(results, Clamp)
  {
    clamped := results;
    for i := 0 to |results|
      invariant |clamped| == |results|
      invariant forall j :: 0 <= j < i ==> clamped[j] == Clamp(results[j])
      invariant forall j :: i <= j < |results| ==> clamped[j] == results[j]
    {
      var r := clamped[i];
      if r.confidence > 100.0 {
        r := r.(confidence := 100.0);
      }
      if r.confidence < 0.0 {
        r := r.(confidence := 0.0);
      }
      clamped := clamped[i := r];
    }
  }

  /** The filter `confidence >= threshold`. */
  function AtLeast(threshold: int): RedFlagResult -> bool {
    (r: RedFlagResult) => r.confidence >= threshold as real
  }

  // ---------------------------------------------------------------- broadened pass

  /** One alternative of a broadened pattern: a literal, or `a.*b`, a `b` after an `a` on the
      same line (`.` does not match a newline). */
  datatype Alt = Lit(w: string) | Then(a: string, b: string)

  /** A broadened pattern: its alternatives (matched case-insensitively), the risk type it
      raises and its fixed confidence. */
  datatype BroadPattern = BroadPattern(alts: seq<Alt>, desc: string, base: int)

  const BROAD_PATTERNS: seq<BroadPattern> := [
    BroadPattern([Then("sole discretion", "terminate"), Then("terminate", "sole discretion")],
      "Unilateral termination right", 65),
    BroadPattern([Lit("auto-renew"), Lit("auto renew"), Lit("autorenew")],
      "Automatic renewal (check opt-out window)", 60),
    BroadPattern([Then("indemnif", "any and all"), Then("indemnif", "all claims")],
      "Broad indemnity scope", 70),
    BroadPattern([Lit("unlimited liability"), Lit("without any limit"), Lit("without limit")],
      "Potential unlimited liability", 72),
    BroadPattern([Lit("liquidated damages")], "Liquidated damages / penalty", 68),
    BroadPattern([Then("use ", "data for any purpose")], "Broad data usage rights", 62)
  ]

  const NO_CAP_TYPE: string := "No explicit liability cap located"

  const NO_CAP_REASON: string := "Indemnity clause present but no separate liability limitation clause detected."

  predicate NotNewline(c: char) { c != '\n' }

  /** `a` occurs at `i` and `b` at `j`, with no newline between them. */
  ghost predicate ThenAt(s: string, a: string, b: string, i: int, j: int) {
    OccursAt(s, a, i) && i + |a| <= j && OccursAt(s, b, j)
    && forall k :: i + |a| <= k < j ==> s[k] != '\n'
  }

  /** `re.search("a.*b", s)` succeeds. */
  ghost predicate ThenSpec(s: string, a: string, b: string) {
    exists i, j :: ThenAt(s, a, b, i, j)
  }

  /** The search for `a.*b`: the rest of the line after the first `a` holds `b`, or the search
      succeeds past that `a`. */
  function FindThen(s: string, a: string, b: string): bool
    decreases |s|
  {
    match IndexOf(s, a)
    case None => false
    case Some(i) =>
      (i + |a| <= |s| && Contains(TakeWhile(s[i + |a|..], NotNewline), b))
      || (i < |s| && FindThen(s[i + 1..], a, b))
  }

  /** The search finds a match exactly when the pattern has one. */
  lemma {:induction false} FindThenIff(s: string, a: string, b: string)
    requires a != [] && '\n' !in b
    ensures FindThen(s, a, b) <==> ThenSpec(s, a, b)
    decreases |s|
  {
    match IndexOf(s, a)
    case None =>
      forall i, j ensures !ThenAt(s, a, b, i, j) {
        assert !OccursAt(s, a, i);
      }
    case Some(i0) =>
      FindThenIff(s[i0 + 1..], a, b);
      FindThenStep(s, a, b, i0);
  }

  /** One step of the search: past the first `a`, the search and the pattern agree on `s`
      when they agree on the text after that `a`'s first character. */
  lemma FindThenStep(s: string, a: string, b: string, i0: nat)
    requires a != [] && '\n' !in b && IndexOf(s, a) == Some(i0)
    requires FindThen(s[i0 + 1..], a, b) <==> ThenSpec(s[i0 + 1..], a, b)
    ensures FindThen(s, a, b) <==> ThenSpec(s, a, b)
  {
    if FindThen(s, a, b) {
      FoundThen(s, a, b, i0);
    }
    if ThenSpec(s, a, b) {
      var i, j :| ThenAt(s, a, b, i, j);
      ThenFound(s, a, b, i0, i, j);
    }
  }

  /** What the search finds past the first `a` is a match. */
  lemma FoundThen(s: string, a: string, b: string, i0: nat)
    requires a != [] && IndexOf(s, a) == Some(i0)
    requires FindThen(s[i0 + 1..], a, b) ==> ThenSpec(s[i0 + 1..], a, b)
    requires FindThen(s, a, b)
    ensures ThenSpec(s, a, b)
  {
    if Contains(TakeWhile(s[i0 + |a|..], NotNewline), b) {
      LineHeadThen(s, a, b, i0);
    } else {
      var i, j :| ThenAt(s[i0 + 1..], a, b, i, j);
      ThenShiftRight(s, a, b, i0 + 1, i, j);
    }
  }

  /** A match is found: in the line after the first `a` when it starts there, past that `a`
      otherwise. */
  lemma ThenFound(s: string, a: string, b: string, i0: nat, i: int, j: int)
    requires a != [] && '\n' !in b && IndexOf(s, a) == Some(i0)
    requires ThenSpec(s[i0 + 1..], a, b) ==> FindThen(s[i0 + 1..], a, b)
    requires ThenAt(s, a, b, i, j)
    ensures FindThen(s, a, b)
  {
    assert i0 <= i;
    if i == i0 {
      ThenLineHead(s, a, b, i0, j);
    } else {
      ThenShiftLeft(s, a, b, i0 + 1, i, j);
    }
  }

  /** A `b` in the rest of the line after the `a` at `i0` is a match. */
  lemma LineHeadThen(s: string, a: string, b: string, i0: int)
    requires OccursAt(s, a, i0)
    requires Contains(TakeWhile(s[i0 + |a|..], NotNewline), b)
    ensures ThenSpec(s, a, b)
  {
    var rest := s[i0 + |a|..];
    var head := TakeWhile(rest, NotNewline);
    var k := IndexOf(head, b).value;
    assert head == rest[..|head|];
    assert s[i0 + |a| + k..i0 + |a| + k + |b|] == head[k..k + |b|];
    forall m | i0 + |a| <= m < i0 + |a| + k ensures s[m] != '\n' {
      assert s[m] == head[m - i0 - |a|];
      AllCharsAt(head, NotNewline, m - i0 - |a|);
    }
    assert ThenAt(s, a, b, i0, i0 + |a| + k);
  }

  /** A match whose `a` sits at `i0` puts `b` in the rest of that line. */
  lemma ThenLineHead(s: string, a: string, b: string, i0: int, j: int)
    requires '\n' !in b && ThenAt(s, a, b, i0, j)
    ensures Contains(TakeWhile(s[i0 + |a|..], NotNewline), b)
  {
    var rest := s[i0 + |a|..];
    var head := TakeWhile(rest, NotNewline);
    var m := j - i0 - |a| + |b|;
    forall x | 0 <= x < m ensures rest[x] != '\n' {
      assert rest[x] == s[i0 + |a| + x];
      if j <= i0 + |a| + x {
        assert s[j..j + |b|][i0 + |a| + x - j] == s[i0 + |a| + x];
      }
    }
    assert head[j - i0 - |a|..m] == rest[j - i0 - |a|..m] == s[j..j + |b|];
    ContainsWitness(head, b, j - i0 - |a|);
  }

  /** A match in `s[d..]` is a match in `s`. */
  lemma ThenShiftRight(s: string, a: string, b: string, d: nat, i: int, j: int)
    requires d <= |s| && ThenAt(s[d..], a, b, i, j)
    ensures ThenSpec(s, a, b)
  {
    var t := s[d..];
    assert t[i..i + |a|] == s[d + i..d + i + |a|];
    assert t[j..j + |b|] == s[d + j..d + j + |b|];
    forall m | d + i + |a| <= m < d + j ensures s[m] != '\n' {
      assert s[m] == t[m - d];
    }
    assert ThenAt(s, a, b, d + i, d + j);
  }

  /** A match in `s` whose `a` starts at `d` or later is a match in `s[d..]`. */
  lemma ThenShiftLeft(s: string, a: string, b: string, d: nat, i: int, j: int)
    requires d <= i && ThenAt(s, a, b, i, j)
    ensures ThenSpec(s[d..], a, b)
  {
    var t := s[d..];
    assert t[i - d..i - d + |a|] == s[i..i + |a|];
    assert t[j - d..j - d + |b|] == s[j..j + |b|];
    forall m | i - d + |a| <= m < j - d ensures t[m] != '\n' {
      assert t[m] == s[m + d];
    }
    assert ThenAt(t, a, b, i - d, j - d);
  }

  predicate AltMatches(alt: Alt, low: string) {
    match alt
    case Lit(w) => Contains(low, w)
    case Then(a, b) => FindThen(low, a, b)
  }

  /** `pat.search(snippet)` for a case-insensitive pattern. */
  predicate PatternMatches(p: BroadPattern, snippet: string) {
    exists k | 0 <= k < |p.alts| :: AltMatches(p.alts[k], Lower(snippet))
  }

  /** Each `a.*b` alternative of the table matches exactly when `b` follows `a` on one line. */
  lemma BroadThenMeaning(p: nat, k: nat, s: string)
    requires p < |BROAD_PATTERNS| && k < |BROAD_PATTERNS[p].alts| && BROAD_PATTERNS[p].alts[k].Then?
    ensures var alt := BROAD_PATTERNS[p].alts[k]; AltMatches(alt, s) <==> ThenSpec(s, alt.a, alt.b)
  {
    BroadThenAlts();
    ThenAltMeaning(BROAD_PATTERNS[p].alts[k], s);
  }

  /** Every `a.*b` alternative of the table has a non-empty `a` and no newline in `b`. */
  lemma BroadThenAlts()
    ensures forall p, k :: 0 <= p < |BROAD_PATTERNS| && 0 <= k < |BROAD_PATTERNS[p].alts| && BROAD_PATTERNS[p].alts[k].Then? ==>
      WellFormedThen(BROAD_PATTERNS[p].alts[k])
  {
    forall p, k | 0 <= p < |BROAD_PATTERNS| && 0 <= k < |BROAD_PATTERNS[p].alts| && BROAD_PATTERNS[p].alts[k].Then?
      ensures WellFormedThen(BROAD_PATTERNS[p].alts[k])
    {
      var alt := BROAD_PATTERNS[p].alts[k];
      assert alt in {Then("sole discretion", "terminate"), Then("terminate", "sole discretion"),
        Then("indemnif", "any and all"), Then("indemnif", "all claims"), Then("use ", "data for any purpose")};
    }
  }

  predicate WellFormedThen(alt: Alt) {
    alt.Then? && alt.a != [] && '\n' !in alt.b
  }

  lemma ThenAltMeaning(alt: Alt, s: string)
    requires WellFormedThen(alt)
    ensures AltMatches(alt, s) <==> ThenSpec(s, alt.a, alt.b)
  {
    FindThenIff(s, alt.a, alt.b);
  }

  /** The first pattern from `k` on that the snippet matches. */
  function FirstPattern(snippet: string, k: nat): (r: Option<nat>)
    requires k <= |BROAD_PATTERNS|
    ensures r.Some? ==> k <= r.value < |BROAD_PATTERNS| && PatternMatches(BROAD_PATTERNS[r.value], snippet)
    ensures r.Some? ==> forall m :: k <= m < r.value ==> !PatternMatches(BROAD_PATTERNS[m], snippet)
    ensures r.None? ==> forall m :: k <= m < |BROAD_PATTERNS| ==> !PatternMatches(BROAD_PATTERNS[m], snippet)
    decreases |BROAD_PATTERNS| - k
  {
    if k == |BROAD_PATTERNS| then None
    else if PatternMatches(BROAD_PATTERNS[k], snippet) then Some(k)
    else FirstPattern(snippet, k + 1)
  }

  /** Pattern `k` is the first of the six that matches the snippet. */
  predicate IsFirstMatch(snippet: string, k: int) {
    && 0 <= k < |BROAD_PATTERNS|
    && PatternMatches(BROAD_PATTERNS[k], snippet)
    && forall m :: 0 <= m < k ==> !PatternMatches(BROAD_PATTERNS[m], snippet)
  }

  /** The flag a clause yields in the broadened pass: the first matching pattern's risk type
      and fixed confidence, or none. */
  function BroadFlag(c: ClauseResult): Option<RedFlagResult> {
    match FirstPattern(c.snippet, 0)
    case None => None
    case Some(k) =>
      var p := BROAD_PATTERNS[k];
      Some(RedFlagResult(p.desc, "Detected pattern in " + c.clauseType + " clause.", Take(c.snippet, 400),
        Min(100, p.base) as real, c.page))
  }

  function BroadFlags(clauses: seq<ClauseResult>): seq<RedFlagResult> {
    if clauses == [] then []
    else
      var f := BroadFlag(clauses[|clauses| - 1]);
      BroadFlags(clauses[..|clauses| - 1]) + (if f.Some? then [f.value] else [])
  }

  /** Some clause type starts with `prefix`, case-insensitively. */
  predicate HaveType(clauses: seq<ClauseResult>, prefix: string) {
    exists i | 0 <= i < |clauses| :: StartsWith(Lower(clauses[i].clauseType), prefix)
  }

  /** `next((c for c in clauses if c.clause_type.lower().startswith("indemn")), default)`. */
  function NextIndemnity(clauses: seq<ClauseResult>, default: ClauseResult): (c: ClauseResult)
    ensures c in clauses || c == default
  {
    if clauses == [] then default
    else if StartsWith(Lower(clauses[0].clauseType), "indemn") then clauses[0]
    else NextIndemnity(clauses[1..], default)
  }

  /** The first clause whose type starts with "indemn", or the first clause when there is none. */
  function FirstIndemnity(clauses: seq<ClauseResult>): (c: ClauseResult)
    requires clauses != []
    ensures c in clauses
  {
    NextIndemnity(clauses, clauses[0])
  }

  /** When some clause type starts with "indemn", the search finds the first such. */
  lemma {:induction false} NextIndemnityIsFirst(clauses: seq<ClauseResult>, default: ClauseResult)
    requires HaveType(clauses, "indemn")
    ensures StartsWith(Lower(NextIndemnity(clauses, default).clauseType), "indemn")
    ensures
      exists j :: 0 <= j < |clauses| && clauses[j] == NextIndemnity(clauses, default)
        && forall i :: 0 <= i < j ==> !StartsWith(Lower(clauses[i].clauseType), "indemn")
    decreases |clauses|
  {
    if !StartsWith(Lower(clauses[0].clauseType), "indemn") {
      var i :| 0 <= i < |clauses| && StartsWith(Lower(clauses[i].clauseType), "indemn");
      var rest := clauses[1..];
      assert rest[i - 1] == clauses[i];
      NextIndemnityIsFirst(rest, default);
      var j :| 0 <= j < |rest| && rest[j] == NextIndemnity(rest, default)
        && forall i :: 0 <= i < j ==> !StartsWith(Lower(rest[i].clauseType), "indemn");
      assert clauses[j + 1] == NextIndemnity(clauses, default);
      forall m | 0 <= m < j + 1 ensures !StartsWith(Lower(clauses[m].clauseType), "indemn") {
        if m > 0 {
          assert clauses[m] == rest[m - 1];
        }
      }
    } else {
      assert clauses[0] == NextIndemnity(clauses, default);
    }
  }

  /** When some clause type starts with "indemn", the chosen clause is the first such. */
  lemma FirstIndemnityIsFirst(clauses: seq<ClauseResult>)
    requires HaveType(clauses, "indemn")
    ensures StartsWith(Lower(FirstIndemnity(clauses).clauseType), "indemn")
    ensures
      exists j :: 0 <= j < |clauses| && clauses[j] == FirstIndemnity(clauses)
        && forall i :: 0 <= i < j ==> !StartsWith(Lower(clauses[i].clauseType), "indemn")
  {
    NextIndemnityIsFirst(clauses, clauses[0]);
  }

  /** The flag for an indemnity clause with no liability clause beside it. */
  function NoCapFlag(c: ClauseResult): RedFlagResult {
    RedFlagResult(NO_CAP_TYPE, NO_CAP_REASON, Take(c.snippet, 400), 67.0, c.page)
  }

  predicate NoCapApplies(clauses: seq<ClauseResult>) {
    HaveType(clauses, "indemn") && !HaveType(clauses, "liability")
  }

  /** The broadened flags, before deduplication. */
  function Broadened(clauses: seq<ClauseResult>): seq<RedFlagResult> {
    BroadFlags(clauses) + (if clauses != [] && NoCapApplies(clauses) then [NoCapFlag(FirstIndemnity(clauses))] else [])
  }

  function FlagKey(r: RedFlagResult): (string, int) {
    (r.riskType, r.page)
  }

  /** Each pattern flag carries one of the six risk types and that pattern's confidence. */
  lemma {:induction false} BroadFlagsShape(clauses: seq<ClauseResult>)
    ensures |BroadFlags(clauses)| <= |clauses|
    ensures forall r :: r in BroadFlags(clauses) ==>
      exists k :: 0 <= k < |BROAD_PATTERNS| && r.riskType == BROAD_PATTERNS[k].desc
        && r.confidence == BROAD_PATTERNS[k].base as real
    decreases |clauses|
  {
    if clauses != [] {
      BroadFlagsShape(clauses[..|clauses| - 1]);
    }
  }

  /** A clause yields a pattern flag iff one of the six patterns matches it; the flag is that of
      the first matching pattern. */
  lemma BroadFlagFirst(c: ClauseResult)
    ensures BroadFlag(c).Some? <==> exists k :: 0 <= k < |BROAD_PATTERNS| && PatternMatches(BROAD_PATTERNS[k], c.snippet)
    ensures BroadFlag(c).Some? ==>
      exists k :: IsFirstMatch(c.snippet, k)
        && BroadFlag(c).value.riskType == BROAD_PATTERNS[k].desc
        && BroadFlag(c).value.confidence == BROAD_PATTERNS[k].base as real
        && BroadFlag(c).value.page == c.page
  {
  }

  /** No pattern flag carries the risk type of the "no liability cap" flag. */
  lemma NoPatternIsNoCap()
    ensures forall k :: 0 <= k < |BROAD_PATTERNS| ==> BROAD_PATTERNS[k].desc != NO_CAP_TYPE
  {
  }

  /** The "no liability cap" flag is among the broadened flags iff some clause type starts with
      "indemn" and none with "liability". */
  lemma NoCapIff(clauses: seq<ClauseResult>)
    requires clauses != []
    ensures (exists r :: r in Broadened(clauses) && r.riskType == NO_CAP_TYPE) <==> NoCapApplies(clauses)
  {
    BroadFlagsShape(clauses);
    NoPatternIsNoCap();
    var b := BroadFlags(clauses);
    if exists r :: r in Broadened(clauses) && r.riskType == NO_CAP_TYPE {
      var r :| r in Broadened(clauses) && r.riskType == NO_CAP_TYPE;
      assert r !in b;
    }
    if NoCapApplies(clauses) {
      assert Broadened(clauses)[|b|] == NoCapFlag(FirstIndemnity(clauses));
    }
  }

  /** Deduplication by (risk type, page) keeps the "no liability cap" flag: no pattern flag
      shares its risk type. */
  lemma NoCapSurvives(clauses: seq<ClauseResult>)
    requires clauses != [] && NoCapApplies(clauses)
    ensures NoCapFlag(FirstIndemnity(clauses)) in DedupeBy(Broadened(clauses), FlagKey)
  {
    BroadFlagsShape(clauses);
    var b := BroadFlags(clauses);
    var s := Broadened(clauses);
    forall j | 0 <= j < |b| ensures FlagKey(s[j]) != FlagKey(s[|b|]) {
      assert s[j] == b[j];
      var k :| 0 <= k < |BROAD_PATTERNS| && b[j].riskType == BROAD_PATTERNS[k].desc;
    }
    DedupeByFirst(s, FlagKey, |b|);
  }

  /** The broadened flags carry confidences between 60 and 72. */
  lemma BroadenedConfidence(clauses: seq<ClauseResult>)
    ensures forall r :: r in Broadened(clauses) ==> 60.0 <= r.confidence <= 72.0
  {
    BroadFlagsShape(clauses);
  }

  /** The pattern pass's inner loop: the patterns in order until one matches. */
  method FindPattern(snippet: string) returns (found: Option<nat>)
    ensures found == FirstPattern(snippet, 0)
  {
    found := None;
    var k := 0;
    while k < |BROAD_PATTERNS|
      invariant 0 <= k <= |BROAD_PATTERNS|
      invariant FirstPattern(snippet, 0) == FirstPattern(snippet, k)
      decreases |BROAD_PATTERNS| - k
    {
      if PatternMatches(BROAD_PATTERNS[k], snippet) {
        found := Some(k);
        return;
      }
      k := k + 1;
    }
  }

  /** The pattern pass's clause loop. */
  method BroadPass(clauses: seq<ClauseResult>) returns (broadened: seq<RedFlagResult>)
    ensures broadened == BroadFlags(clauses)
  {
    broadened := [];
    for i := 0 to |clauses|
      invariant broadened == BroadFlags(clauses[..i])
    {
      assert clauses[..i + 1][..i] == clauses[..i];
      var c := clauses[i];
      var found := FindPattern(c.snippet);
      if found.Some? {
        var p := BROAD_PATTERNS[found.value];
        broadened := broadened + [RedFlagResult(p.desc, "Detected pattern in " + c.clauseType + " clause.",
          Take(c.snippet, 400), Min(100, p.base) as real, c.page)];
      }
    }
    assert clauses[..|clauses|] == clauses;
  }

  /** The `seen` loop over the broadened flags. */
  method DedupeFlags(broadened: seq<RedFlagResult>) returns (dedup: seq<RedFlagResult>)
    ensures dedup == DedupeBy(broadened, FlagKey)
  {
    dedup := [];
    var seen: set<(string, int)> := {};
    for i := 0 to |broadened|
      invariant dedup == DedupeBy(broadened[..i], FlagKey)
      invariant seen == KeysOf(dedup, FlagKey)
    {
      assert broadened[..i + 1] == broadened[..i] + [broadened[i]];
      dedup, seen := AddIfNew(broadened[i], FlagKey, dedup, seen, broadened[..i]);
    }
    assert broadened[..|broadened|] == broadened;
  }

  // ---------------------------------------------------------------- detect_redflags

  /** The client's `generate`. */
  function Reply(llm: LlmClient): string -> string {
    (p: string) => Generate(llm, p)
  }

  /** The results before clamping: heuristic flags for the stub, the model's lines otherwise. */
  function RawFlags(config: AppConfig, llm: LlmClient, template: string -> string, clauses: seq<ClauseResult>): seq<RedFlagResult> {
    if IsStub(llm) then HeuristicFlags(clauses, config.confidenceThreshold)
    else LlmFlags(Reply(llm), template, Batches(clauses, 12))
  }

  /** The clamped results that reach the threshold, in their order. */
  function Filtered(config: AppConfig, llm: LlmClient, template: string -> string, clauses: seq<ClauseResult>): seq<RedFlagResult> {
    Filter(MapSeq(RawFlags(config, llm, template, clauses), Clamp), AtLeast(config.confidenceThreshold))
  }

  /** `detect_redflags`. */
  function DetectedRedFlags(config: AppConfig, llm: LlmClient, template: string -> string, clauses: seq<ClauseResult>): seq<RedFlagResult> {
    var filtered := Filtered(config, llm, template, clauses);
    if filtered == [] && clauses != [] then
      var dedup := DedupeBy(Broadened(clauses), FlagKey);
      if dedup != [] then dedup else filtered
    else filtered
  }

  /** The detector returns the filtered results when any pass the threshold; otherwise the
      deduplicated broadened flags, which are not filtered and may be empty. */
  lemma DetectedCases(config: AppConfig, llm: LlmClient, template: string -> string, clauses: seq<ClauseResult>)
    ensures var filtered := Filtered(config, llm, template, clauses);
      DetectedRedFlags(config, llm, template, clauses)
        == if filtered == [] && clauses != [] then DedupeBy(Broadened(clauses), FlagKey) else filtered
    ensures var out := DetectedRedFlags(config, llm, template, clauses);
      DistinctKeys(out, FlagKey) || out == Filtered(config, llm, template, clauses)
  {
    DedupeByProperties(Broadened(clauses), FlagKey);
  }

  /** Every result's confidence lies in [0, 100]; a result that passed the filter reaches the
      threshold. */
  lemma DetectedConfidence(config: AppConfig, llm: LlmClient, template: string -> string, clauses: seq<ClauseResult>)
    ensures forall r :: r in DetectedRedFlags(config, llm, template, clauses) ==> 0.0 <= r.confidence <= 100.0
    ensures forall r :: r in Filtered(config, llm, template, clauses) ==>
      r.confidence >= config.confidenceThreshold as real
  {
    ClampedFilterRange(RawFlags(config, llm, template, clauses), config.confidenceThreshold);
    DedupedBroadenedRange(clauses);
  }

  /** Clamped results that pass the threshold lie in [threshold, 100] and in [0, 100]. */
  lemma ClampedFilterRange(raw: seq<RedFlagResult>, threshold: int)
    ensures forall r :: r in Filter(MapSeq(raw, Clamp), AtLeast(threshold)) ==>
      0.0 <= r.confidence <= 100.0 && r.confidence >= threshold as real
  {
    var clamped := MapSeq(raw, Clamp);
    var p := AtLeast(threshold);
    forall r | r in Filter(clamped, p)
      ensures 0.0 <= r.confidence <= 100.0 && r.confidence >= threshold as real
    {
      FilterMembers(clamped, p, r);
      var i :| 0 <= i < |clamped| && clamped[i] == r;
      ClampRange(raw[i]);
    }
  }

  /** The deduplicated broadened flags have confidences in [0, 100]. */
  lemma DedupedBroadenedRange(clauses: seq<ClauseResult>)
    ensures forall r :: r in DedupeBy(Broadened(clauses), FlagKey) ==> 0.0 <= r.confidence <= 100.0
  {
    BroadenedConfidence(clauses);
    DedupeByProperties(Broadened(clauses), FlagKey);
    SubseqMembers(DedupeBy(Broadened(clauses), FlagKey), Broadened(clauses));
  }

  /** The detector for a chosen client; `template` fills the red-flag prompt. */
  method DetectRedflags(config: AppConfig, llm: LlmClient, template: string -> string, clauses: seq<ClauseResult>)
    returns (out: seq<RedFlagResult>)
    ensures out == DetectedRedFlags(config, llm, template, clauses)
  {
    var results: seq<RedFlagResult>;
    if IsStub(llm) {
      results := HeuristicPass(clauses, config.confidenceThreshold);
    } else {
      results := LlmPass(Reply(llm), template, clauses);
    }
    assert results == RawFlags(config, llm, template, clauses);
    results := ClampAll(results);
    var filtered := Filter(results, AtLeast(config.confidenceThreshold));
    assert filtered == Filtered(config, llm, template, clauses);
    if filtered == [] && clauses != [] {
      var broadened := BroadPass(clauses);
      if NoCapApplies(clauses) {
        broadened := broadened + [NoCapFlag(FirstIndemnity(clauses))];
      }
      assert broadened == Broadened(clauses);
      var dedup := DedupeFlags(broadened);
      filtered := if dedup != [] then dedup else filtered;
    }
    out := filtered;
  }

  /** With the stub client and a threshold at most the base score, every clause yields its
      heuristic flag, in the clauses' order. */
  lemma StubLowThreshold(config: AppConfig, llm: LlmClient, template: string -> string, clauses: seq<ClauseResult>)
    requires IsStub(llm) && config.confidenceThreshold <= BASE_SCORE
    ensures DetectedRedFlags(config, llm, template, clauses) == MapSeq(clauses, HeuristicFlag)
  {
    HeuristicFlagsAll(clauses, config.confidenceThreshold);
    var raw := MapSeq(clauses, HeuristicFlag);
    forall i | 0 <= i < |raw| ensures Clamp(raw[i]) == raw[i] && AtLeast(config.confidenceThreshold)(raw[i]) {
      HeuristicFlagShape(clauses[i]);
    }
    assert MapSeq(raw, Clamp) == raw;
    FilterAll(raw, AtLeast(config.confidenceThreshold));
    assert Filtered(config, llm, template, clauses) == raw;
  }

  /** The two flags the detection test reads carry the clauses' types, in order. */
  lemma ExampleRiskTypes(config: AppConfig, llm: LlmClient, template: string -> string, term: ClauseResult, indemnity: ClauseResult)
    requires IsStub(llm) && config.confidenceThreshold == 0
    ensures var out := DetectedRedFlags(config, llm, template, [term, indemnity]);
      |out| == 2 && out[0].riskType == term.clauseType && out[1].riskType == indemnity.clauseType
  {
    StubLowThreshold(config, llm, template, [term, indemnity]);
    HeuristicFlagShape(term);
    HeuristicFlagShape(indemnity);
  }

  /** The lower-cased test types hold the words the test looks for. */
  lemma TypeMentions()
    ensures Contains(Lower("Termination"), "termination") && Contains(Lower("Indemnity"), "indemn")
  {
    assert Lower("Termination") == "termination";
    assert OccursAt("termination", "termination", 0);
    ContainsWitness("termination", "termination", 0);
    assert Lower("Indemnity") == "indemnity";
    assert OccursAt("indemnity", "indemn", 0);
    ContainsWitness("indemnity", "indemn", 0);
  }

  /** The detection test, for any termination clause and indemnity clause: with the stub client
      at threshold 0 the detector reports a risk type mentioning termination and one mentioning
      indemnity. */
  lemma ExampleDetection(config: AppConfig, llm: LlmClient, template: string -> string, term: ClauseResult, indemnity: ClauseResult)
    requires IsStub(llm) && config.confidenceThreshold == 0
    requires term.clauseType == "Termination" && indemnity.clauseType == "Indemnity"
    ensures var out := DetectedRedFlags(config, llm, template, [term, indemnity]);
      (exists r :: r in out && (Contains(Lower(r.riskType), "termination") || Contains(Lower(r.riskType), "unilateral")))
      && (exists r :: r in out && Contains(Lower(r.riskType), "indemn"))
  {
    var out := DetectedRedFlags(config, llm, template, [term, indemnity]);
    ExampleRiskTypes(config, llm, template, term, indemnity);
    TypeMentions();
    assert out[0] in out && out[1] in out;
  }
}
