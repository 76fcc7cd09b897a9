/** `clean_text` of src/ingest/pdf_loader.py: NUL characters become spaces, every run of
    whitespace becomes one space, and the result is stripped. */
module PdfLoader {
  import opened Text

  /** A character `clean_text` keeps as it is: neither whitespace nor NUL. */
  predicate Visible(c: char) { !IsSpace(c) && c != '\0' }

  /** The visible characters of `s`, in order. */
  function VisibleChars(s: string): string {
    KeepChars(s, Visible)
  }

  /** `WHITESPACE_RE.sub(" ", s)` with `WHITESPACE_RE = \s+`. */
  function CollapseSpaces(s: string): (r: string)
    ensures |r| <= |s| && (r == [] <==> s == [])
    ensures s != [] ==> (IsSpace(r[0]) <==> IsSpace(s[0]))
    ensures forall i :: 0 <= i < |r| && IsSpace(r[i]) ==> r[i] == ' '
    ensures forall i :: 0 <= i < |r| - 1 ==> !(IsSpace(r[i]) && IsSpace(r[i + 1]))
    ensures forall i :: 0 <= i < |r| ==> r[i] == ' ' || r[i] in s
    decreases |s|
  {
    if s == [] then []
    else if IsSpace(s[0]) then [' '] + CollapseSpaces(LStripBy(s, IsSpace))
    else [s[0]] + CollapseSpaces(s[1..])
  }

  function CleanText(s: string): string {
    Strip(CollapseSpaces(ReplaceChar(s, '\0', ' ')))
  }

  /** No NUL, no whitespace other than the space, and no two adjacent whitespace characters. */
  predicate Collapsed(r: string) {
    && (forall i :: 0 <= i < |r| ==> r[i] != '\0')
    && (forall i :: 0 <= i < |r| && IsSpace(r[i]) ==> r[i] == ' ')
    && (forall i :: 0 <= i < |r| - 1 ==> !(IsSpace(r[i]) && IsSpace(r[i + 1])))
  }

  lemma CollapsedSlice(r: string, i: int, j: int)
    requires Collapsed(r) && 0 <= i <= j <= |r|
    ensures Collapsed(r[i..j])
  {
    var t := r[i..j];
    assert forall k :: 0 <= k < |t| ==> t[k] == r[i + k];
  }

  lemma CollapseOfNulFree(n: string)
    requires forall i :: 0 <= i < |n| ==> n[i] != '\0'
    ensures Collapsed(CollapseSpaces(n))
  {
    var c := CollapseSpaces(n);
    forall k | 0 <= k < |c| ensures c[k] != '\0' {
      if c[k] != ' ' {
        assert c[k] in n;
      }
    }
  }

  /** The output holds no NUL, no two adjacent whitespace characters and no leading or
      trailing whitespace; its only whitespace character is the space. */
  lemma CleanTextShape(s: string)
    ensures Collapsed(CleanText(s))
    ensures var r := CleanText(s); r == [] || (!IsSpace(r[0]) && !IsSpace(r[|r| - 1]))
  {
    var c := CollapseSpaces(ReplaceChar(s, '\0', ' '));
    CollapseOfNulFree(ReplaceChar(s, '\0', ' '));
    var i, j := StripSlice(c);
    CollapsedSlice(c, i, j);
  }

  lemma VisibleOfBlank(s: string)
    requires AllChars(s, IsSpace)
    ensures VisibleChars(s) == []
  {
    KeepCharsNone(s, Visible);
  }

  lemma {:induction false} CollapseKeepsVisible(s: string)
    ensures VisibleChars(CollapseSpaces(s)) == VisibleChars(s)
    decreases |s|
  {
    if s != [] {
      if IsSpace(s[0]) {
        var t := LStripBy(s, IsSpace);
        var k := |s| - |t|;
        CollapseKeepsVisible(t);
        assert s == s[..k] + t;
        KeepCharsConcat(s[..k], t, Visible);
        VisibleOfBlank(s[..k]);
        KeepCharsConcat([' '], CollapseSpaces(t), Visible);
      } else {
        CollapseKeepsVisible(s[1..]);
        KeepCharsConcat([s[0]], CollapseSpaces(s[1..]), Visible);
      }
    }
  }

  lemma StripKeepsVisible(s: string)
    ensures VisibleChars(Strip(s)) == VisibleChars(s)
  {
    var i, j := StripSlice(s);
    var l, m, r := s[..i], s[i..j], s[j..];
    SplitThree(s, i, j);
    KeepCharsConcat(l + m, r, Visible);
    KeepCharsConcat(l, m, Visible);
    VisibleOfBlank(l);
    VisibleOfBlank(r);
    assert VisibleChars(l + m + r) == [] + VisibleChars(m) + [];
    assert [] + VisibleChars(m) + [] == VisibleChars(m);
  }

  /** The characters that are neither whitespace nor NUL survive, in their order. */
  lemma CleanTextKeepsVisible(s: string)
    ensures VisibleChars(CleanText(s)) == VisibleChars(s)
  {
    var n := ReplaceChar(s, '\0', ' ');
    KeepCharsSame(n, s, Visible);
    CollapseKeepsVisible(n);
    StripKeepsVisible(CollapseSpaces(n));
  }

  lemma {:induction false} CollapseOfCollapsed(s: string)
    requires forall i :: 0 <= i < |s| && IsSpace(s[i]) ==> s[i] == ' '
    requires forall i :: 0 <= i < |s| - 1 ==> !(IsSpace(s[i]) && IsSpace(s[i + 1]))
    ensures CollapseSpaces(s) == s
    decreases |s|
  {
    if s != [] {
      if IsSpace(s[0]) {
        assert 1 < |s| ==> !IsSpace(s[1]);
        assert LStripBy(s, IsSpace) == s[1..];
      }
      CollapseOfCollapsed(s[1..]);
    }
  }

  /** Cleaning cleaned text changes nothing. */
  lemma CleanTextIdempotent(s: string)
    ensures CleanText(CleanText(s)) == CleanText(s)
  {
    var r := CleanText(s);
    CleanTextShape(s);
    assert ReplaceChar(r, '\0', ' ') == r;
    CollapseOfCollapsed(r);
    StripOfStripped(r);
  }
}
