/** String primitives with the meaning Python gives them: `str.isspace`, `str.lower` (on the
    ASCII letters), `in`, `startswith`, `strip`, slicing, `join`, `split`, `splitlines`, `str()`
    of an integer and `int()` of a digit string. Strings are `seq<char>`. */
module Text {
  import opened Wrappers

  // ---------------------------------------------------------------- characters

  /** Python's `str.isspace`; also the class of `\s` and the separator of `str.split()`. */
  predicate IsSpace(c: char) {
    ('\t' <= c <= '\r') || ('\U{1C}' <= c <= '\U{1F}') || c == ' ' || c == '\U{85}'
    || c == '\U{A0}' || c == '\U{1680}' || ('\U{2000}' <= c <= '\U{200A}')
    || c == '\U{2028}' || c == '\U{2029}' || c == '\U{202F}' || c == '\U{205F}'
    || c == '\U{3000}'
  }

  /** The line boundaries of Python's `str.splitlines`. */
  predicate IsLineBreak(c: char) {
    ('\n' <= c <= '\r') || ('\U{1C}' <= c <= '\U{1E}') || c == '\U{85}'
    || c == '\U{2028}' || c == '\U{2029}'
  }

  predicate IsAsciiLetter(c: char) { ('a' <= c <= 'z') || ('A' <= c <= 'Z') }

  predicate IsDigit(c: char) { '0' <= c <= '9' }

  /** The class `\w` on ASCII text: letters, digits and the underscore. */
  predicate IsWordChar(c: char) { IsAsciiLetter(c) || IsDigit(c) || c == '_' }

  function LowerChar(c: char): (r: char)
    ensures !('A' <= r <= 'Z')
    ensures !('A' <= c <= 'Z') ==> r == c
  {
    if 'A' <= c <= 'Z' then (c as int + 32) as char else c
  }

  /** `s.lower()`, on the ASCII letters. */
  function Lower(s: string): (r: string)
    ensures |r| == |s|
    ensures forall i :: 0 <= i < |s| ==> r[i] == LowerChar(s[i])
  {
    seq(|s|, i requires 0 <= i < |s| => LowerChar(s[i]))
  }

  predicate IsLower(s: string) { forall i :: 0 <= i < |s| ==> !('A' <= s[i] <= 'Z') }

  lemma LowerIdempotent(s: string)
    ensures IsLower(Lower(s)) && Lower(Lower(s)) == Lower(s)
  {
  }

  lemma LowerOfLower(s: string)
    requires IsLower(s)
    ensures Lower(s) == s
  {
  }

  lemma LowerConcat(a: string, b: string)
    ensures Lower(a + b) == Lower(a) + Lower(b)
  {
  }

  lemma LowerSlice(s: string, i: int, j: int)
    requires 0 <= i <= j <= |s|
    ensures Lower(s[i..j]) == Lower(s)[i..j]
  {
  }

  // ---------------------------------------------------------------- substrings

  /** `t` occurs in `s` at offset `i`. */
  predicate OccursAt(s: string, t: string, i: int) {
    0 <= i && i + |t| <= |s| && s[i..i + |t|] == t
  }

  lemma OccursAtHead(s: string, t: string, i: int)
    requires OccursAt(s, t, i) && t != []
    ensures s[i] == t[0]
  {
    assert s[i..i + |t|][0] == s[i];
  }

  /** A suffix cut in two. */
  lemma SuffixSplit<T>(s: seq<T>, i: int, j: int)
    requires 0 <= i <= j <= |s|
    ensures s[i..] == s[i..j] + s[j..]
  {
  }

  /** A prefix of a suffix is a slice. */
  lemma PrefixOfSuffix<T>(s: seq<T>, i: int, j: int)
    requires 0 <= i <= j <= |s|
    ensures s[i..][..j - i] == s[i..j]
  {
  }

  /** `s.find(t, i)`: the first offset at or after `i` where `t` occurs. */
  function IndexFrom(s: string, t: string, i: nat): (r: Option<nat>)
    ensures r.Some? ==> i <= r.value && OccursAt(s, t, r.value)
    ensures r.Some? ==> forall k :: i <= k < r.value ==> !OccursAt(s, t, k)
    ensures r.None? ==> forall k :: i <= k ==> !OccursAt(s, t, k)
    decreases |s| - i
  {
    if i + |t| > |s| then None
    else if s[i..i + |t|] == t then Some(i)
    else IndexFrom(s, t, i + 1)
  }

  /** The search from `i` finds an occurrence at or before any occurrence `j` past `i`. */
  lemma IndexFromReaches(s: string, t: string, i: nat, j: int)
    requires i <= j && OccursAt(s, t, j)
    ensures IndexFrom(s, t, i).Some? && IndexFrom(s, t, i).value <= j
  {
  }

  /** The search from `i` finds `j` when the first character of `t` does not occur in
      `s[i..j]`. */
  lemma IndexFromExact(s: string, t: string, i: nat, j: int)
    requires i <= j && OccursAt(s, t, j) && t != []
    requires forall k :: i <= k < j ==> s[k] != t[0]
    ensures IndexFrom(s, t, i) == Some(j)
  {
    IndexFromReaches(s, t, i, j);
    var r := IndexFrom(s, t, i).value;
    OccursAtHead(s, t, r);
  }

  /** `s.find(t)` as an option. */
  function IndexOf(s: string, t: string): Option<nat> {
    IndexFrom(s, t, 0)
  }

  /** Python's `t in s`. */
  predicate Contains(s: string, t: string) {
    IndexOf(s, t).Some?
  }

  lemma ContainsIff(s: string, t: string)
    ensures Contains(s, t) <==> exists k :: OccursAt(s, t, k)
  {
    if Contains(s, t) {
      assert OccursAt(s, t, IndexOf(s, t).value);
    }
  }

  lemma ContainsWitness(s: string, t: string, k: int)
    requires OccursAt(s, t, k)
    ensures Contains(s, t)
  {
    ContainsIff(s, t);
  }

  lemma ContainsInfix(a: string, t: string, b: string)
    ensures Contains(a + t + b, t)
  {
    assert (a + t + b)[|a|..|a| + |t|] == t;
    ContainsWitness(a + t + b, t, |a|);
  }

  lemma SliceOfSlice<T>(s: seq<T>, i: int, j: int, a: int, b: int)
    requires 0 <= i <= j <= |s| && 0 <= a <= b <= j - i
    ensures s[i..j][a..b] == s[i + a..i + b]
  {
    forall m | 0 <= m < b - a ensures s[i..j][a..b][m] == s[i + a..i + b][m] {
      assert s[i..j][a..b][m] == s[i..j][a + m];
      assert s[i..j][a + m] == s[i + a + m];
    }
  }

  /** The characters of `s` that satisfy `p`, in order. */
  function KeepChars(s: string, p: char -> bool): string {
    if s == [] then [] else (if p(s[0]) then [s[0]] else []) + KeepChars(s[1..], p)
  }

  lemma {:induction false} KeepCharsConcat(a: string, b: string, p: char -> bool)
    ensures KeepChars(a + b, p) == KeepChars(a, p) + KeepChars(b, p)
    decreases |a|
  {
    if a == [] {
      assert a + b == b;
    } else {
      var h := if p(a[0]) then [a[0]] else [];
      assert (a + b)[0] == a[0] && (a + b)[1..] == a[1..] + b;
      assert KeepChars(a + b, p) == h + KeepChars(a[1..] + b, p);
      KeepCharsConcat(a[1..], b, p);
      assert h + (KeepChars(a[1..], p) + KeepChars(b, p)) == (h + KeepChars(a[1..], p)) + KeepChars(b, p);
    }
  }

  lemma {:induction false} KeepCharsNone(s: string, p: char -> bool)
    requires forall i :: 0 <= i < |s| ==> !p(s[i])
    ensures KeepChars(s, p) == []
    decreases |s|
  {
    if s != [] {
      assert forall i :: 0 <= i < |s| - 1 ==> s[1..][i] == s[i + 1];
      KeepCharsNone(s[1..], p);
    }
  }

  /** Two strings that agree, position by position, on which characters pass and on the
      characters that pass. */
  lemma {:induction false} KeepCharsSame(a: string, b: string, p: char -> bool)
    requires |a| == |b|
    requires forall i :: 0 <= i < |a| ==> (p(a[i]) <==> p(b[i]))
    requires forall i :: 0 <= i < |a| && p(a[i]) ==> a[i] == b[i]
    ensures KeepChars(a, p) == KeepChars(b, p)
    decreases |a|
  {
    if a != [] {
      assert forall i :: 0 <= i < |a| - 1 ==> a[1..][i] == a[i + 1] && b[1..][i] == b[i + 1];
      KeepCharsSame(a[1..], b[1..], p);
    }
  }

  lemma SplitTwo<T>(s: seq<T>, i: int)
    requires 0 <= i <= |s|
    ensures s == s[..i] + s[i..]
  {
  }

  lemma SplitThree<T>(s: seq<T>, i: int, j: int)
    requires 0 <= i <= j <= |s|
    ensures s == s[..i] + s[i..j] + s[j..]
  {
    assert s == s[..i] + s[i..];
    assert s[i..] == s[i..j] + s[j..];
  }

  lemma ContainsInSlice(s: string, t: string, i: int, j: int)
    requires 0 <= i <= j <= |s|
    requires Contains(s[i..j], t)
    ensures Contains(s, t)
  {
    var k := IndexOf(s[i..j], t).value;
    assert OccursAt(s[i..j], t, k);
    SliceOfSlice(s, i, j, k, k + |t|);
    ContainsWitness(s, t, i + k);
  }

  lemma ContainsEmpty(s: string)
    ensures Contains(s, "")
  {
    assert OccursAt(s, "", 0);
    ContainsWitness(s, "", 0);
  }

  /** `s.startswith(p)`. */
  predicate StartsWith(s: string, p: string) {
    |p| <= |s| && s[..|p|] == p
  }

  /** `s.endswith(p)`. */
  predicate EndsWith(s: string, p: string) {
    |p| <= |s| && s[|s| - |p|..] == p
  }

  // ---------------------------------------------------------------- stripping

  /** The longest prefix of `s` whose characters all satisfy `p`. */
  function TakeWhile(s: string, p: char -> bool): (r: string)
    ensures |r| <= |s| && r == s[..|r|]
    ensures AllChars(r, p)
    ensures |r| < |s| ==> !p(s[|r|])
  {
    if s == [] || !p(s[0]) then [] else [s[0]] + TakeWhile(s[1..], p)
  }

  /** A prefix of passing characters followed by the end or a failing one is what TakeWhile
      takes. */
  lemma {:induction false} TakeWhileExact(s: string, p: char -> bool, w: int)
    requires 0 <= w <= |s| && AllChars(s[..w], p) && (w == |s| || !p(s[w]))
    ensures TakeWhile(s, p) == s[..w]
    decreases w
  {
    if w > 0 {
      AllCharsAt(s[..w], p, 0);
      AllCharsSlice(s[..w], p, 1, w);
      assert s[..w][1..w] == s[1..][..w - 1];
      TakeWhileExact(s[1..], p, w - 1);
      assert s[..w] == [s[0]] + s[1..][..w - 1];
    }
  }

  /** Every character of `s` satisfies `p`. */
  predicate AllChars(s: string, p: char -> bool) {
    forall i :: 0 <= i < |s| ==> p(s[i])
  }

  lemma AllCharsAt(s: string, p: char -> bool, k: int)
    requires AllChars(s, p) && 0 <= k < |s|
    ensures p(s[k])
  {
  }

  lemma AllCharsSlice(s: string, p: char -> bool, i: int, j: int)
    requires AllChars(s, p) && 0 <= i <= j <= |s|
    ensures AllChars(s[i..j], p)
  {
    assert forall k :: 0 <= k < j - i ==> s[i..j][k] == s[i + k];
  }

  lemma TakeIndex<T>(s: seq<T>, n: int, i: int)
    requires 0 <= i < n <= |s|
    ensures s[..n][i] == s[i]
  {
  }

  /** The longest suffix of `s` whose characters all satisfy `p`. */
  function TakeWhileEnd(s: string, p: char -> bool): (r: string)
    ensures |r| <= |s| && r == s[|s| - |r|..]
    ensures forall i :: 0 <= i < |r| ==> p(r[i])
    ensures |r| < |s| ==> !p(s[|s| - |r| - 1])
  {
    if s == [] || !p(s[|s| - 1]) then [] else TakeWhileEnd(s[..|s| - 1], p) + [s[|s| - 1]]
  }

  /** `s` without its leading characters that satisfy `p` (`lstrip(chars)`). */
  function LStripBy(s: string, p: char -> bool): (r: string)
    ensures |r| <= |s| && r == s[|s| - |r|..]
    ensures AllChars(s[..|s| - |r|], p)
    ensures r == [] || !p(r[0])
    ensures s != [] && p(s[0]) ==> |r| < |s|
    decreases |s|
  {
    if s == [] || !p(s[0]) then s
    else
      var r := LStripBy(s[1..], p);
      AllCharsCons(s, |s| - |r|, p);
      r
  }

  /** `AllChars` over a prefix, from its first character and the rest. */
  lemma AllCharsCons(s: string, k: int, p: char -> bool)
    requires 0 < k <= |s| && p(s[0]) && AllChars(s[1..][..k - 1], p)
    ensures AllChars(s[..k], p)
  {
    assert s[..k] == [s[0]] + s[1..][..k - 1];
  }

  /** `LStripBy` removes exactly a run of passing characters followed by the end or a failing
      one. */
  lemma {:induction false} LStripByExact(s: string, p: char -> bool, w: int)
    requires 0 <= w <= |s| && AllChars(s[..w], p) && (w == |s| || !p(s[w]))
    ensures LStripBy(s, p) == s[w..]
    decreases w
  {
    if w > 0 {
      AllCharsAt(s[..w], p, 0);
      AllCharsSlice(s[..w], p, 1, w);
      assert s[..w][1..w] == s[1..][..w - 1];
      LStripByExact(s[1..], p, w - 1);
    }
  }

  /** `s` without its trailing characters that satisfy `p` (`rstrip(chars)`). */
  function RStripBy(s: string, p: char -> bool): (r: string)
    ensures |r| <= |s| && r == s[..|r|]
    ensures AllChars(s[|r|..], p)
    ensures r == [] || !p(r[|r| - 1])
    decreases |s|
  {
    if s == [] || !p(s[|s| - 1]) then s
    else
      var r := RStripBy(s[..|s| - 1], p);
      AllCharsSnoc(s, |r|, p);
      r
  }

  /** `AllChars` over a suffix, from its last character and the rest. */
  lemma AllCharsSnoc(s: string, k: int, p: char -> bool)
    requires 0 <= k < |s| && p(s[|s| - 1]) && AllChars(s[..|s| - 1][k..], p)
    ensures AllChars(s[k..], p)
  {
    forall i | 0 <= i < |s| - k ensures p(s[k..][i]) {
      if i < |s| - 1 - k {
        assert s[k..][i] == s[..|s| - 1][k..][i];
      }
    }
  }

  /** `s.strip(chars)` for a predicate on characters. */
  function StripBy(s: string, p: char -> bool): (r: string)
    ensures r == [] || (!p(r[0]) && !p(r[|r| - 1]))
    ensures |r| <= |s|
  {
    RStripBy(LStripBy(s, p), p)
  }

  /** What `StripBy` removes: a run of characters satisfying `p` at either end. */
  lemma StripBySlice(s: string, p: char -> bool) returns (i: int, j: int)
    ensures 0 <= i <= j <= |s| && StripBy(s, p) == s[i..j]
    ensures AllChars(s[..i], p) && AllChars(s[j..], p)
  {
    var l := LStripBy(s, p);
    var r := RStripBy(l, p);
    i := |s| - |l|;
    j := i + |r|;
    assert l == s[i..];
    assert r == l[..|r|];
    assert l[|r|..] == s[j..];
    assert AllChars(s[j..], p);
    assert r == s[i..j];
    assert StripBy(s, p) == r;
  }

  /** Text whose first character does not satisfy `p` loses nothing to `LStripBy`. */
  lemma LStripByNone(s: string, p: char -> bool)
    requires s != [] && !p(s[0])
    ensures LStripBy(s, p) == s
  {
  }

  /** `RStripBy` keeps the first `n` characters when the `n`-th does not satisfy `p`. */
  lemma RStripByKeeps(s: string, n: int, p: char -> bool)
    requires 0 < n <= |s| && !p(s[n - 1])
    ensures n <= |RStripBy(s, p)| && RStripBy(s, p)[..n] == s[..n]
  {
  }

  /** Stripping keeps a prefix whose first and last characters do not satisfy `p`. */
  lemma StripByKeepsPrefix(s: string, pre: string, p: char -> bool)
    requires StartsWith(s, pre) && pre != []
    requires !p(pre[0]) && !p(pre[|pre| - 1])
    ensures StartsWith(StripBy(s, p), pre)
  {
    assert s[0] == pre[0] && s[|pre| - 1] == pre[|pre| - 1];
    LStripByNone(s, p);
    RStripByKeeps(s, |pre|, p);
  }

  /** Neither starts nor ends with whitespace: what `strip()` leaves. */
  predicate IsStripped(s: string) {
    s == [] || (!IsSpace(s[0]) && !IsSpace(s[|s| - 1]))
  }

  /** `s.strip()`. */
  function Strip(s: string): (r: string)
    ensures IsStripped(r)
    ensures |r| <= |s|
  {
    StripBy(s, IsSpace)
  }

  /** What `strip()` removes: whitespace at either end. */
  lemma StripSlice(s: string) returns (i: int, j: int)
    ensures 0 <= i <= j <= |s| && Strip(s) == s[i..j]
    ensures AllChars(s[..i], IsSpace) && AllChars(s[j..], IsSpace)
  {
    i, j := StripBySlice(s, IsSpace);
  }

  /** Stripping text that neither starts nor ends with a space changes nothing. */
  lemma StripOfStripped(s: string)
    requires IsStripped(s)
    ensures Strip(s) == s
  {
  }

  /** The longest suffix of `x + y` satisfying `p` is `y` when `y` satisfies `p` throughout and
      the last character of `x` does not. */
  lemma {:induction false} TakeWhileEndSuffix(x: string, y: string, p: char -> bool)
    requires x != [] && !p(x[|x| - 1])
    requires forall i :: 0 <= i < |y| ==> p(y[i])
    ensures TakeWhileEnd(x + y, p) == y
    decreases |y|
  {
    if y == [] {
      assert x + y == x;
    } else {
      var y' := y[..|y| - 1];
      assert (x + y)[..|x + y| - 1] == x + y';
      TakeWhileEndSuffix(x, y', p);
    }
  }

  /** A character predicate for `strip(chars)` with an explicit set of characters. */
  function InSet(cs: set<char>): char -> bool {
    c => c in cs
  }

  // ---------------------------------------------------------------- slicing and joining

  /** Python's `s[:n]` for `n >= 0`. */
  function Take<T>(s: seq<T>, n: nat): (r: seq<T>)
    ensures |r| == if n < |s| then n else |s|
    ensures r == s[..|r|]
  {
    if n < |s| then s[..n] else s
  }

  /** Python's `s[:n]` for any integer `n` (a negative `n` counts from the end). */
  function PyTake<T>(s: seq<T>, n: int): (r: seq<T>)
    ensures |r| <= |s| && r == s[..|r|]
    ensures n >= 0 ==> r == Take(s, n)
    ensures n < 0 ==> |r| == if |s| + n > 0 then |s| + n else 0
  {
    if n >= 0 then Take(s, n) else if |s| + n > 0 then s[..|s| + n] else []
  }

  /** Python's `s[a:b]` for `a, b >= 0`: both ends are clipped to the length. */
  function PySlice<T>(s: seq<T>, a: nat, b: nat): (r: seq<T>)
    ensures a <= b <= |s| ==> r == s[a..b]
    ensures b <= a ==> r == []
    ensures |s| <= a ==> r == []
  {
    var a' := if a < |s| then a else |s|;
    var b' := if b < |s| then b else |s|;
    if b' <= a' then [] else s[a'..b']
  }

  /** The last `n` elements (Python's `s[-n:]` for `n > 0`). */
  function Last<T>(s: seq<T>, n: nat): (r: seq<T>)
    ensures |r| == if n < |s| then n else |s|
    ensures r == s[|s| - |r|..]
  {
    if n < |s| then s[|s| - n..] else s
  }

  /** `''.join(parts)`. */
  function Concat(parts: seq<string>): string {
    if parts == [] then [] else Concat(parts[..|parts| - 1]) + parts[|parts| - 1]
  }

  /** Joining one more part that continues a prefix of `text` extends the prefix. */
  lemma ConcatPrefixStep(parts: seq<string>, text: string, k: nat, a: nat, b: nat)
    requires 0 < k <= |parts| && a <= b <= |text|
    requires Concat(parts[..k - 1]) == text[..a] && parts[k - 1] == text[a..b]
    ensures Concat(parts[..k]) == text[..b]
  {
    assert parts[..k] == parts[..k - 1] + [parts[k - 1]];
    ConcatAppend(parts[..k - 1], parts[k - 1]);
    assert text[..b] == text[..a] + text[a..b];
  }

  lemma ConcatAppend(parts: seq<string>, p: string)
    ensures Concat(parts + [p]) == Concat(parts) + p
  {
    assert (parts + [p])[..|parts|] == parts;
  }

  lemma {:induction false} ConcatSplit(a: seq<string>, b: seq<string>)
    ensures Concat(a + b) == Concat(a) + Concat(b)
    decreases |b|
  {
    if b == [] {
      assert a + b == a;
    } else {
      var n := |b| - 1;
      assert (a + b)[..|a + b| - 1] == a + b[..n];
      assert (a + b)[|a + b| - 1] == b[n];
      ConcatSplit(a, b[..n]);
    }
  }

  lemma ConcatLength(parts: seq<string>, k: nat)
    requires k <= |parts|
    ensures |Concat(parts[..k])| <= |Concat(parts)|
    decreases |parts| - k
  {
    if k < |parts| {
      ConcatLength(parts, k + 1);
      assert parts[..k + 1][..k] == parts[..k];
    } else {
      assert parts[..k] == parts;
    }
  }

  /** `sep.join(parts)`. */
  function Join(sep: string, parts: seq<string>): (r: string)
    ensures parts == [] ==> r == ""
    ensures |parts| == 1 ==> r == parts[0]
  {
    if parts == [] then "" else if |parts| == 1 then parts[0] else parts[0] + sep + Join(sep, parts[1..])
  }

  lemma JoinAppend(sep: string, parts: seq<string>, p: string)
    requires parts != []
    ensures Join(sep, parts + [p]) == Join(sep, parts) + sep + p
  {
    if |parts| == 1 {
      assert parts + [p] == [parts[0], p];
      assert Join(sep, [p]) == p;
    } else {
      assert (parts + [p])[1..] == parts[1..] + [p];
      JoinAppend(sep, parts[1..], p);
    }
  }

  lemma JoinStartsWith(sep: string, parts: seq<string>)
    requires parts != []
    ensures StartsWith(Join(sep, parts), parts[0])
  {
  }

  /** `s.replace(a, b)` for single characters. */
  function ReplaceChar(s: string, a: char, b: char): (r: string)
    ensures |r| == |s|
    ensures forall i :: 0 <= i < |s| ==> r[i] == (if s[i] == a then b else s[i])
  {
    seq(|s|, i requires 0 <= i < |s| => if s[i] == a then b else s[i])
  }

  // ---------------------------------------------------------------- splitting

  /** `s.split(sep)[0]`: the text before the first occurrence of `sep`. */
  function BeforeFirst(s: string, sep: string): (r: string)
    requires sep != []
    ensures StartsWith(s, r)
    ensures forall k :: 0 <= k ==> !OccursAt(r, sep, k)
    ensures |r| < |s| ==> OccursAt(s, sep, |r|)
    ensures !Contains(s, sep) ==> r == s
  {
    match IndexOf(s, sep)
    case None => s
    case Some(i) =>
      assert forall k :: 0 <= k ==> OccursAt(s[..i], sep, k) ==> OccursAt(s, sep, k);
      s[..i]
  }

  predicate NotSpace(c: char) { !IsSpace(c) }

  /** A non-empty run of non-whitespace characters. */
  predicate IsWord(w: string) {
    w != [] && forall i :: 0 <= i < |w| ==> NotSpace(w[i])
  }

  /** `s.split()`: the maximal runs of non-whitespace characters. */
  function Words(s: string): (r: seq<string>)
    ensures forall w :: w in r ==> IsWord(w)
    decreases |s|
  {
    var t := LStripBy(s, IsSpace);
    if t == [] then []
    else
      var w := TakeWhile(t, NotSpace);
      assert IsWord(w) by {
        assert NotSpace(t[0]);
      }
      [w] + Words(t[|w|..])
  }

  lemma WordsOfBlank(s: string)
    requires forall i :: 0 <= i < |s| ==> IsSpace(s[i])
    ensures Words(s) == []
  {
  }

  /** Where the first line of `s` ends: the first line boundary, or `|s|`. */
  function LineEnd(s: string): (i: nat)
    ensures i <= |s| && (i < |s| ==> IsLineBreak(s[i]))
    ensures forall k :: 0 <= k < i ==> !IsLineBreak(s[k])
  {
    |TakeWhile(s, c => !IsLineBreak(c))|
  }

  /** `s.splitlines()`: lines without their boundaries; `"\r\n"` is one boundary and a final
      boundary does not open an empty line. */
  function SplitLines(s: string): (r: seq<string>)
    ensures forall l, k :: l in r && 0 <= k < |l| ==> !IsLineBreak(l[k])
    ensures s == [] <==> r == []
    decreases |s|
  {
    if s == [] then []
    else
      var i := LineEnd(s);
      if i == |s| then [s]
      else
        var skip := if s[i] == '\r' && i + 1 < |s| && s[i + 1] == '\n' then 2 else 1;
        [s[..i]] + SplitLines(s[i + skip..])
  }

  /** Consecutive slices of at most `n` elements (the `range(0, len(s), n)` batching loops). */
  function Batches<T>(s: seq<T>, n: nat): (r: seq<seq<T>>)
    requires n > 0
    decreases |s|
  {
    if s == [] then [] else if |s| <= n then [s] else [s[..n]] + Batches(s[n..], n)
  }

  /** Every batch holds between one and `n` elements. */
  lemma {:induction false} BatchSizes<T>(s: seq<T>, n: nat)
    requires n > 0
    ensures forall b :: b in Batches(s, n) ==> 0 < |b| <= n
    decreases |s|
  {
    if |s| > n {
      BatchSizes(s[n..], n);
    }
  }

  /** Where the batch after the one starting at `start` starts: `start + n`, or the end. */
  function NextBatchStart(len: nat, start: nat, n: nat): nat {
    if len - start <= n then len else start + n
  }

  /** The batches from `start` on are the slice `s[start:start + n]`, then the batches from
      the next start. */
  lemma BatchesStep<T>(s: seq<T>, start: nat, n: nat)
    requires n > 0 && start < |s|
    ensures Batches(s[start..], n) == [Take(s[start..], n)] + Batches(s[NextBatchStart(|s|, start, n)..], n)
  {
    var rest := s[start..];
    if |rest| > n {
      assert rest[n..] == s[start + n..];
    } else {
      assert s[|s|..] == [];
    }
  }

  /** Flattening of a sequence of sequences. */
  function Flatten<T>(ss: seq<seq<T>>): seq<T> {
    if ss == [] then [] else Flatten(ss[..|ss| - 1]) + ss[|ss| - 1]
  }

  lemma {:induction false} FlattenCons<T>(a: seq<T>, ss: seq<seq<T>>)
    ensures Flatten([a] + ss) == a + Flatten(ss)
    decreases |ss|
  {
    if ss == [] {
      assert ([a] + ss)[..0] == [];
    } else {
      var n := |ss|;
      var init := ss[..n - 1];
      assert ([a] + ss)[..n] == [a] + init;
      assert ([a] + ss)[n] == ss[n - 1];
      assert Flatten([a] + ss) == Flatten([a] + init) + ss[n - 1];
      FlattenCons(a, init);
      assert Flatten(ss) == Flatten(init) + ss[n - 1];
    }
  }

  lemma FlattenAppend<T>(ss: seq<seq<T>>, b: seq<T>)
    ensures Flatten(ss + [b]) == Flatten(ss) + b
  {
    assert (ss + [b])[..|ss|] == ss;
  }

  lemma {:induction false} BatchesFlatten<T>(s: seq<T>, n: nat)
    requires n > 0
    ensures Flatten(Batches(s, n)) == s
    decreases |s|
  {
    if s == [] {
    } else if |s| <= n {
      assert [s][..0] == [];
    } else {
      BatchesFlatten(s[n..], n);
      FlattenCons(s[..n], Batches(s[n..], n));
      assert s[..n] + s[n..] == s;
    }
  }

  /** There are as many batches as the `range(0, len(s), n)` loop makes: the last starts
      before the end of `s` and ends at or after it. */
  lemma {:induction false} BatchesCount<T>(s: seq<T>, n: nat)
    requires n > 0
    ensures s == [] <==> Batches(s, n) == []
    ensures s != [] ==> (|Batches(s, n)| - 1) * n < |s| <= |Batches(s, n)| * n
    decreases |s|
  {
    if |s| > n {
      BatchesCount(s[n..], n);
      var k := |Batches(s[n..], n)|;
      assert |Batches(s, n)| == k + 1;
      assert (k + 1) * n == k * n + n;
    }
  }

  // ---------------------------------------------------------------- numbers

  function DigitChar(d: nat): (c: char)
    requires d < 10
    ensures IsDigit(c)
  {
    ('0' as int + d) as char
  }

  /** `str(n)` for a natural number. */
  function NatToString(n: nat): (r: string)
    ensures r != [] && forall i :: 0 <= i < |r| ==> IsDigit(r[i])
  {
    if n < 10 then [DigitChar(n)] else NatToString(n / 10) + [DigitChar(n % 10)]
  }

  /** `str(i)` for an integer. */
  function IntToString(i: int): string {
    if i < 0 then "-" + NatToString(-i) else NatToString(i)
  }

  /** A non-empty run of ASCII digits (what `\d+` matches here). */
  predicate IsDigits(s: string) {
    s != [] && forall i :: 0 <= i < |s| ==> IsDigit(s[i])
  }

  /** `int(s)` of a digit string (leading zeros allowed). */
  function DigitsValue(s: string): (v: nat)
    requires forall i :: 0 <= i < |s| ==> IsDigit(s[i])
  {
    if s == [] then 0
    else
      assert IsDigit(s[|s| - 1]);
      DigitsValue(s[..|s| - 1]) * 10 + (s[|s| - 1] as int - '0' as int)
  }

  lemma {:induction false} DigitsValueOfNat(n: nat)
    ensures DigitsValue(NatToString(n)) == n
  {
    if n >= 10 {
      var r := NatToString(n);
      assert r[..|r| - 1] == NatToString(n / 10);
      DigitsValueOfNat(n / 10);
    }
  }

  function Min(a: int, b: int): int { if a < b then a else b }

  function Max(a: int, b: int): int { if a < b then b else a }

  function MinReal(a: real, b: real): real { if a < b then a else b }

  function MaxReal(a: real, b: real): real { if a < b then b else a }

  // ---------------------------------------------------------------- words and sentences

  /** `w` occurs at `i` with a word boundary `\b` on both sides (for a `w` that begins and ends
      with a word character). */
  predicate WordAt(s: string, w: string, i: int) {
    OccursAt(s, w, i)
    && (i == 0 || !IsWordChar(s[i - 1]))
    && (i + |w| == |s| || !IsWordChar(s[i + |w|]))
  }

  /** The first offset at or after `i` where `w` occurs as a whole word. */
  function WordIndexFrom(s: string, w: string, i: nat): (r: Option<nat>)
    ensures r.Some? ==> i <= r.value && WordAt(s, w, r.value)
    ensures r.Some? ==> forall k :: i <= k < r.value ==> !WordAt(s, w, k)
    ensures r.None? ==> forall k :: i <= k ==> !WordAt(s, w, k)
    decreases |s| - i
  {
    if i + |w| > |s| then None
    else if WordAt(s, w, i) then Some(i)
    else WordIndexFrom(s, w, i + 1)
  }

  /** `re.search(r"\bw\b", s)` succeeds. */
  predicate HasWord(s: string, w: string) {
    WordIndexFrom(s, w, 0).Some?
  }

  /** Python's `<=` on strings: lexicographic by code point. */
  predicate LexLe(a: string, b: string)
    decreases |a|
  {
    a == [] || (b != [] && (a[0] < b[0] || (a[0] == b[0] && LexLe(a[1..], b[1..]))))
  }

  lemma {:induction false} LexLeTotal(a: string, b: string)
    ensures LexLe(a, b) || LexLe(b, a)
    decreases |a|
  {
    if a != [] && b != [] && a[0] == b[0] {
      LexLeTotal(a[1..], b[1..]);
    }
  }

  lemma {:induction false} LexLeTransitive(a: string, b: string, c: string)
    requires LexLe(a, b) && LexLe(b, c)
    ensures LexLe(a, c)
    decreases |a|
  {
    if a != [] && b != [] && c != [] && a[0] == b[0] && b[0] == c[0] {
      LexLeTransitive(a[1..], b[1..], c[1..]);
    }
  }

  predicate IsSentenceEnd(c: char) { c == '.' || c == '!' || c == '?' }

  /** The pieces of `re.split(r"(?<=[.!?])\s+" + (if newlines then r"|\n{1,2}" else ""), s)`:
      the scan at `i`, in the piece that began at `start`. A run of whitespace that follows
      `.`, `!` or `?` separates two pieces and is consumed whole; otherwise (with `newlines`) one
      or two newlines separate two pieces. */
  function SplitScan(s: string, newlines: bool, start: nat, i: nat): (r: seq<string>)
    requires start <= i <= |s|
    ensures r != []
    ensures forall p :: p in r ==> |p| <= |s|
    decreases |s| - i
  {
    if i == |s| then [s[start..]]
    else if i > 0 && IsSentenceEnd(s[i - 1]) && IsSpace(s[i]) then
      var e := i + |TakeWhile(s[i..], IsSpace)|;
      [s[start..i]] + SplitScan(s, newlines, e, e)
    else if newlines && s[i] == '\n' then
      var e := if i + 1 < |s| && s[i + 1] == '\n' then i + 2 else i + 1;
      [s[start..i]] + SplitScan(s, newlines, e, e)
    else SplitScan(s, newlines, start, i + 1)
  }

  /** `re.split(r"(?<=[.!?])\s+", s)`. */
  function Sentences(s: string): seq<string> {
    SplitScan(s, false, 0, 0)
  }

  /** `re.split(r'(?<=[.!?])\s+|\n{1,2}', s)`. */
  function SentencesAndLines(s: string): seq<string> {
    SplitScan(s, true, 0, 0)
  }
}
