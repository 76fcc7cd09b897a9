/** Reply lines of the shape `^T0(.*?)T1(.*?)T2(.*?)T3<tail>$`, the form of both line grammars
    the language model is asked to follow (`CLAUSE_LINE_RE` of src/analysis/clauses.py and
    `LINE_RE` of src/analysis/redflags.py). Each lazy group ends at the first occurrence of
    the tag after it; where the last tag sits is fixed by the tail, so it is a parameter. */
module LinePattern {
  import opened Wrappers
  import opened Text

  /** The four literal tags of a pattern. */
  datatype Tags = Tags(t0: string, t1: string, t2: string, t3: string)

  /** The three lazy groups and the text after the last tag. */
  datatype Groups = Groups(g1: string, g2: string, g3: string, tail: string)

  /** The line the groups were captured from. */
  function Assemble(tags: Tags, g: Groups): string {
    tags.t0 + (g.g1 + (tags.t1 + (g.g2 + (tags.t2 + (g.g3 + (tags.t3 + g.tail))))))
  }

  /** Where the last tag sits in an assembled line. */
  function LastTagAt(tags: Tags, g: Groups): nat {
    |tags.t0| + |g.g1| + |tags.t1| + |g.g2| + |tags.t2| + |g.g3|
  }

  /** Where the first two lazy groups end: the first `t1` after the head `t0`, and the first
      `t2` after that. */
  function Positions(line: string, tags: Tags): (r: Option<(nat, nat)>)
    ensures r.Some? ==> var (e, q) := r.value;
      && OccursAt(line, tags.t0, 0) && |tags.t0| <= e && e + |tags.t1| <= q
      && OccursAt(line, tags.t1, e) && OccursAt(line, tags.t2, q)
      && (forall k :: |tags.t0| <= k < e ==> !OccursAt(line, tags.t1, k))
      && (forall k :: e + |tags.t1| <= k < q ==> !OccursAt(line, tags.t2, k))
  {
    if !StartsWith(line, tags.t0) then None
    else
      assert line[0..|tags.t0|] == line[..|tags.t0|];
      match IndexFrom(line, tags.t1, |tags.t0|)
      case None => None
      case Some(e) =>
        match IndexFrom(line, tags.t2, e + |tags.t1|)
        case None => None
        case Some(q) => Some((e, q))
  }

  /** The groups of `line` when its last tag sits at `p`: the line is their assembly, the
      tail is what follows the last tag, and neither of the first two groups holds an
      earlier occurrence of the tag that ends it. */
  function Cut(line: string, tags: Tags, p: int): (r: Option<Groups>)
    ensures r.Some? ==> Assemble(tags, r.value) == line && LastTagAt(tags, r.value) == p
    ensures r.Some? ==> r.value.tail == line[p + |tags.t3|..]
    ensures r.Some? ==> forall k :: |tags.t0| <= k < |tags.t0| + |r.value.g1| ==> !OccursAt(line, tags.t1, k)
    ensures r.Some? ==> var e := |tags.t0| + |r.value.g1| + |tags.t1|;
      forall k :: e <= k < e + |r.value.g2| ==> !OccursAt(line, tags.t2, k)
  {
    if !OccursAt(line, tags.t3, p) then None
    else
      match Positions(line, tags)
      case None => None
      case Some((e, q)) =>
        if q + |tags.t2| > p then None
        else
          AssembleCuts(line, tags, e, q, p);
          Some(Groups(line[|tags.t0|..e], line[e + |tags.t1|..q], line[q + |tags.t2|..p], line[p + |tags.t3|..]))
  }

  lemma CutAt(s: string, t: string, i: int)
    requires OccursAt(s, t, i)
    ensures s[i..] == t + s[i + |t|..]
  {
    SuffixSplit(s, i, i + |t|);
  }

  lemma CutBetween(s: string, i: int, t: string, j: int)
    requires 0 <= i <= j && OccursAt(s, t, j)
    ensures s[i..] == s[i..j] + (t + s[j + |t|..])
  {
    SuffixSplit(s, i, j);
    CutAt(s, t, j);
  }

  /** Cutting a line at four tag occurrences and assembling the pieces gives the line. */
  lemma AssembleCuts(line: string, tags: Tags, e: int, q: int, p: int)
    requires OccursAt(line, tags.t0, 0) && |tags.t0| <= e && e + |tags.t1| <= q && q + |tags.t2| <= p
    requires OccursAt(line, tags.t1, e) && OccursAt(line, tags.t2, q) && OccursAt(line, tags.t3, p)
    ensures Assemble(tags, Groups(line[|tags.t0|..e], line[e + |tags.t1|..q], line[q + |tags.t2|..p], line[p + |tags.t3|..])) == line
  {
    var g := Groups(line[|tags.t0|..e], line[e + |tags.t1|..q], line[q + |tags.t2|..p], line[p + |tags.t3|..]);
    var r5 := line[q + |tags.t2|..];
    var r3 := line[e + |tags.t1|..];
    var r1 := line[|tags.t0|..];
    assert r5 == g.g3 + (tags.t3 + g.tail) by { CutBetween(line, q + |tags.t2|, tags.t3, p); }
    assert r3 == g.g2 + (tags.t2 + r5) by { CutBetween(line, e + |tags.t1|, tags.t2, q); }
    assert r1 == g.g1 + (tags.t1 + r3) by { CutBetween(line, |tags.t0|, tags.t1, e); }
    assert line == tags.t0 + r1 by { CutAt(line, tags.t0, 0); assert line[0..] == line; }
  }

  /** An assembled line is its text up to the last tag followed by the tail. */
  lemma AssembleTail(tags: Tags, g: Groups)
    ensures Assemble(tags, g) == Assemble(tags, g.(tail := [])) + g.tail
    ensures |Assemble(tags, g.(tail := []))| == LastTagAt(tags, g) + |tags.t3|
    ensures tags.t3 != [] ==> Assemble(tags, g.(tail := []))[LastTagAt(tags, g) + |tags.t3| - 1] == tags.t3[|tags.t3| - 1]
  {
    var h := Assemble(tags, g.(tail := []));
    assert tags.t3 + [] == tags.t3;
    if tags.t3 != [] {
      assert h == (tags.t0 + g.g1 + tags.t1 + g.g2 + tags.t2 + g.g3) + tags.t3;
    }
  }

  /** Peels the piece `a` off the suffix of `s` that starts at `i`. */
  lemma Peel(s: string, i: int, a: string, rest: string)
    requires 0 <= i <= |s| && s[i..] == a + rest
    ensures i + |a| <= |s| && s[i..i + |a|] == a && s[i + |a|..] == rest
  {
    assert s[i..][..|a|] == s[i..i + |a|];
    assert s[i..][|a|..] == s[i + |a|..];
  }

  /** Peels a group and the tag after it off the suffix of `s` that starts at `i`. */
  lemma PeelGroup(s: string, i: int, a: string, t: string, rest: string)
    requires 0 <= i <= |s| && s[i..] == a + (t + rest)
    ensures s[i..i + |a|] == a && OccursAt(s, t, i + |a|) && s[i + |a| + |t|..] == rest
  {
    Peel(s, i, a, t + rest);
    Peel(s, i + |a|, t, rest);
  }

  /** Where the pieces of an assembled line sit. */
  lemma AssembleParts(tags: Tags, g: Groups)
    ensures var line := Assemble(tags, g);
      var e := |tags.t0| + |g.g1|;
      var q := e + |tags.t1| + |g.g2|;
      var p := LastTagAt(tags, g);
      && OccursAt(line, tags.t0, 0)
      && OccursAt(line, tags.t1, e) && OccursAt(line, tags.t2, q) && OccursAt(line, tags.t3, p)
      && line[|tags.t0|..e] == g.g1 && line[e + |tags.t1|..q] == g.g2
      && line[q + |tags.t2|..p] == g.g3
  {
    var line := Assemble(tags, g);
    var e := |tags.t0| + |g.g1|;
    var q := e + |tags.t1| + |g.g2|;
    assert line[0..] == tags.t0 + (g.g1 + (tags.t1 + (g.g2 + (tags.t2 + (g.g3 + (tags.t3 + g.tail))))));
    Peel(line, 0, tags.t0, g.g1 + (tags.t1 + (g.g2 + (tags.t2 + (g.g3 + (tags.t3 + g.tail))))));
    PeelGroup(line, |tags.t0|, g.g1, tags.t1, g.g2 + (tags.t2 + (g.g3 + (tags.t3 + g.tail))));
    PeelGroup(line, e + |tags.t1|, g.g2, tags.t2, g.g3 + (tags.t3 + g.tail));
    PeelGroup(line, q + |tags.t2|, g.g3, tags.t3, g.tail);
  }

  /** A line that has the four tags in order has its first two groups ended no later. */
  lemma PositionsReach(line: string, tags: Tags, e0: int, q0: int)
    requires OccursAt(line, tags.t0, 0) && |tags.t0| <= e0 && e0 + |tags.t1| <= q0
    requires OccursAt(line, tags.t1, e0) && OccursAt(line, tags.t2, q0)
    ensures Positions(line, tags).Some? && Positions(line, tags).value.0 <= e0 && Positions(line, tags).value.1 <= q0
  {
    assert line[..|tags.t0|] == line[0..|tags.t0|];
    IndexFromReaches(line, tags.t1, |tags.t0|, e0);
    var e := IndexFrom(line, tags.t1, |tags.t0|).value;
    IndexFromReaches(line, tags.t2, e + |tags.t1|, q0);
  }

  /** The first occurrence of `t` from `i` is at `j` when its first character is absent
      from `s[i..j]`. */
  lemma FirstOccurrence(s: string, t: string, i: int, j: int, j1: int)
    requires t != [] && 0 <= i <= j && i <= j1
    requires OccursAt(s, t, j) && OccursAt(s, t, j1)
    requires forall k :: i <= k < j ==> s[k] != t[0]
    requires forall k :: i <= k < j1 ==> !OccursAt(s, t, k)
    ensures j == j1
  {
    if j1 < j {
      OccursAtHead(s, t, j1);
    }
  }

  /** Two assemblies of the same line with groups of the same lengths have the same groups. */
  lemma AssembleInjective(tags: Tags, g: Groups, h: Groups)
    requires Assemble(tags, g) == Assemble(tags, h)
    requires |g.g1| == |h.g1| && |g.g2| == |h.g2| && |g.g3| == |h.g3|
    ensures g == h
  {
    AssembleParts(tags, g);
    AssembleParts(tags, h);
    AssembleTail(tags, g);
    AssembleTail(tags, h);
    assert Assemble(tags, g.(tail := [])) == Assemble(tags, h.(tail := []));
  }

  /** A character absent from a group is absent from the stretch of the line it occupies. */
  lemma GroupAvoids(line: string, i: int, a: string, c: char)
    requires 0 <= i <= i + |a| <= |line| && line[i..i + |a|] == a && c !in a
    ensures forall k :: i <= k < i + |a| ==> line[k] != c
  {
    forall k | i <= k < i + |a| ensures line[k] != c {
      assert line[k] == a[k - i];
    }
  }

  /** Every assembled line is cut at its last tag. */
  lemma CutFound(tags: Tags, g: Groups)
    ensures Cut(Assemble(tags, g), tags, LastTagAt(tags, g)).Some?
  {
    AssembleParts(tags, g);
    PositionsReach(Assemble(tags, g), tags, |tags.t0| + |g.g1|, |tags.t0| + |g.g1| + |tags.t1| + |g.g2|);
  }

  /** The first group of a cut ends where the first group of any assembly of the same line
      ends, when that group does not hold the first character of the tag after it. */
  lemma FirstGroupLength(tags: Tags, g: Groups, r: Groups)
    requires Assemble(tags, r) == Assemble(tags, g)
    requires tags.t1 != [] && tags.t1[0] !in g.g1
    requires forall k :: |tags.t0| <= k < |tags.t0| + |r.g1| ==> !OccursAt(Assemble(tags, g), tags.t1, k)
    ensures |r.g1| == |g.g1|
  {
    var line := Assemble(tags, g);
    AssembleParts(tags, g);
    AssembleParts(tags, r);
    GroupAvoids(line, |tags.t0|, g.g1, tags.t1[0]);
    FirstOccurrence(line, tags.t1, |tags.t0|, |tags.t0| + |g.g1|, |tags.t0| + |r.g1|);
  }

  /** The same for the second group, once the first groups agree. */
  lemma SecondGroupLength(tags: Tags, g: Groups, r: Groups)
    requires Assemble(tags, r) == Assemble(tags, g) && |r.g1| == |g.g1|
    requires tags.t2 != [] && tags.t2[0] !in g.g2
    requires var e := |tags.t0| + |g.g1| + |tags.t1|;
      forall k :: e <= k < e + |r.g2| ==> !OccursAt(Assemble(tags, g), tags.t2, k)
    ensures |r.g2| == |g.g2|
  {
    var line := Assemble(tags, g);
    var e := |tags.t0| + |g.g1| + |tags.t1|;
    AssembleParts(tags, g);
    AssembleParts(tags, r);
    GroupAvoids(line, e, g.g2, tags.t2[0]);
    FirstOccurrence(line, tags.t2, e, e + |g.g2|, e + |r.g2|);
  }

  /** When the first characters of the middle tags do not occur in the groups before them,
      the cut of an assembled line gives back exactly the groups. */
  lemma CutExact(tags: Tags, g: Groups)
    requires tags.t1 != [] && tags.t2 != [] && tags.t1[0] !in g.g1 && tags.t2[0] !in g.g2
    ensures Cut(Assemble(tags, g), tags, LastTagAt(tags, g)) == Some(g)
  {
    CutFound(tags, g);
    var r := Cut(Assemble(tags, g), tags, LastTagAt(tags, g)).value;
    FirstGroupLength(tags, g, r);
    SecondGroupLength(tags, g, r);
    AssembleInjective(tags, g, r);
  }
}
