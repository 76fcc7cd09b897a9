/** `chunk_documents` of src/ingest/chunker.py. Each document is given a per-character page map,
    its full text is cut by the text splitter (a function given to the model), and each split
    becomes a chunk tagged with the page most of its first sampled characters come from. */
module Chunker {
  import opened Wrappers
  import opened Text
  import opened Seqs
  import opened Types

  const SAMPLE_SIZE: nat := 200
  const ID_LENGTH: nat := 12

  /** A `(page_no, seg)` pair. */
  datatype Segment = Segment(pageNo: int, text: string)

  function Texts(segs: seq<Segment>): (r: seq<string>)
    ensures |r| == |segs| && forall i :: 0 <= i < |segs| ==> r[i] == segs[i].text
  {
    seq(|segs|, i requires 0 <= i < |segs| => segs[i].text)
  }

  /** Where segment `i` begins in the joined text. */
  function Offset(segs: seq<Segment>, i: nat): nat
    requires i <= |segs|
  {
    |Concat(Texts(segs)[..i])|
  }

  // ---------------------------------------------------------------- segments

  /** One segment per page text, numbered from 1. */
  function PageSegments(pagesText: seq<string>): seq<Segment> {
    seq(|pagesText|, i requires 0 <= i < |pagesText| => Segment(i + 1, pagesText[i]))
  }

  /** `page_boundaries[i]` of the approximate split into `n` pages. */
  function Boundary(len: nat, n: nat, i: nat): nat
    requires 0 < n && i <= n
  {
    if i < n then i * Max(len / n, 1) else len
  }

  /** The approximate split of a text with no per-page text: `max(pages, 1)` segments cut at
      multiples of `max(len // pages, 1)`, the last one running to the end. */
  function ApproxSegments(text: string, pages: int): seq<Segment> {
    var n := Max(pages, 1);
    seq(n, i requires 0 <= i < n =>
      Segment(i + 1, PySlice(text, Boundary(|text|, n, i), Boundary(|text|, n, i + 1))))
  }

  /** The segments of a document: its pages when it has per-page text, else the approximation. */
  function DocSegments(doc: Document): seq<Segment> {
    if doc.pagesText != [] then PageSegments(doc.pagesText) else ApproxSegments(doc.text, doc.pages)
  }

  /** The number of pages a document's tags range over. */
  function PageCount(doc: Document): nat {
    if doc.pagesText != [] then |doc.pagesText| else Max(doc.pages, 1)
  }

  // ---------------------------------------------------------------- page map

  /** `page_map`: each segment contributes its page number once per character. */
  function PageTags(segs: seq<Segment>): seq<int> {
    if segs == [] then []
    else
      var last := segs[|segs| - 1];
      PageTags(segs[..|segs| - 1]) + seq(|last.text|, _ => last.pageNo)
  }

  /** The page-map loop and the final `''.join(builder)`. */
  method BuildPageMap(segs: seq<Segment>) returns (pageMap: seq<int>, full: string)
    ensures pageMap == PageTags(segs)
    ensures full == Concat(Texts(segs))
  {
    var builder: seq<string> := [];
    pageMap := [];
    for i := 0 to |segs|
      invariant builder == Texts(segs[..i])
      invariant pageMap == PageTags(segs[..i])
    {
      assert segs[..i + 1][..i] == segs[..i];
      builder := builder + [segs[i].text];
      pageMap := pageMap + seq(|segs[i].text|, _ => segs[i].pageNo);
    }
    assert segs[..|segs|] == segs;
    full := Concat(builder);
  }

  lemma {:induction false} PageTagsLength(segs: seq<Segment>)
    ensures |PageTags(segs)| == |Concat(Texts(segs))|
    decreases |segs|
  {
    if segs != [] {
      var init := segs[..|segs| - 1];
      PageTagsLength(init);
      assert Texts(segs) == Texts(init) + [segs[|segs| - 1].text];
      ConcatAppend(Texts(init), segs[|segs| - 1].text);
    }
  }

  lemma {:induction false} PageTagsSplit(a: seq<Segment>, b: seq<Segment>)
    ensures PageTags(a + b) == PageTags(a) + PageTags(b)
    decreases |b|
  {
    if b == [] {
      assert a + b == a;
    } else {
      var init := b[..|b| - 1];
      PageTagsSplit(a, init);
      assert (a + b)[..|a + b| - 1] == a + init;
      assert (a + b)[|a + b| - 1] == b[|b| - 1];
    }
  }

  /** Segment `i` sits at its offset in the joined text. */
  lemma OffsetStep(segs: seq<Segment>, i: nat)
    requires i < |segs|
    ensures Offset(segs, i + 1) == Offset(segs, i) + |segs[i].text| <= |Concat(Texts(segs))|
    ensures Concat(Texts(segs))[Offset(segs, i)..Offset(segs, i + 1)] == segs[i].text
  {
    var ts := Texts(segs);
    assert ts[..i + 1] == ts[..i] + [segs[i].text];
    ConcatAppend(ts[..i], segs[i].text);
    assert ts == ts[..i + 1] + ts[i + 1..];
    ConcatSplit(ts[..i + 1], ts[i + 1..]);
  }

  /** The map tags each character of segment `i` with its page number. */
  lemma PageTagsSegment(segs: seq<Segment>, i: nat)
    requires i < |segs|
    ensures Offset(segs, i + 1) == Offset(segs, i) + |segs[i].text| <= |PageTags(segs)|
    ensures PageTags(segs)[Offset(segs, i)..Offset(segs, i + 1)] == seq(|segs[i].text|, _ => segs[i].pageNo)
  {
    OffsetStep(segs, i);
    PageTagsLength(segs);
    var a := segs[..i + 1];
    assert a[..i] == segs[..i];
    PageTagsLength(segs[..i]);
    assert Texts(segs[..i]) == Texts(segs)[..i];
    SplitTwo(segs, i + 1);
    PageTagsSplit(a, segs[i + 1..]);
  }

  /** The map is as long as the joined text, and the characters of segment `i` (which sit at
      its offset in the joined text) all carry its page number. */
  lemma PageTagsSegments(segs: seq<Segment>)
    ensures |PageTags(segs)| == |Concat(Texts(segs))|
    ensures forall i :: 0 <= i < |segs| ==>
      && Offset(segs, i + 1) == Offset(segs, i) + |segs[i].text| <= |PageTags(segs)|
      && Concat(Texts(segs))[Offset(segs, i)..Offset(segs, i + 1)] == segs[i].text
      && PageTags(segs)[Offset(segs, i)..Offset(segs, i + 1)] == seq(|segs[i].text|, _ => segs[i].pageNo)
  {
    PageTagsLength(segs);
    forall i | 0 <= i < |segs|
      ensures Offset(segs, i + 1) == Offset(segs, i) + |segs[i].text| <= |PageTags(segs)|
      ensures Concat(Texts(segs))[Offset(segs, i)..Offset(segs, i + 1)] == segs[i].text
      ensures PageTags(segs)[Offset(segs, i)..Offset(segs, i + 1)] == seq(|segs[i].text|, _ => segs[i].pageNo)
    {
      OffsetStep(segs, i);
      PageTagsSegment(segs, i);
    }
  }

  /** With per-page text, the joined text is the pages in order and every character of page
      `i` carries the tag `i + 1`. */
  lemma PagesTextMap(pagesText: seq<string>)
    ensures Concat(Texts(PageSegments(pagesText))) == Concat(pagesText)
    ensures |PageTags(PageSegments(pagesText))| == |Concat(pagesText)|
    ensures forall i :: 0 <= i < |pagesText| ==>
      var segs := PageSegments(pagesText);
      && Offset(segs, i) <= Offset(segs, i + 1) <= |Concat(pagesText)|
      && Concat(pagesText)[Offset(segs, i)..Offset(segs, i + 1)] == pagesText[i]
      && PageTags(segs)[Offset(segs, i)..Offset(segs, i + 1)] == seq(|pagesText[i]|, _ => i + 1)
  {
    var segs := PageSegments(pagesText);
    assert Texts(segs) == pagesText;
    PageTagsSegments(segs);
  }

  /** `s[a:b]` with clipping is the slice between the clipped ends when these are ordered. */
  lemma PySliceClipped(s: string, a: nat, b: nat)
    requires Min(a, |s|) <= Min(b, |s|)
    ensures PySlice(s, a, b) == s[Min(a, |s|)..Min(b, |s|)]
  {
  }

  /** `page_boundaries[i]` clipped to the text. */
  function Clip(len: nat, n: nat, i: nat): nat
    requires 0 < n && i <= n
  {
    Min(Boundary(len, n, i), len)
  }

  lemma BoundaryMonotone(len: nat, n: nat, i: nat)
    requires 0 < n && i < n
    ensures Clip(len, n, i) <= Clip(len, n, i + 1)
  {
    if i + 1 < n {
      var p := Max(len / n, 1);
      assert (i + 1) * p == i * p + p;
    }
  }

  lemma ApproxSegmentText(text: string, pages: int, i: nat)
    requires i < Max(pages, 1)
    ensures Clip(|text|, Max(pages, 1), i) <= Clip(|text|, Max(pages, 1), i + 1)
    ensures ApproxSegments(text, pages)[i].text
      == text[Clip(|text|, Max(pages, 1), i)..Clip(|text|, Max(pages, 1), i + 1)]
  {
    var n := Max(pages, 1);
    BoundaryMonotone(|text|, n, i);
    PySliceClipped(text, Boundary(|text|, n, i), Boundary(|text|, n, i + 1));
  }

  lemma {:induction false} ApproxPrefix(text: string, pages: int, k: nat)
    requires k <= Max(pages, 1)
    ensures Concat(Texts(ApproxSegments(text, pages))[..k]) == text[..Clip(|text|, Max(pages, 1), k)]
  {
    var n := Max(pages, 1);
    var ts := Texts(ApproxSegments(text, pages));
    if k == 0 {
      assert ts[..0] == [];
    } else {
      ApproxPrefix(text, pages, k - 1);
      var a := Clip(|text|, n, k - 1);
      var b := Clip(|text|, n, k);
      ApproxSegmentText(text, pages, k - 1);
      ConcatPrefixStep(ts, text, k, a, b);
    }
  }

  /** Without per-page text there are `max(pages, 1)` segments numbered 1 to that count, and
      they join back to exactly the document text. */
  lemma ApproxSegmentsCover(text: string, pages: int)
    ensures |ApproxSegments(text, pages)| == Max(pages, 1)
    ensures forall i :: 0 <= i < |ApproxSegments(text, pages)| ==> ApproxSegments(text, pages)[i].pageNo == i + 1
    ensures Concat(Texts(ApproxSegments(text, pages))) == text
  {
    var n := Max(pages, 1);
    ApproxPrefix(text, pages, n);
    assert Texts(ApproxSegments(text, pages))[..n] == Texts(ApproxSegments(text, pages));
  }

  /** A map built from segments numbered within `[lo, hi]` holds only tags within it. */
  lemma {:induction false} PageTagsBounded(segs: seq<Segment>, lo: int, hi: int)
    requires forall i :: 0 <= i < |segs| ==> lo <= segs[i].pageNo <= hi
    ensures forall j :: 0 <= j < |PageTags(segs)| ==> lo <= PageTags(segs)[j] <= hi
    decreases |segs|
  {
    if segs != [] {
      PageTagsBounded(segs[..|segs| - 1], lo, hi);
    }
  }

  /** Every tag of a document's page map is a page number between 1 and its page count. */
  lemma DocTagsBounded(doc: Document)
    ensures forall j :: 0 <= j < |PageTags(DocSegments(doc))| ==> 1 <= PageTags(DocSegments(doc))[j] <= PageCount(doc)
  {
    if doc.pagesText == [] {
      ApproxSegmentsCover(doc.text, doc.pages);
    }
    PageTagsBounded(DocSegments(doc), 1, PageCount(doc));
  }

  // ---------------------------------------------------------------- majority vote

  /** The tags `range(cursor, min(cursor + len, cursor + 200, len(page_map)))` visits. */
  function Sample(pageMap: seq<int>, cursor: nat, len: nat): (r: seq<int>)
    ensures forall t :: t in r ==> t in pageMap
  {
    PySlice(pageMap, cursor, Min(Min(cursor + len, cursor + SAMPLE_SIZE), |pageMap|))
  }

  /** `a` sorts no later than `b` under the key `(-count, page)`. */
  predicate Beats(counts: map<int, nat>, a: int, b: int)
    requires a in counts && b in counts
  {
    counts[a] > counts[b] || (counts[a] == counts[b] && a <= b)
  }

  /** The tag counts of a sample, as the `pages` dictionary holds them. */
  function Counts(sample: seq<int>): (m: map<int, nat>)
    ensures forall p :: p in m <==> p in sample
    ensures forall p :: p in m ==> m[p] == multiset(sample)[p]
  {
    map p | p in sample :: multiset(sample)[p]
  }

  lemma CountsSnoc(sample: seq<int>, p: int)
    ensures Counts(sample + [p]) == Counts(sample)[p := if p in Counts(sample) then Counts(sample)[p] + 1 else 1]
  {
    assert multiset(sample + [p]) == multiset(sample) + multiset{p};
  }

  /** Counting the tag at `hi` as well. */
  lemma CountsStep(s: seq<int>, lo: nat, hi: nat)
    requires lo <= hi < |s|
    ensures var m := Counts(s[lo..hi]);
      Counts(s[lo..hi + 1]) == m[s[hi] := if s[hi] in m then m[s[hi]] + 1 else 1]
  {
    assert s[lo..hi + 1] == s[lo..hi] + [s[hi]];
    CountsSnoc(s[lo..hi], s[hi]);
  }

  /** `p` is the most frequent tag of the sample, the smallest such when several tie. */
  predicate IsMajority(sample: seq<int>, p: int) {
    p in sample && forall q :: q in sample ==> Beats(Counts(sample), p, q)
  }

  /** The best candidate under `Beats`. */
  function BestOf(counts: map<int, nat>, cands: seq<int>): (r: int)
    requires cands != [] && forall c :: c in cands ==> c in counts
    ensures r in cands && forall c :: c in cands ==> Beats(counts, r, c)
  {
    if |cands| == 1 then cands[0]
    else
      var init := cands[..|cands| - 1];
      var last := cands[|cands| - 1];
      assert forall c :: c in init ==> c in cands;
      var b := BestOf(counts, init);
      assert forall c :: c in cands ==> c in init || c == last;
      if Beats(counts, b, last) then b else last
  }

  /** The page a split is given: its sample's majority tag, or 1 for an empty sample. */
  function MajorityPage(sample: seq<int>): (r: int)
    ensures sample == [] ==> r == 1
    ensures sample != [] ==> IsMajority(sample, r)
  {
    if sample == [] then 1 else BestOf(Counts(sample), sample)
  }

  /** At most one tag is the majority of a sample. */
  lemma MajorityUnique(sample: seq<int>, p: int, q: int)
    requires IsMajority(sample, p) && IsMajority(sample, q)
    ensures p == q
  {
    assert Beats(Counts(sample), p, q) && Beats(Counts(sample), q, p);
  }

  /** The `pages` dictionary built by the counting loop over the sample range, with its keys
      in insertion order. */
  method CountTags(pageMap: seq<int>, cursor: nat, end: nat) returns (pages: map<int, nat>, keys: seq<int>)
    requires cursor <= end <= |pageMap|
    ensures pages == Counts(pageMap[cursor..end])
    ensures forall p :: p in keys <==> p in pages
    ensures cursor < end ==> keys != [] && keys[0] == pageMap[cursor]
  {
    pages := map[];
    keys := [];
    for idx := cursor to end
      invariant pages == Counts(pageMap[cursor..idx])
      invariant forall p :: p in keys <==> p in pages
      invariant idx == cursor ==> keys == []
      invariant cursor < idx ==> keys != [] && keys[0] == pageMap[cursor]
    {
      // The source's fallback tag 1 for an index past the map is unreachable: the range stops
      // at the map's length.
      var p := pageMap[idx];
      CountsStep(pageMap, cursor, idx);
      if p !in pages {
        keys := keys + [p];
      }
      pages := pages[p := if p in pages then pages[p] + 1 else 1];
    }
  }

  /** `sorted(pages.items(), key=lambda x: (-x[1], x[0]))[0][0]`: the key that sorts first,
      found by a scan over the keys. */
  method FirstBySortKey(pages: map<int, nat>, keys: seq<int>) returns (best: int)
    requires keys != [] && forall p :: p in keys <==> p in pages
    ensures best in pages && forall q :: q in pages ==> Beats(pages, best, q)
  {
    best := keys[0];
    for i := 1 to |keys|
      invariant best in pages
      invariant forall k :: 0 <= k < |keys| ==> keys[k] in pages
      invariant forall k :: 0 <= k < i ==> Beats(pages, best, keys[k])
    {
      assert keys[i] in keys;
      if !Beats(pages, best, keys[i]) {
        forall k | 0 <= k < i ensures Beats(pages, keys[i], keys[k]) {
          assert keys[k] in keys;
          assert Beats(pages, best, keys[k]);
        }
        best := keys[i];
      }
    }
    forall q | q in pages ensures Beats(pages, best, q) {
      var k :| 0 <= k < |keys| && keys[k] == q;
    }
  }

  /** Lines 48-53: count the sampled tags, then take the entry that sorts first by
      `(-count, page)`, or 1 when nothing was sampled. */
  method AssignPage(pageMap: seq<int>, cursor: nat, len: nat) returns (page: int)
    ensures page == MajorityPage(Sample(pageMap, cursor, len))
  {
    var end := Min(Min(cursor + len, cursor + SAMPLE_SIZE), |pageMap|);
    if end <= cursor {
      return 1;
    }
    var pages, keys := CountTags(pageMap, cursor, end);
    ghost var sample := pageMap[cursor..end];
    page := FirstBySortKey(pages, keys);
    assert IsMajority(sample, page);
    MajorityUnique(sample, page, MajorityPage(sample));
  }

  // ---------------------------------------------------------------- chunks

  /** The cursor when split `i` is reached: the total length of the earlier splits. */
  function Cursor(splits: seq<string>, i: nat): nat
    requires i <= |splits|
  {
    if i == 0 then 0 else Cursor(splits, i - 1) + |splits[i - 1]|
  }

  /** `sha1(f"{name}-{i}").hexdigest()[:12]`, for a hex digest function `sha1`. */
  function ChunkId(sha1: string -> string, name: string, i: nat): string {
    Take(sha1(name + "-" + NatToString(i)), ID_LENGTH)
  }

  /** The chunk made of split `i` of a document named `name`. */
  function SplitChunk(name: string, pageMap: seq<int>, splits: seq<string>, sha1: string -> string, i: nat): Chunk
    requires i < |splits|
  {
    Chunk(ChunkId(sha1, name, i), name, MajorityPage(Sample(pageMap, Cursor(splits, i), |splits[i]|)), splits[i])
  }

  /** The chunks made of the splits of a document named `name`, in split order. */
  function SplitChunks(name: string, pageMap: seq<int>, splits: seq<string>, sha1: string -> string): seq<Chunk> {
    seq(|splits|, i requires 0 <= i < |splits| => SplitChunk(name, pageMap, splits, sha1, i))
  }

  /** The chunks a document yields, given the splitter applied to its joined text. */
  function DocChunks(doc: Document, split: string -> seq<string>, sha1: string -> string): seq<Chunk> {
    var segs := DocSegments(doc);
    SplitChunks(doc.name, PageTags(segs), split(Concat(Texts(segs))), sha1)
  }

  /** The chunks of all documents, document by document. */
  function AllChunks(documents: seq<Document>, split: string -> seq<string>, sha1: string -> string): seq<Chunk> {
    Flatten(MapSeq(documents, (d: Document) => DocChunks(d, split, sha1)))
  }

  /** The per-document body of the loop of `chunk_documents`: segments, page map and joined
      text, then the splits. */
  method ChunkDocument(doc: Document, split: string -> seq<string>, sha1: string -> string)
    returns (chunks: seq<Chunk>)
    ensures chunks == DocChunks(doc, split, sha1)
  {
    var segs := DocSegments(doc);
    var pageMap, full := BuildPageMap(segs);
    chunks := ChunkSplits(doc.name, pageMap, split(full), sha1);
  }

  /** The loop over the splits of one document: an id, a page by majority vote over the
      sampled tags, and a cursor advanced by the split's length. */
  method ChunkSplits(name: string, pageMap: seq<int>, docSplits: seq<string>, sha1: string -> string)
    returns (chunks: seq<Chunk>)
    ensures chunks == SplitChunks(name, pageMap, docSplits, sha1)
  {
    var cursor: nat := 0;
    chunks := [];
    for i := 0 to |docSplits|
      invariant cursor == Cursor(docSplits, i)
      invariant |chunks| == i
      invariant forall j :: 0 <= j < i ==> chunks[j] == SplitChunk(name, pageMap, docSplits, sha1, j)
    {
      var text := docSplits[i];
      var digest := ChunkId(sha1, name, i);
      var page := AssignPage(pageMap, cursor, |text|);
      chunks := chunks + [Chunk(digest, name, page, text)];
      cursor := cursor + |text|;
    }
  }

  /** `chunk_documents`: the chunks of every document, document by document. */
  method ChunkDocuments(documents: seq<Document>, split: string -> seq<string>, sha1: string -> string)
    returns (chunks: seq<Chunk>)
    ensures chunks == AllChunks(documents, split, sha1)
  {
    chunks := [];
    for k := 0 to |documents|
      invariant chunks == AllChunks(documents[..k], split, sha1)
    {
      var c := ChunkDocument(documents[k], split, sha1);
      MapSeqSnoc(documents, k, (d: Document) => DocChunks(d, split, sha1));
      FlattenAppend(MapSeq(documents[..k], (d: Document) => DocChunks(d, split, sha1)), c);
      chunks := chunks + c;
    }
    assert documents[..|documents|] == documents;
  }

  /** One chunk per split, in split order, named after the document, holding the split as its
      content, with an id that depends only on the document name and the split index, and a
      page between 1 and the document's page count. */
  lemma DocChunksShape(doc: Document, split: string -> seq<string>, sha1: string -> string)
    ensures var splits := split(Concat(Texts(DocSegments(doc))));
      var chunks := DocChunks(doc, split, sha1);
      && |chunks| == |splits|
      && forall i :: 0 <= i < |chunks| ==>
        && chunks[i].content == splits[i]
        && chunks[i].documentName == doc.name
        && chunks[i].id == ChunkId(sha1, doc.name, i)
        && 1 <= chunks[i].page <= PageCount(doc)
  {
    var pageMap := PageTags(DocSegments(doc));
    var splits := split(Concat(Texts(DocSegments(doc))));
    DocTagsBounded(doc);
    forall i | 0 <= i < |splits|
      ensures 1 <= MajorityPage(Sample(pageMap, Cursor(splits, i), |splits[i]|)) <= PageCount(doc)
    {
      var sample := Sample(pageMap, Cursor(splits, i), |splits[i]|);
      if sample != [] {
        var p := MajorityPage(sample);
        assert p in pageMap;
      }
    }
  }

  /** The cursor is the total length of the earlier splits, however much they overlap. */
  lemma {:induction false} CursorIsTotalLength(splits: seq<string>, i: nat)
    requires i <= |splits|
    ensures Cursor(splits, i) == |Concat(splits[..i])|
  {
    if i > 0 {
      CursorIsTotalLength(splits, i - 1);
      assert splits[..i] == splits[..i - 1] + [splits[i - 1]];
      ConcatAppend(splits[..i - 1], splits[i - 1]);
    }
  }

  /** A split whose cursor has run past the page map is given page 1. */
  lemma PastTheMapIsPageOne(pageMap: seq<int>, splits: seq<string>, i: nat)
    requires i < |splits| && Cursor(splits, i) >= |pageMap|
    ensures MajorityPage(Sample(pageMap, Cursor(splits, i), |splits[i]|)) == 1
  {
  }
}
