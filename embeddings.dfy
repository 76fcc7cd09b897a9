/** `HashingEmbedding` of src/embeddings/embeddings.py: a bag of hashed tokens. The token hash
    (`int(sha1(tok).hexdigest(), 16)`) is a parameter; the model stops at the count vector,
    before the L2 normalisation. */
module Embeddings {
  import opened Text
  import opened Seqs

  const DEFAULT_DIM: nat := 384

  /** `[t for t in text.lower().split() if t]`. */
  function Tokens(text: string): seq<string> {
    Words(Lower(text))
  }

  /** The bucket each token falls in. */
  function Buckets(tokens: seq<string>, dim: nat, hash: string -> nat): (r: seq<nat>)
    requires dim > 0
    ensures |r| == |tokens| && forall i :: 0 <= i < |r| ==> r[i] < dim
  {
    seq(|tokens|, i requires 0 <= i < |tokens| => hash(tokens[i]) % dim)
  }

  /** The count vector after the tokens have been added one by one. */
  function Counts(tokens: seq<string>, dim: nat, hash: string -> nat): (v: seq<real>)
    requires dim > 0
    ensures |v| == dim
    decreases |tokens|
  {
    if tokens == [] then seq(dim, _ => 0.0)
    else
      var v := Counts(tokens[..|tokens| - 1], dim, hash);
      var b := hash(tokens[|tokens| - 1]) % dim;
      v[b := v[b] + 1.0]
  }

  function Sum(v: seq<real>): real {
    if v == [] then 0.0 else Sum(v[..|v| - 1]) + v[|v| - 1]
  }

  /** The count vector of one text: what `_vectorize` computes before normalisation. */
  function Embedding(text: string, dim: nat, hash: string -> nat): (v: seq<real>)
    requires dim > 0
    ensures |v| == dim
  {
    Counts(Tokens(text), dim, hash)
  }

  /** Adding the `i`-th token raises its bucket by one. */
  lemma CountsStep(tokens: seq<string>, i: nat, dim: nat, hash: string -> nat)
    requires dim > 0 && i < |tokens|
    ensures var v := Counts(tokens[..i], dim, hash); var b := hash(tokens[i]) % dim;
      Counts(tokens[..i + 1], dim, hash) == v[b := v[b] + 1.0]
  {
    assert tokens[..i + 1][..i] == tokens[..i];
  }

  /** `_vectorize` before normalisation. */
  method Vectorize(text: string, dim: nat, hash: string -> nat) returns (vec: seq<real>)
    requires dim > 0
    ensures vec == Embedding(text, dim, hash)
  {
    vec := CountTokens(Tokens(text), dim, hash);
  }

  /** The counting loop of `_vectorize`, over the token list. */
  method CountTokens(tokens: seq<string>, dim: nat, hash: string -> nat) returns (vec: seq<real>)
    requires dim > 0
    ensures vec == Counts(tokens, dim, hash)
  {
    var counts := new real[dim](_ => 0.0);
    if tokens == [] {
      return counts[..];
    }
    for i := 0 to |tokens|
      invariant counts[..] == Counts(tokens[..i], dim, hash)
    {
      var idx := hash(tokens[i]) % dim;
      CountsStep(tokens, i, dim, hash);
      counts[idx] := counts[idx] + 1.0;
    }
    assert tokens[..|tokens|] == tokens;
    vec := counts[..];
  }

  /** One count vector per text, in order: the `i`-th is the embedding of the `i`-th text. */
  function EmbeddingsOf(texts: seq<string>, dim: nat, hash: string -> nat): (r: seq<seq<real>>)
    requires dim > 0
    ensures |r| == |texts|
    ensures forall i :: 0 <= i < |texts| ==> r[i] == Embedding(texts[i], dim, hash)
  {
    MapSeq(texts, (t: string) => Embedding(t, dim, hash))
  }

  /** `embed_documents`: one vector per text, in order. */
  method EmbedDocuments(texts: seq<string>, dim: nat, hash: string -> nat) returns (vecs: seq<seq<real>>)
    requires dim > 0
    ensures vecs == EmbeddingsOf(texts, dim, hash)
  {
    vecs := [];
    for i := 0 to |texts|
      invariant vecs == EmbeddingsOf(texts[..i], dim, hash)
    {
      var v := Vectorize(texts[i], dim, hash);
      MapSeqSnoc(texts, i, (t: string) => Embedding(t, dim, hash));
      vecs := vecs + [v];
    }
    assert texts[..|texts|] == texts;
  }

  /** `embed_query`. */
  method EmbedQuery(text: string, dim: nat, hash: string -> nat) returns (vec: seq<real>)
    requires dim > 0
    ensures vec == Embedding(text, dim, hash)
  {
    vec := Vectorize(text, dim, hash);
  }

  /** Each bucket holds the number of tokens that hash into it. */
  lemma {:induction false} CountsAreBucketFrequencies(tokens: seq<string>, dim: nat, hash: string -> nat)
    requires dim > 0
    ensures forall b :: 0 <= b < dim ==>
      Counts(tokens, dim, hash)[b] == multiset(Buckets(tokens, dim, hash))[b] as real
    decreases |tokens|
  {
    if tokens != [] {
      var init := tokens[..|tokens| - 1];
      CountsAreBucketFrequencies(init, dim, hash);
      assert Buckets(tokens, dim, hash) == Buckets(init, dim, hash) + [hash(tokens[|tokens| - 1]) % dim];
    }
  }

  lemma {:induction false} SumUpdate(v: seq<real>, b: nat, d: real)
    requires b < |v|
    ensures Sum(v[b := v[b] + d]) == Sum(v) + d
    decreases |v|
  {
    var w := v[b := v[b] + d];
    if b < |v| - 1 {
      assert w[..|w| - 1] == v[..|v| - 1][b := v[b] + d];
      SumUpdate(v[..|v| - 1], b, d);
    } else {
      assert w[..|w| - 1] == v[..|v| - 1];
    }
  }

  lemma {:induction false} SumZeros(n: nat)
    ensures Sum(seq(n, _ => 0.0)) == 0.0
  {
    if n > 0 {
      assert seq(n, _ => 0.0)[..n - 1] == seq(n - 1, _ => 0.0);
      SumZeros(n - 1);
    }
  }

  /** The bucket counts add up to the number of tokens. */
  lemma {:induction false} CountsSum(tokens: seq<string>, dim: nat, hash: string -> nat)
    requires dim > 0
    ensures Sum(Counts(tokens, dim, hash)) == |tokens| as real
    decreases |tokens|
  {
    if tokens == [] {
      SumZeros(dim);
    } else {
      var init := tokens[..|tokens| - 1];
      CountsSum(init, dim, hash);
      SumUpdate(Counts(init, dim, hash), hash(tokens[|tokens| - 1]) % dim, 1.0);
    }
  }

  /** Text made of whitespace only yields the all-zero vector. */
  lemma BlankTextIsZero(text: string, dim: nat, hash: string -> nat)
    requires dim > 0
    requires forall i :: 0 <= i < |text| ==> IsSpace(text[i])
    ensures Counts(Tokens(text), dim, hash) == seq(dim, _ => 0.0)
  {
    WordsOfBlank(Lower(text));
  }
}
