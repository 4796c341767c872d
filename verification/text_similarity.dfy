/** `text_similarity_score`: cosine similarity of the embeddings of two
    stripped texts, guarded against missing or blank text and failed
    embedding calls. The embedding service and the vector norm are
    parameters of the model. */
module TextSimilarity {
  import opened Wrappers
  import opened Text

  /** The output width of the text-embedding-3-small model. */
  const Dim: nat := 1536

  type Embedding = v: seq<real> | |v| == Dim witness seq(1536, _ => 0.0)

  /** What the scorers call but the model does not define: the embedding
      service (None stands for any exception it raises) and
      `np.linalg.norm`. */
  datatype Oracle = Oracle(embed: string -> Option<Embedding>, norm: seq<real> -> real)

  /** `np.dot` of two vectors of the same length. */
  function Dot(a: seq<real>, b: seq<real>): real
    requires |a| == |b|
  {
    if a == [] then 0.0 else a[0] * b[0] + Dot(a[1..], b[1..])
  }

  lemma {:induction false} DotSymmetric(a: seq<real>, b: seq<real>)
    requires |a| == |b|
    ensures Dot(a, b) == Dot(b, a)
  {
    if a != [] {
      DotSymmetric(a[1..], b[1..]);
    }
  }

  /** `cosine_similarity`. A zero product of norms gives 0.0 before anything
      else; vectors of different lengths make numpy raise (None); otherwise
      the dot product over the product of norms. */
  function CosineSimilarity(a: seq<real>, b: seq<real>, norm: seq<real> -> real): (r: Option<real>)
    ensures norm(a) * norm(b) == 0.0 ==> r == Some(0.0)
    ensures r.None? <==> norm(a) * norm(b) != 0.0 && |a| != |b|
  {
    var denom := norm(a) * norm(b);
    if denom == 0.0 then Some(0.0)
    else if |a| != |b| then None
    else Some(Dot(a, b) / denom)
  }

  lemma CosineSymmetric(a: seq<real>, b: seq<real>, norm: seq<real> -> real)
    ensures CosineSimilarity(a, b, norm) == CosineSimilarity(b, a, norm)
  {
    assert norm(a) * norm(b) == norm(b) * norm(a);
    if |a| == |b| {
      DotSymmetric(a, b);
    }
  }

  /** The text that reaches the embedding call: None when the value is
      missing, empty or whitespace-only (the two guards), otherwise the
      stripped text. */
  function EmbeddingInput(v: Option<string>): (r: Option<string>)
    ensures r.None? <==> v.None? || AllSpace(v.value)
    ensures r.Some? ==> r.value == Strip(v.value) && r.value != ""
  {
    if !Truthy(v) then None
    else
      var s := Strip(v.value);
      if s == [] then None else Some(s)
  }

  /** The score is 0.0 when either text is missing, empty or blank, or when
      either embedding call fails; any other score is the cosine of the
      embeddings of the two stripped texts. */
  function TextSimilarityScore(input: Option<string>, other: Option<string>, o: Oracle): (r: real)
    ensures input.None? || other.None? ==> r == 0.0
    ensures input.Some? && AllSpace(input.value) ==> r == 0.0
    ensures other.Some? && AllSpace(other.value) ==> r == 0.0
    ensures r != 0.0 ==>
      && input.Some? && other.Some?
      && o.embed(Strip(input.value)).Some? && o.embed(Strip(other.value)).Some?
      && Some(r) == CosineSimilarity(o.embed(Strip(input.value)).value, o.embed(Strip(other.value)).value, o.norm)
    ensures input.Some? && other.Some? && !AllSpace(input.value) && !AllSpace(other.value) ==>
      var ea, eb := o.embed(Strip(input.value)), o.embed(Strip(other.value));
      ea.Some? && eb.Some? ==> Some(r) == CosineSimilarity(ea.value, eb.value, o.norm)
  {
    var a, b := EmbeddingInput(input), EmbeddingInput(other);
    if a.None? || b.None? then 0.0
    else
      var ea, eb := o.embed(a.value), o.embed(b.value);
      if ea.None? || eb.None? then 0.0
      else CosineSimilarity(ea.value, eb.value, o.norm).value
  }

  /** Both texts usable but an embedding call failing gives 0.0. */
  lemma TextSimilarityEmbedFailure(input: Option<string>, other: Option<string>, o: Oracle)
    requires EmbeddingInput(input).Some? && EmbeddingInput(other).Some?
    requires o.embed(EmbeddingInput(input).value).None? || o.embed(EmbeddingInput(other).value).None?
    ensures TextSimilarityScore(input, other, o) == 0.0
  {
  }

  lemma TextSimilaritySymmetric(a: Option<string>, b: Option<string>, o: Oracle)
    ensures TextSimilarityScore(a, b, o) == TextSimilarityScore(b, a, o)
  {
    var ia, ib := EmbeddingInput(a), EmbeddingInput(b);
    if ia.Some? && ib.Some? {
      var ea, eb := o.embed(ia.value), o.embed(ib.value);
      if ea.Some? && eb.Some? {
        CosineSymmetric(ea.value, eb.value, o.norm);
      }
    }
  }

  /** Only the stripped text reaches the embedding call: padding a trimmed
      text with whitespace does not change its score. */
  lemma TextSimilarityIgnoresPadding(w1: string, t: string, w2: string, b: Option<string>, o: Oracle)
    requires AllSpace(w1) && AllSpace(w2) && Trimmed(t)
    ensures TextSimilarityScore(Some(w1 + t + w2), b, o) == TextSimilarityScore(Some(t), b, o)
  {
    assert EmbeddingInput(Some(w1 + t + w2)) == EmbeddingInput(Some(t)) by {
      StripPadded(w1, t, w2);
      StripTrimmed(t);
    }
  }
}
