/** `get_similar_resources_for_next_step`: embed the text, score every
    resource that has an embedding by cosine similarity, sort by score,
    highest first, with Python's stable sort, and keep the first five. */
module SimilarResources {
  import opened Wrappers
  import opened Sorting
  import opened TextSimilarity
  import opened SupabaseClient

  /** The embedding the lookup finds on a joined resource: the attached
      value, None when it is missing or null. */
  function StoredVector(r: Resource): (e: Option<StoredEmbedding>)
    ensures e.Some? <==> r.embedding.Present?
    ensures e.Some? ==> e.value == r.embedding.value
  {
    if r.embedding.Present? then Some(r.embedding.value) else None
  }

  /** `resource.get("embedding", {}).get("embedding")` as the endpoint writes
      it. Only a resource without the key reaches a dict (`{}`), and that
      holds nothing; the value the join stores under the key is None or the
      embedding itself (a list or a string), and none of these has a
      `.get`. None stands for the AttributeError. */
  function NestedLookup(r: Resource): (e: Option<Option<StoredEmbedding>>)
    ensures e.Some? ==> e.value.None?
  {
    if r.embedding == Absent then Some(None) else None
  }

  /** The lookup as written raises on every resource the join returns,
      while the read the model uses finds the attached embedding. */
  lemma JoinedLookupRaises(r: Resource, rows: seq<EmbeddingRow>)
    ensures NestedLookup(r.(embedding := Attached(EmbeddingMap(rows), r.id))).None?
    ensures StoredVector(r.(embedding := Attached(EmbeddingMap(rows), r.id))).Some? <==>
      r.id in EmbeddingMap(rows) && EmbeddingMap(rows)[r.id].Some?
  {
  }

  /** `if resource_embedding:` — a non-empty vector or a non-empty text. */
  predicate HasEmbedding(r: Resource) {
    match StoredVector(r)
    case Some(Vector(v)) => v != []
    case Some(VectorText(t)) => t != []
    case None => false
  }

  /** `cosine_similarity(input_embedding, resource_embedding)`; None when
      numpy raises: vectors of different lengths, or an embedding in text
      form, whose norm cannot be taken. */
  function CosineTo(input: Embedding, norm: seq<real> -> real): Resource -> Option<real> {
    r => match StoredVector(r)
         case Some(Vector(v)) => CosineSimilarity(input, v, norm)
         case _ => None
  }

  datatype ScoredResource = ScoredResource(score: real, resource: Resource)

  function ScoreOf(s: ScoredResource): real {
    s.score
  }

  /** The scoring loop fails at the first resource whose score raises. */
  datatype ResourceError = ScoringFailed(resourceIndex: nat)

  /** The scored resources, in input order: one entry per resource with an
      embedding, or the index of the first such resource `score` fails on. */
  function Scored(rs: seq<Resource>, score: Resource -> Option<real>): (r: Result<seq<ScoredResource>, ResourceError>)
    ensures r.Ok? ==> |r.value| <= |rs|
    ensures r.Err? ==> r.error.resourceIndex < |rs|
  {
    if rs == [] then Ok([])
    else
      var last := rs[|rs| - 1];
      match Scored(rs[..|rs| - 1], score)
      case Err(e) => Err(e)
      case Ok(s) =>
        if !HasEmbedding(last) then Ok(s)
        else if score(last).None? then Err(ScoringFailed(|rs| - 1))
        else Ok(s + [ScoredResource(score(last).value, last)])
  }

  /** Scoring succeeds exactly when no resource with an embedding fails, and
      then every entry is such a resource with its score. */
  lemma {:induction false} ScoredEntries(rs: seq<Resource>, score: Resource -> Option<real>)
    ensures Scored(rs, score).Ok? <==> forall i :: 0 <= i < |rs| && HasEmbedding(rs[i]) ==> score(rs[i]).Some?
    ensures Scored(rs, score).Ok? ==> forall k :: 0 <= k < |Scored(rs, score).value| ==>
      exists i :: (0 <= i < |rs| && HasEmbedding(rs[i]) && score(rs[i]).Some?
        && Scored(rs, score).value[k] == ScoredResource(score(rs[i]).value, rs[i]))
  {
    if rs != [] {
      var init := rs[..|rs| - 1];
      ScoredEntries(init, score);
      assert forall i :: 0 <= i < |init| ==> init[i] == rs[i];
      if Scored(rs, score).Ok? {
        assert Scored(init, score).Ok?;
        var s := Scored(init, score).value;
        forall k | 0 <= k < |Scored(rs, score).value|
          ensures exists i :: (0 <= i < |rs| && HasEmbedding(rs[i]) && score(rs[i]).Some?
            && Scored(rs, score).value[k] == ScoredResource(score(rs[i]).value, rs[i]))
        {
          if k < |s| {
            assert Scored(rs, score).value[k] == s[k];
            var i :| 0 <= i < |init| && HasEmbedding(init[i]) && score(init[i]).Some?
              && s[k] == ScoredResource(score(init[i]).value, init[i]);
            assert rs[i] == init[i];
          } else {
            assert Scored(rs, score).value[k] == ScoredResource(score(rs[|rs| - 1]).value, rs[|rs| - 1]);
          }
        }
      }
    }
  }

  /** Every resource with an embedding is scored. */
  lemma {:induction false} ScoredComplete(rs: seq<Resource>, score: Resource -> Option<real>, i: nat)
    requires Scored(rs, score).Ok? && i < |rs| && HasEmbedding(rs[i])
    ensures score(rs[i]).Some? && ScoredResource(score(rs[i]).value, rs[i]) in Scored(rs, score).value
  {
    ScoredEntries(rs, score);
    var init := rs[..|rs| - 1];
    if i < |init| {
      assert init[i] == rs[i];
      ScoredComplete(init, score, i);
    }
  }

  /** Once a prefix fails, the whole run fails the same way. */
  lemma {:induction false} ScoredFailureSticks(rs: seq<Resource>, score: Resource -> Option<real>, n: nat)
    requires n <= |rs| && Scored(rs[..n], score).Err?
    ensures Scored(rs, score) == Scored(rs[..n], score)
  {
    if n < |rs| {
      var init := rs[..|rs| - 1];
      assert init[..n] == rs[..n];
      ScoredFailureSticks(init, score, n);
    } else {
      assert rs[..n] == rs;
    }
  }

  /** The failure names a resource with an embedding whose score raises,
      with no failure before it. */
  lemma {:induction false} ScoredFailure(rs: seq<Resource>, score: Resource -> Option<real>)
    requires Scored(rs, score).Err?
    ensures HasEmbedding(rs[Scored(rs, score).error.resourceIndex])
    ensures score(rs[Scored(rs, score).error.resourceIndex]).None?
    ensures forall i :: 0 <= i < Scored(rs, score).error.resourceIndex && HasEmbedding(rs[i]) ==> score(rs[i]).Some?
  {
    var init := rs[..|rs| - 1];
    ScoredEntries(init, score);
    assert forall i :: 0 <= i < |init| ==> init[i] == rs[i];
    if Scored(init, score).Err? {
      ScoredFailure(init, score);
    }
  }

  /** The scored resources in a stable sort by score, highest first. */
  function Rank(s: seq<ScoredResource>): (r: seq<ScoredResource>)
    ensures |r| == |s|
    ensures SortedBy(r, ScoreOf, Greater)
    ensures multiset(r) == multiset(s)
    ensures forall x :: KeyFilter(r, ScoreOf, x) == KeyFilter(s, ScoreOf, x)
  {
    GreaterStrict();
    SortCorrect(s, ScoreOf, Greater);
    Sort(s, ScoreOf, Greater)
  }

  /** `[res for score, res in scored_resources[:5]]`. */
  function Resources(s: seq<ScoredResource>): (r: seq<Resource>)
    ensures |r| == |s|
    ensures forall k :: 0 <= k < |s| ==> r[k] == s[k].resource
  {
    seq(|s|, k requires 0 <= k < |s| => s[k].resource)
  }

  /** The five best-scoring resources, or the scoring failure. */
  function TopResources(rs: seq<Resource>, score: Resource -> Option<real>): Result<seq<Resource>, ResourceError> {
    match Scored(rs, score)
    case Err(e) => Err(e)
    case Ok(s) => Ok(Resources(Take(Rank(s), 5)))
  }

  /** The endpoint: [] when the text cannot be embedded, otherwise the loop
      over the resources, the sort and the slice. */
  method GetSimilarResources(text: string, resources: seq<Resource>, o: Oracle)
    returns (r: Result<seq<Resource>, ResourceError>)
    ensures o.embed(text).None? ==> r == Ok([])
    ensures o.embed(text).Some? ==> r == TopResources(resources, CosineTo(o.embed(text).value, o.norm))
  {
    var input := o.embed(text);
    if input.None? {
      return Ok([]);
    }
    var score := CosineTo(input.value, o.norm);
    var scored: seq<ScoredResource> := [];
    for i := 0 to |resources|
      invariant Scored(resources[..i], score) == Ok(scored)
    {
      assert resources[..i + 1][..i] == resources[..i];
      var resource := resources[i];
      if HasEmbedding(resource) {
        var s := score(resource);
        if s.None? {
          ScoredFailureSticks(resources, score, i + 1);
          return Err(ScoringFailed(i));
        }
        scored := scored + [ScoredResource(s.value, resource)];
      }
    }
    assert resources[..|resources|] == resources;
    var ranked := Rank(scored);
    r := Ok(Resources(Take(ranked, 5)));
  }

  /** At most five resources come back, and fewer only when fewer have an
      embedding. */
  lemma TopResourcesLength(rs: seq<Resource>, score: Resource -> Option<real>)
    requires TopResources(rs, score).Ok?
    ensures |TopResources(rs, score).value| <= 5
    ensures |TopResources(rs, score).value| < 5 ==> |TopResources(rs, score).value| == |Scored(rs, score).value|
  {
  }

  /** Every returned resource is a fetched resource with an embedding. */
  lemma TopResourcesFromInput(rs: seq<Resource>, score: Resource -> Option<real>)
    requires TopResources(rs, score).Ok?
    ensures forall k :: 0 <= k < |TopResources(rs, score).value| ==>
      exists i :: 0 <= i < |rs| && HasEmbedding(rs[i]) && TopResources(rs, score).value[k] == rs[i]
  {
    var s := Scored(rs, score).value;
    var ranked := Rank(s);
    ScoredEntries(rs, score);
    forall k | 0 <= k < |TopResources(rs, score).value|
      ensures exists i :: 0 <= i < |rs| && HasEmbedding(rs[i]) && TopResources(rs, score).value[k] == rs[i]
    {
      assert ranked[k] in multiset(ranked);
      var m :| 0 <= m < |s| && s[m] == ranked[k];
      var i :| 0 <= i < |rs| && HasEmbedding(rs[i]) && score(rs[i]).Some?
        && s[m] == ScoredResource(score(rs[i]).value, rs[i]);
    }
  }

  /** The returned resources come in non-increasing order of score. */
  lemma TopResourcesOrdered(rs: seq<Resource>, score: Resource -> Option<real>)
    requires TopResources(rs, score).Ok?
    ensures forall k :: 0 <= k < |TopResources(rs, score).value| ==> score(TopResources(rs, score).value[k]).Some?
    ensures forall k, l :: 0 <= k < l < |TopResources(rs, score).value| ==>
      score(TopResources(rs, score).value[l]).value <= score(TopResources(rs, score).value[k]).value
  {
    var s := Scored(rs, score).value;
    var ranked := Rank(s);
    var top := TopResources(rs, score).value;
    ScoredEntries(rs, score);
    forall k | 0 <= k < |top|
      ensures score(top[k]).Some? && ranked[k].score == score(top[k]).value
    {
      assert ranked[k] in multiset(ranked);
      var m :| 0 <= m < |s| && s[m] == ranked[k];
      var i :| 0 <= i < |rs| && HasEmbedding(rs[i]) && score(rs[i]).Some?
        && s[m] == ScoredResource(score(rs[i]).value, rs[i]);
    }
  }

  /** No resource left out scores higher than a returned one: a resource
      with an embedding that beats the k-th returned resource is returned. */
  lemma TopResourcesComplete(rs: seq<Resource>, score: Resource -> Option<real>, i: nat, k: nat)
    requires TopResources(rs, score).Ok?
    requires i < |rs| && HasEmbedding(rs[i]) && k < |TopResources(rs, score).value|
    requires score(rs[i]).Some? && score(TopResources(rs, score).value[k]).Some?
    requires score(rs[i]).value > score(TopResources(rs, score).value[k]).value
    ensures rs[i] in TopResources(rs, score).value
  {
    var s := Scored(rs, score).value;
    var ranked := Rank(s);
    var top := TopResources(rs, score).value;
    TopResourcesOrdered(rs, score);
    assert ranked[k].score == score(top[k]).value by {
      ScoredEntries(rs, score);
      assert ranked[k] in multiset(ranked);
      var m :| 0 <= m < |s| && s[m] == ranked[k];
      var j :| 0 <= j < |rs| && HasEmbedding(rs[j]) && score(rs[j]).Some?
        && s[m] == ScoredResource(score(rs[j]).value, rs[j]);
    }
    ScoredComplete(rs, score, i);
    var x := ScoredResource(score(rs[i]).value, rs[i]);
    assert x in multiset(s);
    assert x in ranked;
    var p :| 0 <= p < |ranked| && ranked[p] == x;
    TakeComplete(ranked, 5, ScoreOf, Greater, p, k);
    assert top[p] == rs[i];
  }

  /** Resources with equal scores keep their input order. */
  lemma TopResourcesStable(rs: seq<Resource>, score: Resource -> Option<real>, x: real)
    requires Scored(rs, score).Ok?
    ensures KeyFilter(Rank(Scored(rs, score).value), ScoreOf, x) == KeyFilter(Scored(rs, score).value, ScoreOf, x)
  {
  }
}
