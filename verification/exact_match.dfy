/** `exact_match_score`: case- and padding-insensitive string equality,
    scored 1.0 or 0.0. */
module ExactMatch {
  import opened Wrappers
  import opened Text

  /** 1.0 exactly when both values are non-empty strings that agree after
      lower-casing and stripping; otherwise 0.0. */
  function ExactMatchScore(a: Option<string>, b: Option<string>): (r: real)
    ensures r == 0.0 || r == 1.0
    ensures r == 1.0 <==> Truthy(a) && Truthy(b) && Normalize(a.value) == Normalize(b.value)
  {
    if !Truthy(a) || !Truthy(b) then 0.0
    else if Normalize(a.value) == Normalize(b.value) then 1.0
    else 0.0
  }

  lemma ExactMatchMissing(a: Option<string>, b: Option<string>)
    requires a == None || a == Some("")
    ensures ExactMatchScore(a, b) == 0.0 && ExactMatchScore(b, a) == 0.0
  {
  }

  lemma ExactMatchSymmetric(a: Option<string>, b: Option<string>)
    ensures ExactMatchScore(a, b) == ExactMatchScore(b, a)
  {
  }

  lemma ExactMatchReflexive(a: string)
    requires a != ""
    ensures ExactMatchScore(Some(a), Some(a)) == 1.0
  {
  }

  /** The score of a non-empty string depends on its normal form only. */
  lemma ExactMatchNormalForm(x: string, y: string, b: Option<string>)
    requires x != "" && y != "" && Normalize(x) == Normalize(y)
    ensures ExactMatchScore(Some(x), b) == ExactMatchScore(Some(y), b)
  {
  }

  /** Surrounding whitespace and letter case do not matter: a padded string
      scores against anything as its lower-cased trimmed core does. */
  lemma ExactMatchIgnoresPadding(w1: string, t: string, w2: string, b: Option<string>)
    requires AllSpace(w1) && AllSpace(w2) && Trimmed(t) && t != ""
    ensures ExactMatchScore(Some(w1 + t + w2), b) == ExactMatchScore(Some(Lower(t)), b)
  {
    var padded, lower := w1 + t + w2, Lower(t);
    assert Normalize(padded) == Normalize(lower) by {
      NormalizePadded(w1, t, w2);
      LowerTrimmed(t);
      LowerIdempotent(t);
      StripTrimmed(lower);
    }
    ExactMatchNormalForm(padded, lower, b);
  }

  /** The guard looks at raw emptiness only: two non-empty whitespace-only
      strings both strip to "" and match. */
  lemma ExactMatchWhitespaceOnly(a: string, b: string)
    requires a != "" && b != "" && AllSpace(a) && AllSpace(b)
    ensures ExactMatchScore(Some(a), Some(b)) == 1.0
  {
    NormalizeEmpty(a);
    NormalizeEmpty(b);
  }
}
