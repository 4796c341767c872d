/** `array_overlap_score`: the Jaccard index of two string lists after
    dropping blank entries and normalising the rest. */
module ArrayOverlap {
  import opened Wrappers
  import opened Text

  /** `if i and i.strip()`: a present entry with a non-blank text. */
  predicate Kept(i: Option<string>) {
    i.Some? && Strip(i.value) != ""
  }

  /** `{i.lower().strip() for i in xs if i and i.strip()}`. */
  function NormalizedSet(xs: seq<Option<string>>): set<string> {
    set i | 0 <= i < |xs| && Kept(xs[i]) :: Normalize(xs[i].value)
  }

  /** Every member of a normalised set is a non-empty string in normal form. */
  lemma NormalizedSetMembers(xs: seq<Option<string>>)
    ensures forall t :: t in NormalizedSet(xs) ==> t != "" && Normalize(t) == t
  {
    forall t | t in NormalizedSet(xs) ensures t != "" && Normalize(t) == t {
      var i :| 0 <= i < |xs| && Kept(xs[i]) && Normalize(xs[i].value) == t;
      NormalizeEmpty(xs[i].value);
      NormalizeIdempotent(xs[i].value);
    }
  }

  /** The normalised set of an optional list; None has no elements. */
  function Items(xs: Option<seq<Option<string>>>): set<string> {
    if xs.None? then {} else NormalizedSet(xs.value)
  }

  /** A ratio of naturals with 0 < y and x <= y lies in [0, 1], is 1 only
      for x == y and 0 only for x == 0. */
  lemma UnitRatio(x: nat, y: nat)
    requires 0 < y && x <= y
    ensures 0.0 <= x as real / y as real <= 1.0
    ensures x as real / y as real == 1.0 <==> x == y
    ensures x as real / y as real == 0.0 <==> x == 0
  {
    var r := x as real / y as real;
    assert r * y as real == x as real;
  }

  /** An element of a union is in the intersection or in one difference. */
  lemma UnionCard(a: set<string>, b: set<string>)
    ensures |a + b| == |a - b| + |b - a| + |a * b|
  {
    assert a + b == (a - b) + (b - a) + (a * b);
    assert (a - b) * (b - a) == {};
    assert ((a - b) + (b - a)) * (a * b) == {};
  }

  /** |A ∩ B| / |A ∪ B|, and 0 for two empty sets. */
  function JaccardIndex(a: set<string>, b: set<string>): (r: real)
    ensures 0.0 <= r <= 1.0
    ensures r == 1.0 <==> a == b && a != {}
    ensures r == 0.0 <==> a * b == {}
  {
    UnionCard(a, b);
    if |a + b| == 0 then 0.0
    else
      UnitRatio(|a * b|, |a + b|);
      assert |a * b| == |a + b| ==> a - b == {} && b - a == {};
      assert a == b ==> a * b == a && a + b == a;
      |a * b| as real / |a + b| as real
  }

  /** The score is the Jaccard index of the two normalised sets. */
  function ArrayOverlapScore(a: Option<seq<Option<string>>>, b: Option<seq<Option<string>>>): (r: real)
    ensures r == JaccardIndex(Items(a), Items(b))
  {
    if a.None? || b.None? || a.value == [] || b.value == [] then 0.0
    else
      var inputSet, caseSet := NormalizedSet(a.value), NormalizedSet(b.value);
      if inputSet == {} then 0.0
      else
        var inter, union := |inputSet * caseSet|, |inputSet + caseSet|;
        if union > 0 then inter as real / union as real else 0.0
  }

  lemma ArrayOverlapRange(a: Option<seq<Option<string>>>, b: Option<seq<Option<string>>>)
    ensures 0.0 <= ArrayOverlapScore(a, b) <= 1.0
  {
  }

  lemma ArrayOverlapMissing(a: Option<seq<Option<string>>>, b: Option<seq<Option<string>>>)
    requires a == None || a == Some([])
    ensures ArrayOverlapScore(a, b) == 0.0 && ArrayOverlapScore(b, a) == 0.0
  {
  }

  /** An input list with nothing left after the filter scores 0, against any
      list, and so does any list against it. */
  lemma ArrayOverlapBlank(a: Option<seq<Option<string>>>, b: Option<seq<Option<string>>>)
    requires Items(a) == {}
    ensures ArrayOverlapScore(a, b) == 0.0 && ArrayOverlapScore(b, a) == 0.0
  {
  }

  lemma JaccardSymmetric(a: set<string>, b: set<string>)
    ensures JaccardIndex(a, b) == JaccardIndex(b, a)
  {
    assert a * b == b * a && a + b == b + a;
  }

  lemma ArrayOverlapSymmetric(a: Option<seq<Option<string>>>, b: Option<seq<Option<string>>>)
    ensures ArrayOverlapScore(a, b) == ArrayOverlapScore(b, a)
  {
    JaccardSymmetric(Items(a), Items(b));
  }

  /** Lists with the same entries, in any order and with any repetition,
      have the same normalised set. */
  lemma {:induction false} NormalizedSetSameEntries(xs: seq<Option<string>>, ys: seq<Option<string>>)
    requires forall x :: x in xs <==> x in ys
    ensures NormalizedSet(xs) == NormalizedSet(ys)
  {
    forall t | t in NormalizedSet(xs) ensures t in NormalizedSet(ys) {
      var i :| 0 <= i < |xs| && Kept(xs[i]) && Normalize(xs[i].value) == t;
      assert xs[i] in ys;
      var j :| 0 <= j < |ys| && ys[j] == xs[i];
    }
    forall t | t in NormalizedSet(ys) ensures t in NormalizedSet(xs) {
      var j :| 0 <= j < |ys| && Kept(ys[j]) && Normalize(ys[j].value) == t;
      assert ys[j] in xs;
      var i :| 0 <= i < |xs| && xs[i] == ys[j];
    }
  }

  /** Every entry lower-cased. */
  function LowerAll(xs: seq<Option<string>>): (r: seq<Option<string>>)
    ensures |r| == |xs|
  {
    seq(|xs|, i requires 0 <= i < |xs| => if xs[i].Some? then Some(Lower(xs[i].value)) else None)
  }

  /** x and y are both dropped, or both kept with the same normal form. */
  predicate SameEntry(x: Option<string>, y: Option<string>) {
    Kept(x) == Kept(y) && (Kept(x) ==> Normalize(x.value) == Normalize(y.value))
  }

  lemma NormalizedSetPointwise(xs: seq<Option<string>>, ys: seq<Option<string>>)
    requires |xs| == |ys| && forall i :: 0 <= i < |xs| ==> SameEntry(xs[i], ys[i])
    ensures NormalizedSet(xs) == NormalizedSet(ys)
  {
    forall t | t in NormalizedSet(xs) ensures t in NormalizedSet(ys) {
      var i :| 0 <= i < |xs| && Kept(xs[i]) && Normalize(xs[i].value) == t;
      assert SameEntry(xs[i], ys[i]);
    }
    forall t | t in NormalizedSet(ys) ensures t in NormalizedSet(xs) {
      var i :| 0 <= i < |ys| && Kept(ys[i]) && Normalize(ys[i].value) == t;
      assert SameEntry(xs[i], ys[i]);
    }
  }

  lemma SameEntryLower(x: Option<string>)
    ensures SameEntry(x, if x.Some? then Some(Lower(x.value)) else None)
  {
    if x.Some? {
      StripLowerCommute(x.value);
      NormalizeLower(x.value);
    }
  }

  /** Re-casing the entries does not change the normalised set. */
  lemma NormalizedSetLowerAll(xs: seq<Option<string>>)
    ensures NormalizedSet(LowerAll(xs)) == NormalizedSet(xs)
  {
    var ys := LowerAll(xs);
    forall i | 0 <= i < |xs| ensures SameEntry(xs[i], ys[i]) {
      SameEntryLower(xs[i]);
    }
    NormalizedSetPointwise(xs, ys);
  }

  /** The score depends on the normalised sets only; equal non-empty sets
      score 1.0. */
  lemma ArrayOverlapSameSets(a: Option<seq<Option<string>>>, b: Option<seq<Option<string>>>)
    requires Items(a) == Items(b) != {}
    ensures ArrayOverlapScore(a, b) == 1.0
  {
  }

  /** A one-character non-blank entry normalises to its lower-case form. */
  lemma NormalizeChar(c: char)
    requires !IsSpace(c)
    ensures Kept(Some([c])) && Normalize([c]) == [LowerChar(c)]
  {
    var l := LowerChar(c);
    LowerCharKeepsSpace(c);
    assert Trimmed([c]) && Trimmed([l]);
    StripTrimmed([c]);
    StripTrimmed([l]);
    assert Lower([c]) == [l];
  }

  lemma NormalizedCharPair(c: char, d: char)
    requires !IsSpace(c) && !IsSpace(d)
    ensures NormalizedSet([Some([c]), Some([d])]) == {[LowerChar(c)], [LowerChar(d)]}
  {
    NormalizeChar(c);
    NormalizeChar(d);
    var xs := [Some([c]), Some([d])];
    assert Kept(xs[0]) && Kept(xs[1]);
  }

  lemma JaccardExample()
    ensures JaccardIndex({"a", "b"}, {"b", "c"}) == 1.0 / 3.0
  {
    var a, b := {"a", "b"}, {"b", "c"};
    assert a * b == {"b"};
    assert a + b == {"a", "b", "c"};
  }

  /** ["A", "B"] against ["b", "c"]: one shared entry out of three. */
  lemma ArrayOverlapExample(xs: seq<Option<string>>, ys: seq<Option<string>>)
    requires xs == [Some("A"), Some("B")] && ys == [Some("b"), Some("c")]
    ensures ArrayOverlapScore(Some(xs), Some(ys)) == 1.0 / 3.0
  {
    NormalizedCharPair('A', 'B');
    NormalizedCharPair('b', 'c');
    JaccardExample();
  }
}
