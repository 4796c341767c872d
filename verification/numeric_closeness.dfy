/** `age_proximity_score`: 1 minus the age gap measured in units of the
    younger age (at least 1), clamped at 0. */
module NumericCloseness {
  import opened Wrappers

  function Abs(x: int): nat {
    if x < 0 then -x else x
  }

  /** `max(min(a, b), 1)`: the denominator is never below 1. */
  function AgeScale(a: int, b: int): (s: int)
    ensures s >= 1
    ensures s == 1 || s == a || s == b
    ensures s <= 1 || (s <= a && s <= b)
  {
    var m := if a <= b then a else b;
    if m >= 1 then m else 1
  }

  /** In [0, 1], and 1 exactly for two equal known ages. */
  function AgeProximityScore(a: Option<int>, b: Option<int>): (r: real)
    ensures 0.0 <= r <= 1.0
    ensures r == 1.0 <==> a.Some? && b.Some? && a.value == b.value
    ensures a.None? || b.None? ==> r == 0.0
  {
    if a.None? || b.None? then 0.0
    else
      var diff := Abs(a.value - b.value);
      var scale := AgeScale(a.value, b.value);
      var score := 1.0 - diff as real / scale as real;
      assert diff as real / scale as real >= 0.0;
      assert diff as real / scale as real == 0.0 <==> diff == 0;
      if score >= 0.0 then score else 0.0
  }

  lemma AgeProximitySymmetric(a: Option<int>, b: Option<int>)
    ensures AgeProximityScore(a, b) == AgeProximityScore(b, a)
  {
  }

  /** With the younger age m fixed, a larger gap never scores higher. */
  lemma AgeProximityMonotone(m: int, d1: nat, d2: nat)
    requires d1 <= d2
    ensures AgeProximityScore(Some(m), Some(m + d2)) <= AgeProximityScore(Some(m), Some(m + d1))
  {
    var s := AgeScale(m, m + d1);
    assert s == AgeScale(m, m + d2);
    var q1, q2 := d1 as real / s as real, d2 as real / s as real;
    assert q2 - q1 == (d2 - d1) as real / s as real;
  }

  /** 9 against 12 gives 1 - 3/9; 0 against 5 clamps to 0. */
  lemma AgeProximityExamples()
    ensures AgeProximityScore(Some(9), Some(12)) == 2.0 / 3.0
    ensures AgeProximityScore(Some(0), Some(5)) == 0.0
  {
  }
}
