/** The string operations the comparators and the export rows rely on:
    Python's `str.lower()`, `str.strip()`, `sep.join(items)` and `<` on str,
    restricted to ASCII. */
module Text {
  import opened Wrappers

  /** Python truthiness of an optional string: neither None nor "". */
  predicate Truthy(v: Option<string>) {
    v.Some? && v.value != ""
  }

  /** `str.isspace()` on ASCII: tab, line feed, vertical tab, form feed,
      carriage return, the four separators 0x1C-0x1F, and space. */
  predicate IsSpace(c: char) {
    (9 <= c as int <= 13) || (28 <= c as int <= 32)
  }

  /** Every character of w is whitespace (true of ""). */
  predicate AllSpace(w: string) {
    forall k :: 0 <= k < |w| ==> IsSpace(w[k])
  }

  /** t neither starts nor ends with whitespace. */
  predicate Trimmed(t: string) {
    t == [] || (!IsSpace(t[0]) && !IsSpace(t[|t| - 1]))
  }

  /** `str.lower()` on one ASCII character. */
  function LowerChar(c: char): char {
    if 'A' <= c <= 'Z' then (c as int + 32) as char else c
  }

  function Lower(s: string): string {
    seq(|s|, i requires 0 <= i < |s| => LowerChar(s[i]))
  }

  /** Leading whitespace removed: the result is a suffix of s, everything cut
      off is whitespace, and the result does not start with whitespace. */
  function StripLeft(s: string): (r: string)
    ensures |r| <= |s| && r == s[|s| - |r|..]
    ensures forall k :: 0 <= k < |s| - |r| ==> IsSpace(s[k])
    ensures r == [] || !IsSpace(r[0])
  {
    if |s| > 0 && IsSpace(s[0]) then StripLeft(s[1..]) else s
  }

  /** Trailing whitespace removed: the result is a prefix of s, everything cut
      off is whitespace, and the result does not end with whitespace. */
  function StripRight(s: string): (r: string)
    ensures |r| <= |s| && r == s[..|r|]
    ensures forall k :: |r| <= k < |s| ==> IsSpace(s[k])
    ensures r == [] || !IsSpace(r[|r| - 1])
  {
    if |s| > 0 && IsSpace(s[|s| - 1]) then StripRight(s[..|s| - 1]) else s
  }

  /** `str.strip()`: empty exactly when s is all whitespace, and otherwise
      neither starts nor ends with whitespace. */
  function Strip(s: string): (r: string)
    ensures r == [] <==> forall k :: 0 <= k < |s| ==> IsSpace(s[k])
    ensures r != [] ==> !IsSpace(r[0]) && !IsSpace(r[|r| - 1])
    ensures |r| <= |s|
  {
    var left := StripLeft(s);
    assert forall k :: |s| - |left| <= k < |s| ==> s[k] == left[k - (|s| - |left|)];
    StripRight(left)
  }

  /** The key both string comparators compare on: `s.lower().strip()`. */
  function Normalize(s: string): string {
    Strip(Lower(s))
  }

  /** `sep.join(items)`. */
  function Join(items: seq<string>, sep: string): string {
    if |items| == 0 then ""
    else if |items| == 1 then items[0]
    else items[0] + sep + Join(items[1..], sep)
  }

  /** Python's `<` on str: lexicographic by code point, a proper prefix first. */
  function StringLess(a: string, b: string): bool {
    if b == [] then false
    else if a == [] then true
    else if a[0] != b[0] then a[0] < b[0]
    else StringLess(a[1..], b[1..])
  }

  lemma {:induction false} StringLessIrreflexive(a: string)
    ensures !StringLess(a, a)
  {
    if a != [] {
      StringLessIrreflexive(a[1..]);
    }
  }

  lemma {:induction false} StringLessTransitive(a: string, b: string, c: string)
    requires StringLess(a, b) && StringLess(b, c)
    ensures StringLess(a, c)
  {
    if a != [] && a[0] == b[0] && b[0] == c[0] {
      StringLessTransitive(a[1..], b[1..], c[1..]);
    }
  }

  /** A string without whitespace at either end is left as it is by strip. */
  lemma StripTrimmed(t: string)
    requires Trimmed(t)
    ensures Strip(t) == t
  {
    assert StripLeft(t) == t;
  }

  lemma StripIdempotent(s: string)
    ensures Strip(Strip(s)) == Strip(s)
  {
    StripTrimmed(Strip(s));
  }

  lemma LowerCharKeepsSpace(c: char)
    ensures IsSpace(LowerChar(c)) == IsSpace(c)
  {
  }

  lemma {:induction false} StripLeftLower(s: string)
    ensures StripLeft(Lower(s)) == Lower(StripLeft(s))
  {
    if |s| > 0 {
      LowerCharKeepsSpace(s[0]);
      assert Lower(s)[1..] == Lower(s[1..]);
      if IsSpace(s[0]) {
        StripLeftLower(s[1..]);
      }
    }
  }

  lemma {:induction false} StripRightLower(s: string)
    ensures StripRight(Lower(s)) == Lower(StripRight(s))
  {
    if |s| > 0 {
      LowerCharKeepsSpace(s[|s| - 1]);
      assert Lower(s)[..|s| - 1] == Lower(s[..|s| - 1]);
      if IsSpace(s[|s| - 1]) {
        StripRightLower(s[..|s| - 1]);
      }
    }
  }

  /** Lower-casing and stripping commute, so `s.lower().strip()` is also the
      lower-cased stripped string. */
  lemma StripLowerCommute(s: string)
    ensures Strip(Lower(s)) == Lower(Strip(s))
  {
    StripLeftLower(s);
    StripRightLower(StripLeft(s));
  }

  lemma LowerIdempotent(t: string)
    ensures Lower(Lower(t)) == Lower(t)
  {
    assert forall i :: 0 <= i < |t| ==> LowerChar(LowerChar(t[i])) == LowerChar(t[i]);
  }

  /** Normalising is idempotent, and a string and its normal form normalise
      alike. */
  lemma NormalizeIdempotent(s: string)
    ensures Normalize(Normalize(s)) == Normalize(s)
  {
    var n := Normalize(s);
    StripLowerCommute(s);
    LowerIdempotent(Strip(s));
    assert Lower(n) == n;
    StripIdempotent(Lower(s));
  }

  lemma {:induction false} StripLeftSpaces(w: string, u: string)
    requires AllSpace(w)
    ensures StripLeft(w + u) == StripLeft(u)
  {
    if w != [] {
      assert (w + u)[0] == w[0];
      assert (w + u)[1..] == w[1..] + u;
      StripLeftSpaces(w[1..], u);
    } else {
      assert w + u == u;
    }
  }

  lemma {:induction false} StripRightSpaces(u: string, w: string)
    requires AllSpace(w)
    ensures StripRight(u + w) == StripRight(u)
  {
    if w != [] {
      var n := |u + w|;
      assert (u + w)[n - 1] == w[|w| - 1];
      assert (u + w)[..n - 1] == u + w[..|w| - 1];
      StripRightSpaces(u, w[..|w| - 1]);
    } else {
      assert u + w == u;
    }
  }

  /** strip removes exactly the whitespace padding around a trimmed core. */
  lemma StripPadded(w1: string, t: string, w2: string)
    requires AllSpace(w1) && AllSpace(w2) && Trimmed(t)
    ensures Strip(w1 + t + w2) == t
  {
    var s := w1 + t + w2;
    if t == [] {
      assert AllSpace(s) by {
        forall k | 0 <= k < |s| ensures IsSpace(s[k]) {
          if k < |w1| { assert s[k] == w1[k]; } else { assert s[k] == w2[k - |w1|]; }
        }
      }
    } else {
      assert s == w1 + (t + w2);
      StripLeftSpaces(w1, t + w2);
      assert StripLeft(t + w2) == t + w2 by {
        assert (t + w2)[0] == t[0];
      }
      StripRightSpaces(t, w2);
      assert StripRight(t) == t;
    }
  }

  lemma LowerAppend(a: string, b: string)
    ensures Lower(a + b) == Lower(a) + Lower(b)
  {
  }

  lemma LowerAllSpace(w: string)
    requires AllSpace(w)
    ensures Lower(w) == w
  {
    assert forall k :: 0 <= k < |w| ==> LowerChar(w[k]) == w[k];
  }

  /** Lower-casing keeps a string trimmed. */
  lemma LowerTrimmed(t: string)
    requires Trimmed(t)
    ensures Trimmed(Lower(t))
  {
    if t != [] {
      LowerCharKeepsSpace(t[0]);
      LowerCharKeepsSpace(t[|t| - 1]);
    }
  }

  /** Normalising a padded string gives the lower-cased core. */
  lemma NormalizePadded(w1: string, t: string, w2: string)
    requires AllSpace(w1) && AllSpace(w2) && Trimmed(t)
    ensures Normalize(w1 + t + w2) == Lower(t)
  {
    LowerAppend(w1 + t, w2);
    LowerAppend(w1, t);
    LowerAllSpace(w1);
    LowerAllSpace(w2);
    LowerTrimmed(t);
    StripPadded(w1, Lower(t), w2);
  }

  /** A string normalises to "" exactly when it is all whitespace. */
  lemma NormalizeEmpty(s: string)
    ensures Normalize(s) == [] <==> AllSpace(s)
  {
    StripLowerCommute(s);
  }

  /** Lower-casing first does not change the normal form. */
  lemma NormalizeLower(s: string)
    ensures Normalize(Lower(s)) == Normalize(s)
  {
    LowerIdempotent(s);
  }
}
