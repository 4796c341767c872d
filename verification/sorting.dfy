/** Python's `list.sort(key=..., reverse=...)` followed by a `[:k]` slice.
    CPython's sort is stable: elements whose keys compare equal keep their
    relative order, also with reverse=True. The model sorts by insertion,
    taking the elements in input order and placing each after every element
    that does not go strictly after it. `lt(a, b)` says that key a goes
    strictly before key b: `a > b` for a descending sort, `<` for an
    ascending one. */
module Sorting {

  /** lt is irreflexive and transitive. */
  ghost predicate StrictOrder<K(!new)>(lt: (K, K) -> bool) {
    && (forall a :: !lt(a, a))
    && (forall a, b, c :: lt(a, b) && lt(b, c) ==> lt(a, c))
  }

  /** `reverse=True` on a real key: a larger key goes first. */
  function Greater(a: real, b: real): bool {
    a > b
  }

  lemma GreaterStrict()
    ensures StrictOrder(Greater)
  {
  }

  /** No element goes strictly before an element to its left. */
  ghost predicate SortedBy<T, K>(s: seq<T>, key: T -> K, lt: (K, K) -> bool) {
    forall i, j :: 0 <= i < j < |s| ==> !lt(key(s[j]), key(s[i]))
  }

  /** The elements of s whose key is k, in their order in s. */
  function KeyFilter<T, K(==)>(s: seq<T>, key: T -> K, k: K): seq<T> {
    if s == [] then []
    else (if key(s[0]) == k then [s[0]] else []) + KeyFilter(s[1..], key, k)
  }

  /** x placed before the first element it goes strictly before. */
  function Insert<T, K>(x: T, s: seq<T>, key: T -> K, lt: (K, K) -> bool): seq<T> {
    if s == [] || lt(key(x), key(s[0])) then [x] + s
    else [s[0]] + Insert(x, s[1..], key, lt)
  }

  /** The stable sort of s by key under lt. */
  function Sort<T, K>(s: seq<T>, key: T -> K, lt: (K, K) -> bool): seq<T> {
    if s == [] then []
    else Insert(s[|s| - 1], Sort(s[..|s| - 1], key, lt), key, lt)
  }

  /** `s[:n]`. */
  function Take<T>(s: seq<T>, n: nat): (r: seq<T>)
    ensures |r| == if |s| < n then |s| else n
    ensures r == s[..|r|]
  {
    if |s| <= n then s else s[..n]
  }

  /** In a sorted sequence, an element that goes strictly before one of the
      first n elements is itself among the first n. */
  lemma TakeComplete<T, K>(s: seq<T>, n: nat, key: T -> K, lt: (K, K) -> bool, p: nat, i: nat)
    requires SortedBy(s, key, lt)
    requires p < |s| && i < |Take(s, n)| && lt(key(s[p]), key(s[i]))
    ensures p < |Take(s, n)|
  {
  }

  lemma KeyFilterCons<T, K>(x: T, s: seq<T>, key: T -> K, k: K)
    ensures KeyFilter([x] + s, key, k) == (if key(x) == k then [x] else []) + KeyFilter(s, key, k)
  {
    assert ([x] + s)[0] == x;
    assert ([x] + s)[1..] == s;
  }

  lemma {:induction false} KeyFilterAppend<T, K>(a: seq<T>, b: seq<T>, key: T -> K, k: K)
    ensures KeyFilter(a + b, key, k) == KeyFilter(a, key, k) + KeyFilter(b, key, k)
  {
    if a == [] {
      assert a + b == b;
    } else {
      assert a == [a[0]] + a[1..];
      assert a + b == [a[0]] + (a[1..] + b);
      KeyFilterCons(a[0], a[1..] + b, key, k);
      KeyFilterCons(a[0], a[1..], key, k);
      KeyFilterAppend(a[1..], b, key, k);
    }
  }

  lemma {:induction false} KeyFilterNone<T, K>(s: seq<T>, key: T -> K, k: K)
    requires forall i :: 0 <= i < |s| ==> key(s[i]) != k
    ensures KeyFilter(s, key, k) == []
  {
    if s != [] {
      KeyFilterNone(s[1..], key, k);
    }
  }

  /** Insert adds exactly x. */
  lemma {:induction false} InsertPermutes<T, K>(x: T, s: seq<T>, key: T -> K, lt: (K, K) -> bool)
    ensures multiset(Insert(x, s, key, lt)) == multiset(s) + multiset{x}
  {
    if s != [] && !lt(key(x), key(s[0])) {
      InsertPermutes(x, s[1..], key, lt);
      assert s == [s[0]] + s[1..];
    }
  }

  /** In a sorted sequence that x goes strictly before the head of, x goes
      strictly before every element, so none of them has the key of x. */
  lemma BeforeHead<T, K(!new)>(x: T, s: seq<T>, key: T -> K, lt: (K, K) -> bool)
    requires StrictOrder(lt) && SortedBy(s, key, lt)
    requires s != [] && lt(key(x), key(s[0]))
    ensures forall j :: 0 <= j < |s| ==> !lt(key(s[j]), key(x)) && key(s[j]) != key(x)
  {
    forall j | 0 <= j < |s| ensures !lt(key(s[j]), key(x)) && key(s[j]) != key(x) {
      assert j == 0 || !lt(key(s[j]), key(s[0]));
    }
  }

  /** Inserting into a sorted sequence keeps it sorted. */
  lemma {:induction false} InsertSorted<T, K(!new)>(x: T, s: seq<T>, key: T -> K, lt: (K, K) -> bool)
    requires StrictOrder(lt) && SortedBy(s, key, lt)
    ensures SortedBy(Insert(x, s, key, lt), key, lt)
  {
    if s == [] {
    } else if lt(key(x), key(s[0])) {
      BeforeHead(x, s, key, lt);
    } else {
      var rest := Insert(x, s[1..], key, lt);
      InsertSorted(x, s[1..], key, lt);
      InsertPermutes(x, s[1..], key, lt);
      forall j | 0 <= j < |rest| ensures !lt(key(rest[j]), key(s[0])) {
        assert rest[j] in multiset(rest);
        if rest[j] != x {
          assert rest[j] in s[1..];
          var i :| 0 <= i < |s| - 1 && s[1..][i] == rest[j];
          assert s[i + 1] == rest[j];
        }
      }
    }
  }

  /** Inserting into a sorted sequence puts x after every element with the
      same key. */
  lemma {:induction false} InsertStable<T, K(!new)>(x: T, s: seq<T>, key: T -> K, lt: (K, K) -> bool, k: K)
    requires StrictOrder(lt) && SortedBy(s, key, lt)
    ensures KeyFilter(Insert(x, s, key, lt), key, k)
            == KeyFilter(s, key, k) + (if key(x) == k then [x] else [])
  {
    if s == [] {
      KeyFilterCons(x, [], key, k);
    } else if lt(key(x), key(s[0])) {
      KeyFilterCons(x, s, key, k);
      if key(x) == k {
        BeforeHead(x, s, key, lt);
        KeyFilterNone(s, key, k);
      }
    } else {
      assert s == [s[0]] + s[1..];
      InsertStable(x, s[1..], key, lt, k);
      KeyFilterCons(s[0], Insert(x, s[1..], key, lt), key, k);
      KeyFilterCons(s[0], s[1..], key, k);
    }
  }

  /** Sort returns a sorted permutation of its input in which the elements of
      each key keep their input order. */
  lemma {:induction false} SortCorrect<T, K(!new)>(s: seq<T>, key: T -> K, lt: (K, K) -> bool)
    requires StrictOrder(lt)
    ensures SortedBy(Sort(s, key, lt), key, lt)
    ensures |Sort(s, key, lt)| == |s|
    ensures multiset(Sort(s, key, lt)) == multiset(s)
    ensures forall k :: KeyFilter(Sort(s, key, lt), key, k) == KeyFilter(s, key, k)
  {
    if s != [] {
      var p, x := s[..|s| - 1], s[|s| - 1];
      assert s == p + [x];
      SortCorrect(p, key, lt);
      InsertSorted(x, Sort(p, key, lt), key, lt);
      InsertPermutes(x, Sort(p, key, lt), key, lt);
      forall k ensures KeyFilter(Sort(s, key, lt), key, k) == KeyFilter(s, key, k) {
        InsertStable(x, Sort(p, key, lt), key, lt, k);
        KeyFilterAppend(p, [x], key, k);
        assert KeyFilter([x], key, k) == (if key(x) == k then [x] else []) + KeyFilter([], key, k);
      }
      assert |Sort(s, key, lt)| == |multiset(Sort(s, key, lt))|;
    }
  }
}
