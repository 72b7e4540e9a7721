/**
 * `list(dict.fromkeys(xs))`: the keys of a dict built by inserting `xs` in
 * order.  A key already present is not inserted again, so each value is kept
 * once, at the place of its first occurrence.
 */
module Dedup {

  predicate Distinct<T(==)>(s: seq<T>)
  {
    forall i, j :: 0 <= i < j < |s| ==> s[i] != s[j]
  }

  /** The position of the first occurrence of `x` in `s`. */
  function FirstIndex<T(==)>(s: seq<T>, x: T): (k: nat)
    requires x in s
    ensures k < |s| && s[k] == x && x !in s[..k]
  {
    if s[0] == x then 0 else 1 + FirstIndex(s[1..], x)
  }

  /** The key order of `dict.fromkeys(s)`: the dict after inserting every element but the last, then the last. */
  function FromKeys<T(==, !new)>(s: seq<T>): (r: seq<T>)
    ensures Distinct(r)
    ensures forall x :: x in r <==> x in s
  {
    if s == [] then []
    else
      var keys := FromKeys(s[..|s| - 1]);
      if s[|s| - 1] in keys then keys else keys + [s[|s| - 1]]
  }

  lemma FirstIndexOfPrefix<T>(s: seq<T>, n: nat, x: T)
    requires n <= |s| && x in s[..n]
    ensures FirstIndex(s, x) == FirstIndex(s[..n], x)
  {
    var a, b := FirstIndex(s, x), FirstIndex(s[..n], x);
    assert s[..n][..b] == s[..b];
    assert s[..n][b] == s[b];
    assert a <= b by {
      assert s[..n][..b] == s[..b];
    }
  }

  /** The result lists the elements in the order of their first occurrences in `s`. */
  lemma {:induction false} FromKeysFirstOccurrenceOrder<T(!new)>(s: seq<T>)
    ensures forall i, j :: 0 <= i < j < |FromKeys(s)| ==>
      FirstIndex(s, FromKeys(s)[i]) < FirstIndex(s, FromKeys(s)[j])
  {
    if s != [] {
      var init := s[..|s| - 1];
      var keys := FromKeys(init);
      FromKeysFirstOccurrenceOrder(init);
      var r := FromKeys(s);
      forall i, j | 0 <= i < j < |r|
        ensures FirstIndex(s, r[i]) < FirstIndex(s, r[j])
      {
        assert r[i] in init by { assert r[i] == keys[i]; }
        FirstIndexOfPrefix(s, |s| - 1, r[i]);
        assert s[..|s| - 1] == init;
        if j < |keys| {
          FirstIndexOfPrefix(s, |s| - 1, r[j]);
        } else {
          assert r[j] == s[|s| - 1] && r[j] !in init;
          assert FirstIndex(s, r[j]) == |s| - 1;
        }
      }
    }
  }

  /** A list without duplicates is left as it is. */
  lemma {:induction false} FromKeysOfDistinct<T(!new)>(s: seq<T>)
    requires Distinct(s)
    ensures FromKeys(s) == s
  {
    if s != [] {
      var init := s[..|s| - 1];
      FromKeysOfDistinct(init);
      assert s[|s| - 1] !in init;
      assert init + [s[|s| - 1]] == s;
    }
  }

  /** Deduplicating twice is deduplicating once. */
  lemma FromKeysIdempotent<T(!new)>(s: seq<T>)
    ensures FromKeys(FromKeys(s)) == FromKeys(s)
  {
    FromKeysOfDistinct(FromKeys(s));
  }
}
