/**
 * The two list-building shapes the pipeline uses over and over: keep the
 * elements satisfying a predicate (an append loop guarded by an `if`) and keep
 * the first element of every key (an append loop guarded by a `seen` set).
 * Both are defined from the right, the way an append loop grows its result.
 */
module Seqs {

  function Filter<T(==)>(s: seq<T>, p: T -> bool): (r: seq<T>)
    ensures |r| <= |s|
  {
    if s == [] then []
    else Filter(s[..|s| - 1], p) + (if p(s[|s| - 1]) then [s[|s| - 1]] else [])
  }

  /** `[x for x in s if p(x)]` written as the append loop the pipeline uses. */
  method FilterLoop<T>(s: seq<T>, p: T -> bool) returns (r: seq<T>)
    ensures r == Filter(s, p)
  {
    r := [];
    for i := 0 to |s|
      invariant r == Filter(s[..i], p)
    {
      FilterSnoc(s[..i], s[i], p);
      assert s[..i + 1] == s[..i] + [s[i]];
      if p(s[i]) {
        r := r + [s[i]];
      }
    }
    assert s[..|s|] == s;
  }

  /** The elements a filter keeps are exactly the elements satisfying the predicate. */
  lemma {:induction false} FilterMembers<T>(s: seq<T>, p: T -> bool)
    ensures forall x :: x in Filter(s, p) ==> x in s && p(x)
    ensures forall x :: x in s && p(x) ==> x in Filter(s, p)
    decreases |s|
  {
    if s != [] {
      FilterMembers(s[..|s| - 1], p);
      assert s == s[..|s| - 1] + [s[|s| - 1]];
    }
  }

  /** Filtering one more element appends it exactly when it satisfies the predicate. */
  lemma FilterSnoc<T>(s: seq<T>, x: T, p: T -> bool)
    ensures Filter(s + [x], p) == Filter(s, p) + (if p(x) then [x] else [])
  {
    assert (s + [x])[..|s + [x]| - 1] == s;
  }

  lemma {:induction false} FilterConcat<T>(a: seq<T>, b: seq<T>, p: T -> bool)
    ensures Filter(a + b, p) == Filter(a, p) + Filter(b, p)
    decreases |b|
  {
    if b == [] {
      assert a + b == a;
    } else {
      var b' := b[..|b| - 1];
      assert a + b == (a + b') + [b[|b| - 1]];
      FilterSnoc(a + b', b[|b| - 1], p);
      FilterConcat(a, b', p);
      FilterSnoc(b', b[|b| - 1], p);
      assert b == b' + [b[|b| - 1]];
    }
  }

  /** Two predicates that agree on the elements of `s` filter it the same way. */
  lemma {:induction false} FilterCongruent<T>(s: seq<T>, p: T -> bool, q: T -> bool)
    requires forall x :: x in s ==> p(x) == q(x)
    ensures Filter(s, p) == Filter(s, q)
    decreases |s|
  {
    if s != [] {
      FilterCongruent(s[..|s| - 1], p, q);
    }
  }

  /** A filter whose predicate holds everywhere on `s` returns `s`. */
  lemma {:induction false} FilterAll<T>(s: seq<T>, p: T -> bool)
    requires forall x :: x in s ==> p(x)
    ensures Filter(s, p) == s
    decreases |s|
  {
    if s != [] {
      FilterAll(s[..|s| - 1], p);
    }
  }

  /** A filter whose predicate fails everywhere on `s` returns nothing. */
  lemma {:induction false} FilterNone<T>(s: seq<T>, p: T -> bool)
    requires forall x :: x in s ==> !p(x)
    ensures Filter(s, p) == []
    decreases |s|
  {
    if s != [] {
      FilterNone(s[..|s| - 1], p);
    }
  }

  /** Filtering keeps keys pairwise distinct. */
  lemma {:induction false} FilterDistinctKeys<T, K>(s: seq<T>, p: T -> bool, key: T -> K)
    requires DistinctKeys(s, key)
    ensures DistinctKeys(Filter(s, p), key)
    decreases |s|
  {
    if s != [] {
      var init := s[..|s| - 1];
      FilterDistinctKeys(init, p, key);
      var r := Filter(init, p);
      FilterMembers(init, p);
      forall x | x in r ensures key(x) != key(s[|s| - 1]) {
        var i :| 0 <= i < |init| && init[i] == x;
      }
    }
  }

  /** `a` is obtained from `b` by deleting elements, without reordering. */
  ghost predicate IsSubsequence<T>(a: seq<T>, b: seq<T>)
    decreases |b|
  {
    if a == [] then true
    else if b == [] then false
    else (a[|a| - 1] == b[|b| - 1] && IsSubsequence(a[..|a| - 1], b[..|b| - 1]))
         || IsSubsequence(a, b[..|b| - 1])
  }

  lemma {:induction false} FilterIsSubsequence<T>(s: seq<T>, p: T -> bool)
    ensures IsSubsequence(Filter(s, p), s)
    decreases |s|
  {
    if s != [] {
      var r, init := Filter(s, p), s[..|s| - 1];
      FilterIsSubsequence(init, p);
      if p(s[|s| - 1]) {
        assert r[..|r| - 1] == Filter(init, p) && r[|r| - 1] == s[|s| - 1];
      } else if r != [] {
        assert r == Filter(init, p);
        assert IsSubsequence(r, init);
      }
    }
  }

  lemma {:induction false} SubsequenceTransitive<T>(a: seq<T>, b: seq<T>, c: seq<T>)
    requires IsSubsequence(a, b) && IsSubsequence(b, c)
    ensures IsSubsequence(a, c)
    decreases |c|
  {
    if a != [] {
      assert b != [] && c != [];
      var a', b', c' := a[..|a| - 1], b[..|b| - 1], c[..|c| - 1];
      if b[|b| - 1] == c[|c| - 1] && IsSubsequence(b', c') {
        if a[|a| - 1] == b[|b| - 1] && IsSubsequence(a', b') {
          SubsequenceTransitive(a', b', c');
        } else {
          SubsequenceTransitive(a, b', c');
        }
      } else {
        SubsequenceTransitive(a, b, c');
      }
    }
  }

  /** A subsequence has no element its super-sequence lacks. */
  lemma {:induction false} SubsequenceMembers<T>(a: seq<T>, b: seq<T>)
    requires IsSubsequence(a, b)
    ensures forall x :: x in a ==> x in b
    decreases |b|
  {
    if a != [] {
      var a', b' := a[..|a| - 1], b[..|b| - 1];
      assert b == b' + [b[|b| - 1]] && a == a' + [a[|a| - 1]];
      if a[|a| - 1] == b[|b| - 1] && IsSubsequence(a', b') {
        SubsequenceMembers(a', b');
      } else {
        SubsequenceMembers(a, b');
      }
    }
  }

  // ---------------------------------------------------------------- first element per key

  function KeysOf<T(==), K>(s: seq<T>, key: T -> K): set<K>
  {
    set x | x in s :: key(x)
  }

  lemma KeysOfConcat<T, K>(a: seq<T>, b: seq<T>, key: T -> K)
    ensures KeysOf(a + b, key) == KeysOf(a, key) + KeysOf(b, key)
  {
    assert forall z :: z in a + b <==> z in a || z in b;
  }

  lemma KeysOfSnoc<T, K>(s: seq<T>, x: T, key: T -> K)
    ensures KeysOf(s + [x], key) == KeysOf(s, key) + {key(x)}
  {
    assert forall y :: y in s + [x] <==> y in s || y == x;
  }

  predicate DistinctKeys<T, K(==)>(r: seq<T>, key: T -> K)
  {
    forall i, j :: 0 <= i < j < |r| ==> key(r[i]) != key(r[j])
  }

  /** The first element of `s` for every key, in order. */
  function KeepFirst<T(==), K(==)>(s: seq<T>, key: T -> K): (r: seq<T>)
    ensures |r| <= |s|
  {
    if s == [] then []
    else
      var init, x := s[..|s| - 1], s[|s| - 1];
      KeepFirst(init, key) + (if key(x) in KeysOf(init, key) then [] else [x])
  }

  /** What is kept comes from `s`, covers every key of `s`, and has each key once. */
  lemma {:induction false} KeepFirstProperties<T, K>(s: seq<T>, key: T -> K)
    ensures forall x :: x in KeepFirst(s, key) ==> x in s
    ensures KeysOf(KeepFirst(s, key), key) == KeysOf(s, key)
    ensures DistinctKeys(KeepFirst(s, key), key)
    decreases |s|
  {
    if s != [] {
      var init, x := s[..|s| - 1], s[|s| - 1];
      var r := KeepFirst(init, key);
      KeepFirstProperties(init, key);
      assert s == init + [x];
      KeysOfSnoc(init, x, key);
      KeysOfSnoc(r, x, key);
      if key(x) !in KeysOf(init, key) {
        assert forall i :: 0 <= i < |r| ==> key(r[i]) in KeysOf(init, key);
      }
    }
  }

  lemma KeepFirstSnoc<T, K>(s: seq<T>, x: T, key: T -> K)
    ensures KeepFirst(s + [x], key) == KeepFirst(s, key) + (if key(x) in KeysOf(s, key) then [] else [x])
  {
    assert (s + [x])[..|s + [x]| - 1] == s;
  }

  /** The keys of the kept elements are all the keys of `s`. */
  lemma KeepFirstKeys<T, K>(s: seq<T>, key: T -> K)
    ensures KeysOf(KeepFirst(s, key), key) == KeysOf(s, key)
  {
    KeepFirstProperties(s, key);
  }

  /** One step of the append loop that keeps first occurrences, given the keys seen so far. */
  lemma KeepFirstStep<T, K>(s: seq<T>, i: nat, key: T -> K, keys: set<K>)
    requires i < |s| && keys == KeysOf(s[..i], key)
    ensures KeepFirst(s[..i + 1], key) == KeepFirst(s[..i], key) + (if key(s[i]) in keys then [] else [s[i]])
    ensures KeysOf(s[..i + 1], key) == keys + {key(s[i])}
  {
    assert s[..i + 1] == s[..i] + [s[i]];
    KeepFirstSnoc(s[..i], s[i], key);
    KeysOfSnoc(s[..i], s[i], key);
  }

  lemma {:induction false} KeepFirstIsSubsequence<T, K>(s: seq<T>, key: T -> K)
    ensures IsSubsequence(KeepFirst(s, key), s)
    decreases |s|
  {
    if s != [] {
      var r := KeepFirst(s, key);
      KeepFirstIsSubsequence(s[..|s| - 1], key);
      if key(s[|s| - 1]) !in KeysOf(s[..|s| - 1], key) {
        assert r == KeepFirst(s[..|s| - 1], key) + [s[|s| - 1]];
        assert r[..|r| - 1] == KeepFirst(s[..|s| - 1], key);
      } else {
        assert r == KeepFirst(s[..|s| - 1], key);
      }
    }
  }

  /** Every element whose key does not occur earlier in `s` is kept. */
  lemma {:induction false} KeepFirstKeepsFirstOccurrences<T, K>(s: seq<T>, key: T -> K, i: int)
    requires 0 <= i < |s| && key(s[i]) !in KeysOf(s[..i], key)
    ensures s[i] in KeepFirst(s, key)
    decreases |s|
  {
    var init, x := s[..|s| - 1], s[|s| - 1];
    assert s == init + [x];
    KeepFirstSnoc(init, x, key);
    if i < |init| {
      assert s[..i] == init[..i];
      KeepFirstKeepsFirstOccurrences(init, key, i);
    } else {
      assert s[..i] == init;
    }
  }

  /** Every kept element is the first element of its key in `s`. */
  lemma {:induction false} KeepFirstOnlyFirstOccurrences<T, K>(s: seq<T>, key: T -> K, y: T)
    requires y in KeepFirst(s, key)
    ensures exists i :: 0 <= i < |s| && s[i] == y && key(y) !in KeysOf(s[..i], key)
    decreases |s|
  {
    var init, x := s[..|s| - 1], s[|s| - 1];
    assert s == init + [x];
    KeepFirstSnoc(init, x, key);
    if y in KeepFirst(init, key) {
      KeepFirstOnlyFirstOccurrences(init, key, y);
      var i :| 0 <= i < |init| && init[i] == y && key(y) !in KeysOf(init[..i], key);
      assert s[..i] == init[..i];
    } else {
      assert s[..|init|] == init;
      assert s[|init|] == y;
    }
  }

  lemma {:induction false} KeepFirstConcat<T, K>(a: seq<T>, b: seq<T>, key: T -> K)
    requires KeysOf(a, key) !! KeysOf(b, key)
    ensures KeepFirst(a + b, key) == KeepFirst(a, key) + KeepFirst(b, key)
    decreases |b|
  {
    if b == [] {
      assert a + b == a;
    } else {
      var b', y := b[..|b| - 1], b[|b| - 1];
      assert b == b' + [y];
      assert a + b == (a + b') + [y];
      KeysOfSnoc(b', y, key);
      KeepFirstConcat(a, b', key);
      KeepFirstSnoc(a + b', y, key);
      KeepFirstSnoc(b', y, key);
      KeysOfConcat(a, b', key);
    }
  }
}
