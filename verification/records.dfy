/**
 The list operations that the stores and pages apply to their in-memory
 collections: keep-if-key-differs (`filter`), replace-where-key-matches (`map`),
 first-match lookup (`find`), match counting (`filter(...).length`) and the
 "maximum numeric id plus one" rule for fresh ids. Each is generic in the record
 type and takes the record's key as a function, so one definition serves
 components, platforms, projects and plain id lists alike.
 */
module Records {

  datatype Option<T> = None | Some(value: T)

  /** No value occurs twice in s. */
  predicate NoDuplicates<T(==)>(s: seq<T>) {
    forall i, j :: 0 <= i < j < |s| ==> s[i] != s[j]
  }

  /** The keys of xs, in order (`xs.map(key)`). */
  function Keys<T, K>(xs: seq<T>, key: T -> K): (ks: seq<K>)
    ensures |ks| == |xs|
    ensures forall i :: 0 <= i < |xs| ==> ks[i] == key(xs[i])
  {
    if xs == [] then [] else [key(xs[0])] + Keys(xs[1..], key)
  }

  lemma KeysAppend<T, K>(a: seq<T>, b: seq<T>, key: T -> K)
    ensures Keys(a + b, key) == Keys(a, key) + Keys(b, key)
  {
  }

  /**
   The elements of xs whose key is not k, in their original order
   (`xs.filter(x => key(x) !== k)`). Every element with key k goes, every
   other element stays as often as it was there, and if no element has key k
   nothing changes.
   */
  function FilterOut<T(!new), K(==)>(xs: seq<T>, key: T -> K, k: K): (r: seq<T>)
    ensures |r| <= |xs|
    ensures forall y :: multiset(r)[y] == if key(y) == k then 0 else multiset(xs)[y]
    ensures forall i :: 0 <= i < |r| ==> key(r[i]) != k
    ensures (forall i :: 0 <= i < |xs| ==> key(xs[i]) != k) ==> r == xs
  {
    if xs == [] then []
    else
      assert xs == [xs[0]] + xs[1..];
      if key(xs[0]) == k then FilterOut(xs[1..], key, k)
      else [xs[0]] + FilterOut(xs[1..], key, k)
  }

  /** Filtering distributes over concatenation, so survivors keep their relative order. */
  lemma {:induction false} FilterOutAppend<T(!new), K>(a: seq<T>, b: seq<T>, key: T -> K, k: K)
    ensures FilterOut(a + b, key, k) == FilterOut(a, key, k) + FilterOut(b, key, k)
  {
    if a == [] {
      assert a + b == b;
    } else {
      assert (a + b)[0] == a[0];
      assert (a + b)[1..] == a[1..] + b;
      FilterOutAppend(a[1..], b, key, k);
    }
  }

  /** A list with a head has no repeats exactly when its tail has none and does not hold the head. */
  lemma NoDuplicatesCons<T>(x: T, s: seq<T>)
    ensures NoDuplicates([x] + s) <==> x !in s && NoDuplicates(s)
  {
    var l := [x] + s;
    if x !in s && NoDuplicates(s) {
      forall i, j | 0 <= i < j < |l| ensures l[i] != l[j] {
        assert l[j] == s[j - 1];
        if i > 0 { assert l[i] == s[i - 1]; }
      }
    }
    if NoDuplicates(l) {
      forall i, j | 0 <= i < j < |s| ensures s[i] != s[j] { assert s[i] == l[i + 1] && s[j] == l[j + 1]; }
      forall j | 0 <= j < |s| ensures s[j] != x { assert s[j] == l[j + 1] && x == l[0]; }
    }
  }

  /** Filtering a list without repeats leaves a list without repeats. */
  lemma {:induction false} FilterOutNoDuplicates<T(!new), K>(xs: seq<T>, key: T -> K, k: K)
    requires NoDuplicates(xs)
    ensures NoDuplicates(FilterOut(xs, key, k))
  {
    if xs != [] {
      var x, t := xs[0], xs[1..];
      assert xs == [x] + t;
      NoDuplicatesCons(x, t);
      FilterOutNoDuplicates(t, key, k);
      var rest := FilterOut(t, key, k);
      assert x !in rest by { assert multiset(t)[x] == 0; }
      if key(x) != k {
        NoDuplicatesCons(x, rest);
      }
    }
  }

  /**
   xs with every element whose key equals x's key replaced by x
   (`xs.map(y => key(y) === key(x) ? x : y)`): same length, other elements
   untouched and in place.
   */
  function ReplaceMatching<T, K(==)>(xs: seq<T>, key: T -> K, x: T): (r: seq<T>)
    ensures |r| == |xs|
    ensures forall i :: 0 <= i < |xs| && key(xs[i]) == key(x) ==> r[i] == x
    ensures forall i :: 0 <= i < |xs| && key(xs[i]) != key(x) ==> r[i] == xs[i]
  {
    if xs == [] then []
    else [if key(xs[0]) == key(x) then x else xs[0]] + ReplaceMatching(xs[1..], key, x)
  }

  /** Replacing by key leaves the sequence of keys as it was. */
  lemma ReplaceMatchingKeepsKeys<T, K>(xs: seq<T>, key: T -> K, x: T)
    ensures Keys(ReplaceMatching(xs, key, x), key) == Keys(xs, key)
  {
    var r := ReplaceMatching(xs, key, x);
    assert forall i :: 0 <= i < |xs| ==> key(r[i]) == key(xs[i]);
  }

  /**
   The first element of xs whose key is k, or None when there is none
   (`xs.find(y => key(y) === k)`).
   */
  function FindFirst<T, K(==)>(xs: seq<T>, key: T -> K, k: K): (r: Option<T>)
    ensures r.None? <==> forall i :: 0 <= i < |xs| ==> key(xs[i]) != k
    ensures r.Some? ==> exists i :: 0 <= i < |xs| && xs[i] == r.value && key(xs[i]) == k &&
                                  forall j :: 0 <= j < i ==> key(xs[j]) != k
  {
    if xs == [] then None
    else if key(xs[0]) == k then Some(xs[0])
    else
      var r := FindFirst(xs[1..], key, k);
      assert r.Some? ==> exists i :: 0 < i < |xs| && xs[i] == r.value && key(xs[i]) == k &&
                                     forall j :: 0 <= j < i ==> key(xs[j]) != k by {
        if r.Some? {
          var i :| 0 <= i < |xs[1..]| && xs[1..][i] == r.value && key(xs[1..][i]) == k &&
                   forall j :: 0 <= j < i ==> key(xs[1..][j]) != k;
          assert xs[i + 1] == r.value && key(xs[i + 1]) == k;
          forall j | 0 <= j < i + 1 ensures key(xs[j]) != k {
            if j > 0 { assert xs[j] == xs[1..][j - 1]; }
          }
        }
      }
      r
  }

  /** The first match is determined by its position: any element with key k and no earlier match is the one found. */
  lemma FindFirstAt<T, K>(xs: seq<T>, key: T -> K, k: K, i: nat)
    requires i < |xs| && key(xs[i]) == k
    requires forall j :: 0 <= j < i ==> key(xs[j]) != k
    ensures FindFirst(xs, key, k) == Some(xs[i])
  {
    var r := FindFirst(xs, key, k);
    var i' :| 0 <= i' < |xs| && xs[i'] == r.value && key(xs[i']) == k &&
              forall j :: 0 <= j < i' ==> key(xs[j]) != k;
    assert !(i < i') && !(i' < i);
  }

  /**
   The number of elements of xs whose key is k (`xs.filter(y => key(y) === k).length`):
   the multiplicity of k among the keys, and exactly what FilterOut drops.
   */
  function CountMatching<T(!new), K(==)>(xs: seq<T>, key: T -> K, k: K): (n: nat)
    ensures n == multiset(Keys(xs, key))[k]
    ensures n + |FilterOut(xs, key, k)| == |xs|
  {
    if xs == [] then 0
    else
      assert Keys(xs, key) == [key(xs[0])] + Keys(xs[1..], key);
      (if key(xs[0]) == k then 1 else 0) + CountMatching(xs[1..], key, k)
  }

  /** The largest key in a non-empty xs (`Math.max(...xs.map(key))`). */
  function MaxKey<T>(xs: seq<T>, key: T -> nat): (m: nat)
    requires |xs| > 0
    ensures forall i :: 0 <= i < |xs| ==> key(xs[i]) <= m
    ensures exists i :: 0 <= i < |xs| && key(xs[i]) == m
  {
    if |xs| == 1 then key(xs[0])
    else
      var m := MaxKey(xs[1..], key);
      assert forall i :: 1 <= i < |xs| ==> xs[i] == xs[1..][i - 1];
      if key(xs[0]) >= m then key(xs[0]) else m
  }

  /**
   The id a create handler gives a new record: one more than the largest
   existing id. It exceeds every existing id and is the least number that does.
   */
  function NextId<T>(xs: seq<T>, key: T -> nat): (n: nat)
    requires |xs| > 0
    ensures forall i :: 0 <= i < |xs| ==> key(xs[i]) < n
    ensures exists i :: 0 <= i < |xs| && key(xs[i]) == n - 1
  {
    MaxKey(xs, key) + 1
  }

  /** Appending a record under NextId keeps the keys free of repeats. */
  lemma {:induction false} AppendNextIdKeepsKeysUnique<T>(xs: seq<T>, key: T -> nat, x: T)
    requires |xs| > 0 && NoDuplicates(Keys(xs, key))
    requires key(x) == NextId(xs, key)
    ensures NoDuplicates(Keys(xs + [x], key))
  {
    KeysAppend(xs, [x], key);
    var ks := Keys(xs + [x], key);
    forall i, j | 0 <= i < j < |ks| ensures ks[i] != ks[j] {
      if j == |xs| { assert ks[i] == key(xs[i]) < key(x) == ks[j]; }
      else { assert ks[i] == Keys(xs, key)[i] && ks[j] == Keys(xs, key)[j]; }
    }
  }

  /** Removing by key keeps the keys free of repeats. */
  lemma {:induction false} FilterOutKeepsKeysUnique<T(!new), K>(xs: seq<T>, key: T -> K, k: K)
    requires NoDuplicates(Keys(xs, key))
    ensures NoDuplicates(Keys(FilterOut(xs, key, k), key))
  {
    if xs != [] {
      var x, t := xs[0], xs[1..];
      assert Keys(xs, key) == [key(x)] + Keys(t, key);
      NoDuplicatesCons(key(x), Keys(t, key));
      FilterOutKeepsKeysUnique(t, key, k);
      var rest := FilterOut(t, key, k);
      if key(x) != k {
        assert Keys([x] + rest, key) == [key(x)] + Keys(rest, key);
        assert key(x) !in Keys(rest, key) by {
          forall j | 0 <= j < |rest| ensures key(rest[j]) != key(x) {
            assert multiset(rest)[rest[j]] > 0;
            var m :| 0 <= m < |t| && t[m] == rest[j];
            assert key(rest[j]) == Keys(t, key)[m];
          }
        }
        NoDuplicatesCons(key(x), Keys(rest, key));
      }
    }
  }
}
