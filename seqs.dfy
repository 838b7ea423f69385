// The scans the stores are built from: find the first record whose key
// equals a value, keep (or drop), in order, every record whose key equals a
// value, and rewrite every record whose key equals a value.
module Seqs {
  import opened Common

  /** Index of the first element whose key is `k`. */
  function FirstIndexOf<T, K(==)>(s: seq<T>, key: T -> K, k: K): (r: Option<nat>)
    ensures r.Some? ==> r.value < |s| && key(s[r.value]) == k
    ensures r.Some? ==> forall j :: 0 <= j < r.value ==> key(s[j]) != k
    ensures r.None? ==> forall j :: 0 <= j < |s| ==> key(s[j]) != k
  {
    if s == [] then None
    else if key(s[0]) == k then Some(0)
    else
      match FirstIndexOf(s[1..], key, k)
      case None => None
      case Some(i) => Some(i + 1)
  }

  /** The first element whose key is `k`, as a Go loop that returns on the first hit finds it. */
  function FirstOf<T(!new), K(==)>(s: seq<T>, key: T -> K, k: K): (r: Option<T>)
    ensures r.Some? ==> r.value in s && key(r.value) == k
    ensures r.None? <==> forall x :: x in s ==> key(x) != k
  {
    match FirstIndexOf(s, key, k)
    case None => None
    case Some(i) => Some(s[i])
  }

  /** Every element whose key is `k`, in the order they occur. */
  function WithKey<T(!new), K(==)>(s: seq<T>, key: T -> K, k: K): (r: seq<T>)
    ensures |r| <= |s|
    ensures forall x :: x in r <==> x in s && key(x) == k
  {
    if s == [] then []
    else WithKey(s[..|s| - 1], key, k) + (if key(s[|s| - 1]) == k then [s[|s| - 1]] else [])
  }

  /** Selection distributes over concatenation: it keeps the elements in their order. */
  lemma {:induction false} WithKeyAppend<T(!new), K>(a: seq<T>, b: seq<T>, key: T -> K, k: K)
    ensures WithKey(a + b, key, k) == WithKey(a, key, k) + WithKey(b, key, k)
    decreases |b|
  {
    if b != [] {
      var b' := b[..|b| - 1];
      assert (a + b)[..|a + b| - 1] == a + b';
      WithKeyAppend(a, b', key, k);
    } else {
      assert a + b == a;
    }
  }

  /** Go's `for _, x := range s { if key(x) == k { return &x, nil } }`. */
  method FindFirst<T, K(==)>(s: seq<T>, key: T -> K, k: K) returns (r: Option<nat>)
    ensures r == FirstIndexOf(s, key, k)
  {
    var i := 0;
    while i < |s|
      invariant 0 <= i <= |s|
      invariant forall j :: 0 <= j < i ==> key(s[j]) != k
    {
      if key(s[i]) == k {
        return Some(i);
      }
      i := i + 1;
    }
    return None;
  }

  /** Go's `for _, x := range s { if key(x) == k { result = append(result, x) } }`. */
  method CollectWithKey<T(!new), K(==)>(s: seq<T>, key: T -> K, k: K) returns (r: seq<T>)
    ensures r == WithKey(s, key, k)
  {
    r := [];
    for i := 0 to |s|
      invariant r == WithKey(s[..i], key, k)
    {
      assert s[..i + 1][..i] == s[..i];
      if key(s[i]) == k {
        r := r + [s[i]];
      }
    }
    assert s[..|s|] == s;
  }

  /** Every element whose key is not `k`, in the order they occur: what `DELETE ... WHERE key = k` leaves. */
  function WithoutKey<T(!new), K(==)>(s: seq<T>, key: T -> K, k: K): (r: seq<T>)
    ensures |r| <= |s|
    ensures forall x :: x in r <==> x in s && key(x) != k
  {
    if s == [] then []
    else WithoutKey(s[..|s| - 1], key, k) + (if key(s[|s| - 1]) != k then [s[|s| - 1]] else [])
  }

  /** Deleting a key no element has keeps every element in its place. */
  lemma {:induction false} WithoutAbsentKey<T(!new), K>(s: seq<T>, key: T -> K, k: K)
    requires forall x :: x in s ==> key(x) != k
    ensures WithoutKey(s, key, k) == s
  {
    if s != [] {
      WithoutAbsentKey(s[..|s| - 1], key, k);
      assert s == s[..|s| - 1] + [s[|s| - 1]];
    }
  }

  /** The rows loop of a delete: keep every element whose key is not `k`. */
  method DeleteWhere<T(!new), K(==)>(s: seq<T>, key: T -> K, k: K) returns (r: seq<T>)
    ensures r == WithoutKey(s, key, k)
  {
    r := [];
    for i := 0 to |s|
      invariant r == WithoutKey(s[..i], key, k)
    {
      assert s[..i + 1][..i] == s[..i];
      if key(s[i]) != k {
        r := r + [s[i]];
      }
    }
    assert s[..|s|] == s;
  }

  /** `UPDATE ... SET ... WHERE key = k`: every element with the key is rewritten by `f`, the others stay. */
  method UpdateWhere<T, K(==)>(s: seq<T>, key: T -> K, k: K, f: T -> T) returns (r: seq<T>)
    ensures |r| == |s|
    ensures forall i :: 0 <= i < |s| ==> r[i] == if key(s[i]) == k then f(s[i]) else s[i]
  {
    r := s;
    for i := 0 to |s|
      invariant |r| == |s|
      invariant forall j :: 0 <= j < i ==> r[j] == if key(s[j]) == k then f(s[j]) else s[j]
      invariant forall j :: i <= j < |s| ==> r[j] == s[j]
    {
      if key(s[i]) == k {
        r := r[i := f(s[i])];
      }
    }
  }
}
