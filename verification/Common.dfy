/** Shared value types: optional values, results with errors, bytes and digests. */
module Common {
  datatype Option<+T> = None | Some(value: T)

  datatype Result<+T, +E> = Ok(value: T) | Err(error: E)

  newtype byte = b: int | 0 <= b < 0x100

  type Bytes = seq<byte>

  type Digest = string

  /** SHA-256 is an arbitrary but fixed function: nothing about it is known. */
  const Sha256: Bytes -> Digest

  /** Assumed only where equality of contents is concluded from equality of digests. */
  ghost predicate CollisionFree() {
    forall a, b :: Sha256(a) == Sha256(b) ==> a == b
  }

  function Min(a: int, b: int): int {
    if a <= b then a else b
  }

  function Max(a: int, b: int): int {
    if a >= b then a else b
  }
}

/** Sums of an integer weight over the entries of a finite map. */
module Sums {
  ghost function Sum<K(!new), V(!new)>(m: map<K, V>, weight: V -> int): int
  {
    if m == map[] then 0
    else
      var k :| k in m;
      weight(m[k]) + Sum(m - {k}, weight)
  }

  lemma {:induction false} Without<K(!new), V(!new)>(m: map<K, V>, weight: V -> int, k: K)
    requires k in m
    ensures Sum(m, weight) == weight(m[k]) + Sum(m - {k}, weight)
    decreases |m|
  {
    var c :| c in m && Sum(m, weight) == weight(m[c]) + Sum(m - {c}, weight);
    if c != k {
      Without(m - {c}, weight, k);
      Without(m - {k}, weight, c);
      assert m - {c} - {k} == m - {k} - {c};
    }
  }

  lemma Update<K(!new), V(!new)>(m: map<K, V>, weight: V -> int, k: K, v: V)
    ensures Sum(m[k := v], weight) == weight(v) + Sum(m - {k}, weight)
    ensures k in m ==> Sum(m[k := v], weight) == Sum(m, weight) - weight(m[k]) + weight(v)
    ensures k !in m ==> Sum(m[k := v], weight) == Sum(m, weight) + weight(v)
  {
    Without(m[k := v], weight, k);
    assert m[k := v] - {k} == m - {k};
    if k in m {
      Without(m, weight, k);
    } else {
      assert m - {k} == m;
    }
  }

  lemma {:induction false} NonNegative<K(!new), V(!new)>(m: map<K, V>, weight: V -> int)
    requires forall k :: k in m ==> weight(m[k]) >= 0
    ensures Sum(m, weight) >= 0
    ensures forall k :: k in m ==> weight(m[k]) <= Sum(m, weight)
    decreases |m|
  {
    if m != map[] {
      forall k | k in m
        ensures 0 <= weight(m[k]) <= Sum(m, weight)
      {
        Without(m, weight, k);
        NonNegative(m - {k}, weight);
      }
      var c :| c in m;
      assert weight(m[c]) <= Sum(m, weight);
    }
  }

  /** Entrywise comparison of two weightings, the second map having at least the keys of the first. */
  lemma {:induction false} Compare<K(!new), V(!new), W(!new)>(
      m: map<K, V>, f: V -> int, n: map<K, W>, g: W -> int)
    requires m.Keys <= n.Keys
    requires forall k :: k in m ==> f(m[k]) <= g(n[k])
    requires forall k :: k in n && k !in m ==> g(n[k]) >= 0
    ensures Sum(m, f) <= Sum(n, g)
    decreases |n|
  {
    if m == map[] {
      NonNegative(n, g);
    } else {
      var c :| c in m;
      Without(m, f, c);
      Without(n, g, c);
      Compare(m - {c}, f, n - {c}, g);
    }
  }
}
