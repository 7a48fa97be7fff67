/** Types and small facts shared by every component of the model. */
module Common {

  datatype Option<+T> = None | Some(value: T)

  /** No element occurs twice. */
  ghost predicate Distinct<T>(s: seq<T>) {
    forall i, j :: 0 <= i < j < |s| ==> s[i] != s[j]
  }

  /** The elements of a sequence, as a set. */
  ghost function Elements<T>(s: seq<T>): set<T> {
    set x | x in s
  }

  lemma SubsetCardinality<T>(a: set<T>, b: set<T>)
    requires a <= b
    ensures |a| <= |b|
    ensures |a| == |b| ==> a == b
  {
    assert b == a + (b - a);
    if |a| == |b| {
      assert |b - a| == 0;
    }
  }

  /** The `n` numbers from `lo` on. */
  ghost function Interval(lo: nat, n: nat): (s: set<nat>)
    ensures |s| == n
    ensures forall x :: x in s <==> lo <= x < lo + n
  {
    if n == 0 then {} else Interval(lo, n - 1) + {lo + n - 1}
  }

  lemma Associative<T>(a: seq<T>, b: seq<T>, c: seq<T>)
    ensures a + b + c == a + (b + c)
  {}

  // ---------------------------------------------------------------- sums over a map

  /** `f` of every value of `m`, added up, as the size of a set with `f(m[k])` elements for every `k`. */
  ghost function Sum<K(!new), P(!new)>(m: map<K, P>, f: P -> nat): nat {
    |Units(m, f)|
  }

  ghost function Units<K(!new), P(!new)>(m: map<K, P>, f: P -> nat): (s: set<(K, int)>)
    ensures forall u :: u in s <==> u.0 in m && 0 <= u.1 < f(m[u.0])
  {
    assert forall u: (K, int) :: u == (u.0, u.1);
    set k, i | k in m && 0 <= i < f(m[k]) :: (k, i)
  }

  ghost function UnitsOf<K(!new)>(k: K, n: nat): (s: set<(K, int)>)
    ensures |s| == n && forall u :: u in s <==> u.0 == k && 0 <= u.1 < n
  {
    if n == 0 then {} else UnitsOf(k, n - 1) + {(k, n - 1)}
  }

  lemma SumSplit<K(!new), P(!new)>(m: map<K, P>, k: K, f: P -> nat)
    requires k in m
    ensures Sum(m, f) == Sum(m - {k}, f) + f(m[k])
  {
    assert Units(m, f) == Units(m - {k}, f) + UnitsOf(k, f(m[k]));
    assert Units(m - {k}, f) !! UnitsOf(k, f(m[k]));
  }

  /** Changing one value changes the sum by the difference. */
  lemma SumAfter<K(!new), P(!new)>(m: map<K, P>, k: K, p: P, f: P -> nat)
    requires k in m
    ensures Sum(m[k := p], f) == Sum(m, f) + f(p) - f(m[k])
  {
    SumSplit(m, k, f);
    SumSplit(m[k := p], k, f);
    assert m[k := p] - {k} == m - {k};
  }

  lemma SumAtLeast<K(!new), P(!new)>(m: map<K, P>, k: K, f: P -> nat)
    requires k in m
    ensures Sum(m, f) >= f(m[k])
  {
    assert UnitsOf(k, f(m[k])) <= Units(m, f);
    SubsetCardinality(UnitsOf(k, f(m[k])), Units(m, f));
  }

  lemma SumIsZero<K(!new), P(!new)>(m: map<K, P>, f: P -> nat)
    ensures Sum(m, f) == 0 <==> forall k :: k in m ==> f(m[k]) == 0
  {
    if forall k :: k in m ==> f(m[k]) == 0 {
      assert Units(m, f) == {};
    } else {
      var k :| k in m && f(m[k]) > 0;
      SumAtLeast(m, k, f);
    }
  }
}
