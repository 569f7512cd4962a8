/** Facts about finite collections that several parts of the project share. */
module Collections {

  datatype Option<+T> = None | Some(value: T)

  datatype Result<+T, +E> = Ok(value: T) | Error(error: E)

  function Min(a: nat, b: nat): nat { if a < b then a else b }

  ghost predicate Distinct<T>(s: seq<T>) {
    forall i, j | 0 <= i < j < |s| :: s[i] != s[j]
  }

  ghost function Elements<T>(s: seq<T>): set<T> { set x | x in s }

  lemma {:induction false} DistinctCardinality<T>(s: seq<T>)
    requires Distinct(s)
    ensures |Elements(s)| == |s|
  {
    if s == [] {
      assert Elements(s) == {};
    } else {
      var front, last := s[..|s| - 1], s[|s| - 1];
      DistinctCardinality(front);
      assert last !in front;
      assert s == front + [last];
      assert Elements(s) == Elements(front) + {last};
    }
  }

  /** The key a fold over a map visits first; which one it is does not matter. */
  ghost function Pick<K, V>(m: map<K, V>): (k: K)
    requires m.Keys != {}
    ensures k in m
  {
    var k :| k in m.Keys;
    k
  }

  ghost function MapSum<K, V>(m: map<K, V>, weight: V -> int): int
    decreases |m|
  {
    if m.Keys == {} then 0
    else
      var k := Pick(m);
      assert |m - {k}| < |m| by { RemoveShrinks(m, k); }
      weight(m[k]) + MapSum(m - {k}, weight)
  }

  lemma RemoveShrinks<K, V>(m: map<K, V>, k: K)
    requires k in m
    ensures |m - {k}| == |m| - 1
  {
    assert (m - {k}).Keys == m.Keys - {k};
    assert |m.Keys - {k}| == |m.Keys| - 1;
    assert |m| == |m.Keys| && |m - {k}| == |(m - {k}).Keys|;
  }

  lemma RemoveCommutes<K, V>(m: map<K, V>, c: K, k: K)
    requires c in m && k in m && c != k
    ensures m - {c} - {k} == m - {k} - {c}
    ensures (m - {c})[k] == m[k] && (m - {k})[c] == m[c]
  {
  }

  lemma {:induction false} MapSumRemove<K, V>(m: map<K, V>, k: K, weight: V -> int)
    requires k in m
    ensures MapSum(m, weight) == weight(m[k]) + MapSum(m - {k}, weight)
    decreases |m|
  {
    var c := Pick(m);
    if c != k {
      RemoveShrinks(m, c);
      RemoveShrinks(m, k);
      RemoveCommutes(m, c, k);
      MapSumRemove(m - {c}, k, weight);
      MapSumRemove(m - {k}, c, weight);
    }
  }

  lemma MapSumInsert<K, V>(m: map<K, V>, k: K, v: V, weight: V -> int)
    requires k !in m
    ensures MapSum(m[k := v], weight) == MapSum(m, weight) + weight(v)
  {
    MapSumRemove(m[k := v], k, weight);
    assert m[k := v] - {k} == m;
  }

  lemma MapSumReplace<K, V>(m: map<K, V>, k: K, v: V, weight: V -> int)
    requires k in m
    ensures MapSum(m[k := v], weight) == MapSum(m, weight) - weight(m[k]) + weight(v)
  {
    MapSumRemove(m[k := v], k, weight);
    MapSumRemove(m, k, weight);
    assert m[k := v] - {k} == m - {k};
  }

  lemma {:induction false} MapSumNonNegative<K, V>(m: map<K, V>, weight: V -> int)
    requires forall v :: weight(v) >= 0
    ensures MapSum(m, weight) >= 0
    decreases |m|
  {
    if m.Keys != {} {
      RemoveShrinks(m, Pick(m));
      MapSumNonNegative(m - {Pick(m)}, weight);
    }
  }

  /** Weights that agree on a map's values give the same sum. */
  lemma {:induction false} MapSumSame<K, V>(m: map<K, V>, v: V -> int, w: V -> int)
    requires forall k | k in m :: v(m[k]) == w(m[k])
    ensures MapSum(m, v) == MapSum(m, w)
    decreases |m|
  {
    if m.Keys != {} {
      RemoveShrinks(m, Pick(m));
      MapSumSame(m - {Pick(m)}, v, w);
    }
  }

  /** Weights that agree except at one key. */
  lemma MapSumDiffers<K, V>(m: map<K, V>, k: K, v: V -> int, w: V -> int)
    requires k in m && forall j | j in m && j != k :: v(m[j]) == w(m[j])
    ensures MapSum(m, v) - v(m[k]) == MapSum(m, w) - w(m[k])
  {
    MapSumRemove(m, k, v);
    MapSumRemove(m, k, w);
    MapSumSame(m - {k}, v, w);
  }

  lemma Overwritten<K, V>(m: map<K, V>, k: K, v: V, w: V)
    ensures m[k := v][k := w] == m[k := w]
    ensures k !in m ==> m[k := v] - {k} == m
  {
  }

  /** No finite set of names exhausts the strings, so a fresh identifier always exists. */
  lemma {:induction false} FreshName(used: set<string>) returns (name: string)
    ensures forall u | u in used :: |u| < |name|
    ensures name !in used
  {
    if used == {} {
      name := "0";
    } else {
      var u :| u in used;
      var shorter := FreshName(used - {u});
      name := if |u| < |shorter| then shorter else u + "0";
    }
  }

  lemma {:induction false} FreshNumber(used: set<nat>) returns (n: nat)
    ensures forall u | u in used :: u < n
    ensures n !in used
  {
    if used == {} {
      n := 0;
    } else {
      var u :| u in used;
      var m := FreshNumber(used - {u});
      n := if u < m then m else u + 1;
      assert forall v | v in used :: v == u || v in used - {u};
    }
  }
}
