/**
 * Python dictionaries remember insertion order, and the self-role code
 * depends on it (panel rendering and first-match lookup). An ordered map is
 * a sequence of key/value pairs; assigning to a key already present keeps
 * its position, a new key goes to the end, and `pop` closes the gap.
 */
module OrderedMap {
  import opened Wrappers

  type OMap<K, V> = seq<(K, V)>

  /** The keys in iteration order (`list(d)`). */
  function Keys<K, V>(m: OMap<K, V>): seq<K>
  {
    seq(|m|, i requires 0 <= i < |m| => m[i].0)
  }

  /** No key occurs twice: what makes the sequence a dictionary. */
  ghost predicate UniqueKeys<K, V>(m: OMap<K, V>)
  {
    forall i, j :: 0 <= i < j < |m| ==> m[i].0 != m[j].0
  }

  /** `d.get(k)`. */
  function Get<K(==), V>(m: OMap<K, V>, k: K): (r: Option<V>)
    ensures r.None? <==> k !in Keys(m)
    ensures r.Some? ==> (k, r.value) in m
  {
    if |m| == 0 then None
    else if m[0].0 == k then assert Keys(m)[0] == k; Some(m[0].1)
    else
      assert Keys(m) == [m[0].0] + Keys(m[1..]);
      var r := Get(m[1..], k);
      assert r.Some? ==> (k, r.value) in m[1..];
      r
  }

  /** In a dictionary, looking up the key at a position finds the value at that position. */
  lemma GetAt<K, V>(m: OMap<K, V>, i: nat)
    requires UniqueKeys(m) && i < |m|
    ensures Get(m, m[i].0) == Some(m[i].1)
  {
    var r := Get(m, m[i].0);
    assert Keys(m)[i] == m[i].0;
    var j :| 0 <= j < |m| && m[j] == (m[i].0, r.value);
  }

  /** `d[k] = v`. */
  function Put<K(==,!new), V>(m: OMap<K, V>, k: K, v: V): (r: OMap<K, V>)
    ensures k in Keys(m) ==> Keys(r) == Keys(m)
    ensures k !in Keys(m) ==> r == m + [(k, v)]
    ensures forall i :: 0 <= i < |m| && m[i].0 != k ==> r[i] == m[i]
    ensures forall x :: x in r ==> x in m || x == (k, v)
    ensures Get(r, k) == Some(v)
    ensures forall k' :: k' != k ==> Get(r, k') == Get(m, k')
    decreases |m|
  {
    if |m| == 0 then [(k, v)]
    else if m[0].0 == k then
      var r := [(k, v)] + m[1..];
      assert Keys(m)[0] == k && r[1..] == m[1..];
      r
    else
      var rest := Put(m[1..], k, v);
      PutConsKeys(m, k, v, rest);
      PutConsPairs(m, k, v, rest);
      PutConsGet(m, k, v, rest);
      [m[0]] + rest
  }

  /** The keys of `Put` past a first pair with another key. */
  lemma PutConsKeys<K, V>(m: OMap<K, V>, k: K, v: V, rest: OMap<K, V>)
    requires |m| > 0 && m[0].0 != k
    requires k in Keys(m[1..]) ==> Keys(rest) == Keys(m[1..])
    requires k !in Keys(m[1..]) ==> rest == m[1..] + [(k, v)]
    ensures k in Keys(m) ==> Keys([m[0]] + rest) == Keys(m)
    ensures k !in Keys(m) ==> [m[0]] + rest == m + [(k, v)]
  {
    assert Keys(m) == [m[0].0] + Keys(m[1..]);
    assert Keys([m[0]] + rest) == [m[0].0] + Keys(rest);
    if k !in Keys(m) {
      assert m == [m[0]] + m[1..];
    }
  }

  /** The pairs of `Put` past a first pair with another key. */
  lemma PutConsPairs<K, V>(m: OMap<K, V>, k: K, v: V, rest: OMap<K, V>)
    requires |m| > 0 && m[0].0 != k && |rest| >= |m| - 1
    requires forall i :: 0 <= i < |m[1..]| && m[1..][i].0 != k ==> rest[i] == m[1..][i]
    requires forall x :: x in rest ==> x in m[1..] || x == (k, v)
    ensures forall i :: 0 <= i < |m| && m[i].0 != k ==> ([m[0]] + rest)[i] == m[i]
    ensures forall x :: x in [m[0]] + rest ==> x in m || x == (k, v)
  {
    forall i | 0 <= i < |m| && m[i].0 != k ensures ([m[0]] + rest)[i] == m[i] {
      if i > 0 {
        assert m[1..][i - 1] == m[i];
      }
    }
  }

  /** Lookups in `Put` past a first pair with another key. */
  lemma PutConsGet<K, V>(m: OMap<K, V>, k: K, v: V, rest: OMap<K, V>)
    requires |m| > 0 && m[0].0 != k
    requires Get(rest, k) == Some(v)
    requires forall k' :: k' != k ==> Get(rest, k') == Get(m[1..], k')
    ensures Get([m[0]] + rest, k) == Some(v)
    ensures forall k' :: k' != k ==> Get([m[0]] + rest, k') == Get(m, k')
  {
    assert ([m[0]] + rest)[0] == m[0] && ([m[0]] + rest)[1..] == rest;
  }

  /** Assigning to a key keeps the keys unique. */
  lemma PutKeepsUnique<K(!new), V>(m: OMap<K, V>, k: K, v: V)
    requires UniqueKeys(m)
    ensures UniqueKeys(Put(m, k, v))
  {
    var r := Put(m, k, v);
    if k in Keys(m) {
      forall i, j | 0 <= i < j < |r| ensures r[i].0 != r[j].0 {
        assert Keys(r)[i] == Keys(m)[i] && Keys(r)[j] == Keys(m)[j];
      }
    } else {
      forall j | 0 <= j < |m| ensures m[j].0 != k {
        assert Keys(m)[j] == m[j].0;
      }
    }
  }

  /** A pair whose key is new in front of a dictionary gives a dictionary. */
  lemma UniqueCons<K, V>(x: (K, V), m: OMap<K, V>)
    requires UniqueKeys(m) && forall j :: 0 <= j < |m| ==> m[j].0 != x.0
    ensures UniqueKeys([x] + m)
  {
    var r := [x] + m;
    forall i, j | 0 <= i < j < |r| ensures r[i].0 != r[j].0 {
      assert r[j] == m[j - 1];
      if i > 0 {
        assert r[i] == m[i - 1];
      }
    }
  }

  /** `d.pop(k, None)`. */
  function Remove<K(==,!new), V>(m: OMap<K, V>, k: K): (r: OMap<K, V>)
    ensures k !in Keys(r)
    ensures k !in Keys(m) ==> r == m
    ensures forall k' :: k' != k ==> Get(r, k') == Get(m, k')
    ensures forall x :: x in r ==> x in m
    ensures forall q :: q in Keys(r) ==> q in Keys(m)
    ensures UniqueKeys(m) ==> UniqueKeys(r)
    ensures UniqueKeys(m) && k in Keys(m) ==> |r| == |m| - 1
  {
    if |m| == 0 then []
    else
      assert Keys(m) == [m[0].0] + Keys(m[1..]);
      var rest := Remove(m[1..], k);
      if m[0].0 == k then
        assert UniqueKeys(m) ==> k !in Keys(m[1..]);
        rest
      else
        var r := [m[0]] + rest;
        assert Keys(r) == [m[0].0] + Keys(rest);
        assert UniqueKeys(m) ==> UniqueKeys(r) by {
          if UniqueKeys(m) {
            assert m[0].0 !in Keys(m[1..]);
            assert m[0].0 !in Keys(rest);
            forall j | 0 <= j < |rest| ensures rest[j].0 != m[0].0 {
              assert Keys(rest)[j] == rest[j].0;
            }
          }
        }
        r
  }

  /** Removing works piecewise, so the pairs that stay keep their relative order. */
  lemma {:induction false} RemoveAppend<K(!new), V>(a: OMap<K, V>, b: OMap<K, V>, k: K)
    ensures Remove(a + b, k) == Remove(a, k) + Remove(b, k)
    decreases |a|
  {
    if |a| == 0 {
      assert a + b == b;
    } else {
      assert (a + b)[1..] == a[1..] + b;
      RemoveAppend(a[1..], b, k);
    }
  }

  /** Popping a key just assigned gives what popping it would have given before. */
  lemma {:induction false} RemoveOfPut<K(!new), V>(m: OMap<K, V>, k: K, v: V)
    ensures Remove(Put(m, k, v), k) == Remove(m, k)
    decreases |m|
  {
    if |m| > 0 && m[0].0 != k {
      RemoveOfPut(m[1..], k, v);
      assert ([m[0]] + Put(m[1..], k, v))[1..] == Put(m[1..], k, v);
    } else if |m| > 0 {
      assert ([(k, v)] + m[1..])[1..] == m[1..];
    }
  }
}
