/**
 * Python's `dict` from int to int as the interpreter orders it: a sequence of
 * key/value pairs in insertion order. Assigning to a present key keeps its
 * position, assigning to a new key appends, `pop` removes the pair, and
 * `dict(pairs)` assigns the pairs one after another.
 */
module Dicts {
  import opened Wrappers

  type Dict = seq<(int, int)>

  /** `k in d.keys()` */
  predicate HasKey(d: Dict, k: int) {
    d != [] && (d[0].0 == k || HasKey(d[1..], k))
  }

  /** Every dict the program builds has pairwise distinct keys. */
  predicate DistinctKeys(d: Dict) {
    d == [] || (!HasKey(d[1..], d[0].0) && DistinctKeys(d[1..]))
  }

  /** `d[k]` if `k in d` else `None` */
  function Get(d: Dict, k: int): (r: Option<int>)
    ensures r.None? <==> !HasKey(d, k)
  {
    if d == [] then None
    else if d[0].0 == k then Some(d[0].1)
    else Get(d[1..], k)
  }

  /** `d[k] = v` */
  function Set(d: Dict, k: int, v: int): (r: Dict)
    ensures |r| == if HasKey(d, k) then |d| else |d| + 1
    ensures forall k' :: HasKey(r, k') <==> HasKey(d, k') || k' == k
    ensures DistinctKeys(d) ==> DistinctKeys(r)
    ensures Get(r, k) == Some(v)
    ensures forall k' :: k' != k ==> Get(r, k') == Get(d, k')
  {
    if d == [] then [(k, v)]
    else if d[0].0 == k then [(k, v)] + d[1..]
    else [d[0]] + Set(d[1..], k, v)
  }

  /** The pairs of `d` whose key is not in `ks`, in their order. */
  function Without(d: Dict, ks: set<int>): (r: Dict)
    ensures |r| <= |d|
    ensures forall k :: HasKey(r, k) <==> HasKey(d, k) && k !in ks
    ensures DistinctKeys(d) ==> DistinctKeys(r)
    ensures forall k :: k !in ks ==> Get(r, k) == Get(d, k)
  {
    if d == [] then []
    else if d[0].0 in ks then Without(d[1..], ks)
    else [d[0]] + Without(d[1..], ks)
  }

  /** `d.pop(k)`, keeping only the new dict */
  function Remove(d: Dict, k: int): (r: Dict)
    ensures forall k' :: HasKey(r, k') <==> HasKey(d, k') && k' != k
    ensures forall k' :: k' != k ==> Get(r, k') == Get(d, k')
    ensures DistinctKeys(d) ==> DistinctKeys(r)
  {
    Without(d, {k})
  }

  /** `dict(ps)`: the pairs assigned in order into an empty dict. */
  function FromPairs(ps: seq<(int, int)>): (r: Dict)
    ensures DistinctKeys(r)
    ensures forall k :: HasKey(r, k) <==> HasKey(ps, k)
  {
    if ps == [] then []
    else
      var n := |ps| - 1;
      HasKeySnoc(ps[..n], ps[n]);
      assert ps[..n] + [ps[n]] == ps;
      Set(FromPairs(ps[..n]), ps[n].0, ps[n].1)
  }

  lemma {:induction false} HasKeySnoc(d: Dict, e: (int, int))
    ensures forall k :: HasKey(d + [e], k) <==> HasKey(d, k) || e.0 == k
  {
    if d != [] {
      assert (d + [e])[1..] == d[1..] + [e];
      HasKeySnoc(d[1..], e);
    }
  }

  lemma {:induction false} HasKeyAt(d: Dict, i: int)
    requires 0 <= i < |d|
    ensures HasKey(d, d[i].0)
  {
    if i > 0 {
      HasKeyAt(d[1..], i - 1);
    }
  }

  /** `k in d.keys()` holds iff some pair of `d` has key `k`. */
  lemma {:induction false} HasKeyIff(d: Dict, k: int)
    ensures HasKey(d, k) <==> exists i :: 0 <= i < |d| && d[i].0 == k
  {
    if d != [] {
      HasKeyIff(d[1..], k);
      if HasKey(d[1..], k) {
        var i :| 0 <= i < |d| - 1 && d[1..][i].0 == k;
        assert d[i + 1].0 == k;
      }
      if exists i :: 0 <= i < |d| && d[i].0 == k {
        var i :| 0 <= i < |d| && d[i].0 == k;
        if i > 0 {
          assert d[1..][i - 1].0 == k;
        }
      }
    }
  }

  /** In a dict with distinct keys, each stored pair is what a lookup of its key returns. */
  lemma {:induction false} GetAt(d: Dict, i: int)
    requires DistinctKeys(d) && 0 <= i < |d|
    ensures Get(d, d[i].0) == Some(d[i].1)
  {
    if i > 0 {
      GetAt(d[1..], i - 1);
      HasKeyAt(d[1..], i - 1);
    }
  }

  /** In a dict with distinct keys, a lookup returns the value stored with its key. */
  lemma GetFindsPair(d: Dict, k: int)
    ensures DistinctKeys(d) ==> forall i :: 0 <= i < |d| && d[i].0 == k ==> Get(d, k) == Some(d[i].1)
  {
    if DistinctKeys(d) {
      forall i | 0 <= i < |d| && d[i].0 == k {
        GetAt(d, i);
      }
    }
  }

  /** Assigning to a present key keeps every pair in its position; a new key goes last. */
  lemma {:induction false} SetInPlace(d: Dict, k: int, v: int)
    requires DistinctKeys(d)
    ensures HasKey(d, k) ==> |Set(d, k, v)| == |d|
    ensures HasKey(d, k) ==>
      forall i :: 0 <= i < |d| ==> Set(d, k, v)[i] == (if d[i].0 == k then (k, v) else d[i])
    ensures !HasKey(d, k) ==> Set(d, k, v) == d + [(k, v)]
  {
    if d == [] {
    } else if d[0].0 == k {
      forall i | 0 < i < |d|
        ensures d[i].0 != k
      {
        HasKeyAt(d[1..], i - 1);
      }
    } else {
      var r, rest := Set(d, k, v), Set(d[1..], k, v);
      SetInPlace(d[1..], k, v);
      assert r == [d[0]] + rest;
      if HasKey(d, k) {
        forall i | 0 < i < |d|
          ensures r[i] == (if d[i].0 == k then (k, v) else d[i])
        {
          assert r[i] == rest[i - 1] && d[i] == d[1..][i - 1];
        }
      }
    }
  }

  /** Removing keys the dict does not hold leaves it as it is. */
  lemma {:induction false} WithoutAbsent(d: Dict, ks: set<int>)
    requires forall k :: k in ks ==> !HasKey(d, k)
    ensures Without(d, ks) == d
  {
    if d != [] {
      WithoutAbsent(d[1..], ks);
    }
  }

  /** Removing one key set and then another removes their union. */
  lemma {:induction false} WithoutWithout(d: Dict, a: set<int>, b: set<int>)
    ensures Without(Without(d, a), b) == Without(d, a + b)
  {
    if d != [] {
      WithoutWithout(d[1..], a, b);
    }
  }

  /** `dict(ps)` maps each key of `ps` to the value of its last pair. */
  lemma {:induction false} FromPairsLastWins(ps: seq<(int, int)>, i: int)
    requires 0 <= i < |ps|
    requires forall j :: i < j < |ps| ==> ps[j].0 != ps[i].0
    ensures Get(FromPairs(ps), ps[i].0) == Some(ps[i].1)
  {
    var n := |ps| - 1;
    if i < n {
      FromPairsLastWins(ps[..n], i);
    }
  }

  lemma {:induction false} DistinctKeysSnoc(d: Dict, e: (int, int))
    ensures DistinctKeys(d + [e]) <==> DistinctKeys(d) && !HasKey(d, e.0)
  {
    if d != [] {
      assert (d + [e])[1..] == d[1..] + [e];
      DistinctKeysSnoc(d[1..], e);
      HasKeySnoc(d[1..], e);
    }
  }

  /** `dict(ps)` of pairs with distinct keys holds exactly those pairs, in their order. */
  lemma {:induction false} FromPairsDistinct(ps: seq<(int, int)>)
    requires DistinctKeys(ps)
    ensures FromPairs(ps) == ps
  {
    if ps != [] {
      var n := |ps| - 1;
      assert ps == ps[..n] + [ps[n]];
      DistinctKeysSnoc(ps[..n], ps[n]);
      FromPairsDistinct(ps[..n]);
      SetInPlace(ps[..n], ps[n].0, ps[n].1);
    }
  }

  /**
   * A repeated key in `dict(pairs)` keeps the position of its first pair:
   * one more pair for a key already present changes that key's value and
   * leaves the order of the keys as it was.
   */
  lemma FromPairsRepeatKeepsPosition(ps: seq<(int, int)>, k: int, v: int)
    requires HasKey(ps, k)
    ensures |FromPairs(ps + [(k, v)])| == |FromPairs(ps)|
    ensures forall i :: 0 <= i < |FromPairs(ps)| ==> FromPairs(ps + [(k, v)])[i].0 == FromPairs(ps)[i].0
    ensures Get(FromPairs(ps + [(k, v)]), k) == Some(v)
  {
    var q := ps + [(k, v)];
    assert q[..|ps|] == ps;
    assert FromPairs(q) == Set(FromPairs(ps), k, v);
    SetInPlace(FromPairs(ps), k, v);
  }
}
