/** Python's `dict` with string keys: a map from key to value together with the
    keys in insertion order. Assigning an existing key keeps its position;
    assigning a new key appends it. */
module Dicts {
  import opened Wrappers

  datatype Dict<V> = Dict(keys: seq<string>, vals: map<string, V>)

  ghost predicate Distinct(ks: seq<string>) {
    forall i, j :: 0 <= i < j < |ks| ==> ks[i] != ks[j]
  }

  /** Every key is listed exactly once, and only the keys that have a value. */
  ghost predicate Valid<V>(d: Dict<V>) {
    && Distinct(d.keys)
    && forall k :: k in d.vals <==> k in d.keys
  }

  function Empty<V>(): (d: Dict<V>)
    ensures Valid(d) && d.vals == map[] && d.keys == []
  {
    Dict([], map[])
  }

  /** `d[k] = v` */
  function Set<V>(d: Dict<V>, k: string, v: V): (r: Dict<V>)
    ensures r.vals == d.vals[k := v]
    ensures Valid(d) ==> Valid(r)
    ensures d.keys <= r.keys
    ensures Valid(d) && k !in d.vals ==> r.keys == d.keys + [k]
    ensures k in d.vals ==> r.keys == d.keys
  {
    if k in d.vals then Dict(d.keys, d.vals[k := v]) else Dict(d.keys + [k], d.vals[k := v])
  }

  function PairKeys<V>(ps: seq<(string, V)>): seq<string> {
    if ps == [] then [] else [ps[0].0] + PairKeys(ps[1..])
  }

  /** The mapping a sequence of assignments leaves behind: the last pair for a key
      wins (`PairsMapLastWins`). */
  function PairsMap<V>(ps: seq<(string, V)>): (m: map<string, V>)
    ensures forall i :: 0 <= i < |ps| ==> ps[i].0 in m
    ensures forall k :: k in m ==> exists i :: 0 <= i < |ps| && ps[i] == (k, m[k])
  {
    if ps == [] then map[]
    else
      var rest := PairsMap(ps[1..]);
      assert forall k :: k in rest ==> exists i :: 1 <= i < |ps| && ps[i] == (k, rest[k]) by {
        forall k | k in rest ensures exists i :: 1 <= i < |ps| && ps[i] == (k, rest[k]) {
          var i :| 0 <= i < |ps[1..]| && ps[1..][i] == (k, rest[k]);
          assert ps[i + 1] == (k, rest[k]);
        }
      }
      map[ps[0].0 := ps[0].1] + rest
  }

  /** No later pair assigns the key of pair `i`. */
  ghost predicate LastFor<V>(ps: seq<(string, V)>, i: int)
    requires 0 <= i < |ps|
  {
    forall j :: i < j < |ps| ==> ps[j].0 != ps[i].0
  }

  /** A key's value is the one its last assignment gives. */
  lemma {:induction false} PairsMapLastWins<V>(ps: seq<(string, V)>, i: nat)
    requires i < |ps| && LastFor(ps, i)
    ensures ps[i].0 in PairsMap(ps) && PairsMap(ps)[ps[i].0] == ps[i].1
    decreases |ps|
  {
    var rest := ps[1..];
    if i > 0 {
      assert rest[i - 1] == ps[i];
      assert LastFor(rest, i - 1) by {
        forall j | i - 1 < j < |rest| ensures rest[j].0 != rest[i - 1].0 {
          assert rest[j] == ps[j + 1];
        }
      }
      PairsMapLastWins(rest, i - 1);
    } else {
      forall j | 0 <= j < |rest| ensures rest[j].0 != ps[0].0 {
        assert rest[j] == ps[j + 1];
      }
      assert ps[0].0 !in PairsMap(rest);
    }
  }

  /** Assigns every pair in order, as `dict.update` and dict displays do.
      The result holds the old entries overwritten by the pairs, and the old keys keep
      their places at the front. */
  function ApplyPairs<V>(d: Dict<V>, ps: seq<(string, V)>): (r: Dict<V>)
    ensures r.vals == d.vals + PairsMap(ps)
    ensures Valid(d) ==> Valid(r)
    ensures d.keys <= r.keys
    decreases |ps|
  {
    if ps == [] then d
    else
      var d1 := Set(d, ps[0].0, ps[0].1);
      var r := ApplyPairs(d1, ps[1..]);
      UnionShift(d.vals, ps[0].0, ps[0].1, PairsMap(ps[1..]));
      r
  }

  /** One step of `ApplyPairs`. */
  lemma ApplyPairsCons<V>(d: Dict<V>, ps: seq<(string, V)>)
    requires ps != []
    ensures ApplyPairs(d, ps) == ApplyPairs(Set(d, ps[0].0, ps[0].1), ps[1..])
  {
  }

  lemma UnionShift<V>(m: map<string, V>, k: string, v: V, p: map<string, V>)
    ensures m[k := v] + p == m + (map[k := v] + p)
  {
  }

  /** Assigning keys that are all present already leaves the key order alone. */
  lemma {:induction false} ApplyPairsKeepsKeys<V>(d: Dict<V>, ps: seq<(string, V)>)
    requires forall i :: 0 <= i < |ps| ==> ps[i].0 in d.vals
    ensures ApplyPairs(d, ps).keys == d.keys
    decreases |ps|
  {
    if ps != [] {
      var d1 := Set(d, ps[0].0, ps[0].1);
      assert d1.keys == d.keys;
      ApplyPairsKeepsKeys(d1, ps[1..]);
    }
  }

  /** No key is assigned twice. */
  ghost predicate DistinctKeys<V>(ps: seq<(string, V)>) {
    forall i, j :: 0 <= i < j < |ps| ==> ps[i].0 != ps[j].0
  }

  lemma DistinctKeysTail<V>(ps: seq<(string, V)>)
    requires ps != [] && DistinctKeys(ps)
    ensures DistinctKeys(ps[1..])
  {
    var rest := ps[1..];
    forall i, j | 0 <= i < j < |rest| ensures rest[i].0 != rest[j].0 {
      assert rest[i] == ps[i + 1] && rest[j] == ps[j + 1];
    }
  }

  lemma AppendAssoc<T>(a: seq<T>, b: seq<T>, c: seq<T>)
    ensures (a + b) + c == a + (b + c)
  {
  }

  /** Assigning pairwise distinct new keys appends them in order. */
  lemma {:induction false} ApplyPairsAppends<V>(d: Dict<V>, ps: seq<(string, V)>)
    requires Valid(d) && DistinctKeys(ps)
    requires forall i :: 0 <= i < |ps| ==> ps[i].0 !in d.vals
    ensures ApplyPairs(d, ps).keys == d.keys + PairKeys(ps)
    decreases |ps|
  {
    if ps != [] {
      var k := ps[0].0;
      var d1 := Set(d, k, ps[0].1);
      var rest := ps[1..];
      assert d1.keys == d.keys + [k];
      forall i | 0 <= i < |rest| ensures rest[i].0 !in d1.vals {
        assert rest[i] == ps[i + 1];
      }
      DistinctKeysTail(ps);
      ApplyPairsAppends(d1, rest);
      ApplyPairsCons(d, ps);
      assert PairKeys(ps) == [k] + PairKeys(rest);
      AppendAssoc(d.keys, [k], PairKeys(rest));
    }
  }

  /** Applying the same assignments twice is the same as applying them once. */
  lemma ApplyPairsIdempotent<V>(d: Dict<V>, ps: seq<(string, V)>)
    ensures ApplyPairs(ApplyPairs(d, ps), ps) == ApplyPairs(d, ps)
  {
    var once := ApplyPairs(d, ps);
    ApplyPairsKeepsKeys(once, ps);
    assert once.vals + PairsMap(ps) == once.vals;
  }

  /** With distinct keys, each pair's value is the one left behind. */
  lemma PairsMapAt<V>(ps: seq<(string, V)>, i: nat)
    requires i < |ps| && DistinctKeys(ps)
    ensures PairsMap(ps)[ps[i].0] == ps[i].1
  {
    PairsMapLastWins(ps, i);
  }

  lemma {:induction false} PairKeysAt<V>(ps: seq<(string, V)>)
    ensures |PairKeys(ps)| == |ps| && forall i :: 0 <= i < |ps| ==> PairKeys(ps)[i] == ps[i].0
  {
    if ps != [] {
      PairKeysAt(ps[1..]);
      forall i | 1 <= i < |ps| ensures PairKeys(ps)[i] == ps[i].0 {
        assert ps[1..][i - 1] == ps[i];
      }
    }
  }

  /** Successive `update`s of an empty dict with each map in turn. */
  function MergeAll<V>(ms: seq<map<string, V>>): map<string, V> {
    if ms == [] then map[] else MergeAll(ms[..|ms| - 1]) + ms[|ms| - 1]
  }

  /** The merged keys are exactly the keys of the maps merged. */
  lemma {:induction false} MergeAllKeys<V>(ms: seq<map<string, V>>)
    ensures forall k :: k in MergeAll(ms) <==> exists i :: 0 <= i < |ms| && k in ms[i]
    decreases |ms|
  {
    if ms != [] {
      var prefix := ms[..|ms| - 1];
      MergeAllKeys(prefix);
      assert MergeAll(ms) == MergeAll(prefix) + ms[|ms| - 1];
      forall k, i | 0 <= i < |ms| && k in ms[i] ensures k in MergeAll(ms) {
        if i < |prefix| { assert prefix[i] == ms[i]; }
      }
      forall k | k in MergeAll(ms) ensures exists i :: 0 <= i < |ms| && k in ms[i] {
        if k !in ms[|ms| - 1] {
          assert k in MergeAll(prefix);
          var i :| 0 <= i < |prefix| && k in prefix[i];
          assert ms[i] == prefix[i];
        }
      }
    }
  }

  /** A merged key has the value of the last map that has it. */
  lemma {:induction false} MergeAllLastWins<V>(ms: seq<map<string, V>>, k: string, i: nat)
    requires i < |ms| && k in ms[i]
    requires forall j :: i < j < |ms| ==> k !in ms[j]
    ensures k in MergeAll(ms) && MergeAll(ms)[k] == ms[i][k]
    decreases |ms|
  {
    var prefix := ms[..|ms| - 1];
    if i < |ms| - 1 {
      assert prefix[i] == ms[i];
      forall j | i < j < |prefix| ensures k !in prefix[j] {
        assert prefix[j] == ms[j];
      }
      MergeAllLastWins(prefix, k, i);
    }
  }
}
