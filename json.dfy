/** Decoded JSON values as the Python client sees them, and the handful of Python
    operations on them that the device client relies on: subscripting, `dict.get`,
    iteration, use as a dict key, `dict.update`'s argument protocol and `str()`. */
module JsonValues {
  import opened Wrappers
  import opened Dicts

  /** A decoded JSON document. Objects keep their key order, as Python dicts do.
      Numbers are integers: the device's readings that matter here are integral. */
  datatype Json =
    | JNull
    | JBool(b: bool)
    | JInt(n: int)
    | JStr(s: string)
    | JArr(elems: seq<Json>)
    | JObj(fields: Dict<Json>)

  /** The Python exceptions the modelled code can raise or catch. `ClientError`
      stands for any failure of an HTTP exchange. `NonStringKey` marks a JSON
      number, boolean or null used as a dict key, which this model does not admit. */
  datatype PyError =
    | KeyError
    | TypeError
    | ValueError
    | AttributeError
    | SwidgetException
    | ClientError
    | NonStringKey

  /** A Python dict display `{k1: v1, k2: v2, ...}`. */
  function Obj(ps: seq<(string, Json)>): (j: Json)
    ensures j.JObj? && Valid(j.fields) && j.fields.vals == PairsMap(ps)
  {
    JObj(ApplyPairs(Empty(), ps))
  }

  /** `j[key]` for a string key: a dict without the key raises KeyError, and every
      other value (None, a number, a string, a list) raises TypeError. */
  function Index(j: Json, key: string): (r: Result<Json, PyError>)
    ensures r.Ok? <==> j.JObj? && key in j.fields.vals
    ensures r.Ok? ==> r.value == j.fields.vals[key]
    ensures r.Err? ==> (r.error == KeyError <==> j.JObj?) && (r.error == KeyError || r.error == TypeError)
  {
    match j
    case JObj(f) => if key in f.vals then Ok(f.vals[key]) else Err(KeyError)
    case _ => Err(TypeError)
  }

  /** `j.get(key)` on a dict: a missing key and an explicit null both read as None. */
  function GetOrNull(j: Json, key: string): Json {
    if j.JObj? && key in j.fields.vals then j.fields.vals[key] else JNull
  }

  /** Using `j` as a dict key. Lists and dicts are unhashable. */
  function HashKey(j: Json): (r: Result<string, PyError>)
    ensures r.Ok? <==> j.JStr?
    ensures r.Ok? ==> j == JStr(r.value)
  {
    match j
    case JStr(s) => Ok(s)
    case JArr(_) => Err(TypeError)
    case JObj(_) => Err(TypeError)
    case _ => Err(NonStringKey)
  }

  function KeyStrs(ks: seq<string>): (r: seq<Json>)
    ensures |r| == |ks| && forall i :: 0 <= i < |ks| ==> r[i] == JStr(ks[i])
  {
    seq(|ks|, i requires 0 <= i < |ks| => JStr(ks[i]))
  }

  /** `for x in j`: a list yields its elements, a dict its keys, a string its
      characters; None, numbers and booleans are not iterable. */
  function Iterate(j: Json): (r: Result<seq<Json>, PyError>)
    ensures r.Err? <==> j.JNull? || j.JBool? || j.JInt?
  {
    match j
    case JArr(es) => Ok(es)
    case JObj(f) => Ok(KeyStrs(f.keys))
    case JStr(s) => Ok(seq(|s|, i requires 0 <= i < |s| => JStr([s[i]])))
    case _ => Err(TypeError)
  }

  /** The (key, value) pairs of a dict, in key order. */
  function ObjPairs(ks: seq<string>, vals: map<string, Json>): (ps: seq<(string, Json)>)
    ensures forall i :: 0 <= i < |ps| ==> ps[i].0 in vals && ps[i].0 in ks && ps[i].1 == vals[ps[i].0]
    ensures forall k :: k in vals && k in ks ==> exists i :: 0 <= i < |ps| && ps[i].0 == k
  {
    if ks == [] then []
    else
      var head := if ks[0] in vals then [(ks[0], vals[ks[0]])] else [];
      var rest := ObjPairs(ks[1..], vals);
      var ps := head + rest;
      assert forall k :: k in vals && k in ks ==> exists i :: 0 <= i < |ps| && ps[i].0 == k by {
        forall k | k in vals && k in ks ensures exists i :: 0 <= i < |ps| && ps[i].0 == k {
          if k == ks[0] {
            assert ps[0].0 == k;
          } else {
            assert k in ks[1..];
            var i :| 0 <= i < |rest| && rest[i].0 == k;
            assert ps[|head| + i] == rest[i];
          }
        }
      }
      ps
  }

  /** An element of a sequence handed to `dict.update`: it must itself be a sequence
      of exactly two items, a key and a value. A two-item list, a two-character
      string and a two-key dict all qualify. */
  function PairOf(e: Json): (r: Result<(string, Json), PyError>)
    ensures r.Ok? <==> Iterate(e).Ok? && |Iterate(e).value| == 2 && HashKey(Iterate(e).value[0]).Ok?
    ensures r.Ok? ==> r.value == (HashKey(Iterate(e).value[0]).value, Iterate(e).value[1])
    ensures Iterate(e).Err? ==> r == Err(TypeError)
    ensures Iterate(e).Ok? && |Iterate(e).value| != 2 ==> r == Err(ValueError)
  {
    match e
    case JArr(xs) =>
      if |xs| != 2 then Err(ValueError)
      else var k :- HashKey(xs[0]); Ok((k, xs[1]))
    case JStr(s) =>
      if |s| != 2 then Err(ValueError)
      else
        assert s[..1] == [s[0]] && s[1..] == [s[1]];
        Ok((s[..1], JStr(s[1..])))
    case JObj(f) =>
      if |f.keys| != 2 then Err(ValueError) else Ok((f.keys[0], JStr(f.keys[1])))
    case _ => Err(TypeError)
  }

  /** The pairs `dict.update` applies from a sequence argument before it finishes or
      raises on the first element that is not a pair. */
  function PrefixPairs(es: seq<Json>): (ps: seq<(string, Json)>)
    ensures |ps| <= |es|
    ensures forall i :: 0 <= i < |ps| ==> PairOf(es[i]) == Ok(ps[i])
    ensures |ps| < |es| ==> PairOf(es[|ps|]).Err?
  {
    if es == [] then []
    else match PairOf(es[0])
      case Err(_) => []
      case Ok(p) =>
        var rest := PrefixPairs(es[1..]);
        assert forall i :: 1 <= i <= |rest| ==> es[1..][i - 1] == es[i];
        [p] + rest
  }

  /** The assignments `d.update(x)` performs on a dict `d`, in order. A dict argument
      contributes all its entries. A list contributes its leading pairs. A string's
      elements are single characters, so a non-empty string raises at once and an
      empty one is a no-op. Other values are not iterable and raise TypeError. */
  function UpdatePairs(x: Json): (ps: seq<(string, Json)>)
    ensures x.JObj? && (forall k :: k in x.fields.vals ==> k in x.fields.keys) ==> PairsMap(ps) == x.fields.vals
    ensures x.JArr? ==>
      && |ps| <= |x.elems|
      && (forall i :: 0 <= i < |ps| ==> PairOf(x.elems[i]) == Ok(ps[i]))
      && (|ps| < |x.elems| ==> PairOf(x.elems[|ps|]).Err?)
    ensures !x.JObj? && !x.JArr? ==> ps == []
  {
    match x
    case JObj(f) =>
      if forall k :: k in f.vals ==> k in f.keys then
        ObjPairsMap(f.keys, f.vals);
        ObjPairs(f.keys, f.vals)
      else
        ObjPairs(f.keys, f.vals)
    case JArr(es) => PrefixPairs(es)
    case _ => []
  }

  /** A dict argument to `dict.update` contributes exactly its own entries. */
  lemma ObjPairsMap(ks: seq<string>, vals: map<string, Json>)
    requires forall k :: k in vals ==> k in ks
    ensures PairsMap(ObjPairs(ks, vals)) == vals
  {
    PairsMapIs(ObjPairs(ks, vals), vals);
  }

  /** Pairs that all agree with `vals` and assign each of its keys leave `vals` behind. */
  lemma PairsMapIs(ps: seq<(string, Json)>, vals: map<string, Json>)
    requires forall i :: 0 <= i < |ps| ==> ps[i].0 in vals && ps[i].1 == vals[ps[i].0]
    requires forall k :: k in vals ==> exists i :: 0 <= i < |ps| && ps[i].0 == k
    ensures PairsMap(ps) == vals
  {
    PairsMapWithin(ps, vals);
    PairsMapCovers(ps, vals);
    MapsAgree(PairsMap(ps), vals);
  }

  /** Pairs that all agree with `vals` leave behind a part of `vals`. */
  lemma PairsMapWithin(ps: seq<(string, Json)>, vals: map<string, Json>)
    requires forall i :: 0 <= i < |ps| ==> ps[i].0 in vals && ps[i].1 == vals[ps[i].0]
    ensures forall k :: k in PairsMap(ps) ==> k in vals && PairsMap(ps)[k] == vals[k]
  {
    var m := PairsMap(ps);
    forall k | k in m ensures k in vals && m[k] == vals[k] {
      var i :| 0 <= i < |ps| && ps[i] == (k, m[k]);
    }
  }

  /** Pairs that assign every key of `vals` leave each of those keys behind. */
  lemma PairsMapCovers(ps: seq<(string, Json)>, vals: map<string, Json>)
    requires forall k :: k in vals ==> exists i :: 0 <= i < |ps| && ps[i].0 == k
    ensures forall k :: k in vals ==> k in PairsMap(ps)
  {
    forall k | k in vals ensures k in PairsMap(ps) {
      var i :| 0 <= i < |ps| && ps[i].0 == k;
    }
  }

  lemma MapsAgree(m: map<string, Json>, vals: map<string, Json>)
    requires forall k :: k in m ==> k in vals && m[k] == vals[k]
    requires forall k :: k in vals ==> k in m
    ensures m == vals
  {
    assert m.Keys == vals.Keys;
  }

  /** A one-entry dict display. */
  lemma ObjSingle(k: string, v: Json)
    ensures Obj([(k, v)]).fields == Dict([k], map[k := v])
  {
    var ps := [(k, v)];
    assert ps[1..] == [];
    assert ApplyPairs(Empty(), ps) == ApplyPairs(Set(Empty(), k, v), []);
  }

  /** `d.update({k: v})` performs the single assignment `d[k] = v`. */
  lemma UpdatePairsSingle(k: string, v: Json)
    ensures UpdatePairs(JObj(Dict([k], map[k := v]))) == [(k, v)]
  {
    assert [k][1..] == [];
    assert ObjPairs([k], map[k := v]) == [(k, v)] + ObjPairs([], map[k := v]);
  }

  /** A three-entry dict display with distinct keys. */
  lemma ObjTriple(k1: string, v1: Json, k2: string, v2: Json, k3: string, v3: Json)
    requires k1 != k2 && k1 != k3 && k2 != k3
    ensures Obj([(k1, v1), (k2, v2), (k3, v3)]).fields == Dict([k1, k2, k3], map[k1 := v1, k2 := v2, k3 := v3])
  {
    var ps := [(k1, v1), (k2, v2), (k3, v3)];
    ApplyPairsCons(Empty(), ps);
    AssignFirst(k1, v1);
    assert ps[1..] == [(k2, v2), (k3, v3)];
    ApplyPairsCons(Dict([k1], map[k1 := v1]), ps[1..]);
    AssignSecond(k1, v1, k2, v2);
    assert ps[1..][1..] == [(k3, v3)];
    ApplyPairsCons(Dict([k1, k2], map[k1 := v1, k2 := v2]), ps[1..][1..]);
    AssignThird(k1, v1, k2, v2, k3, v3);
    assert ps[1..][1..][1..] == [];
  }

  lemma AssignFirst(k1: string, v1: Json)
    ensures Set(Empty(), k1, v1) == Dict([k1], map[k1 := v1])
  {
  }

  lemma AssignSecond(k1: string, v1: Json, k2: string, v2: Json)
    requires k1 != k2
    ensures Set(Dict([k1], map[k1 := v1]), k2, v2) == Dict([k1, k2], map[k1 := v1, k2 := v2])
  {
  }

  lemma AssignThird(k1: string, v1: Json, k2: string, v2: Json, k3: string, v3: Json)
    requires k1 != k3 && k2 != k3
    ensures Set(Dict([k1, k2], map[k1 := v1, k2 := v2]), k3, v3) == Dict([k1, k2, k3], map[k1 := v1, k2 := v2, k3 := v3])
  {
  }

  /** Python's `str()` of a scalar, as an f-string renders it. */
  function PyStr(j: Json): string {
    match j
    case JStr(s) => s
    case JInt(n) => IntToDecimal(n)
    case JBool(b) => if b then "True" else "False"
    case JNull => "None"
    case _ => "<structured>"
  }

  function IntToDecimal(n: int): string {
    if n < 0 then "-" + NatToDecimal(-n) else NatToDecimal(n)
  }

  function NatToDecimal(n: nat): string
    decreases n
  {
    var digit := ["0123456789"[n % 10]];
    if n < 10 then digit else NatToDecimal(n / 10) + digit
  }
}
