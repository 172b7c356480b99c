/** The in-memory state tree of a Swidget device: two assemblies, `host` and
    `insert`, each holding components keyed by id, each holding a dict from function
    name to an opaque JSON value (`JNull` while the value is not yet known).
    Building the tree from a summary payload, merging a state payload into it, and
    writing a single function cell. */
module DeviceTree {
  import opened Wrappers
  import opened Dicts
  import opened JsonValues

  /** SwidgetComponent: its `functions` dict. */
  datatype Component = Component(functions: Dict<Json>)

  /** SwidgetAssembly: `type`, `components`, and the optional `id` and `error`. */
  datatype Assembly = Assembly(kind: Json, components: Dict<Component>, id: Json, error: Json)

  /** The device's `assemblies` dict. */
  type Tree = map<string, Assembly>

  ghost predicate AssemblyValid(a: Assembly) {
    && Valid(a.components)
    && forall id :: id in a.components.vals ==> Valid(a.components.vals[id].functions)
  }

  /** A tree as `process_summary` builds it: exactly the assemblies `host` and `insert`. */
  ghost predicate TreeValid(t: Tree) {
    && t.Keys == {"host", "insert"}
    && forall a :: a in t ==> AssemblyValid(t[a])
  }

  /** `assemblies[name]` */
  function AssemblyAt(t: Tree, name: string): Result<Assembly, PyError> {
    if name in t then Ok(t[name]) else Err(KeyError)
  }

  /** `assembly.components[id]` */
  function ComponentAt(asm: Assembly, id: string): Result<Component, PyError> {
    if id in asm.components.vals then Ok(asm.components.vals[id]) else Err(KeyError)
  }

  /** `assemblies[a].components[id].functions[f]` */
  function FunctionAt(t: Tree, a: string, id: string, f: string): (r: Result<Json, PyError>)
    ensures r.Ok? <==> a in t && id in t[a].components.vals && f in t[a].components.vals[id].functions.vals
    ensures r.Ok? ==> r.value == t[a].components.vals[id].functions.vals[f]
    ensures r.Err? ==> r.error == KeyError
  {
    var asm :- AssemblyAt(t, a);
    var c :- ComponentAt(asm, id);
    if f in c.functions.vals then Ok(c.functions.vals[f]) else Err(KeyError)
  }

  // ---------------------------------------------------------------------------
  // Building the tree from a summary payload

  function NullPairs(names: seq<string>): (ps: seq<(string, Json)>)
    ensures |ps| == |names| && forall i :: 0 <= i < |names| ==> ps[i] == (names[i], JNull)
  {
    seq(|names|, i requires 0 <= i < |names| => (names[i], JNull))
  }

  /** SwidgetComponent(functions): `{f: None for f in functions}`. Every function the
      summary lists becomes a key, none other does, and every value is unknown. */
  function BuildComponent(functions: Json): (r: Result<Component, PyError>)
    ensures r.Ok? <==>
      Iterate(functions).Ok? && forall i :: 0 <= i < |Iterate(functions).value| ==> Iterate(functions).value[i].JStr?
    ensures r.Ok? ==> Valid(r.value.functions)
    ensures r.Ok? ==> forall f :: f in r.value.functions.vals <==> JStr(f) in Iterate(functions).value
    ensures r.Ok? ==> forall f :: f in r.value.functions.vals ==> r.value.functions.vals[f] == JNull
  {
    var names :- Iterate(functions);
    var keys :- MapResult(names, HashKey);
    var fns := ApplyPairs(Empty(), NullPairs(keys));
    NullPairsNames(names, keys);
    Ok(Component(fns))
  }

  /** The function names that hash to `keys`, each mapped to None, are exactly the
      string names listed. */
  lemma NullPairsNames(names: seq<Json>, keys: seq<string>)
    requires |keys| == |names| && forall i :: 0 <= i < |names| ==> HashKey(names[i]) == Ok(keys[i])
    ensures forall f :: f in PairsMap(NullPairs(keys)) <==> JStr(f) in names
    ensures forall f :: f in PairsMap(NullPairs(keys)) ==> PairsMap(NullPairs(keys))[f] == JNull
  {
    var ps := NullPairs(keys);
    var m := PairsMap(ps);
    forall f ensures f in m <==> JStr(f) in names {
      if f in m {
        var i :| 0 <= i < |ps| && ps[i] == (f, m[f]);
        assert HashKey(names[i]) == Ok(keys[i]);
      }
      if JStr(f) in names {
        var i :| 0 <= i < |names| && names[i] == JStr(f);
        assert HashKey(names[i]) == Ok(keys[i]);
        assert ps[i].0 == f;
      }
    }
    forall f | f in m ensures m[f] == JNull {
      var i :| 0 <= i < |ps| && ps[i] == (f, m[f]);
    }
  }

  /** One element `c` of a summary's `components` list, as the dict comprehension
      `{c["id"]: SwidgetComponent(c["functions"]) for c in ...}` evaluates it: the key
      expression, then the value, then hashing the key. */
  function ComponentEntry(c: Json): Result<(string, Component), PyError> {
    var idj :- Index(c, "id");
    var fns :- Index(c, "functions");
    var comp :- BuildComponent(fns);
    var id :- HashKey(idj);
    Ok((id, comp))
  }

  /** The entries of all elements, stopping at the first that raises. */
  function BuildEntries(es: seq<Json>): (r: Result<seq<(string, Component)>, PyError>)
    ensures r.Ok? <==> forall i :: 0 <= i < |es| ==> ComponentEntry(es[i]).Ok?
    ensures r.Ok? ==> |r.value| == |es| && forall i :: 0 <= i < |es| ==> ComponentEntry(es[i]) == Ok(r.value[i])
    ensures r.Ok? ==> forall i :: 0 <= i < |r.value| ==> Valid(r.value[i].1.functions)
  {
    var entries :- MapResult(es, ComponentEntry);
    EntriesValid(es, entries);
    Ok(entries)
  }

  /** Every entry built from an element holds a valid functions dict. */
  lemma EntriesValid(es: seq<Json>, entries: seq<(string, Component)>)
    requires |entries| == |es| && forall i :: 0 <= i < |es| ==> ComponentEntry(es[i]) == Ok(entries[i])
    ensures forall i :: 0 <= i < |entries| ==> Valid(entries[i].1.functions)
  {
    forall i | 0 <= i < |entries| ensures Valid(entries[i].1.functions) {
      EntryValid(es[i], entries[i]);
    }
  }

  lemma EntryValid(e: Json, entry: (string, Component))
    requires ComponentEntry(e) == Ok(entry)
    ensures Valid(entry.1.functions)
  {
    assert BuildComponent(Index(e, "functions").value) == Ok(entry.1);
  }

  /** The elements of `summary["components"]`. */
  function ComponentEntries(summary: Json): Result<seq<Json>, PyError> {
    var cs :- Index(summary, "components");
    Iterate(cs)
  }

  /** SwidgetAssembly(summary). It succeeds exactly when `type` is present and every
      component entry builds; each entry then has a component under its id, and each
      component comes from an entry with its id: the last entry with that id, as the
      comprehension assigns the entries in order. `id` and `error` default to None. */
  function BuildAssembly(summary: Json): (r: Result<Assembly, PyError>)
    ensures r.Ok? <==>
      && Index(summary, "type").Ok?
      && ComponentEntries(summary).Ok?
      && BuildEntries(ComponentEntries(summary).value).Ok?
    ensures r.Ok? ==> AssemblyValid(r.value)
    ensures r.Ok? ==> Index(summary, "type") == Ok(r.value.kind)
    ensures r.Ok? ==> r.value.id == GetOrNull(summary, "id") && r.value.error == GetOrNull(summary, "error")
    ensures r.Ok? ==>
      var entries := BuildEntries(ComponentEntries(summary).value).value;
      var comps := r.value.components;
      && (forall i :: 0 <= i < |entries| ==> entries[i].0 in comps.vals)
      && (forall id :: id in comps.vals ==> exists i :: 0 <= i < |entries| && entries[i] == (id, comps.vals[id]))
      && (forall i :: 0 <= i < |entries| && LastFor(entries, i) ==> comps.vals[entries[i].0] == entries[i].1)
  {
    var kind :- Index(summary, "type");
    var es :- ComponentEntries(summary);
    var entries :- BuildEntries(es);
    var comps: Dict<Component> := ApplyPairs(Empty(), entries);
    assert comps.vals == PairsMap(entries);
    forall i | 0 <= i < |entries| && LastFor(entries, i) ensures comps.vals[entries[i].0] == entries[i].1 {
      PairsMapLastWins(entries, i);
    }
    assert forall id :: id in comps.vals ==> Valid(comps.vals[id].functions) by {
      forall id | id in comps.vals ensures Valid(comps.vals[id].functions) {
        var i :| 0 <= i < |entries| && entries[i] == (id, comps.vals[id]);
      }
    }
    Ok(Assembly(kind, comps, GetOrNull(summary, "id"), GetOrNull(summary, "error")))
  }

  /** When the summary's component ids are distinct, the components appear in
      summary order and each is the one built from its own entry. */
  lemma SummaryComponentsInOrder(summary: Json)
    requires BuildAssembly(summary).Ok?
    requires DistinctKeys(BuildEntries(ComponentEntries(summary).value).value)
    ensures
      var entries := BuildEntries(ComponentEntries(summary).value).value;
      var comps := BuildAssembly(summary).value.components;
      && |comps.keys| == |entries|
      && forall i :: 0 <= i < |entries| ==>
        comps.keys[i] == entries[i].0 && comps.vals[entries[i].0] == entries[i].1
  {
    var entries := BuildEntries(ComponentEntries(summary).value).value;
    assert BuildAssembly(summary).value.components == ApplyPairs(Empty(), entries);
    EntriesInOrder(entries);
  }

  /** Entries with distinct ids fill an empty dict in their own order. */
  lemma EntriesInOrder(entries: seq<(string, Component)>)
    requires DistinctKeys(entries)
    ensures
      var comps := ApplyPairs(Empty(), entries);
      && |comps.keys| == |entries|
      && forall i :: 0 <= i < |entries| ==>
        comps.keys[i] == entries[i].0 && comps.vals[entries[i].0] == entries[i].1
  {
    var comps := ApplyPairs(Empty(), entries);
    ApplyPairsAppends(Empty(), entries);
    PairKeysAt(entries);
    forall i | 0 <= i < |entries| ensures comps.vals[entries[i].0] == entries[i].1 {
      PairsMapAt(entries, i);
    }
  }

  /** A freshly built assembly knows no function value yet: every cell is None. */
  lemma BuildAssemblyValuesUnknown(summary: Json)
    requires BuildAssembly(summary).Ok?
    ensures
      var comps := BuildAssembly(summary).value.components;
      forall id, f :: id in comps.vals && f in comps.vals[id].functions.vals ==>
        comps.vals[id].functions.vals[f] == JNull
  {
    var es := ComponentEntries(summary).value;
    var entries := BuildEntries(es).value;
    var comps := BuildAssembly(summary).value.components;
    forall id | id in comps.vals
      ensures forall f :: f in comps.vals[id].functions.vals ==> comps.vals[id].functions.vals[f] == JNull
    {
      var i :| 0 <= i < |entries| && entries[i] == (id, comps.vals[id]);
      EntryValuesUnknown(es[i], entries[i]);
    }
  }

  lemma EntryValuesUnknown(e: Json, entry: (string, Component))
    requires ComponentEntry(e) == Ok(entry)
    ensures forall f :: f in entry.1.functions.vals ==> entry.1.functions.vals[f] == JNull
  {
    assert BuildComponent(Index(e, "functions").value) == Ok(entry.1);
  }

  // ---------------------------------------------------------------------------
  // Merging a state payload

  /** `state[a]["components"][id]`, the payload's fragment for one component. */
  function Fragment(state: Json, a: string, id: string): Result<Json, PyError> {
    var asm :- Index(state, a);
    var comps :- Index(asm, "components");
    Index(comps, id)
  }

  /** `component.functions.update(fragment)` inside a bare `try`: a missing fragment
      leaves the component alone, and so does every assignment `update` does not reach. */
  function MergeComponent(c: Component, frag: Result<Json, PyError>): Component {
    match frag
    case Ok(x) => Component(ApplyPairs(c.functions, UpdatePairs(x)))
    case Err(_) => c
  }

  function MergeComponents(a: string, comps: Dict<Component>, state: Json): (r: Dict<Component>)
    ensures r.keys == comps.keys && r.vals.Keys == comps.vals.Keys
    ensures forall id :: id in comps.vals && Valid(comps.vals[id].functions) ==> Valid(r.vals[id].functions)
  {
    Dict(comps.keys, map id | id in comps.vals :: MergeComponent(comps.vals[id], Fragment(state, a, id)))
  }

  /** The tree after the nested loop of `process_state`. No assembly or component is
      added or removed, and the assemblies' own attributes are left alone. */
  function MergeTree(t: Tree, state: Json): (r: Tree)
    ensures r.Keys == t.Keys
    ensures TreeValid(t) ==> TreeValid(r)
    ensures forall a :: a in t ==>
      && r[a].kind == t[a].kind && r[a].id == t[a].id && r[a].error == t[a].error
      && r[a].components.keys == t[a].components.keys
      && r[a].components.vals.Keys == t[a].components.vals.Keys
  {
    map a | a in t :: MergedAssembly(a, t[a], state)
  }

  /** One assembly after the inner loop of `process_state`. */
  function MergedAssembly(a: string, asm: Assembly, state: Json): (r: Assembly)
    ensures r == asm.(components := MergeComponents(a, asm.components, state))
    ensures AssemblyValid(asm) ==> AssemblyValid(r)
  {
    asm.(components := MergeComponents(a, asm.components, state))
  }

  /** A dict fragment overwrites each function it names wholesale, adds the names the
      component did not have, and leaves every other function's value as it was. */
  lemma MergeOverwrites(t: Tree, state: Json, a: string, id: string)
    requires a in t && id in t[a].components.vals
    requires Fragment(state, a, id).Ok? && Fragment(state, a, id).value.JObj?
    requires Valid(Fragment(state, a, id).value.fields)
    ensures
      var frag := Fragment(state, a, id).value.fields.vals;
      var before := t[a].components.vals[id].functions;
      var after := MergeTree(t, state)[a].components.vals[id].functions;
      && after.vals == before.vals + frag
      && (forall f :: f in frag ==> after.vals[f] == frag[f])
      && (forall f :: f in before.vals && f !in frag ==> after.vals[f] == before.vals[f])
      && before.keys <= after.keys
  {
    var f := Fragment(state, a, id).value.fields;
    ObjPairsMap(f.keys, f.vals);
  }

  /** A list fragment is applied pair by pair up to its first element that is not a
      pair. The exception that element raises is swallowed, and the pairs before it
      stay assigned: each function they name holds its last assignment, and every
      function they do not name keeps its value. */
  lemma MergeKeepsLeadingPairs(t: Tree, state: Json, a: string, id: string)
    requires a in t && id in t[a].components.vals
    requires Fragment(state, a, id).Ok? && Fragment(state, a, id).value.JArr?
    ensures
      var es := Fragment(state, a, id).value.elems;
      var ps := UpdatePairs(Fragment(state, a, id).value);
      var before := t[a].components.vals[id].functions;
      var after := MergeTree(t, state)[a].components.vals[id].functions;
      && |ps| <= |es|
      && (forall i :: 0 <= i < |ps| ==> PairOf(es[i]) == Ok(ps[i]))
      && (|ps| < |es| ==> PairOf(es[|ps|]).Err?)
      && (forall i :: 0 <= i < |ps| && LastFor(ps, i) ==> after.vals[ps[i].0] == ps[i].1)
      && (forall f :: f in before.vals && (forall i :: 0 <= i < |ps| ==> ps[i].0 != f) ==> after.vals[f] == before.vals[f])
      && before.keys <= after.keys
  {
    var ps := UpdatePairs(Fragment(state, a, id).value);
    forall i | 0 <= i < |ps| && LastFor(ps, i) ensures PairsMap(ps)[ps[i].0] == ps[i].1 {
      PairsMapLastWins(ps, i);
    }
  }

  /** A component the payload says nothing about is left exactly as it was. */
  lemma MergeSkipsAbsent(t: Tree, state: Json, a: string, id: string)
    requires a in t && id in t[a].components.vals
    requires Fragment(state, a, id).Err?
    ensures MergeTree(t, state)[a].components.vals[id] == t[a].components.vals[id]
  {
  }

  /** A component's merge depends on its own fragment only: whatever the payload holds
      for its siblings, malformed or not, does not change its outcome. */
  lemma MergeIsolated(t: Tree, s1: Json, s2: Json, a: string, id: string)
    requires a in t && id in t[a].components.vals
    requires Fragment(s1, a, id) == Fragment(s2, a, id)
    ensures MergeTree(t, s1)[a].components.vals[id] == MergeTree(t, s2)[a].components.vals[id]
  {
  }

  /** Merging the same payload twice gives the same tree as merging it once. */
  lemma MergeIdempotent(t: Tree, state: Json)
    ensures MergeTree(MergeTree(t, state), state) == MergeTree(t, state)
  {
    var once := MergeTree(t, state);
    var twice := MergeTree(once, state);
    forall a | a in t ensures twice[a] == once[a] {
      var c1 := once[a].components;
      var c2 := twice[a].components;
      forall id | id in c1.vals ensures c2.vals[id] == c1.vals[id] {
        var frag := Fragment(state, a, id);
        if frag.Ok? {
          ApplyPairsIdempotent(t[a].components.vals[id].functions, UpdatePairs(frag.value));
        }
      }
      assert c2.vals == c1.vals;
    }
  }

  /** One assembly's components once the inner loop of `process_state` has visited its
      first `n` components. */
  function MergeComponentsVisited(a: string, comps: Dict<Component>, state: Json, n: nat): map<string, Component>
    requires n <= |comps.keys|
  {
    map c | c in comps.vals :: if c in comps.keys[..n] then MergeComponent(comps.vals[c], Fragment(state, a, c)) else comps.vals[c]
  }

  lemma MergeComponentsVisitedNone(a: string, comps: Dict<Component>, state: Json)
    ensures MergeComponentsVisited(a, comps, state, 0) == comps.vals
  {
  }

  /** Visiting one more component merges that component alone, and nothing when the
      payload has no fragment for it. */
  lemma MergeComponentsVisitedStep(a: string, comps: Dict<Component>, state: Json, n: nat)
    requires Valid(comps) && n < |comps.keys|
    ensures
      var c := comps.keys[n];
      var before := MergeComponentsVisited(a, comps, state, n);
      var after := MergeComponentsVisited(a, comps, state, n + 1);
      && c in before && before[c] == comps.vals[c]
      && after == before[c := MergeComponent(comps.vals[c], Fragment(state, a, c))]
  {
    var c := comps.keys[n];
    var before := MergeComponentsVisited(a, comps, state, n);
    var after := MergeComponentsVisited(a, comps, state, n + 1);
    PrefixGrows(comps.keys, n);
    DistinctPrefixExcludes(comps.keys, n);
    var merged := MergeComponent(comps.vals[c], Fragment(state, a, c));
    assert after == before[c := merged];
  }

  lemma PrefixGrows(ks: seq<string>, n: nat)
    requires n < |ks|
    ensures forall x :: x in ks[..n + 1] <==> x in ks[..n] || x == ks[n]
  {
    assert ks[..n + 1] == ks[..n] + [ks[n]];
  }

  lemma DistinctPrefixExcludes(ks: seq<string>, n: nat)
    requires Distinct(ks) && n < |ks|
    ensures ks[n] !in ks[..n]
  {
    forall i | 0 <= i < n ensures ks[..n][i] != ks[n] {
      assert ks[..n][i] == ks[i];
    }
  }

  lemma MergeComponentsVisitedAll(a: string, comps: Dict<Component>, state: Json)
    requires Valid(comps)
    ensures MergeComponentsVisited(a, comps, state, |comps.keys|) == MergeComponents(a, comps, state).vals
  {
    assert comps.keys[..|comps.keys|] == comps.keys;
  }

  /** The tree once the loop of `process_state` has visited the first `n` of `names`. */
  function MergeVisited(t: Tree, state: Json, names: seq<string>, n: nat): Tree
    requires n <= |names|
  {
    map a | a in t :: if a in names[..n] then t[a].(components := MergeComponents(a, t[a].components, state)) else t[a]
  }

  lemma MergeVisitedNone(t: Tree, state: Json, names: seq<string>)
    ensures MergeVisited(t, state, names, 0) == t
  {
  }

  /** Visiting one more assembly merges that assembly alone. */
  lemma MergeVisitedStep(t: Tree, state: Json, names: seq<string>, n: nat)
    requires n < |names| && names[n] in t && names[n] !in names[..n]
    ensures
      var a := names[n];
      && a in MergeVisited(t, state, names, n) && MergeVisited(t, state, names, n)[a] == t[a]
      && MergeVisited(t, state, names, n + 1) ==
           MergeVisited(t, state, names, n)[a := t[a].(components := MergeComponents(a, t[a].components, state))]
  {
    assert names[..n + 1] == names[..n] + [names[n]];
  }

  lemma MergeVisitedAll(t: Tree, state: Json, names: seq<string>)
    requires forall a :: a in t ==> a in names
    ensures MergeVisited(t, state, names, |names|) == MergeTree(t, state)
  {
    assert names[..|names|] == names;
  }

  // ---------------------------------------------------------------------------
  // Writing one cell

  /** `assemblies[a].components[id].functions[f] = v`. The lookups of the assembly and
      the component raise KeyError; the function entry is assigned, or added when the
      component did not have it. Every other cell is left alone. */
  function WriteCell(t: Tree, a: string, id: string, f: string, v: Json): (r: Result<Tree, PyError>)
    ensures r.Ok? <==> a in t && id in t[a].components.vals
    ensures r.Err? ==> r.error == KeyError
    ensures r.Ok? ==> FunctionAt(r.value, a, id, f) == Ok(v)
    ensures r.Ok? ==> forall a', id', f' :: (a', id', f') != (a, id, f) ==>
      FunctionAt(r.value, a', id', f') == FunctionAt(t, a', id', f')
    ensures r.Ok? ==> r.value.Keys == t.Keys && forall a' :: a' in t ==>
      r.value[a'].components.keys == t[a'].components.keys && r.value[a'].kind == t[a'].kind
    ensures r.Ok? && TreeValid(t) ==> TreeValid(r.value)
  {
    var asm :- AssemblyAt(t, a);
    var c :- ComponentAt(asm, id);
    var c' := Component(Set(c.functions, f, v));
    Ok(t[a := asm.(components := Dict(asm.components.keys, asm.components.vals[id := c']))])
  }

  /** An assembly whose only fragment is a one-function dict for one of its
      components: that component gets the function assigned, the others are kept. */
  lemma MergeComponentsSingle(a: string, cs: Dict<Component>, state: Json, id: string, f: string, v: Json)
    requires id in cs.vals
    requires Fragment(state, a, id) == Ok(JObj(Dict([f], map[f := v])))
    requires forall id' :: id' != id ==> Fragment(state, a, id').Err?
    ensures MergeComponents(a, cs, state) == Dict(cs.keys, cs.vals[id := Component(Set(cs.vals[id].functions, f, v))])
  {
    var fns := cs.vals[id].functions;
    UpdatePairsSingle(f, v);
    assert ApplyPairs(fns, [(f, v)]) == ApplyPairs(Set(fns, f, v), []);
    assert MergeComponents(a, cs, state).vals == cs.vals[id := Component(Set(fns, f, v))];
  }

  /** An assembly the payload has no fragment for is merged into itself. */
  lemma MergeComponentsNone(a: string, cs: Dict<Component>, state: Json)
    requires forall id' :: Fragment(state, a, id').Err?
    ensures MergeComponents(a, cs, state) == cs
  {
    assert MergeComponents(a, cs, state).vals == cs.vals;
  }

  /** A payload whose only fragment is a one-function dict for an existing component
      merges into exactly that single cell write. */
  lemma MergeSingleCell(t: Tree, state: Json, a: string, id: string, f: string, v: Json)
    requires WriteCell(t, a, id, f, v).Ok?
    requires Fragment(state, a, id) == Ok(JObj(Dict([f], map[f := v])))
    requires forall a', id' :: (a', id') != (a, id) ==> Fragment(state, a', id').Err?
    ensures MergeTree(t, state) == WriteCell(t, a, id, f, v).value
  {
    var cs := t[a].components;
    var written := t[a := t[a].(components := Dict(cs.keys, cs.vals[id := Component(Set(cs.vals[id].functions, f, v))]))];
    assert WriteCell(t, a, id, f, v) == Ok(written);
    MergeComponentsSingle(a, cs, state, id, f, v);
    forall a' | a' in t && a' != a ensures MergeTree(t, state)[a'] == t[a'] {
      MergeComponentsNone(a', t[a'].components, state);
    }
    assert MergeTree(t, state) == written;
  }
}
