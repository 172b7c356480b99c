/** The read-only queries of `SwidgetDevice`: features, insert sensor readings,
    power consumption, the realtime values, the hardware description and the
    device-type predicates. Each reads a device state and either answers or names the
    exception the Python property would raise. */
module Queries {
  import opened Wrappers
  import opened Dicts
  import opened JsonValues
  import opened DeviceTree
  import opened DeviceModel

  /** `self.assemblies` */
  function TreeOf(s: DeviceState): (r: Result<Tree, PyError>)
    ensures r.Ok? <==> s.assemblies.Some?
    ensures r.Ok? ==> r.value == s.assemblies.value
    ensures r.Err? ==> r.error == AttributeError
  {
    match s.assemblies
    case Some(t) => Ok(t)
    case None => Err(AttributeError)
  }

  // ---------------------------------------------------------------------------
  // features

  /** `features`: the insert assembly's component ids in summary order. Only KeyError
      is caught, so a device without a tree raises AttributeError. */
  function Features(s: DeviceState): (r: Result<seq<string>, PyError>)
    ensures r.Ok? <==> s.assemblies.Some?
    ensures r.Err? ==> r.error == AttributeError
    ensures r.Ok? && StateValid(s) ==>
      && Distinct(r.value)
      && forall id :: id in r.value <==> id in s.assemblies.value["insert"].components.vals
  {
    var t :- TreeOf(s);
    if "insert" in t then Ok(t["insert"].components.keys) else Ok([])
  }

  /** Right after a summary whose insert component ids are distinct, the features are
      those ids in the order the summary lists them. */
  lemma SummaryFeatures(s: DeviceState, summary: Json, now: int)
    requires SummaryStep(s, summary, now).out.Done?
    requires DistinctKeys(BuildEntries(ComponentEntries(Index(summary, "insert").value).value).value)
    ensures
      var entries := BuildEntries(ComponentEntries(Index(summary, "insert").value).value).value;
      var fs := Features(SummaryStep(s, summary, now).state).value;
      && |fs| == |entries|
      && forall i :: 0 <= i < |entries| ==> fs[i] == entries[i].0
  {
    SummaryStepSpec(s, summary, now);
    SummaryComponentsInOrder(Index(summary, "insert").value);
  }

  /** State messages and commands never change the features. */
  lemma FeaturesStable(s: DeviceState, state: Json, now: int, a: string, c: string, f: string,
                       command: Json, response: Result<Json, PyError>)
    requires s.assemblies.Some?
    ensures Features(StateStep(s, state, now).state) == Features(s)
    ensures Features(CommandStep(s, a, c, f, command, response).state) == Features(s)
  {
  }

  // ---------------------------------------------------------------------------
  // Insert readings

  /** `assemblies['insert'].components[feature]` */
  function InsertComponent(s: DeviceState, feature: string): (r: Result<Component, PyError>)
    ensures r.Ok? <==>
      s.assemblies.Some? && "insert" in s.assemblies.value && feature in s.assemblies.value["insert"].components.vals
    ensures r.Ok? ==> r.value == s.assemblies.value["insert"].components.vals[feature]
  {
    var t :- TreeOf(s);
    var asm :- AssemblyAt(t, "insert");
    ComponentAt(asm, feature)
  }

  /** The key a function's reading lives under: `state` for occupancy, `now` otherwise. */
  function ReadingKey(name: string): string {
    if name == "occupied" then "state" else "now"
  }

  /** The loop of `get_function_values` over the functions `names` of a component:
      toggle is skipped, every other function contributes its reading, and the first
      reading that cannot be taken raises. */
  function ReadAll(names: seq<string>, fns: map<string, Json>): (r: Result<map<string, Json>, PyError>)
    requires forall i :: 0 <= i < |names| ==> names[i] in fns
    ensures r.Ok? <==>
      forall i :: 0 <= i < |names| && names[i] != "toggle" ==> Index(fns[names[i]], ReadingKey(names[i])).Ok?
    ensures r.Ok? ==> forall k :: k in r.value <==> k in names && k != "toggle"
    ensures r.Ok? ==> forall k :: k in r.value ==> Index(fns[k], ReadingKey(k)) == Ok(r.value[k])
    ensures r.Err? ==>
      exists i :: 0 <= i < |names| && names[i] != "toggle" && Index(fns[names[i]], ReadingKey(names[i])) == Err(r.error)
  {
    if names == [] then Ok(map[])
    else if names[0] == "toggle" then
      var rest := ReadAll(names[1..], fns);
      assert forall k :: k in names[1..] ==> k in names;
      assert forall k :: k in names && k != "toggle" ==> k in names[1..];
      rest
    else
      var v :- Index(fns[names[0]], ReadingKey(names[0]));
      var rest :- ReadAll(names[1..], fns);
      assert forall k :: k in names <==> k == names[0] || k in names[1..];
      Ok(map[names[0] := v] + rest)
  }

  /** `get_function_values(feature)` */
  function FunctionValues(s: DeviceState, feature: string): (r: Result<map<string, Json>, PyError>)
    requires StateValid(s)
    ensures InsertComponent(s, feature).Err? ==> r == Err(InsertComponent(s, feature).error)
    ensures r.Ok? ==> InsertComponent(s, feature).Ok?
    ensures r.Ok? ==>
      var fns := InsertComponent(s, feature).value.functions.vals;
      && (forall k :: k in r.value <==> k in fns && k != "toggle")
      && (forall k :: k in r.value ==> Index(fns[k], ReadingKey(k)) == Ok(r.value[k]))
    ensures InsertComponent(s, feature).Ok? ==>
      var fns := InsertComponent(s, feature).value.functions.vals;
      (r.Ok? <==> forall k :: k in fns && k != "toggle" ==> Index(fns[k], ReadingKey(k)).Ok?)
  {
    var c :- InsertComponent(s, feature);
    ReadAll(c.functions.keys, c.functions.vals)
  }

  /** `get_sensor_value(feature, sensor)` */
  function SensorValue(s: DeviceState, feature: string, sensor: string): (r: Result<Json, PyError>)
    ensures r.Ok? <==>
      && InsertComponent(s, feature).Ok?
      && sensor in InsertComponent(s, feature).value.functions.vals
      && Index(InsertComponent(s, feature).value.functions.vals[sensor], ReadingKey(sensor)).Ok?
    ensures r.Ok? ==>
      r == Index(InsertComponent(s, feature).value.functions.vals[sensor], ReadingKey(sensor))
  {
    var c :- InsertComponent(s, feature);
    var data :- if sensor in c.functions.vals then Ok(c.functions.vals[sensor]) else Err(KeyError);
    Index(data, ReadingKey(sensor))
  }

  /** Every reading `get_function_values` reports is the one `get_sensor_value` gives
      for the same function, and every function other than toggle is reported. */
  lemma SensorAgreesWithFunctionValues(s: DeviceState, feature: string, sensor: string)
    requires StateValid(s) && FunctionValues(s, feature).Ok?
    ensures sensor in FunctionValues(s, feature).value ==>
      SensorValue(s, feature, sensor) == Ok(FunctionValues(s, feature).value[sensor])
    ensures sensor != "toggle" && sensor in InsertComponent(s, feature).value.functions.vals ==>
      sensor in FunctionValues(s, feature).value
  {
  }

  // ---------------------------------------------------------------------------
  // Power consumption

  /** `properties.functions['power']['current']` */
  function PowerCurrent(c: Component): (r: Result<Json, PyError>)
    ensures r.Err? && r.error != KeyError ==> r.error == TypeError
  {
    var p :- if "power" in c.functions.vals then Ok(c.functions.vals["power"]) else Err(KeyError);
    Index(p, "current")
  }

  /** `f"power_{id}"` */
  function PowerKey(id: string): (k: string)
    ensures |k| == |id| + 6 && k[..6] == "power_" && k[6..] == id
  {
    "power_" + id
  }

  /** The loop of `get_child_consumption("all")` over the host components `ids`: a
      component without power metering (KeyError) ends it with None, any other
      failure raises, and otherwise every plug is listed under `power_<id>`. */
  function AllPowerOf(ids: seq<string>, comps: map<string, Component>): (r: Result<Option<map<string, Json>>, PyError>)
    requires forall i :: 0 <= i < |ids| ==> ids[i] in comps
    ensures r.Ok? && r.value.Some? <==> forall i :: 0 <= i < |ids| ==> PowerCurrent(comps[ids[i]]).Ok?
    ensures r == Ok(None) ==> exists i :: 0 <= i < |ids| && PowerCurrent(comps[ids[i]]) == Err(KeyError)
    ensures r.Err? ==> r.error == TypeError
    ensures r.Ok? && r.value.Some? ==> forall i :: 0 <= i < |ids| ==>
      PowerKey(ids[i]) in r.value.value && PowerCurrent(comps[ids[i]]) == Ok(r.value.value[PowerKey(ids[i])])
    ensures r.Ok? && r.value.Some? ==> forall k :: k in r.value.value ==>
      exists i :: 0 <= i < |ids| && k == PowerKey(ids[i])
  {
    if ids == [] then Ok(Some(map[]))
    else
      match PowerCurrent(comps[ids[0]])
      case Err(e) => if e == KeyError then Ok(None) else Err(e)
      case Ok(w) =>
        var rest :- AllPowerOf(ids[1..], comps);
        assert forall i :: 1 <= i < |ids| ==> ids[1..][i - 1] == ids[i];
        match rest
        case None => Ok(None)
        case Some(m) =>
          AllPowerCons(ids, comps, w, m);
          Ok(Some(map[PowerKey(ids[0]) := w] + m))
  }

  /** The step of `AllPowerOf`: the first plug's reading in front of the others'. */
  lemma AllPowerCons(ids: seq<string>, comps: map<string, Component>, w: Json, m: map<string, Json>)
    requires ids != [] && forall i :: 0 <= i < |ids| ==> ids[i] in comps
    requires PowerCurrent(comps[ids[0]]) == Ok(w)
    requires forall i :: 0 <= i < |ids[1..]| ==>
      PowerKey(ids[1..][i]) in m && PowerCurrent(comps[ids[1..][i]]) == Ok(m[PowerKey(ids[1..][i])])
    requires forall k :: k in m ==> exists i :: 0 <= i < |ids[1..]| && k == PowerKey(ids[1..][i])
    ensures
      var r := map[PowerKey(ids[0]) := w] + m;
      && (forall i :: 0 <= i < |ids| ==> PowerKey(ids[i]) in r && PowerCurrent(comps[ids[i]]) == Ok(r[PowerKey(ids[i])]))
      && (forall k :: k in r ==> exists i :: 0 <= i < |ids| && k == PowerKey(ids[i]))
  {
    var r := map[PowerKey(ids[0]) := w] + m;
    forall i | 0 <= i < |ids| ensures PowerKey(ids[i]) in r && PowerCurrent(comps[ids[i]]) == Ok(r[PowerKey(ids[i])]) {
      var k := PowerKey(ids[i]);
      if i > 0 {
        assert ids[1..][i - 1] == ids[i];
      }
      if k in m {
        var j :| 0 <= j < |ids[1..]| && k == PowerKey(ids[1..][j]);
        assert ids[1..][j] == k[6..] == ids[i];
      }
    }
    forall k | k in r ensures exists i :: 0 <= i < |ids| && k == PowerKey(ids[i]) {
      if k != PowerKey(ids[0]) {
        var i :| 0 <= i < |ids[1..]| && k == PowerKey(ids[1..][i]);
        assert k == PowerKey(ids[i + 1]);
      }
    }
  }

  /** `assemblies['host']` and its component ids, as both consumption queries read them. */
  function Host(s: DeviceState): (r: Result<Assembly, PyError>)
    ensures r.Ok? <==> s.assemblies.Some? && "host" in s.assemblies.value
    ensures r.Ok? ==> r.value == s.assemblies.value["host"]
    ensures r.Err? ==> r.error == AttributeError || r.error == KeyError
  {
    var t :- TreeOf(s);
    AssemblyAt(t, "host")
  }

  /** `get_child_consumption("all")` as a value: the per-plug readings, or None. */
  function AllPower(s: DeviceState): (r: Result<Option<map<string, Json>>, PyError>)
    requires StateValid(s)
    ensures r.Ok? && r.value.Some? <==> Host(s).Ok? && forall i :: 0 <= i < |Host(s).value.components.keys| ==>
      PowerCurrent(Host(s).value.components.vals[Host(s).value.components.keys[i]]).Ok?
    ensures r.Err? ==> r.error in {AttributeError, KeyError, TypeError}
  {
    var host :- Host(s);
    AllPowerOf(host.components.keys, host.components.vals)
  }

  /** What `get_child_consumption` returns: None, the dict of per-plug readings, or
      one plug's reading. */
  datatype Consumption = NoMetering | PerPlug(watts: map<string, Json>) | Watts(value: Json)

  /** `get_child_consumption(plug_id)`: "all" gives every host plug, any other id is
      turned into its string and names one host component, whose missing metering is
      not caught. */
  function ChildConsumption(s: DeviceState, plugId: Json): (r: Result<Consumption, PyError>)
    requires StateValid(s)
    ensures plugId == JStr("all") ==>
      (r == Ok(NoMetering) <==> AllPower(s) == Ok(None)) &&
      (r.Ok? && r.value.PerPlug? <==> AllPower(s).Ok? && AllPower(s).value.Some?) &&
      (r.Ok? && r.value.PerPlug? ==> r.value.watts == AllPower(s).value.value)
    ensures plugId != JStr("all") ==>
      (r.Ok? <==> Host(s).Ok? && ComponentAt(Host(s).value, PyStr(plugId)).Ok? &&
                  PowerCurrent(ComponentAt(Host(s).value, PyStr(plugId)).value).Ok?) &&
      (r.Ok? ==> r.value == Watts(PowerCurrent(Host(s).value.components.vals[PyStr(plugId)]).value))
  {
    if plugId == JStr("all") then
      var p :- AllPower(s);
      match p
      case None => Ok(NoMetering)
      case Some(m) => Ok(PerPlug(m))
    else
      var host :- Host(s);
      var c :- ComponentAt(host, PyStr(plugId));
      var w :- PowerCurrent(c);
      Ok(Watts(w))
  }

  /** The watts a numeric reading stands for: an integer its value, a boolean 0 or 1
      (Python's `bool` is an `int`). Other readings stand for nothing. */
  function ReadingWatts(w: Json): int {
    match w
    case JInt(n) => n
    case JBool(b) => if b then 1 else 0
    case _ => 0
  }

  /** The watts of a sequence of readings, summed from the last one back. */
  function WattsTotal(ws: seq<Json>): int {
    if ws == [] then 0 else WattsTotal(ws[..|ws| - 1]) + ReadingWatts(ws[|ws| - 1])
  }

  /** `WattsTotal` taken from the front: the first reading plus the rest. */
  lemma {:induction false} WattsTotalFront(ws: seq<Json>)
    requires ws != []
    ensures WattsTotal(ws) == ReadingWatts(ws[0]) + WattsTotal(ws[1..])
    decreases |ws|
  {
    if |ws| > 1 {
      var init := ws[..|ws| - 1];
      WattsTotalFront(init);
      assert init[1..] == ws[1..][..|ws[1..]| - 1];
      assert ws[1..][|ws[1..]| - 1] == ws[|ws| - 1];
    } else {
      assert ws[..0] == [] && ws[1..] == [];
    }
  }

  /** The power readings of the plugs `ids`, in order; a plug whose reading cannot be
      read stands as None. */
  function PlugReadings(ids: seq<string>, comps: map<string, Component>): (ws: seq<Json>)
    requires forall i :: 0 <= i < |ids| ==> ids[i] in comps
    ensures |ws| == |ids|
    ensures forall i :: 0 <= i < |ids| && PowerCurrent(comps[ids[i]]).Ok? ==> ws[i] == PowerCurrent(comps[ids[i]]).value
  {
    if ids == [] then []
    else
      var w := match PowerCurrent(comps[ids[0]]) case Ok(w) => w case Err(_) => JNull;
      assert forall i :: 1 <= i < |ids| ==> ids[1..][i - 1] == ids[i];
      [w] + PlugReadings(ids[1..], comps)
  }

  /** The plug's power reading can be read and added to the total. */
  predicate NumericReading(c: Component) {
    PowerCurrent(c).Ok? && AddReading(0, PowerCurrent(c).value).Ok?
  }

  /** `total_consumption += reading`: integers add, booleans count as 0 or 1, and any
      other reading (None, a string, a list, a dict) is a TypeError. */
  function AddReading(acc: int, w: Json): (r: Result<int, PyError>)
    ensures r.Ok? <==> w.JInt? || w.JBool?
    ensures r.Err? ==> r.error == TypeError
    ensures w.JInt? ==> r == Ok(acc + w.n)
    ensures w.JBool? ==> r == Ok(acc + if w.b then 1 else 0)
    ensures r.Ok? ==> r.value == acc + ReadingWatts(w)
  {
    match w
    case JInt(n) => Ok(acc + n)
    case JBool(b) => Ok(acc + if b then 1 else 0)
    case _ => Err(TypeError)
  }

  /** The loop of `total_consumption` over the host components `ids`. No failure is
      caught; when every plug has a numeric reading the loop adds all of them. */
  function SumPower(ids: seq<string>, comps: map<string, Component>, acc: int): (r: Result<int, PyError>)
    requires forall i :: 0 <= i < |ids| ==> ids[i] in comps
    ensures r.Ok? <==> forall i :: 0 <= i < |ids| ==>
      NumericReading(comps[ids[i]])
    ensures r.Ok? ==> r.value == acc + WattsTotal(PlugReadings(ids, comps))
    ensures r.Err? ==> r.error == KeyError || r.error == TypeError
  {
    if ids == [] then Ok(acc)
    else
      var w :- PowerCurrent(comps[ids[0]]);
      var acc' :- AddReading(acc, w);
      SumPowerStep(ids, comps, w);
      SumPower(ids[1..], comps, acc')
  }

  /** The first plug's reading followed by the others'. */
  lemma SumPowerStep(ids: seq<string>, comps: map<string, Component>, w: Json)
    requires ids != [] && forall i :: 0 <= i < |ids| ==> ids[i] in comps
    requires PowerCurrent(comps[ids[0]]) == Ok(w)
    ensures forall i :: 0 <= i < |ids[1..]| ==> ids[1..][i] in comps
    ensures (forall i :: 0 <= i < |ids| ==> NumericReading(comps[ids[i]])) <==>
      NumericReading(comps[ids[0]]) && forall i :: 0 <= i < |ids[1..]| ==> NumericReading(comps[ids[1..][i]])
    ensures WattsTotal(PlugReadings(ids, comps)) == ReadingWatts(w) + WattsTotal(PlugReadings(ids[1..], comps))
  {
    assert forall i :: 1 <= i < |ids| ==> ids[1..][i - 1] == ids[i];
    PlugReadingsFront(ids, comps, w);
  }

  lemma PlugReadingsFront(ids: seq<string>, comps: map<string, Component>, w: Json)
    requires ids != [] && forall i :: 0 <= i < |ids| ==> ids[i] in comps
    requires forall i :: 0 <= i < |ids[1..]| ==> ids[1..][i] in comps
    requires PowerCurrent(comps[ids[0]]) == Ok(w)
    ensures WattsTotal(PlugReadings(ids, comps)) == ReadingWatts(w) + WattsTotal(PlugReadings(ids[1..], comps))
  {
    var ws := PlugReadings(ids, comps);
    assert ws == [w] + PlugReadings(ids[1..], comps);
    WattsTotalFront(ws);
    assert ws[1..] == PlugReadings(ids[1..], comps);
  }

  /** `total_consumption()` */
  function TotalConsumption(s: DeviceState): (r: Result<int, PyError>)
    requires StateValid(s)
    ensures r.Ok? <==> Host(s).Ok? && forall i :: 0 <= i < |Host(s).value.components.keys| ==>
      var w := PowerCurrent(Host(s).value.components.vals[Host(s).value.components.keys[i]]);
      w.Ok? && (w.value.JInt? || w.value.JBool?)
    ensures r.Ok? ==> r.value == WattsTotal(PlugReadings(Host(s).value.components.keys, Host(s).value.components.vals))
    ensures r.Err? ==> r.error in {AttributeError, KeyError, TypeError}
  {
    var host :- Host(s);
    SumPower(host.components.keys, host.components.vals, 0)
  }

  /** The per-plug view's readings taken plug by plug, in host order. */
  function PerPlugReadings(ids: seq<string>, m: map<string, Json>): (ws: seq<Json>)
    requires forall i :: 0 <= i < |ids| ==> PowerKey(ids[i]) in m
    ensures |ws| == |ids| && forall i :: 0 <= i < |ids| ==> ws[i] == m[PowerKey(ids[i])]
  {
    seq(|ids|, i requires 0 <= i < |ids| => m[PowerKey(ids[i])])
  }

  /** Every plug has a numeric reading exactly when the per-plug view lists all plugs
      and each listed reading is numeric. */
  lemma PerPlugNumeric(ids: seq<string>, comps: map<string, Component>)
    requires forall i :: 0 <= i < |ids| ==> ids[i] in comps
    ensures
      (forall i :: 0 <= i < |ids| ==>
         NumericReading(comps[ids[i]]))
      <==>
      (&& AllPowerOf(ids, comps).Ok? && AllPowerOf(ids, comps).value.Some?
       && forall k :: k in AllPowerOf(ids, comps).value.value ==>
            AllPowerOf(ids, comps).value.value[k].JInt? || AllPowerOf(ids, comps).value.value[k].JBool?)
  {
    var r := AllPowerOf(ids, comps);
    if r.Ok? && r.value.Some? {
      var m := r.value.value;
      if forall i :: 0 <= i < |ids| ==>
           NumericReading(comps[ids[i]]) {
        forall k | k in m ensures m[k].JInt? || m[k].JBool? {
          var i :| 0 <= i < |ids| && k == PowerKey(ids[i]);
        }
      }
      if forall k :: k in m ==> m[k].JInt? || m[k].JBool? {
        forall i | 0 <= i < |ids| ensures AddReading(0, PowerCurrent(comps[ids[i]]).value).Ok? {
          assert PowerKey(ids[i]) in m;
        }
      }
    }
  }

  /** The total succeeds exactly when the per-plug view lists every host plug with a
      numeric reading. When the per-plug view is None the total raises: KeyError at
      the unmetered plug, or TypeError at an earlier non-numeric reading. */
  lemma TotalAgreesWithPerPlug(s: DeviceState)
    requires StateValid(s)
    ensures TotalConsumption(s).Ok? <==>
      && AllPower(s).Ok? && AllPower(s).value.Some?
      && forall k :: k in AllPower(s).value.value ==>
           AllPower(s).value.value[k].JInt? || AllPower(s).value.value[k].JBool?
    ensures AllPower(s) == Ok(None) ==> TotalConsumption(s).Err?
    ensures TotalConsumption(s).Ok? ==>
      TotalConsumption(s).value == WattsTotal(PerPlugReadings(Host(s).value.components.keys, AllPower(s).value.value))
  {
    if Host(s).Ok? {
      var host := Host(s).value;
      PerPlugNumeric(host.components.keys, host.components.vals);
      if AllPower(s).Ok? && AllPower(s).value.Some? {
        PerPlugAgrees(host.components.keys, host.components.vals, AllPower(s).value.value);
      }
      if AllPower(s) == Ok(None) {
        SumPowerStopsAtUnmetered(host.components.keys, host.components.vals, 0);
      }
    }
  }

  /** When every plug is metered, the per-plug view holds each plug's own reading. */
  lemma PerPlugAgrees(ids: seq<string>, comps: map<string, Component>, m: map<string, Json>)
    requires forall i :: 0 <= i < |ids| ==> ids[i] in comps
    requires AllPowerOf(ids, comps) == Ok(Some(m))
    ensures PlugReadings(ids, comps) == PerPlugReadings(ids, m)
  {
  }

  /** The total raises KeyError at the first unmetered plug when every earlier plug
      has a numeric reading; and if an earlier plug's reading is not numeric it raises
      TypeError there instead. Either way it raises. */
  lemma {:induction false} SumPowerStopsAtUnmetered(ids: seq<string>, comps: map<string, Component>, acc: int)
    requires forall i :: 0 <= i < |ids| ==> ids[i] in comps
    requires AllPowerOf(ids, comps) == Ok(None)
    ensures SumPower(ids, comps, acc).Err?
    ensures (forall i :: 0 <= i < |ids| && PowerCurrent(comps[ids[i]]).Ok? ==>
               AddReading(0, PowerCurrent(comps[ids[i]]).value).Ok?) ==>
            SumPower(ids, comps, acc) == Err(KeyError)
    decreases |ids|
  {
    var w := PowerCurrent(comps[ids[0]]);
    if w.Ok? {
      assert forall i :: 1 <= i < |ids| ==> ids[1..][i - 1] == ids[i];
      if AddReading(acc, w.value).Ok? {
        SumPowerStopsAtUnmetered(ids[1..], comps, AddReading(acc, w.value).value);
      }
    }
  }

  // ---------------------------------------------------------------------------
  // realtime_values and hw_info

  /** `get_function_values` of each feature in turn, stopping at the first that raises. */
  function FeatureValues(s: DeviceState, feats: seq<string>): (r: Result<seq<map<string, Json>>, PyError>)
    requires StateValid(s)
    ensures r.Ok? <==> forall i :: 0 <= i < |feats| ==> FunctionValues(s, feats[i]).Ok?
    ensures r.Ok? ==> |r.value| == |feats| && forall i :: 0 <= i < |feats| ==> FunctionValues(s, feats[i]) == Ok(r.value[i])
  {
    if feats == [] then Ok([])
    else
      var m :- FunctionValues(s, feats[0]);
      var rest :- FeatureValues(s, feats[1..]);
      assert forall i :: 1 <= i < |feats| ==> feats[1..][i - 1] == feats[i];
      Ok([m] + rest)
  }

  /** No feature contributes a `toggle` reading. */
  lemma ReadingsOmitToggle(s: DeviceState, feats: seq<string>)
    requires StateValid(s) && FeatureValues(s, feats).Ok?
    ensures "toggle" !in MergeAll(FeatureValues(s, feats).value)
  {
    var perFeature := FeatureValues(s, feats).value;
    MergeAllKeys(perFeature);
    forall i | 0 <= i < |perFeature| ensures "toggle" !in perFeature[i] {
      assert FunctionValues(s, feats[i]) == Ok(perFeature[i]);
    }
  }

  /** The tail of `realtime_values`: `rssi` is written over the readings, and the
      per-plug power readings over both when there are any (updating with an empty
      dict changes nothing, so the emptiness test needs no case of its own). */
  function WithRssiAndPower(readings: map<string, Json>, rssi: Json, power: Option<map<string, Json>>): (r: map<string, Json>)
    ensures forall k :: k in r <==> k == "rssi" || k in readings || (power.Some? && k in power.value)
    ensures power.Some? ==> forall k :: k in power.value ==> r[k] == power.value[k]
    ensures power.None? || "rssi" !in power.value ==> r["rssi"] == rssi
    ensures forall k :: k in readings && k != "rssi" && !(power.Some? && k in power.value) ==> r[k] == readings[k]
  {
    var withRssi := readings["rssi" := rssi];
    if power.Some? then withRssi + power.value else withRssi
  }

  /** `realtime_values`: every feature's readings merged in feature order (a later
      feature's function replacing an earlier one's), then `rssi`, then the per-plug
      power readings when there are any. */
  function RealtimeValues(s: DeviceState): (r: Result<map<string, Json>, PyError>)
    requires StateValid(s)
    ensures r.Ok? <==>
      && Features(s).Ok? && FeatureValues(s, Features(s).value).Ok?
      && s.rssi.Some? && AllPower(s).Ok?
  {
    var feats :- Features(s);
    var perFeature :- FeatureValues(s, feats);
    var rssi :- Attr(s.rssi);
    var power :- AllPower(s);
    Ok(WithRssiAndPower(MergeAll(perFeature), rssi, power))
  }

  /** The realtime values always report rssi as the device last saw it, never report
      toggle, and report every per-plug power reading. */
  lemma RealtimeReportsRssi(s: DeviceState)
    requires StateValid(s) && RealtimeValues(s).Ok?
    ensures "rssi" in RealtimeValues(s).value && RealtimeValues(s).value["rssi"] == s.rssi.value
    ensures "toggle" !in RealtimeValues(s).value
    ensures AllPower(s).value.Some? ==> forall k :: k in AllPower(s).value.value ==>
      k in RealtimeValues(s).value && RealtimeValues(s).value[k] == AllPower(s).value.value[k]
  {
    var feats := Features(s).value;
    var power := AllPower(s).value;
    ReadingsOmitToggle(s, feats);
    if power.Some? {
      PowerKeysAreNotReadings(Host(s).value.components.keys, Host(s).value.components.vals, power.value);
    }
  }

  /** Every insert reading that no later feature reports again and that is neither
      `rssi` nor a per-plug power key is reported as that feature read it. */
  lemma RealtimeReportsReadings(s: DeviceState, i: nat, k: string)
    requires StateValid(s) && RealtimeValues(s).Ok?
    requires i < |Features(s).value| && k in FunctionValues(s, Features(s).value[i]).value
    requires forall j :: i < j < |Features(s).value| ==> k !in FunctionValues(s, Features(s).value[j]).value
    requires k != "rssi" && !(AllPower(s).value.Some? && k in AllPower(s).value.value)
    ensures k in RealtimeValues(s).value
    ensures RealtimeValues(s).value[k] == FunctionValues(s, Features(s).value[i]).value[k]
  {
    var feats := Features(s).value;
    var perFeature := FeatureValues(s, feats).value;
    assert FunctionValues(s, feats[i]) == Ok(perFeature[i]);
    forall j | i < j < |perFeature| ensures k !in perFeature[j] {
      assert FunctionValues(s, feats[j]) == Ok(perFeature[j]);
    }
    MergeAllLastWins(perFeature, k, i);
  }

  /** Every per-plug key starts with `power_`, so none is `rssi` or `toggle`. */
  lemma PowerKeysAreNotReadings(ids: seq<string>, comps: map<string, Component>, m: map<string, Json>)
    requires forall i :: 0 <= i < |ids| ==> ids[i] in comps
    requires AllPowerOf(ids, comps) == Ok(Some(m))
    ensures forall k :: k in m ==> |k| >= 6 && k[..6] == "power_" && k != "rssi" && k != "toggle"
  {
    forall k | k in m ensures |k| >= 6 && k[..6] == "power_" && k != "rssi" && k != "toggle" {
      var i :| 0 <= i < |ids| && k == PowerKey(ids[i]);
      assert |"rssi"| == 4;
      assert "toggle"[..6] != "power_" by { assert "toggle"[0] != "power_"[0]; }
    }
  }

  /** `hw_info`: eight attributes read in turn; the only way it can fail is an
      attribute that was never assigned. */
  function HwInfo(s: DeviceState): (r: Result<map<string, Json>, PyError>)
    ensures r.Ok? <==>
      && s.version.Some? && s.macAddress.Some? && s.deviceType.Some? && s.id.Some?
      && s.model.Some? && s.insertType.Some? && s.assemblies.Some? && s.rssi.Some?
    ensures r.Err? ==> r.error == AttributeError
    ensures r.Ok? ==>
      && r.value.Keys == {"version", "mac_address", "type", "id", "model", "insert_type", "features", "rssi"}
      && r.value["version"] == s.version.value && r.value["mac_address"] == s.macAddress.value
      && r.value["id"] == s.id.value && r.value["model"] == s.model.value
      && r.value["type"] == s.deviceType.value && r.value["insert_type"] == s.insertType.value
      && r.value["features"] == JArr(KeyStrs(Features(s).value))
      && r.value["rssi"] == s.rssi.value
  {
    var version :- Attr(s.version);
    var mac :- Attr(s.macAddress);
    var deviceType :- Attr(s.deviceType);
    var id :- Attr(s.id);
    var model :- Attr(s.model);
    var insertType :- Attr(s.insertType);
    var feats :- Features(s);
    var rssi :- Attr(s.rssi);
    Ok(map["version" := version, "mac_address" := mac, "type" := deviceType, "id" := id, "model" := model,
           "insert_type" := insertType, "features" := JArr(KeyStrs(feats)), "rssi" := rssi])
  }

  /** Once a summary and a state payload carrying rssi have been processed, the
      hardware description is available and its types are the assemblies' types. */
  lemma HwInfoAfterUpdate(s: DeviceState)
    requires StateValid(s) && s.assemblies.Some? && s.rssi.Some?
    ensures HwInfo(s).Ok?
    ensures HwInfo(s).value["type"] == s.assemblies.value["host"].kind
    ensures HwInfo(s).value["insert_type"] == s.assemblies.value["insert"].kind
  {
  }

  // ---------------------------------------------------------------------------
  // Device-type predicates

  /** `is_outlet`: the device type names one of the two outlets. */
  function IsOutlet(s: DeviceState): (r: Result<bool, PyError>)
    ensures r.Ok? <==> s.deviceType.Some?
    ensures r.Ok? ==> (r.value <==> s.deviceType.value in {JStr("outlet"), JStr("outlet_20a")})
    ensures r.Err? ==> r.error == AttributeError
  {
    var t :- Attr(s.deviceType);
    Ok(t == JStr("outlet") || t == JStr("outlet_20a"))
  }

  /** `is_switch`: the device type names a switch or a relay switch. */
  function IsSwitch(s: DeviceState): (r: Result<bool, PyError>)
    ensures r.Ok? <==> s.deviceType.Some?
    ensures r.Ok? ==> (r.value <==> s.deviceType.value in {JStr("switch"), JStr("relay_switch")})
    ensures r.Err? ==> r.error == AttributeError
  {
    var t :- Attr(s.deviceType);
    Ok(t == JStr("switch") || t == JStr("relay_switch"))
  }

  /** `is_pana_switch` */
  function IsPanaSwitch(s: DeviceState): (r: Result<bool, PyError>)
    ensures r.Ok? <==> s.deviceType.Some?
    ensures r.Ok? ==> (r.value <==> s.deviceType.value in {JStr("pana_switch")})
    ensures r.Err? ==> r.error == AttributeError
  {
    var t :- Attr(s.deviceType);
    Ok(t == JStr("pana_switch"))
  }

  /** `is_dimmer` */
  function IsDimmer(s: DeviceState): (r: Result<bool, PyError>)
    ensures r.Ok? <==> s.deviceType.Some?
    ensures r.Ok? ==> (r.value <==> s.deviceType.value in {JStr("dimmer")})
    ensures r.Err? ==> r.error == AttributeError
  {
    var t :- Attr(s.deviceType);
    Ok(t == JStr("dimmer"))
  }

  /** The predicates answer exactly when the device type is known, and at most one
      of them holds. */
  lemma DeviceClassesExclusive(s: DeviceState)
    ensures IsOutlet(s).Ok? <==> s.deviceType.Some?
    ensures IsSwitch(s).Ok? <==> s.deviceType.Some?
    ensures IsPanaSwitch(s).Ok? <==> s.deviceType.Some?
    ensures IsDimmer(s).Ok? <==> s.deviceType.Some?
    ensures s.deviceType.Some? ==>
      var answers := [IsOutlet(s).value, IsSwitch(s).value, IsPanaSwitch(s).value, IsDimmer(s).value];
      forall i, j :: 0 <= i < j < 4 && answers[i] ==> !answers[j]
  {
  }
}
