/** `SwidgetDevice` as an object whose fields its handlers update in place. Each
    method is proved to leave the object in the state, and to end with the outcome,
    that the matching step function of `DeviceModel` describes. */
module Device {
  import opened Wrappers
  import opened Dicts
  import opened JsonValues
  import opened DeviceTree
  import opened DeviceModel

  class SwidgetDevice {
    var useWebsockets: bool
    var friendlyName: Json
    var lastUpdate: Option<int>
    var model: Option<Json>
    var macAddress: Option<Json>
    var version: Option<Json>
    var assemblies: Option<Tree>
    var deviceType: Option<Json>
    var insertType: Option<Json>
    var id: Option<Json>
    var rssi: Option<Json>

    /** The object's attributes as a value. */
    function State(): DeviceState
      reads this
    {
      DeviceState(useWebsockets, friendlyName, lastUpdate, model, macAddress, version, assemblies,
                  deviceType, insertType, id, rssi)
    }

    ghost predicate Valid()
      reads this
    {
      StateValid(State())
    }

    constructor(useWebsockets: bool)
      ensures State() == Initial(useWebsockets) && Valid()
    {
      this.useWebsockets := useWebsockets;
      friendlyName := JStr(UnknownName);
      lastUpdate := None;
      model := None;
      macAddress := None;
      version := None;
      assemblies := None;
      deviceType := None;
      insertType := None;
      id := None;
      rssi := None;
    }

    /** `process_summary` */
    method ProcessSummary(summary: Json, now: int) returns (out: Outcome)
      requires Valid()
      modifies this
      ensures Step(State(), out) == SummaryStep(old(State()), summary, now)
      ensures Valid()
    {
      ghost var s0 := State();
      var m := Index(summary, "model");
      if m.Err? {
        return Raised(m.error);
      }
      model := Some(m.value);
      var mac := Index(summary, "mac");
      if mac.Err? {
        return Raised(mac.error);
      }
      macAddress := Some(mac.value);
      var v := Index(summary, "version");
      if v.Err? {
        return Raised(v.error);
      }
      version := Some(v.value);
      var host := AssemblyOf(summary, "host");
      if host.Err? {
        return Raised(host.error);
      }
      var insert := AssemblyOf(summary, "insert");
      if insert.Err? {
        return Raised(insert.error);
      }
      AssignTree(host.value, insert.value, now);
      out := Done;
      SummaryStepSpec(s0, summary, now);
    }

    /** The tree and the attributes read off it, then the stamp. */
    method AssignTree(host: Assembly, insert: Assembly, now: int)
      modifies this
      ensures State() == old(State()).(assemblies := Some(map["host" := host, "insert" := insert]),
        deviceType := Some(host.kind), insertType := Some(insert.kind), id := Some(host.id),
        lastUpdate := Some(now))
    {
      assemblies := Some(map["host" := host, "insert" := insert]);
      deviceType := Some(host.kind);
      insertType := Some(insert.kind);
      id := Some(host.id);
      lastUpdate := Some(now);
    }

    /** `process_state`: rssi first (any failure swallowed), then the merge loop, then
        the timestamp. Without a tree the loop raises AttributeError. */
    method ProcessState(state: Json, now: int) returns (out: Outcome)
      requires Valid()
      modifies this
      ensures Step(State(), out) == StateStep(old(State()), state, now)
      ensures Valid()
    {
      var r := RssiOf(state);
      if r.Ok? {
        rssi := Some(r.value);
      }
      if assemblies.None? {
        return Raised(AttributeError);
      }
      MergeState(state);
      lastUpdate := Some(now);
      out := Done;
    }

    /** The outer loop of `process_state`: every assembly, in the tree's order. */
    method MergeState(state: Json)
      requires assemblies.Some? && TreeValid(assemblies.value)
      modifies this
      ensures State() == old(State()).(assemblies := Some(MergeTree(old(assemblies.value), state)))
    {
      ghost var before := State();
      ghost var t0 := assemblies.value;
      var names := ["host", "insert"];
      MergeVisitedNone(t0, state, names);
      var i := 0;
      while i < |names|
        invariant 0 <= i <= |names|
        invariant assemblies == Some(MergeVisited(t0, state, names, i))
        invariant State() == before.(assemblies := assemblies)
      {
        MergeVisitedStep(t0, state, names, i);
        MergeAssembly(names[i], state);
        i := i + 1;
      }
      MergeVisitedAll(t0, state, names);
    }

    /** The inner loop of `process_state` for one assembly: each component, in order,
        takes the assignments of its fragment of the payload; a component without a
        fragment is skipped. The components are updated in a local copy that replaces the
        assembly's once the loop is done; nothing observes the tree in between. */
    method MergeAssembly(a: string, state: Json)
      requires assemblies.Some? && a in assemblies.value && Dicts.Valid(assemblies.value[a].components)
      modifies this
      ensures
        var asm := old(assemblies.value[a]);
        State() == old(State()).(assemblies := Some(old(assemblies.value)[a :=
          asm.(components := MergeComponents(a, asm.components, state))]))
    {
      var tree := assemblies.value;
      var asm := tree[a];
      var ids := asm.components.keys;
      var components := asm.components.vals;
      MergeComponentsVisitedNone(a, asm.components, state);
      var j := 0;
      while j < |ids|
        invariant 0 <= j <= |ids|
        invariant components == MergeComponentsVisited(a, asm.components, state, j)
        modifies {}
      {
        MergeComponentsVisitedStep(a, asm.components, state, j);
        var c := ids[j];
        var fragment := Fragment(state, a, c);
        if fragment.Ok? {
          components := components[c := Component(ApplyPairs(components[c].functions, UpdatePairs(fragment.value)))];
        }
        j := j + 1;
      }
      MergeComponentsVisitedAll(a, asm.components, state);
      assert Dict(ids, components) == MergeComponents(a, asm.components, state);
      assemblies := Some(tree[a := asm.(components := Dict(ids, components))]);
    }

    /** `message_callback` */
    method MessageCallback(message: Json, now: int) returns (out: Outcome)
      requires Valid()
      modifies this
      ensures Step(State(), out) == MessageStep(old(State()), message, now)
      ensures Valid()
    {
      var tag := Index(message, "request_id");
      if tag.Err? {
        return Raised(tag.error);
      }
      if tag.value == JStr("summary") {
        out := ProcessSummary(message, now);
      } else if tag.value == JStr("state") || tag.value == JStr("DYNAMIC_UPDATE") || tag.value == JStr("command") {
        out := ProcessState(message, now);
      } else {
        out := Done;
      }
    }

    /** `send_command`, with the HTTP exchange's decoded response (or its failure) as a
        parameter. */
    method SendCommand(a: string, c: string, f: string, command: Json, response: Result<Json, PyError>)
      returns (out: Outcome)
      requires Valid()
      modifies this
      ensures Step(State(), out) == CommandStep(old(State()), a, c, f, command, response)
      ensures Valid()
    {
      if useWebsockets {
        return Sent(CommandFrame(a, c, f, command));
      }
      if response.Err? {
        return Raised(response.error);
      }
      var value := EchoedValue(response.value, a, c, f);
      if value.Err? {
        return Raised(value.error);
      }
      if assemblies.None? {
        return Raised(AttributeError);
      }
      var t := assemblies.value;
      if a !in t || c !in t[a].components.vals {
        return Raised(KeyError);
      }
      var asm := t[a];
      var functions := asm.components.vals[c].functions;
      var updated := Component(Set(functions, f, value.value));
      assemblies := Some(t[a := asm.(components := Dict(asm.components.keys, asm.components.vals[c := updated]))]);
      out := Done;
    }

    /** `send_config` */
    method SendConfig(payload: Json) returns (out: Outcome)
      ensures out == ConfigStep(State(), payload)
    {
      if useWebsockets {
        out := Sent(ConfigFrame(payload));
      } else {
        out := Raised(AttributeError);
      }
    }

    /** `process_friendly_name` */
    method ProcessFriendlyName(name: Json)
      modifies this
      ensures State() == old(State()).(friendlyName := name)
    {
      friendlyName := name;
    }

    /** `get_friendly_name`, with the fetched name document (or the fetch's failure) as a
        parameter. */
    method GetFriendlyName(fetched: Result<Json, PyError>) returns (out: Outcome)
      requires Valid()
      modifies this
      ensures Step(State(), out) == FriendlyNameStep(old(State()), fetched)
      ensures Valid()
    {
      var name: Json;
      if fetched.Ok? {
        name := fetched.value;
      } else {
        var placeholder := Placeholder(State());
        if placeholder.Err? {
          return Raised(placeholder.error);
        }
        name := Obj([("name", placeholder.value)]);
        ObjSingle("name", placeholder.value);
      }
      var n := Index(name, "name");
      if n.Err? {
        return Raised(n.error);
      }
      ProcessFriendlyName(n.value);
      out := Done;
    }

    /** `update`: fetch and process the summary, then the state, then the name. Each
        fetch's decoded payload (or failure) and each clock reading is a parameter. */
    method Update(summaryFetch: Result<Json, PyError>, summaryClock: int,
                  stateFetch: Result<Json, PyError>, stateClock: int,
                  nameFetch: Result<Json, PyError>) returns (out: Outcome)
      requires Valid()
      modifies this
      ensures Step(State(), out) ==
        UpdateStep(old(State()), summaryFetch, summaryClock, stateFetch, stateClock, nameFetch)
      ensures Valid()
    {
      if summaryFetch.Err? {
        return Raised(summaryFetch.error);
      }
      out := ProcessSummary(summaryFetch.value, summaryClock);
      if !out.Done? {
        return;
      }
      if stateFetch.Err? {
        return Raised(stateFetch.error);
      }
      out := ProcessState(stateFetch.value, stateClock);
      if !out.Done? {
        return;
      }
      out := GetFriendlyName(nameFetch);
    }
  }
}
