/** The observable state of a `SwidgetDevice` and what each of its state-changing
    operations does to it, as pure step functions. An attribute the Python object has
    never been assigned is `None` here; reading it raises AttributeError. The clock
    reading and every fetched payload are parameters. */
module DeviceModel {
  import opened Wrappers
  import opened Dicts
  import opened JsonValues
  import opened DeviceTree

  datatype DeviceState = DeviceState(
    useWebsockets: bool,
    friendlyName: Json,
    lastUpdate: Option<int>,
    model: Option<Json>,
    macAddress: Option<Json>,
    version: Option<Json>,
    assemblies: Option<Tree>,
    deviceType: Option<Json>,
    insertType: Option<Json>,
    id: Option<Json>,
    rssi: Option<Json>)

  /** Once the device has a tree, the tree has exactly the `host` and `insert`
      assemblies, the identity attributes have been assigned, the type attributes agree
      with the assemblies, and the device has been stamped. */
  ghost predicate StateValid(s: DeviceState) {
    s.assemblies.Some? ==>
      && TreeValid(s.assemblies.value)
      && s.model.Some? && s.macAddress.Some? && s.version.Some?
      && s.deviceType == Some(s.assemblies.value["host"].kind)
      && s.insertType == Some(s.assemblies.value["insert"].kind)
      && s.id == Some(s.assemblies.value["host"].id)
      && s.lastUpdate.Some?
  }

  const UnknownName: string := "Unknown Swidget Device"

  /** A device as its constructor leaves it: a placeholder name and no update yet. */
  function Initial(useWebsockets: bool): (s: DeviceState)
    ensures StateValid(s) && s.assemblies.None? && s.lastUpdate.None? && s.rssi.None?
  {
    DeviceState(useWebsockets, JStr(UnknownName), None, None, None, None, None, None, None, None, None)
  }

  /** Reading an attribute of the device object. */
  function Attr(o: Option<Json>): Result<Json, PyError> {
    match o
    case Some(v) => Ok(v)
    case None => Err(AttributeError)
  }

  /** How an operation ends: normally, by handing a frame to the websocket, or by
      letting an exception escape. */
  datatype Outcome = Done | Sent(frame: Json) | Raised(error: PyError)

  datatype Step = Step(state: DeviceState, out: Outcome)

  // ---------------------------------------------------------------------------
  // process_summary

  /** `SwidgetAssembly(summary[name])` */
  function AssemblyOf(summary: Json, name: string): Result<Assembly, PyError> {
    var x :- Index(summary, name);
    BuildAssembly(x)
  }

  /** `process_summary`: the attributes are assigned one after the other, so a
      failure keeps whatever was assigned before it. The tree, the type attributes and
      the timestamp are only assigned once both assemblies have been built. */
  function SummaryStep(s: DeviceState, summary: Json, now: int): (st: Step)
    ensures !st.out.Sent?
    ensures st.state.useWebsockets == s.useWebsockets && st.state.friendlyName == s.friendlyName
    ensures st.state.rssi == s.rssi
    ensures st.out.Raised? ==>
      st.state.assemblies == s.assemblies && st.state.lastUpdate == s.lastUpdate && st.state.deviceType == s.deviceType
  {
    match Index(summary, "model")
    case Err(e) => Step(s, Raised(e))
    case Ok(model) =>
      var s1 := s.(model := Some(model));
      match Index(summary, "mac")
      case Err(e) => Step(s1, Raised(e))
      case Ok(mac) =>
        var s2 := s1.(macAddress := Some(mac));
        match Index(summary, "version")
        case Err(e) => Step(s2, Raised(e))
        case Ok(version) =>
          AssembliesStep(s2.(version := Some(version)), summary, now)
  }

  /** The rest of `process_summary`: both assemblies are built before the tree, the type
      attributes and the stamp are assigned. */
  function AssembliesStep(s: DeviceState, summary: Json, now: int): Step {
    match AssemblyOf(summary, "host")
    case Err(e) => Step(s, Raised(e))
    case Ok(host) =>
      match AssemblyOf(summary, "insert")
      case Err(e) => Step(s, Raised(e))
      case Ok(insert) =>
        Step(s.(assemblies := Some(map["host" := host, "insert" := insert]), deviceType := Some(host.kind),
                insertType := Some(insert.kind), id := Some(host.id), lastUpdate := Some(now)), Done)
  }

  /** What `process_summary` promises: it completes exactly when every part of the summary
      is present and well formed, and then holds the new tree and identity; a failure
      leaves the tree, the type attributes and the stamp as they were. */
  lemma SummaryStepSpec(s: DeviceState, summary: Json, now: int)
    ensures !SummaryStep(s, summary, now).out.Sent?
    ensures SummaryStep(s, summary, now).out.Done? <==>
      && Index(summary, "model").Ok? && Index(summary, "mac").Ok? && Index(summary, "version").Ok?
      && AssemblyOf(summary, "host").Ok? && AssemblyOf(summary, "insert").Ok?
    ensures
      var st := SummaryStep(s, summary, now);
      st.out.Done? ==>
        && StateValid(st.state)
        && st.state.assemblies.Some?
        && st.state.assemblies.value["host"] == AssemblyOf(summary, "host").value
        && st.state.assemblies.value["insert"] == AssemblyOf(summary, "insert").value
        && st.state.model == Some(Index(summary, "model").value)
        && st.state.macAddress == Some(Index(summary, "mac").value)
        && st.state.version == Some(Index(summary, "version").value)
        && st.state.lastUpdate == Some(now)
    ensures
      var st := SummaryStep(s, summary, now);
      st.out.Raised? ==>
        && st.state.assemblies == s.assemblies && st.state.lastUpdate == s.lastUpdate
        && st.state.deviceType == s.deviceType && st.state.insertType == s.insertType && st.state.id == s.id
    ensures
      var st := SummaryStep(s, summary, now);
      && st.state.useWebsockets == s.useWebsockets && st.state.friendlyName == s.friendlyName
      && st.state.rssi == s.rssi
    ensures StateValid(s) ==> StateValid(SummaryStep(s, summary, now).state)
  {
    if Index(summary, "model").Ok? && Index(summary, "mac").Ok? && Index(summary, "version").Ok? {
      var s3 := s.(model := Some(Index(summary, "model").value), macAddress := Some(Index(summary, "mac").value),
                   version := Some(Index(summary, "version").value));
      assert SummaryStep(s, summary, now) == AssembliesStep(s3, summary, now);
      AssembliesStepSpec(s3, summary, now);
    }
  }

  /** The second half of `process_summary` either assigns a whole well-formed tree with
      the attributes read off it, or changes nothing. */
  lemma AssembliesStepSpec(s: DeviceState, summary: Json, now: int)
    requires s.model.Some? && s.macAddress.Some? && s.version.Some?
    ensures
      var st := AssembliesStep(s, summary, now);
      && !st.out.Sent?
      && (st.out.Done? <==> AssemblyOf(summary, "host").Ok? && AssemblyOf(summary, "insert").Ok?)
      && (st.out.Raised? ==> st.state == s)
      && (st.out.Done? ==>
        && StateValid(st.state)
        && st.state == s.(assemblies := st.state.assemblies, deviceType := st.state.deviceType,
                          insertType := st.state.insertType, id := st.state.id, lastUpdate := Some(now))
        && st.state.assemblies.Some?
        && st.state.assemblies.value["host"] == AssemblyOf(summary, "host").value
        && st.state.assemblies.value["insert"] == AssemblyOf(summary, "insert").value)
  {
    if AssemblyOf(summary, "host").Ok? && AssemblyOf(summary, "insert").Ok? {
      var t := map["host" := AssemblyOf(summary, "host").value, "insert" := AssemblyOf(summary, "insert").value];
      assert t.Keys == {"host", "insert"};
      assert TreeValid(t);
    }
  }

  /** A summary wipes every known function value: each cell of the new tree is None. */
  lemma SummaryResetsValues(s: DeviceState, summary: Json, now: int)
    requires SummaryStep(s, summary, now).out.Done?
    ensures
      var t := SummaryStep(s, summary, now).state.assemblies.value;
      forall a, id, f :: FunctionAt(t, a, id, f).Ok? ==> FunctionAt(t, a, id, f) == Ok(JNull)
  {
    SummaryStepSpec(s, summary, now);
    var t := SummaryStep(s, summary, now).state.assemblies.value;
    BuildAssemblyValuesUnknown(Index(summary, "host").value);
    BuildAssemblyValuesUnknown(Index(summary, "insert").value);
    assert t.Keys == {"host", "insert"};
  }

  // ---------------------------------------------------------------------------
  // process_state

  /** `state["connection"]["rssi"]` */
  function RssiOf(state: Json): Result<Json, PyError> {
    var c :- Index(state, "connection");
    Index(c, "rssi")
  }

  /** `process_state`: rssi is taken from the payload when it has one (any failure is
      swallowed), then every component of the tree is merged with its fragment, then
      the device is stamped. Without a tree the loop raises AttributeError, after rssi
      has been assigned. The reads of `host` and `insert` after the stamp cannot raise
      here: every tree a valid state holds has both assemblies. */
  function StateStep(s: DeviceState, state: Json, now: int): (st: Step)
    ensures st.out.Done? <==> s.assemblies.Some?
    ensures st.out.Raised? ==> st.out.error == AttributeError
    ensures st.state.rssi == if RssiOf(state).Ok? then Some(RssiOf(state).value) else s.rssi
    ensures st.out.Done? ==>
      st.state == s.(rssi := st.state.rssi, lastUpdate := Some(now),
                     assemblies := Some(MergeTree(s.assemblies.value, state)))
    ensures st.out.Raised? ==> st.state == s.(rssi := st.state.rssi)
    ensures StateValid(s) ==> StateValid(st.state)
  {
    var s1 := match RssiOf(state)
      case Ok(r) => s.(rssi := Some(r))
      case Err(_) => s;
    match s1.assemblies
    case None => Step(s1, Raised(AttributeError))
    case Some(t) => Step(s1.(assemblies := Some(MergeTree(t, state)), lastUpdate := Some(now)), Done)
  }

  /** Processing the same state payload twice leaves the device as processing it once
      (with the same clock reading). */
  lemma StateStepIdempotent(s: DeviceState, state: Json, now: int)
    ensures
      var once := StateStep(s, state, now);
      StateStep(once.state, state, now) == once
  {
    if s.assemblies.Some? {
      MergeIdempotent(s.assemblies.value, state);
    }
  }

  // ---------------------------------------------------------------------------
  // message_callback

  /** `message_callback`: the `request_id` tag selects the handler. */
  function MessageStep(s: DeviceState, message: Json, now: int): (st: Step)
    ensures Index(message, "request_id").Err? ==> st == Step(s, Raised(Index(message, "request_id").error))
    ensures Index(message, "request_id") == Ok(JStr("summary")) ==> st == SummaryStep(s, message, now)
    ensures Index(message, "request_id") in {Ok(JStr("state")), Ok(JStr("DYNAMIC_UPDATE")), Ok(JStr("command"))} ==>
      st == StateStep(s, message, now)
    ensures
      (Index(message, "request_id").Ok? &&
       Index(message, "request_id").value !in {JStr("summary"), JStr("state"), JStr("DYNAMIC_UPDATE"), JStr("command")})
      ==> st == Step(s, Done)
    ensures !st.out.Sent?
    ensures StateValid(s) ==> StateValid(st.state)
    ensures s.lastUpdate.Some? ==> st.state.lastUpdate.Some?
  {
    match Index(message, "request_id")
    case Err(e) => Step(s, Raised(e))
    case Ok(tag) =>
      if tag == JStr("summary") then
        SummaryStepSpec(s, message, now);
        SummaryStep(s, message, now)
      else if tag == JStr("state") || tag == JStr("DYNAMIC_UPDATE") || tag == JStr("command") then
        StateStep(s, message, now)
      else Step(s, Done)
  }

  // ---------------------------------------------------------------------------
  // send_command and send_config

  /** `{assembly: {"components": {component: {function: command}}}}` */
  function CommandBody(a: string, c: string, f: string, command: Json): Json {
    Obj([(a, Obj([("components", Obj([(c, Obj([(f, command)]))]))]))])
  }

  /** A websocket frame `{"type": kind, "request_id": requestId, "payload": payload}`,
      before JSON serialisation. */
  function Frame(kind: string, requestId: string, payload: Json): Json {
    Obj([("type", JStr(kind)), ("request_id", JStr(requestId)), ("payload", payload)])
  }

  /** A frame has exactly the keys type, request_id and payload, in that order, and
      carries each of its parts unchanged. */
  lemma FrameShape(kind: string, requestId: string, payload: Json)
    ensures
      var frame := Frame(kind, requestId, payload);
      && frame.fields.keys == ["type", "request_id", "payload"]
      && Index(frame, "type") == Ok(JStr(kind))
      && Index(frame, "request_id") == Ok(JStr(requestId))
      && Index(frame, "payload") == Ok(payload)
  {
    ObjTriple("type", JStr(kind), "request_id", JStr(requestId), "payload", payload);
    var vals := map["type" := JStr(kind), "request_id" := JStr(requestId), "payload" := payload];
    assert Frame(kind, requestId, payload) == JObj(Dict(["type", "request_id", "payload"], vals));
  }

  /** The frame `send_command` hands to the websocket. */
  function CommandFrame(a: string, c: string, f: string, command: Json): Json {
    Frame("command", "command", CommandBody(a, c, f, command))
  }

  /** The frame `send_config` hands to the websocket. */
  function ConfigFrame(payload: Json): Json {
    Frame("config", "abcd", payload)
  }

  /** Reading a command body along its own path: each level is a one-entry dict. */
  lemma CommandBodyPath(a: string, c: string, f: string, command: Json)
    ensures Fragment(CommandBody(a, c, f, command), a, c) == Ok(Obj([(f, command)]))
    ensures EchoedValue(CommandBody(a, c, f, command), a, c, f) == Ok(command)
    ensures forall a', c' :: (a', c') != (a, c) ==> Fragment(CommandBody(a, c, f, command), a', c').Err?
  {
    ObjSingle(f, command);
    ObjSingle(c, Obj([(f, command)]));
    ObjSingle("components", Obj([(c, Obj([(f, command)]))]));
    ObjSingle(a, Obj([("components", Obj([(c, Obj([(f, command)]))]))]));
  }

  /** `state[assembly]["components"][component][function]` of the HTTP response. */
  function EchoedValue(response: Json, a: string, c: string, f: string): Result<Json, PyError> {
    var frag :- Fragment(response, a, c);
    Index(frag, f)
  }

  /** `send_command`. With websockets the frame is sent and nothing changes. Over HTTP
      the echoed value is looked up in the response first and then written to the one
      cell; a failed exchange, a response without the value, a device without a tree
      or a missing assembly or component raises and changes nothing. */
  function CommandStep(s: DeviceState, a: string, c: string, f: string, command: Json,
                       response: Result<Json, PyError>): (st: Step)
    ensures s.useWebsockets ==> st == Step(s, Sent(CommandFrame(a, c, f, command)))
    ensures !s.useWebsockets ==> !st.out.Sent?
    ensures st.out.Done? <==>
      && !s.useWebsockets && response.Ok? && EchoedValue(response.value, a, c, f).Ok?
      && s.assemblies.Some? && a in s.assemblies.value && c in s.assemblies.value[a].components.vals
    ensures st.out.Done? ==>
      st.state == s.(assemblies := Some(WriteCell(s.assemblies.value, a, c, f,
                                                   EchoedValue(response.value, a, c, f).value).value))
    ensures !st.out.Done? ==> st.state == s
    ensures StateValid(s) ==> StateValid(st.state)
  {
    if s.useWebsockets then Step(s, Sent(CommandFrame(a, c, f, command)))
    else match response
      case Err(e) => Step(s, Raised(e))
      case Ok(state) =>
        match EchoedValue(state, a, c, f)
        case Err(e) => Step(s, Raised(e))
        case Ok(v) =>
          match s.assemblies
          case None => Step(s, Raised(AttributeError))
          case Some(t) =>
            match WriteCell(t, a, c, f, v)
            case Err(e) => Step(s, Raised(e))
            case Ok(t') => Step(s.(assemblies := Some(t')), Done)
  }

  /** Over HTTP a command changes exactly one cell, to the value the device echoed, and
      leaves the tree's shape and every other attribute alone. */
  lemma HttpCommandWritesOneCell(s: DeviceState, a: string, c: string, f: string, command: Json,
                                 response: Result<Json, PyError>)
    requires CommandStep(s, a, c, f, command, response).out.Done?
    ensures
      var t := s.assemblies.value;
      var t' := CommandStep(s, a, c, f, command, response).state.assemblies.value;
      && FunctionAt(t', a, c, f) == EchoedValue(response.value, a, c, f)
      && (forall a', c', f' :: (a', c', f') != (a, c, f) ==> FunctionAt(t', a', c', f') == FunctionAt(t, a', c', f'))
      && t'.Keys == t.Keys
      && (forall a' :: a' in t ==> t'[a'].components.keys == t[a'].components.keys)
  {
  }

  /** Merging a state payload shaped like a command body for an existing component
      writes the same single cell as the HTTP path does. */
  lemma CommandBodyMergeIsCellWrite(t: Tree, a: string, c: string, f: string, v: Json)
    requires WriteCell(t, a, c, f, v).Ok?
    ensures MergeTree(t, CommandBody(a, c, f, v)) == WriteCell(t, a, c, f, v).value
  {
    CommandBodyPath(a, c, f, v);
    ObjSingle(f, v);
    MergeSingleCell(t, CommandBody(a, c, f, v), a, c, f, v);
  }

  /** `send_config`: only a websocket device has a socket to send on. */
  function ConfigStep(s: DeviceState, payload: Json): (out: Outcome)
    ensures out.Sent? <==> s.useWebsockets
    ensures out.Sent? ==> out.frame == ConfigFrame(payload)
    ensures out.Raised? ==> out.error == AttributeError
  {
    if s.useWebsockets then Sent(ConfigFrame(payload)) else Raised(AttributeError)
  }

  // ---------------------------------------------------------------------------
  // The friendly name

  /** The fallback name `get_friendly_name` builds when the fetch fails. */
  function Placeholder(s: DeviceState): (r: Result<Json, PyError>)
    ensures r.Ok? <==> s.deviceType.Some? && s.insertType.Some?
    ensures r.Err? ==> r.error == AttributeError
    ensures r.Ok? ==>
      && r.value.JStr? && |r.value.s| >= 15
      && r.value.s[..8] == "Swidget " && r.value.s[|r.value.s| - 7..] == " insert"
  {
    var dt :- Attr(s.deviceType);
    var it :- Attr(s.insertType);
    Ok(JStr("Swidget " + PyStr(dt) + " w/" + PyStr(it) + " insert"))
  }

  /** `get_friendly_name` followed by `process_friendly_name`: the fetched document's
      `name`, or the placeholder when the fetch failed. Only the name changes. */
  function FriendlyNameStep(s: DeviceState, fetched: Result<Json, PyError>): (st: Step)
    ensures !st.out.Sent?
    ensures st.state == s.(friendlyName := st.state.friendlyName)
    ensures st.out.Raised? ==> st.state == s
    ensures fetched.Ok? ==> (st.out.Done? <==> Index(fetched.value, "name").Ok?)
    ensures fetched.Ok? && st.out.Done? ==> st.state.friendlyName == Index(fetched.value, "name").value
    ensures fetched.Err? ==> (st.out.Done? <==> s.deviceType.Some? && s.insertType.Some?)
    ensures fetched.Err? && st.out.Raised? ==> st.out.error == AttributeError
  {
    match fetched
    case Ok(doc) =>
      (match Index(doc, "name")
       case Ok(n) => Step(s.(friendlyName := n), Done)
       case Err(e) => Step(s, Raised(e)))
    case Err(_) =>
      match Placeholder(s)
      case Ok(p) => Step(s.(friendlyName := p), Done)
      case Err(e) => Step(s, Raised(e))
  }

  /** Once a summary has been processed, a failed name fetch never raises: the
      placeholder names the host and insert assembly types. */
  lemma FallbackNameFromTree(s: DeviceState, fetched: Result<Json, PyError>)
    requires StateValid(s) && s.assemblies.Some? && fetched.Err?
    ensures
      var t := s.assemblies.value;
      FriendlyNameStep(s, fetched) ==
        Step(s.(friendlyName := JStr("Swidget " + PyStr(t["host"].kind) + " w/" + PyStr(t["insert"].kind) + " insert")), Done)
  {
  }

  // ---------------------------------------------------------------------------
  // update

  /** `update`: summary, then state, then the friendly name, each fetched over HTTP
      and each stopping the sequence when it raises. */
  function UpdateStep(s: DeviceState, summaryFetch: Result<Json, PyError>, summaryClock: int,
                      stateFetch: Result<Json, PyError>, stateClock: int,
                      nameFetch: Result<Json, PyError>): (st: Step)
    ensures !st.out.Sent?
    ensures st.out.Done? ==> st.state.assemblies.Some? && st.state.lastUpdate == Some(stateClock)
    ensures StateValid(s) ==> StateValid(st.state)
    ensures s.lastUpdate.Some? ==> st.state.lastUpdate.Some?
  {
    match summaryFetch
    case Err(e) => Step(s, Raised(e))
    case Ok(summary) =>
      var st1 := SummaryStep(s, summary, summaryClock);
      SummaryStepSpec(s, summary, summaryClock);
      if !st1.out.Done? then st1
      else match stateFetch
        case Err(e) => Step(st1.state, Raised(e))
        case Ok(state) =>
          var st2 := StateStep(st1.state, state, stateClock);
          if !st2.out.Done? then st2 else FriendlyNameStep(st2.state, nameFetch)
  }

  /** With both payloads fetched and a well-formed summary, the update reaches the
      name stage, and a failed name fetch is covered by the placeholder. */
  lemma UpdateWithFailedNameFetch(s: DeviceState, summary: Json, t1: int, state: Json, t2: int,
                                  nameFetch: Result<Json, PyError>)
    requires StateValid(s) && SummaryStep(s, summary, t1).out.Done? && nameFetch.Err?
    ensures UpdateStep(s, Ok(summary), t1, Ok(state), t2, nameFetch).out.Done?
  {
    SummaryStepSpec(s, summary, t1);
    var s2 := StateStep(SummaryStep(s, summary, t1).state, state, t2).state;
    FallbackNameFromTree(s2, nameFetch);
  }

  /** `__repr__`'s check: the device still needs `update()` until it has been stamped. */
  predicate NeedsUpdate(s: DeviceState)
    ensures NeedsUpdate(s) ==> s.assemblies.None? || !StateValid(s)
  {
    s.lastUpdate.None?
  }

  /** A device never goes back to needing an update, whatever message or command it
      processes, and any summary or state it completes stamps it with the clock. */
  lemma StampIsSticky(s: DeviceState, message: Json, now: int, a: string, c: string, f: string,
                      command: Json, response: Result<Json, PyError>, fetched: Result<Json, PyError>)
    requires !NeedsUpdate(s)
    ensures !NeedsUpdate(MessageStep(s, message, now).state)
    ensures !NeedsUpdate(CommandStep(s, a, c, f, command, response).state)
    ensures !NeedsUpdate(FriendlyNameStep(s, fetched).state)
  {
  }

  /** A completed summary or state message stamps the device with the clock reading. */
  lemma MessageStamps(s: DeviceState, message: Json, now: int)
    requires MessageStep(s, message, now).out.Done?
    requires Index(message, "request_id").Ok?
    requires Index(message, "request_id").value in {JStr("summary"), JStr("state"), JStr("DYNAMIC_UPDATE"), JStr("command")}
    ensures MessageStep(s, message, now).state.lastUpdate == Some(now)
    ensures !NeedsUpdate(MessageStep(s, message, now).state)
  {
  }
}
