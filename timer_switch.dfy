/** `SwidgetTimerSwitch`: a `SwidgetDevice` that reads its on/off and timer state off
    host component `0` and insert component `usb`, and acts by sending one command per
    action. The readings are functions of the device state; the actions are methods
    over the device object that go through `SendCommand`. */
module TimerSwitch {
  import opened Wrappers
  import opened Dicts
  import opened JsonValues
  import opened DeviceTree
  import opened DeviceModel
  import opened Queries
  import opened Device

  // ---------------------------------------------------------------------------
  // Readings

  /** Python's `x != 0` for a decoded JSON value: an integer compares by value, a
      boolean as 0 or 1, and None, a string, a list or a dict never equals 0. */
  function PyNonZero(j: Json): (r: bool)
    ensures j.JInt? ==> (r <==> j.n != 0)
    ensures j.JBool? ==> (r <==> j.b)
    ensures !j.JInt? && !j.JBool? ==> r
  {
    match j
    case JInt(n) => n != 0
    case JBool(b) => b
    case _ => true
  }

  /** `self.assemblies[a].components[c].functions[f]` */
  function Cell(s: DeviceState, a: string, c: string, f: string): (r: Result<Json, PyError>)
    ensures r.Ok? <==> s.assemblies.Some? && FunctionAt(s.assemblies.value, a, c, f).Ok?
    ensures r.Ok? ==> r == FunctionAt(s.assemblies.value, a, c, f)
    ensures r.Err? ==> r.error == AttributeError || r.error == KeyError
  {
    var t :- TreeOf(s);
    FunctionAt(t, a, c, f)
  }

  /** The body of `is_on` given the `toggle` and `timer` cells as read: the toggle's
      `state`, the timer's `buttonLevel` and its `buttonTimer` are read in that order,
      and the switch is on when the level is not 0 and the state is "on". */
  function IsOnFrom(toggle: Result<Json, PyError>, timer: Result<Json, PyError>): (r: Result<bool, PyError>)
    ensures r.Ok? <==>
      && toggle.Ok? && Index(toggle.value, "state").Ok?
      && timer.Ok? && Index(timer.value, "buttonLevel").Ok? && Index(timer.value, "buttonTimer").Ok?
    ensures r == Ok(true) <==>
      && r.Ok?
      && Index(toggle.value, "state") == Ok(JStr("on"))
      && PyNonZero(Index(timer.value, "buttonLevel").value)
    ensures toggle.Err? ==> r == Err(toggle.error)
  {
    var t :- toggle;
    var state :- Index(t, "state");
    var tm :- timer;
    var level :- Index(tm, "buttonLevel");
    var _ :- Index(tm, "buttonTimer");
    Ok(PyNonZero(level) && state == JStr("on"))
  }

  /** `is_on` */
  function IsOn(s: DeviceState): (r: Result<bool, PyError>)
    ensures r == Ok(true) <==>
      && Cell(s, "host", "0", "toggle").Ok? && Index(Cell(s, "host", "0", "toggle").value, "state") == Ok(JStr("on"))
      && Cell(s, "host", "0", "timer").Ok? && Index(Cell(s, "host", "0", "timer").value, "buttonTimer").Ok?
      && Index(Cell(s, "host", "0", "timer").value, "buttonLevel").Ok?
      && PyNonZero(Index(Cell(s, "host", "0", "timer").value, "buttonLevel").value)
    ensures r.Err? ==> r.error in {AttributeError, KeyError, TypeError}
  {
    IsOnFrom(Cell(s, "host", "0", "toggle"), Cell(s, "host", "0", "timer"))
  }

  /** `is_pana_switch`: this class answers True whatever the device type. */
  function TimerIsPanaSwitch(s: DeviceState): (r: bool)
    ensures r
  {
    true
  }

  /** `timer_duration`: the host timer's `buttonTimer`; every failure on the way,
      including a device without a tree, is reported as SwidgetException. */
  function TimerDuration(s: DeviceState): (r: Result<Json, PyError>)
    ensures r.Ok? <==> Cell(s, "host", "0", "timer").Ok? && Index(Cell(s, "host", "0", "timer").value, "buttonTimer").Ok?
    ensures r.Ok? ==> r == Index(Cell(s, "host", "0", "timer").value, "buttonTimer")
    ensures r.Err? ==> r.error == SwidgetException
  {
    if !TimerIsPanaSwitch(s) then Err(SwidgetException)
    else match Cell(s, "host", "0", "timer")
      case Err(_) => Err(SwidgetException)
      case Ok(timer) =>
        match Index(timer, "buttonTimer")
        case Err(_) => Err(SwidgetException)
        case Ok(v) => Ok(v)
  }

  /** The body of `usb_is_on` given the insert's `usb` toggle cell as read. */
  function UsbIsOnFrom(toggle: Result<Json, PyError>): (r: Result<bool, PyError>)
    ensures r.Ok? <==> toggle.Ok? && Index(toggle.value, "state").Ok?
    ensures r == Ok(true) <==> toggle.Ok? && Index(toggle.value, "state") == Ok(JStr("on"))
  {
    var t :- toggle;
    var state :- Index(t, "state");
    Ok(state == JStr("on"))
  }

  /** `usb_is_on` */
  function UsbIsOn(s: DeviceState): (r: Result<bool, PyError>)
    ensures r.Ok? <==> Cell(s, "insert", "usb", "toggle").Ok? && Index(Cell(s, "insert", "usb", "toggle").value, "state").Ok?
    ensures r == Ok(true) <==>
      Cell(s, "insert", "usb", "toggle").Ok? && Index(Cell(s, "insert", "usb", "toggle").value, "state") == Ok(JStr("on"))
    ensures r.Err? ==> r.error in {AttributeError, KeyError, TypeError}
  {
    UsbIsOnFrom(Cell(s, "insert", "usb", "toggle"))
  }

  /** Whenever `is_on` answers, `timer_duration` answers too, with the same timer's
      `buttonTimer`: `is_on` reads that key and fails when it is missing. */
  lemma IsOnThenTimerDuration(s: DeviceState)
    requires IsOn(s).Ok?
    ensures TimerDuration(s).Ok?
    ensures TimerDuration(s) == Index(Cell(s, "host", "0", "timer").value, "buttonTimer")
  {
  }

  /** Since `is_pana_switch` is overridden to True, `timer_duration` never looks at the
      device type: devices that differ only in it report the same duration, even one
      whose type is unknown or names another kind of device. */
  lemma TimerDurationIgnoresType(s: DeviceState, deviceType: Option<Json>)
    ensures TimerDuration(s.(deviceType := deviceType)) == TimerDuration(s)
    ensures IsOn(s.(deviceType := deviceType)) == IsOn(s)
  {
    assert Cell(s.(deviceType := deviceType), "host", "0", "timer") == Cell(s, "host", "0", "timer");
    assert Cell(s.(deviceType := deviceType), "host", "0", "toggle") == Cell(s, "host", "0", "toggle");
  }

  // ---------------------------------------------------------------------------
  // Commands

  /** `{"state": state}`, the command of the toggles. */
  function StateCommand(state: string): Json {
    Obj([("state", JStr(state))])
  }

  /** `{"duration": x}`, the command of the timer actions. */
  function DurationCommand(x: Json): Json {
    Obj([("duration", x)])
  }

  /** `duration // 60` in `activate_fan`: the whole minutes in `duration` seconds,
      rounded towards negative infinity as Python's floor division does. */
  function FanMinutes(duration: int): (m: int)
    ensures m * 60 <= duration < m * 60 + 60
  {
    duration / 60
  }

  /** A toggle command reads back its own state. */
  lemma StateCommandState(state: string)
    ensures Index(StateCommand(state), "state") == Ok(JStr(state))
    ensures StateCommand(state).fields.keys == ["state"]
  {
    ObjSingle("state", JStr(state));
  }

  /** A timer command reads back its own duration. */
  lemma DurationCommandDuration(x: Json)
    ensures Index(DurationCommand(x), "duration") == Ok(x)
    ensures DurationCommand(x).fields.keys == ["duration"]
  {
    ObjSingle("duration", x);
  }

  /** With the toggle reading "on", the switch is on exactly when the timer's level is
      not 0; with any other state it is never on. */
  lemma IsOnFromCommand(state: string, timer: Result<Json, PyError>)
    ensures
      var r := IsOnFrom(Ok(StateCommand(state)), timer);
      && (r.Ok? <==> timer.Ok? && Index(timer.value, "buttonLevel").Ok? && Index(timer.value, "buttonTimer").Ok?)
      && (r == Ok(true) <==> r.Ok? && state == "on" && PyNonZero(Index(timer.value, "buttonLevel").value))
  {
    StateCommandState(state);
  }

  /** Over HTTP, an accepted toggle of host component `0` replaces the `toggle` cell by
      the value the device echoed and leaves the `timer` cell alone, so `is_on` is then
      computed from the echo and the old timer, and `timer_duration` does not change. */
  lemma HttpToggleUpdatesIsOn(s: DeviceState, state: string, response: Result<Json, PyError>)
    requires CommandStep(s, "host", "0", "toggle", StateCommand(state), response).out.Done?
    ensures
      var after := CommandStep(s, "host", "0", "toggle", StateCommand(state), response).state;
      var echo := EchoedValue(response.value, "host", "0", "toggle").value;
      && Cell(after, "host", "0", "toggle") == Ok(echo)
      && Cell(after, "host", "0", "timer") == Cell(s, "host", "0", "timer")
      && IsOn(after) == IsOnFrom(Ok(echo), Cell(s, "host", "0", "timer"))
      && TimerDuration(after) == TimerDuration(s)
      && UsbIsOn(after) == UsbIsOn(s)
  {
    HttpCommandWritesOneCell(s, "host", "0", "toggle", StateCommand(state), response);
  }

  /** Over HTTP, an accepted USB toggle changes the insert's `usb` toggle cell only:
      `usb_is_on` is computed from the echo, `is_on` and `timer_duration` do not change. */
  lemma HttpUsbToggleKeepsHost(s: DeviceState, state: string, response: Result<Json, PyError>)
    requires CommandStep(s, "insert", "usb", "toggle", StateCommand(state), response).out.Done?
    ensures
      var after := CommandStep(s, "insert", "usb", "toggle", StateCommand(state), response).state;
      var echo := EchoedValue(response.value, "insert", "usb", "toggle").value;
      && UsbIsOn(after) == UsbIsOnFrom(Ok(echo))
      && IsOn(after) == IsOn(s)
      && TimerDuration(after) == TimerDuration(s)
  {
    HttpCommandWritesOneCell(s, "insert", "usb", "toggle", StateCommand(state), response);
  }

  /** Over HTTP, an accepted timer command replaces the `timer` cell by the echo, so
      `timer_duration` then reports the echo's `buttonTimer`, and the toggle cell is kept. */
  lemma HttpTimerSetsDuration(s: DeviceState, x: Json, response: Result<Json, PyError>)
    requires CommandStep(s, "host", "0", "timer", DurationCommand(x), response).out.Done?
    ensures
      var after := CommandStep(s, "host", "0", "timer", DurationCommand(x), response).state;
      var echo := EchoedValue(response.value, "host", "0", "timer").value;
      && Cell(after, "host", "0", "timer") == Ok(echo)
      && Cell(after, "host", "0", "toggle") == Cell(s, "host", "0", "toggle")
      && (TimerDuration(after).Ok? <==> Index(echo, "buttonTimer").Ok?)
      && (TimerDuration(after).Ok? ==> TimerDuration(after) == Index(echo, "buttonTimer"))
      && UsbIsOn(after) == UsbIsOn(s)
  {
    HttpCommandWritesOneCell(s, "host", "0", "timer", DurationCommand(x), response);
  }

  /** Over websockets `turn_on` sends the frame `{"type": "command", "request_id":
      "command", "payload": {"host": {"components": {"0": {"toggle": {"state": "on"}}}}}}`
      and changes nothing until the device reports back. */
  lemma WebsocketTurnOnFrame(s: DeviceState, response: Result<Json, PyError>)
    requires s.useWebsockets
    ensures
      var st := CommandStep(s, "host", "0", "toggle", StateCommand("on"), response);
      var body := CommandBody("host", "0", "toggle", StateCommand("on"));
      && st.state == s
      && st.out.Sent?
      && Index(st.out.frame, "type") == Ok(JStr("command"))
      && Index(st.out.frame, "request_id") == Ok(JStr("command"))
      && Index(st.out.frame, "payload") == Ok(body)
      && body.fields.keys == ["host"]
      && Fragment(body, "host", "0") == Ok(Obj([("toggle", StateCommand("on"))]))
      && EchoedValue(body, "host", "0", "toggle") == Ok(StateCommand("on"))
  {
    var body := CommandBody("host", "0", "toggle", StateCommand("on"));
    FrameShape("command", "command", body);
    CommandBodyPath("host", "0", "toggle", StateCommand("on"));
    ObjSingle("host", Obj([("components", Obj([("0", Obj([("toggle", StateCommand("on"))]))]))]));
  }

  /** When the device reports the command body back as a state payload, `process_state`
      writes the same toggle cell the HTTP path writes: afterwards the switch is on
      exactly when the timer's level is not 0. */
  lemma EchoedTurnOnIsOn(s: DeviceState, now: int)
    requires s.assemblies.Some? && "host" in s.assemblies.value && "0" in s.assemblies.value["host"].components.vals
    ensures
      var after := StateStep(s, CommandBody("host", "0", "toggle", StateCommand("on")), now).state;
      && IsOn(after) == IsOnFrom(Ok(StateCommand("on")), Cell(s, "host", "0", "timer"))
      && TimerDuration(after) == TimerDuration(s)
  {
    var t := s.assemblies.value;
    var cmd := StateCommand("on");
    CommandBodyMergeIsCellWrite(t, "host", "0", "toggle", cmd);
    var after := StateStep(s, CommandBody("host", "0", "toggle", cmd), now).state;
    ToggleWritten(s, after, cmd);
  }

  /** A device whose tree differs from another's by the host toggle cell alone. */
  lemma ToggleWritten(s: DeviceState, after: DeviceState, v: Json)
    requires s.assemblies.Some? && after.assemblies.Some?
    requires WriteCell(s.assemblies.value, "host", "0", "toggle", v) == Ok(after.assemblies.value)
    ensures IsOn(after) == IsOnFrom(Ok(v), Cell(s, "host", "0", "timer"))
    ensures TimerDuration(after) == TimerDuration(s)
  {
    assert Cell(after, "host", "0", "toggle") == Ok(v);
    assert Cell(after, "host", "0", "timer") == Cell(s, "host", "0", "timer");
  }

  // ---------------------------------------------------------------------------
  // The object

  /** SwidgetTimerSwitch: a device that always uses websockets, since its constructor
      does not pass `use_websockets` on and the base class defaults it to True. */
  class SwidgetTimerSwitch {
    const device: SwidgetDevice

    constructor()
      ensures fresh(device) && device.State() == Initial(true) && device.Valid()
    {
      device := new SwidgetDevice(true);
    }

    /** `turn_on` */
    method TurnOn(response: Result<Json, PyError>) returns (out: Outcome)
      requires device.Valid()
      modifies device
      ensures Step(device.State(), out) == CommandStep(old(device.State()), "host", "0", "toggle", StateCommand("on"), response)
      ensures device.Valid()
    {
      out := device.SendCommand("host", "0", "toggle", StateCommand("on"), response);
    }

    /** `turn_off` */
    method TurnOff(response: Result<Json, PyError>) returns (out: Outcome)
      requires device.Valid()
      modifies device
      ensures Step(device.State(), out) == CommandStep(old(device.State()), "host", "0", "toggle", StateCommand("off"), response)
      ensures device.Valid()
    {
      out := device.SendCommand("host", "0", "toggle", StateCommand("off"), response);
    }

    /** `turn_on_usb_insert` */
    method TurnOnUsb(response: Result<Json, PyError>) returns (out: Outcome)
      requires device.Valid()
      modifies device
      ensures Step(device.State(), out) == CommandStep(old(device.State()), "insert", "usb", "toggle", StateCommand("on"), response)
      ensures device.Valid()
    {
      out := device.SendCommand("insert", "usb", "toggle", StateCommand("on"), response);
    }

    /** `turn_off_usb_insert` */
    method TurnOffUsb(response: Result<Json, PyError>) returns (out: Outcome)
      requires device.Valid()
      modifies device
      ensures Step(device.State(), out) == CommandStep(old(device.State()), "insert", "usb", "toggle", StateCommand("off"), response)
      ensures device.Valid()
    {
      out := device.SendCommand("insert", "usb", "toggle", StateCommand("off"), response);
    }

    /** `set_timer_duration`: the value is passed on as given. */
    method SetTimerDuration(timerDuration: Json, response: Result<Json, PyError>) returns (out: Outcome)
      requires device.Valid()
      modifies device
      ensures Step(device.State(), out) == CommandStep(old(device.State()), "host", "0", "timer", DurationCommand(timerDuration), response)
      ensures device.Valid()
    {
      out := device.SendCommand("host", "0", "timer", DurationCommand(timerDuration), response);
    }

    /** `set_countdown_timer`: the minutes are passed on as given. */
    method SetCountdownTimer(minutes: int, response: Result<Json, PyError>) returns (out: Outcome)
      requires device.Valid()
      modifies device
      ensures Step(device.State(), out) == CommandStep(old(device.State()), "host", "0", "timer", DurationCommand(JInt(minutes)), response)
      ensures device.Valid()
    {
      out := device.SendCommand("host", "0", "timer", DurationCommand(JInt(minutes)), response);
    }

    /** `activate_fan`: the duration in seconds is sent as whole minutes. */
    method ActivateFan(duration: int, response: Result<Json, PyError>) returns (out: Outcome)
      requires device.Valid()
      modifies device
      ensures Step(device.State(), out) ==
        CommandStep(old(device.State()), "host", "0", "timer", DurationCommand(JInt(FanMinutes(duration))), response)
      ensures device.Valid()
    {
      var minutes := duration / 60;
      out := device.SendCommand("host", "0", "timer", DurationCommand(JInt(minutes)), response);
    }
  }
}
