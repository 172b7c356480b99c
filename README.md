# Swidget device client: the device state tree and the timer switch

This project models the core of the Swidget Home Assistant integration's device client.

`SwidgetDevice` keeps an in-memory tree of the device:
- two assemblies, `host` and `insert`;
- each assembly holds components keyed by id;
- each component holds a dict from function name to an opaque JSON value.

The model covers how that tree is used:
- the tree is built from a summary payload;
- a state payload is merged into it;
- a websocket message is dispatched to one of those handlers;
- a command is sent over the websocket, or over HTTP, where the value the device echoes is written to one cell;
- the friendly name is set, and `update` runs summary, state and name in turn;
- the read-only queries answer from the tree: features, sensor readings, power consumption, realtime values, hardware information and device-type predicates.

`SwidgetTimerSwitch` reads its on/off state, USB state and timer off fixed cells of the tree. Each of its actions sends one fixed command.

How the model is laid out:
- `Dicts` models the Python `dict`, which keeps insertion order.
- `JsonValues` models decoded JSON values and the Python operations on them that the client uses: subscripting, `get`, iteration, hashing as a key, `dict.update`'s argument protocol, and `str()`.
- `DeviceTree` holds the tree and its three transformations.
- `DeviceModel` gives each state-changing handler as a pure step function from a `DeviceState` to the next state and an `Outcome`. The outcome is completion, a frame handed to the websocket, or the Python exception that escapes.
- `Queries` holds the read-only properties.
- `Device` holds the class `SwidgetDevice`. Its fields are the object's attributes, and each method is proved to reach exactly the state and outcome of its step function.
- `TimerSwitch` holds the timer switch's readings, and a class whose actions go through `SendCommand`.

An attribute the Python object has never been assigned is `None` in the model. Reading it gives `AttributeError`.

Behaviours of the code that a reader might not expect:
- Merging a state payload adds function names a component did not have. `dict.update` does this, so the set of functions is not fixed by the summary.
- `send_command` over HTTP does not change the last-update stamp.
- `send_config` on a device without websockets raises `AttributeError`. Such a device never assigns `_websocket`.
- `update` fetches the summary every time, not only before the first update. Only the debug log line sits under `if self._last_update is None`.
- The timer switch's constructor assigns `_device_type`. Every reader uses `device_type`, a different attribute, so that assignment has no effect on anything modelled. The timer switch also leaves `use_websockets` at its default, True.

## Model

| member | source | states |
|---|---|---|
| Dicts.Set | custom_components/swidget/swidgetclient/device.py:164 | `d[k] = v`: the value is bound. An existing key keeps its place; a new key is appended. Validity is kept. |
| Dicts.ApplyPairs | custom_components/swidget/swidgetclient/device.py:107 | `dict.update` applied pair by pair: the result's mapping is the old one overridden by the pairs, old keys keep their places, and validity is kept. |
| Dicts.PairsMap | custom_components/swidget/swidgetclient/device.py:310-312 | Every assigned key is present, and each value left is one of that key's assignments. |
| Dicts.PairsMapLastWins | custom_components/swidget/swidgetclient/device.py:310-312 | The last assignment to a key wins: a pair that no later pair reassigns gives its key's value. |
| Dicts.ApplyPairsKeepsKeys | custom_components/swidget/swidgetclient/device.py:107 | Updating only existing keys leaves the key order unchanged. |
| Dicts.ApplyPairsAppends | custom_components/swidget/swidgetclient/device.py:310-312 | Distinct new keys are appended in the order given. |
| Dicts.ApplyPairsIdempotent | custom_components/swidget/swidgetclient/device.py:107 | Applying the same update twice equals applying it once. |
| Dicts.PairsMapAt | custom_components/swidget/swidgetclient/device.py:310-312 | With distinct keys, each key ends up with its own assigned value. |
| Dicts.PairKeysAt | custom_components/swidget/swidgetclient/device.py:310-312 | The keys of the pairs, position by position. |
| Dicts.MergeAllKeys | custom_components/swidget/swidgetclient/device.py:240-242 | The keys of successive updates are exactly the keys of the dicts merged. |
| Dicts.MergeAllLastWins | custom_components/swidget/swidgetclient/device.py:240-242 | A merged key has the value from the last dict that has it. |
| Wrappers.MapResult | custom_components/swidget/swidgetclient/device.py:310-312 | A comprehension either succeeds on every element, result by result, or fails with the first element's error, all earlier elements having succeeded. |
| JsonValues.Obj | custom_components/swidget/swidgetclient/device.py:146 | A dict display is a valid dict mapping each key to its last value. |
| JsonValues.Index | custom_components/swidget/swidgetclient/device.py:67-69 | `j[key]` succeeds exactly on a dict holding the key and returns its value. It raises KeyError on a dict without the key and TypeError on anything else. |
| JsonValues.HashKey | custom_components/swidget/swidgetclient/device.py:311 | A value can be used as a dict key exactly when it is a string, and the key is that string. |
| JsonValues.Iterate | custom_components/swidget/swidgetclient/device.py:319 | Iteration fails exactly on None, numbers and booleans. |
| JsonValues.ObjPairs | custom_components/swidget/swidgetclient/device.py:107 | The pairs `update` takes from a dict argument are its entries, and every entry is among them. |
| JsonValues.ObjPairsMap | custom_components/swidget/swidgetclient/device.py:107 | A dict argument to `update` contributes exactly its own mapping. |
| JsonValues.ObjSingle | custom_components/swidget/swidgetclient/device.py:125 | A one-entry display has that single key and value. |
| JsonValues.UpdatePairsSingle | custom_components/swidget/swidgetclient/device.py:107 | Updating with `{k: v}` performs exactly the assignment `d[k] = v`. |
| JsonValues.ObjTriple | custom_components/swidget/swidgetclient/device.py:149-152 | A three-entry display with distinct keys has those keys in order, with their values. |
| JsonValues.PairOf | custom_components/swidget/swidgetclient/device.py:107 | An element of a list handed to `update` is a pair exactly when iterating it gives two items, the first usable as a key; the pair is those two items. A non-iterable element raises TypeError and one of another length raises ValueError. |
| JsonValues.PrefixPairs | custom_components/swidget/swidgetclient/device.py:107 | The pairs applied from a list are its elements up to the first that is not a pair, each element giving its own pair; that first bad element raises. |
| JsonValues.UpdatePairs | custom_components/swidget/swidgetclient/device.py:107 | A dict argument contributes exactly its own mapping. A list contributes its leading pairs, up to the first element that is not a pair. Any other value contributes nothing. |
| DeviceTree.FunctionAt | custom_components/swidget/swidgetclient/device.py:164 | Reading a cell succeeds exactly when the assembly, the component and the function exist, and returns the stored value. Otherwise it raises KeyError. |
| DeviceTree.BuildComponent | custom_components/swidget/swidgetclient/device.py:317-319 | A component can be built exactly when its functions are iterable and all are strings. The functions are then exactly the names listed, and every value is None. |
| DeviceTree.BuildEntries | custom_components/swidget/swidgetclient/device.py:310-312 | The comprehension's entries succeed exactly when every element builds, and each entry is built from its own element. |
| DeviceTree.BuildAssembly | custom_components/swidget/swidgetclient/device.py:307-314 | An assembly can be built exactly when `type` and `components` are present and every entry builds. Each entry's id then has a component built from an entry with that id. With a repeated id, the last entry with that id wins. `id` and `error` default to None. |
| DeviceTree.SummaryComponentsInOrder | custom_components/swidget/swidgetclient/device.py:310-312 | With distinct ids, the components appear in summary order, each built from its own entry. |
| DeviceTree.BuildAssemblyValuesUnknown | custom_components/swidget/swidgetclient/device.py:317-319 | Every function value of a freshly built assembly is None. |
| DeviceTree.MergeComponents | custom_components/swidget/swidgetclient/device.py:102-109 | Merging keeps the component ids and their order, and keeps every function dict valid. |
| DeviceTree.MergeTree | custom_components/swidget/swidgetclient/device.py:100-109 | The merge keeps the assemblies, their types, ids and errors, and their component ids and order. It keeps the tree well formed. |
| DeviceTree.MergeOverwrites | custom_components/swidget/swidgetclient/device.py:107 | A dict fragment overwrites each function it names, adds the names the component lacked, and keeps every other value. |
| DeviceTree.MergeKeepsLeadingPairs | custom_components/swidget/swidgetclient/device.py:105-109 | A list fragment is applied up to its first element that is not a pair. The swallowed exception does not undo the pairs before it: each function they name holds its last assignment, and every other function keeps its value. |
| DeviceTree.MergeSkipsAbsent | custom_components/swidget/swidgetclient/device.py:105-109 | A component without a fragment, whatever the failure, is left unchanged. |
| DeviceTree.MergeIsolated | custom_components/swidget/swidgetclient/device.py:105-109 | A component's merge depends only on its own fragment. |
| DeviceTree.MergeIdempotent | custom_components/swidget/swidgetclient/device.py:100-109 | Merging the same payload twice equals merging it once. |
| DeviceTree.MergeComponentsVisitedStep | custom_components/swidget/swidgetclient/device.py:102-109 | One more iteration of the inner loop merges just the next component. |
| DeviceTree.MergeVisitedStep | custom_components/swidget/swidgetclient/device.py:100-109 | One more iteration of the outer loop merges just the next assembly. |
| DeviceTree.MergeVisitedAll | custom_components/swidget/swidgetclient/device.py:100-109 | After visiting every assembly, the loop's tree is the merged tree. |
| DeviceTree.WriteCell | custom_components/swidget/swidgetclient/device.py:164 | The write succeeds exactly when the assembly and component exist (KeyError otherwise). It sets that one cell and leaves every other cell, the assemblies and the component order unchanged. |
| DeviceTree.MergeSingleCell | custom_components/swidget/swidgetclient/device.py:100-109 | A payload with one one-function fragment merges into exactly that single-cell write. |
| DeviceModel.Initial | custom_components/swidget/swidgetclient/device.py:27-37 | A new device has no tree, no stamp and no rssi, and is well formed. |
| DeviceModel.SummaryStep | custom_components/swidget/swidgetclient/device.py:65-77 | `process_summary` never sends and never touches the name, rssi or the websocket flag. When it raises, the tree, the device type and the stamp are as before. |
| DeviceModel.SummaryStepSpec | custom_components/swidget/swidgetclient/device.py:65-77 | `process_summary` completes exactly when model, mac, version and both assemblies can be read. It then holds the new tree, the identity and the clock stamp. A failure keeps the attributes assigned before it, but never the tree, the types or the stamp. Nothing is ever sent, and well-formedness is kept. |
| DeviceModel.AssembliesStepSpec | custom_components/swidget/swidgetclient/device.py:70-77 | Both assemblies are built before anything is assigned. The tree, the types, the id and the stamp are all assigned together, or none of them is. |
| DeviceModel.SummaryResetsValues | custom_components/swidget/swidgetclient/device.py:70-73 | After a summary, every cell of the tree is None. |
| DeviceModel.StateStep | custom_components/swidget/swidgetclient/device.py:87-110 | `process_state` sets rssi when the payload has it. It then merges and stamps, or raises AttributeError when there is no tree, and only rssi has changed by then. Well-formedness is kept. |
| DeviceModel.StateStepIdempotent | custom_components/swidget/swidgetclient/device.py:87-110 | Processing the same state payload twice equals processing it once. |
| DeviceModel.MessageStep | custom_components/swidget/swidgetclient/device.py:50-55 | The `request_id` tag picks the summary handler, the state handler (for `state`, `DYNAMIC_UPDATE` and `command`) or nothing. A message without a tag raises. |
| DeviceModel.FrameShape | custom_components/swidget/swidgetclient/device.py:149-152 | A websocket frame has exactly the keys type, request_id and payload, in order, with their values. |
| DeviceModel.CommandBodyPath | custom_components/swidget/swidgetclient/device.py:146 | The command body read back along its own path gives the command. It holds no fragment for any other component. |
| DeviceModel.CommandStep | custom_components/swidget/swidgetclient/device.py:142-164 | With websockets, the command frame is sent and nothing changes. Over HTTP, the call completes exactly when the response echoes the value and the component exists; the one cell then takes the echoed value. Every failure changes nothing. |
| DeviceModel.HttpCommandWritesOneCell | custom_components/swidget/swidgetclient/device.py:163-164 | A completed HTTP command changes only the target cell, to the echoed value, and keeps the tree's shape. |
| DeviceModel.CommandBodyMergeIsCellWrite | custom_components/swidget/swidgetclient/device.py:146 | Merging a command body as a state payload writes the same single cell. |
| DeviceModel.ConfigStep | custom_components/swidget/swidgetclient/device.py:138-140 | A config frame is sent exactly on websocket devices. Otherwise `send_config` raises AttributeError. |
| DeviceModel.FriendlyNameStep | custom_components/swidget/swidgetclient/device.py:118-129 | The name becomes the fetched document's `name`. On a fetch failure it becomes the placeholder, which needs both types. Only the name changes. |
| DeviceModel.Placeholder | custom_components/swidget/swidgetclient/device.py:125 | The placeholder name exists exactly when both types are assigned (AttributeError otherwise), and reads "Swidget ... insert". |
| DeviceModel.FallbackNameFromTree | custom_components/swidget/swidgetclient/device.py:124-126 | After a summary, a failed name fetch completes with the name built from the host and insert types. |
| DeviceModel.UpdateStep | custom_components/swidget/swidgetclient/device.py:131-136 | `update` never sends. When it completes, the device has a tree stamped with the state's clock. It keeps well-formedness and never loses the stamp. |
| DeviceModel.UpdateWithFailedNameFetch | custom_components/swidget/swidgetclient/device.py:131-136 | With a well-formed summary and a fetched state, `update` completes even when the name fetch fails. |
| DeviceModel.NeedsUpdate | custom_components/swidget/swidgetclient/device.py:302-305 | A well-formed device that still needs `update()` has no tree yet. |
| DeviceModel.StampIsSticky | custom_components/swidget/swidgetclient/device.py:302-305 | Once stamped, no message, command or name change makes the device need `update()` again. |
| DeviceModel.MessageStamps | custom_components/swidget/swidgetclient/device.py:77 | A completed summary or state message stamps the device with the clock. |
| Queries.TreeOf | custom_components/swidget/swidgetclient/device.py:100 | Reading `assemblies` raises AttributeError until a summary has been processed. |
| Queries.Features | custom_components/swidget/swidgetclient/device.py:249-256 | The features are distinct and are exactly the insert's component ids. Without a tree, AttributeError escapes. |
| Queries.SummaryFeatures | custom_components/swidget/swidgetclient/device.py:249-256 | After a summary, the features are the insert's component ids in summary order. |
| Queries.FeaturesStable | custom_components/swidget/swidgetclient/device.py:249-256 | State payloads and commands never change the features. |
| Queries.InsertComponent | custom_components/swidget/swidgetclient/device.py:261 | Looking up a feature succeeds exactly when the insert has that component. |
| Queries.ReadAll | custom_components/swidget/swidgetclient/device.py:258-268 | Every function except toggle is reported with its `state` (occupancy) or `now` reading. The call succeeds exactly when all those readings exist, and otherwise raises one of their errors. |
| Queries.FunctionValues | custom_components/swidget/swidgetclient/device.py:258-268 | `get_function_values` reports exactly the non-toggle functions' readings. Its error cases are those of the lookup and of the readings. |
| Queries.SensorValue | custom_components/swidget/swidgetclient/device.py:270-275 | `get_sensor_value` succeeds exactly when the function exists with its reading, and returns that reading. |
| Queries.SensorAgreesWithFunctionValues | custom_components/swidget/swidgetclient/device.py:258-275 | Every reported value equals the sensor value, and every non-toggle function is reported. |
| Queries.PowerCurrent | custom_components/swidget/swidgetclient/device.py:218 | A power reading fails only with KeyError or TypeError. |
| Queries.PowerKey | custom_components/swidget/swidgetclient/device.py:218 | `power_<id>` is the prefix followed by the id. |
| Queries.AllPowerOf | custom_components/swidget/swidgetclient/device.py:214-221 | The result lists every plug exactly when every plug is metered, each under its own key with its own reading. An unmetered plug gives None; any other failure raises TypeError. |
| Queries.AllPower | custom_components/swidget/swidgetclient/device.py:214-221 | `get_child_consumption("all")` lists the plugs exactly when the host assembly exists and every plug is metered. It raises only AttributeError, KeyError or TypeError. |
| Queries.Host | custom_components/swidget/swidgetclient/device.py:216 | Reading the host assembly succeeds exactly when the tree has it. |
| Queries.ChildConsumption | custom_components/swidget/swidgetclient/device.py:212-222 | With "all", the per-plug view or None is returned. With any other id, the `str(id)` component's reading is returned, and a missing one raises. |
| Queries.AddReading | custom_components/swidget/swidgetclient/device.py:230 | `+=` succeeds exactly on integers and booleans. It adds an integer's value, and 1 or 0 for True or False. Anything else raises TypeError. |
| Queries.SumPower | custom_components/swidget/swidgetclient/device.py:224-231 | The loop succeeds exactly when every plug has a numeric reading, and then adds every plug's reading to the running total. It raises only KeyError or TypeError. |
| Queries.TotalConsumption | custom_components/swidget/swidgetclient/device.py:224-231 | `total_consumption` succeeds exactly when the host assembly exists and every plug has a numeric reading. It then returns the sum of the plugs' readings, and otherwise raises AttributeError, KeyError or TypeError. |
| Queries.PerPlugNumeric | custom_components/swidget/swidgetclient/device.py:212-231 | Every plug has a numeric reading exactly when the per-plug view lists all plugs and every value listed is numeric. |
| Queries.TotalAgreesWithPerPlug | custom_components/swidget/swidgetclient/device.py:212-231 | The total succeeds exactly when the per-plug view is numeric, and then equals the per-plug readings summed. When that view is None, the total raises. |
| Queries.PerPlugAgrees | custom_components/swidget/swidgetclient/device.py:212-231 | When every plug is metered, the per-plug view holds exactly the readings the total adds, plug by plug. |
| Queries.SumPowerStopsAtUnmetered | custom_components/swidget/swidgetclient/device.py:224-231 | Where the per-plug view is None, the total raises: KeyError at the unmetered plug, unless TypeError comes first. |
| Queries.FeatureValues | custom_components/swidget/swidgetclient/device.py:241-242 | Readings are taken feature by feature and stop at the first that raises. |
| Queries.ReadingsOmitToggle | custom_components/swidget/swidgetclient/device.py:241-242 | No feature contributes a toggle reading. |
| Queries.WithRssiAndPower | custom_components/swidget/swidgetclient/device.py:243-246 | `rssi` is written over the readings, then the power readings over both. Keys and values are given precisely. |
| Queries.RealtimeValues | custom_components/swidget/swidgetclient/device.py:233-247 | `realtime_values` succeeds exactly when the features, their readings, rssi and the power view are all available. |
| Queries.RealtimeReportsRssi | custom_components/swidget/swidgetclient/device.py:233-247 | The realtime values report rssi and every per-plug reading, and never toggle. |
| Queries.RealtimeReportsReadings | custom_components/swidget/swidgetclient/device.py:233-247 | Each insert reading appears in the realtime values unless a later feature reports the same function, rssi replaces it, or a per-plug key does. |
| Queries.PowerKeysAreNotReadings | custom_components/swidget/swidgetclient/device.py:218 | No per-plug key is `rssi` or `toggle`. |
| Queries.HwInfo | custom_components/swidget/swidgetclient/device.py:194-210 | `hw_info` succeeds exactly when all eight attributes are assigned, and otherwise raises AttributeError. It has exactly the eight keys, each holding the attribute it names, with the features as a list of strings. |
| Queries.HwInfoAfterUpdate | custom_components/swidget/swidgetclient/device.py:194-210 | After a summary and rssi, `hw_info` answers with the assemblies' types. |
| Queries.DeviceClassesExclusive | custom_components/swidget/swidgetclient/device.py:277-295 | The type predicates answer exactly when the type is known, and at most one of them holds. |
| Queries.IsOutlet | custom_components/swidget/swidgetclient/device.py:277-280 | `is_outlet` answers exactly when the type is assigned, and is True exactly for "outlet" and "outlet_20a". |
| Queries.IsSwitch | custom_components/swidget/swidgetclient/device.py:282-285 | `is_switch` answers exactly when the type is assigned, and is True exactly for "switch" and "relay_switch". |
| Queries.IsPanaSwitch | custom_components/swidget/swidgetclient/device.py:287-290 | `is_pana_switch` answers exactly when the type is assigned, and is True exactly for "pana_switch". |
| Queries.IsDimmer | custom_components/swidget/swidgetclient/device.py:292-295 | `is_dimmer` answers exactly when the type is assigned, and is True exactly for "dimmer". |
| Device.SwidgetDevice.constructor | custom_components/swidget/swidgetclient/device.py:27-37 | A new object is in the initial state. |
| Device.SwidgetDevice.ProcessSummary | custom_components/swidget/swidgetclient/device.py:65-77 | The fields and the outcome are those of the summary step, and well-formedness is kept. |
| Device.SwidgetDevice.ProcessState | custom_components/swidget/swidgetclient/device.py:87-110 | The fields and the outcome are those of the state step, and well-formedness is kept. |
| Device.SwidgetDevice.MergeState | custom_components/swidget/swidgetclient/device.py:100-109 | The outer loop leaves the merged tree and changes nothing else. |
| Device.SwidgetDevice.MergeAssembly | custom_components/swidget/swidgetclient/device.py:102-109 | The inner loop merges one assembly's components and changes nothing else. |
| Device.SwidgetDevice.MessageCallback | custom_components/swidget/swidgetclient/device.py:50-55 | The fields and the outcome are those of the message step. |
| Device.SwidgetDevice.SendCommand | custom_components/swidget/swidgetclient/device.py:142-164 | The fields and the outcome are those of the command step. |
| Device.SwidgetDevice.SendConfig | custom_components/swidget/swidgetclient/device.py:138-140 | The outcome is that of the config step, and nothing changes. |
| Device.SwidgetDevice.ProcessFriendlyName | custom_components/swidget/swidgetclient/device.py:128-129 | Only the name changes. |
| Device.SwidgetDevice.GetFriendlyName | custom_components/swidget/swidgetclient/device.py:118-126 | The fields and the outcome are those of the name step. |
| Device.SwidgetDevice.Update | custom_components/swidget/swidgetclient/device.py:131-136 | The fields and the outcome are those of the update step. |
| TimerSwitch.PyNonZero | custom_components/swidget/swidgetclient/swidgettimerswitch.py:20 | `x != 0`: an integer compares by value, a boolean as 0 or 1, and any other value is never 0. |
| TimerSwitch.Cell | custom_components/swidget/swidgetclient/swidgettimerswitch.py:17-19 | A cell read succeeds exactly when there is a tree holding the cell. It fails with AttributeError or KeyError. |
| TimerSwitch.IsOnFrom | custom_components/swidget/swidgetclient/swidgettimerswitch.py:14-23 | `is_on` answers exactly when the toggle state, buttonLevel and buttonTimer can all be read. It is True exactly when the state is "on" and the level is not 0. |
| TimerSwitch.IsOn | custom_components/swidget/swidgetclient/swidgettimerswitch.py:14-23 | `is_on` is True exactly when the host toggle reads "on" and the timer's buttonTimer and non-zero buttonLevel can be read. Otherwise it is False or raises AttributeError, KeyError or TypeError. |
| TimerSwitch.TimerIsPanaSwitch | custom_components/swidget/swidgetclient/swidgettimerswitch.py:44-47 | The timer switch's `is_pana_switch` is True, whatever the device type. |
| TimerSwitch.TimerDuration | custom_components/swidget/swidgetclient/swidgettimerswitch.py:25-36 | `timer_duration` is the timer's buttonTimer when it can be read. Every failure becomes SwidgetException. |
| TimerSwitch.UsbIsOnFrom | custom_components/swidget/swidgetclient/swidgettimerswitch.py:78-84 | `usb_is_on` answers exactly when the USB toggle state can be read, and is True exactly when it is "on". |
| TimerSwitch.UsbIsOn | custom_components/swidget/swidgetclient/swidgettimerswitch.py:78-84 | `usb_is_on` answers exactly when the insert's USB toggle state can be read, and is True exactly when it is "on". It raises only AttributeError, KeyError or TypeError. |
| TimerSwitch.IsOnThenTimerDuration | custom_components/swidget/swidgetclient/swidgettimerswitch.py:14-36 | Whenever `is_on` answers, `timer_duration` answers with the same buttonTimer. |
| TimerSwitch.TimerDurationIgnoresType | custom_components/swidget/swidgetclient/swidgettimerswitch.py:44-47 | `is_pana_switch` is always True, so the device type never affects `timer_duration` or `is_on`. |
| TimerSwitch.FanMinutes | custom_components/swidget/swidgetclient/swidgettimerswitch.py:64 | `duration // 60` is the floor m with `60m <= duration < 60m + 60`. |
| TimerSwitch.StateCommandState | custom_components/swidget/swidgetclient/swidgettimerswitch.py:70 | A toggle command is `{"state": s}` and nothing else. |
| TimerSwitch.DurationCommandDuration | custom_components/swidget/swidgetclient/swidgettimerswitch.py:41 | A timer command is `{"duration": x}` and nothing else. |
| TimerSwitch.IsOnFromCommand | custom_components/swidget/swidgetclient/swidgettimerswitch.py:14-23 | With the toggle set to "on", the switch is on exactly when the level is not 0. With any other state it is never on. |
| TimerSwitch.HttpToggleUpdatesIsOn | custom_components/swidget/swidgetclient/swidgettimerswitch.py:67-76 | An HTTP toggle sets the toggle cell to the echo and keeps the timer cell. `is_on` then follows the echo; `timer_duration` and `usb_is_on` are unchanged. |
| TimerSwitch.HttpUsbToggleKeepsHost | custom_components/swidget/swidgetclient/swidgettimerswitch.py:86-96 | An HTTP USB toggle makes `usb_is_on` follow the echo. `is_on` and `timer_duration` are unchanged. |
| TimerSwitch.HttpTimerSetsDuration | custom_components/swidget/swidgetclient/swidgettimerswitch.py:38-42 | An HTTP timer command makes `timer_duration` report the echoed buttonTimer. The toggle cell and `usb_is_on` are unchanged. |
| TimerSwitch.WebsocketTurnOnFrame | custom_components/swidget/swidgetclient/swidgettimerswitch.py:67-71 | Over websockets, `turn_on` sends the exact frame for `host/0/toggle` with `{"state": "on"}`, and nothing changes. |
| TimerSwitch.EchoedTurnOnIsOn | custom_components/swidget/swidgetclient/swidgettimerswitch.py:67-71 | When the command body comes back as a state payload, `is_on` is True exactly when the timer level is not 0. |
| TimerSwitch.SwidgetTimerSwitch.constructor | custom_components/swidget/swidgetclient/swidgettimerswitch.py:10-12 | A new timer switch is an initial device that uses websockets. |
| TimerSwitch.SwidgetTimerSwitch.TurnOn | custom_components/swidget/swidgetclient/swidgettimerswitch.py:67-71 | `turn_on` is the command step for `host/0/toggle` with `{"state": "on"}`. |
| TimerSwitch.SwidgetTimerSwitch.TurnOff | custom_components/swidget/swidgetclient/swidgettimerswitch.py:72-76 | `turn_off` is the command step for `host/0/toggle` with `{"state": "off"}`. |
| TimerSwitch.SwidgetTimerSwitch.TurnOnUsb | custom_components/swidget/swidgetclient/swidgettimerswitch.py:86-90 | `turn_on_usb_insert` is the command step for `insert/usb/toggle` with `{"state": "on"}`. |
| TimerSwitch.SwidgetTimerSwitch.TurnOffUsb | custom_components/swidget/swidgetclient/swidgettimerswitch.py:92-96 | `turn_off_usb_insert` is the command step for `insert/usb/toggle` with `{"state": "off"}`. |
| TimerSwitch.SwidgetTimerSwitch.SetTimerDuration | custom_components/swidget/swidgetclient/swidgettimerswitch.py:38-42 | `set_timer_duration` is the command step for `host/0/timer` with the duration unchanged. |
| TimerSwitch.SwidgetTimerSwitch.SetCountdownTimer | custom_components/swidget/swidgetclient/swidgettimerswitch.py:55-59 | `set_countdown_timer` is the command step for `host/0/timer` with the minutes unchanged. |
| TimerSwitch.SwidgetTimerSwitch.ActivateFan | custom_components/swidget/swidgetclient/swidgettimerswitch.py:61-65 | `activate_fan` is the command step for `host/0/timer` with the floor of duration/60. |

## Left out

- HTTP and websocket I/O, the aiohttp session, TLS, the secret key, the host address and `json.dumps` are not modelled. Each fetched document (or its failure) and each websocket frame before serialisation is a parameter or a result.
- `ping`, `blink`, `stop`, `get_summary` and `get_state` are only network calls. The two fetches are the payload parameters of `Update`.
- The clock `int(time.time())` is a parameter.
- Logging calls are not modelled. They have no effect on the state.
- The `print` call in `total_consumption` is not modelled, for the same reason.
- `extra_state_attributes` is not modelled. It reads `_attributes`, which nothing assigns.
- `__repr__`'s strings are not modelled, since they contain the host address. Only its `update() needed` test is modelled, as `NeedsUpdate`.
- `SwidgetTimerSwitch`'s `_device_type` assignment is not modelled. Nothing in the modelled code reads `_device_type`.
- Number values are integers. Floating-point readings are not modelled.
- A JSON number, boolean or null used as a dict key is reported as the model's own `NonStringKey` error. Python would accept it.
- `str()` of a list or dict is shown as a fixed placeholder, not Python's rendering.
- Dicts returned by queries (`get_function_values`, `realtime_values`, `hw_info`, per-plug power) are maps. Their key order is not modelled.
- Components and assemblies are values inside the device's tree, so aliasing of the Python objects is not modelled. The inner merge loop updates a local copy of one assembly's components and stores it back once the loop ends. Nothing reads the tree in between.
- Concurrency between websocket callbacks and other coroutines is not modelled. Each handler runs to completion.
- DeviceTree.BuildAssembly: with a repeated component id, the contract says which entry wins but not the position the id keeps. The position comes from `dict` insertion order, and `SummaryComponentsInOrder` states it for distinct ids.
- Queries.AllPowerOf: when the per-plug view raises, the contract does not say which plug's error comes first.
- Queries.RealtimeValues: does not test `power_values` for emptiness, because updating with an empty dict changes nothing.
