# Touchscreen gestures and hand-wave detection, modelled in Dafny

This project models the two small state machines of a device-settings
extension:

- the **touchscreen-gesture dispatcher** (`TouchKeyHandler`): the
  scan-code-to-action table and the broadcast that replaces it; the key-event
  filter that passes unhandled events back to the input pipeline; the single
  queued gesture message (`GESTURE_REQUEST`); the optional proximity race
  against the 100 ms delayed message; the switch that turns an action id into
  one of 24 actions; the scan-code predicates; and the sticky "TouchScreen"
  marker;
- the **hand-wave detector** (`HandwaveSensor`): the two fields `mSawNear` and
  `mWaveTime`, and the pulse on a near-to-far transition less than one second
  after the wave began;
- the **gesture constants** (`Constants`): the action ids and the supported
  scan-code table.

Each component is an immutable state record with one pure step function per
input. Traces of inputs are folded over those steps, and the trace lemmas
state the guarantees: last write wins in the mapping; the strict one-second
window; deliveries never outnumber acceptances, on both timer paths; and each
accepted gesture is delivered at most once on the intended timer path, and on
the as-written one from the as-written constructor (whose proximity gate is
off). With the gate on, the as-written timer path can deliver one gesture
twice (see Findings). Platform calls are inputs. Whether setup has
completed is a parameter of a key event. Whether the hand-wave feature is
enabled is a parameter of each reading. The proximity value and maximum range
are parameters of a sample. The timer firing and a sample reaching a listener
are two kinds of events in an interleaved trace.

Files: `options.dfy` (`Options`), `constants.dfy` (`Constants`),
`action_decoding.dfy` (`ActionDecoding`), `action_mapping.dfy`
(`ActionMapping`), `touch_key_handler.dfy` (`TouchKeyHandler`),
`touch_key_traces.dfy` (`TouchKeyTraces`), `handwave_sensor.dfy`
(`HandwaveSensor`).

Two behaviours of the code that are easy to miss:

- A malformed mapping update (a missing array or a length mismatch) clears
  the table. The previous table is not kept.
- When the delayed message runs first, the one-shot proximity listener stays
  registered. It stays until a sample reaches it (see Findings).

## Model

| member | source | states |
|---|---|---|
| Constants.ActionIdsAreTwoToTwentyFive | RogParts/src/com/havoc/settings/zenparts/touch/Constants.java:38-61 | there are 24 action ids, they are pairwise distinct, and an integer is one of them iff it lies in 2..25 |
| Constants.ActionIdsArePositive | RogParts/src/com/havoc/settings/zenparts/touch/Constants.java:38-61 | every action id is positive, so it passes both the `action < 0` gate and the `action != 0` gate |
| Constants.SupportedKeycodesAreTheGestures | RogParts/src/com/havoc/settings/zenparts/touch/Constants.java:68-87 | the supported table holds exactly the eight gesture scan codes, each once |
| Constants.WakeAndCameraCodesSupported | RogParts/src/com/havoc/settings/zenparts/touch/Constants.java:68-87 | the double-tap code (116) and the "C" code (46) are both in the supported table |
| ActionDecoding.Id | RogParts/src/com/havoc/settings/zenparts/touch/TouchKeyHandler.java:206-279 | every case of the switch is labelled by one of the action ids 2..25 |
| ActionDecoding.IdIsAnActionId | RogParts/src/com/havoc/settings/zenparts/touch/Constants.java:38-61 | every case label of the switch is one of the declared action ids |
| ActionDecoding.Decode | RogParts/src/com/havoc/settings/zenparts/touch/TouchKeyHandler.java:206-279 | the switch selects an action iff the message argument lies in 2..25; any other argument performs nothing |
| ActionDecoding.DecodeId | RogParts/src/com/havoc/settings/zenparts/touch/TouchKeyHandler.java:206-279 | decoding an action's own id selects that action |
| ActionDecoding.DecodeSelectsById | RogParts/src/com/havoc/settings/zenparts/touch/TouchKeyHandler.java:206-279 | the action selected for an argument is the one registered under that id, so each id selects exactly one handler |
| ActionDecoding.IdInjective | RogParts/src/com/havoc/settings/zenparts/touch/TouchKeyHandler.java:206-279 | no two cases share an id |
| ActionMapping.Lookup | RogParts/src/com/havoc/settings/zenparts/touch/TouchKeyHandler.java:141 | an unmapped scan code looks up as -1; a mapped one as its action id |
| ActionMapping.PutAll | RogParts/src/com/havoc/settings/zenparts/touch/TouchKeyHandler.java:93-95 | after the put loop, the table's keys are the old keys plus every given code; each given code maps to the action at its last occurrence; other old keys keep their values |
| ActionMapping.Replace | RogParts/src/com/havoc/settings/zenparts/touch/TouchKeyHandler.java:91-96 | a malformed update leaves the table empty; a usable one leaves exactly the given codes as keys |
| ActionMapping.ReplaceLastWriteWins | RogParts/src/com/havoc/settings/zenparts/touch/TouchKeyHandler.java:91-96 | after a usable update a code of the update looks up as the action at its last occurrence, and every other code as -1, whatever the old table held |
| ActionMapping.MalformedUpdateEmptiesTable | RogParts/src/com/havoc/settings/zenparts/touch/TouchKeyHandler.java:91-96 | after a missing array or a length mismatch every code looks up as -1: neither the old table nor a part of the new one survives |
| TouchKeyHandler.Construct | RogParts/src/com/havoc/settings/zenparts/touch/TouchKeyHandler.java:116-121 | as written, the constructed dispatcher has the proximity gate off whatever the device has, with an empty table, nothing queued, no listener and no marker |
| TouchKeyHandler.ConstructIntended | RogParts/src/com/havoc/settings/zenparts/touch/TouchKeyHandler.java:116-121 | as intended, the proximity gate is on exactly when the device has a proximity sensor |
| TouchKeyHandler.ConstructIgnoresSensor | RogParts/src/com/havoc/settings/zenparts/touch/TouchKeyHandler.java:116-121 | on a device with a proximity sensor, the as-written constructor leaves the gate off and the intended one turns it on |
| TouchKeyHandler.OnReceive | RogParts/src/com/havoc/settings/zenparts/touch/TouchKeyHandler.java:84-98 | the update broadcast replaces the table wholesale and changes nothing else |
| TouchKeyHandler.HandleKeyEvent | RogParts/src/com/havoc/settings/zenparts/touch/TouchKeyHandler.java:140-164 | the pass-through path is taken iff the event's looked-up action is negative, it is not a key-up, or setup is incomplete. On it, the event is handed back unchanged when the marker is set, by this event's text or earlier; otherwise the log call on the still-null key-code field throws, and nothing changes. Every other event is consumed. It enqueues iff it is consumed, its action is non-zero and no gesture message is queued: one message, delayed 100 ms and with a listener registered only when the gate is on. Otherwise the queue and the listeners are untouched. The marker ends set iff it was set before or the event passes through and its text matches; so it is never cleared, and a pass-through event whose text matches sets it |
| TouchKeyHandler.DispatchMessage | RogParts/src/com/havoc/settings/zenparts/touch/TouchKeyHandler.java:197-206 | as written, running the queue delivers the queued message's action id once and empties the queue; it delivers nothing when nothing is queued, and registered listeners stay |
| TouchKeyHandler.DispatchMessageUnregistering | RogParts/src/com/havoc/settings/zenparts/touch/TouchKeyHandler.java:171-206 | as intended, the same delivery also unregisters every registered proximity listener |
| TouchKeyHandler.OnProximitySample | RogParts/src/com/havoc/settings/zenparts/touch/TouchKeyHandler.java:171-195 | the listener the sample reaches unregisters itself. With nothing queued, nothing else changes. Otherwise the queued message is removed and re-sent at once, carrying the listener's action, exactly when the value equals the maximum range; any other value drops the gesture |
| TouchKeyHandler.IsDisabledKeyEvent | RogParts/src/com/havoc/settings/zenparts/touch/TouchKeyHandler.java:557-560 | no key event is disabled |
| TouchKeyHandler.IsActivityLaunchEvent | RogParts/src/com/havoc/settings/zenparts/touch/TouchKeyHandler.java:583-589 | no key event yields a launch intent |
| TouchKeyHandler.IsWakeEvent | RogParts/src/com/havoc/settings/zenparts/touch/TouchKeyHandler.java:562-568 | an event is a wake event iff it is a key-up with scan code 116 |
| TouchKeyHandler.IsCameraLaunchEvent | RogParts/src/com/havoc/settings/zenparts/touch/TouchKeyHandler.java:570-576 | an event is a camera-launch event iff it is a key-up with scan code 46 |
| TouchKeyHandler.CanHandleKeyEvent | RogParts/src/com/havoc/settings/zenparts/touch/TouchKeyHandler.java:578-581 | an event can be handled iff its scan code is one of 116, 103, 17, 31, 18, 46, 44 and 47, whatever its action |
| TouchKeyHandler.ScanCodePredicates | RogParts/src/com/havoc/settings/zenparts/touch/TouchKeyHandler.java:562-581 | a wake event is a key-up with scan code 116; a camera-launch event is a key-up with scan code 46; a handleable event has a scan code in the supported table; wake and camera-launch events are handleable |
| TouchKeyTraces.Step | RogParts/src/com/havoc/settings/zenparts/touch/TouchKeyHandler.java:140-195 | only a key event can be accepted, and only while nothing is queued, and it queues its own id; only a queue run delivers, and it delivers the queued id; no event changes the proximity gate |
| TouchKeyTraces.DeliveriesBoundedByAcceptances | RogParts/src/com/havoc/settings/zenparts/touch/TouchKeyHandler.java:151-195 | on every trace, as written or as intended, deliveries plus still-queued messages never exceed accepted gestures plus the message queued at the start |
| TouchKeyTraces.EachGestureDeliveredAtMostOnce | RogParts/src/com/havoc/settings/zenparts/touch/TouchKeyHandler.java:151-195 | with the listener unregistered on the timer path, the delivered ids plus the queued one form a sub-multiset of the accepted ids (plus the one queued at the start); a registered listener always belongs to the queued gesture |
| TouchKeyTraces.ConstructedTakesImmediatePath | RogParts/src/com/havoc/settings/zenparts/touch/TouchKeyHandler.java:116-160 | on every trace from the as-written constructor the gate stays off, no listener is ever registered, and any queued message has no delay; the as-written and intended timer paths agree |
| TouchKeyTraces.AsWrittenFromConstructAtMostOnce | RogParts/src/com/havoc/settings/zenparts/touch/TouchKeyHandler.java:116-195 | on every trace from the as-written constructor, as written, the delivered ids form a sub-multiset of the accepted ids: no gesture is delivered twice |
| TouchKeyTraces.TouchscreenMarkerIsSticky | RogParts/src/com/havoc/settings/zenparts/touch/TouchKeyHandler.java:142-147 | once set, the marker stays set on every trace; it only becomes set through a key event whose text names a marker scan code |
| TouchKeyTraces.StaleListenerRedeliversOldGesture | RogParts/src/com/havoc/settings/zenparts/touch/TouchKeyHandler.java:171-195 | on a concrete trace with the gate on, the as-written timer path accepts Back and then Camera but delivers Back twice; the intended timer path delivers each once |
| TouchKeyTraces.BackToBackGesturesDeliverOnce | RogParts/src/com/havoc/settings/zenparts/touch/TouchKeyHandler.java:151-161 | two key-ups before the first message runs: only the first is accepted, and it is delivered exactly once |
| TouchKeyTraces.SampleBeforeTimer | RogParts/src/com/havoc/settings/zenparts/touch/TouchKeyHandler.java:176-186 | a sample that beats the delayed message leads to one delivery if it reads "far" and to none otherwise; the queue ends empty and no listener remains |
| TouchKeyTraces.TimerBeforeSample | RogParts/src/com/havoc/settings/zenparts/touch/TouchKeyHandler.java:151-186 | when the delayed message runs first, the action is delivered once; a later sample delivers nothing and leaves no listener |
| TouchKeyTraces.UpdateThenKeyUp | RogParts/src/com/havoc/settings/zenparts/touch/TouchKeyHandler.java:91-161 | after a usable update, a key-up of one of its codes resolves to the action at that code's last occurrence: a positive id is accepted and queued; 0 is consumed without queueing; a negative id takes the pass-through path. There an event whose text matches (always so for codes 44, 46 and 47) sets the marker and is handed back; any other event is handed back if the marker was already set, and otherwise the key-code log call throws |
| HandwaveSensor.ShouldPulse | RogParts/src/com/havoc/settings/zenparts/doze/HandwaveSensor.java:59-66 | a pulse is due iff the feature is enabled and the timestamp is strictly before the wave start plus 1,000,000,000 ns |
| HandwaveSensor.Delta | RogParts/src/com/havoc/settings/zenparts/doze/HandwaveSensor.java:60 | the `long` subtraction of two non-negative timestamps never wraps, so it is below the window iff the timestamp is before the wave start plus one second |
| HandwaveSensor.OnSensorChanged | RogParts/src/com/havoc/settings/zenparts/doze/HandwaveSensor.java:47-57 | the near flag becomes the reading's near-ness (value below the maximum range). A pulse happens only on a near-to-far transition, and then iff the feature is on and less than 1,000,000,000 ns have passed; the transition keeps the wave start, and every other reading restarts it at its own timestamp |
| HandwaveSensor.RunInvariant | RogParts/src/com/havoc/settings/zenparts/doze/HandwaveSensor.java:49-56 | after any reading the near flag is that reading's near-ness, and while it is set the wave start is that reading's timestamp |
| HandwaveSensor.PulsesMatchReference | RogParts/src/com/havoc/settings/zenparts/doze/HandwaveSensor.java:47-66 | from the initial fields, a reading pulses iff the previous reading was near, this one is far, the feature is on, and the two timestamps are less than one second apart |
| HandwaveSensor.FirstSampleNeverPulses | RogParts/src/com/havoc/settings/zenparts/doze/HandwaveSensor.java:36-56 | with the fields as initialised, the first reading never pulses |
| HandwaveSensor.WaveWindowIsStrict | RogParts/src/com/havoc/settings/zenparts/doze/HandwaveSensor.java:59-66 | a near reading then a far one pulses iff the feature is on and the gap is under one second; a gap of exactly 1,000,000,000 ns does not pulse |

## Findings

| source | as written | input that shows it | evidently intended | confidence | as-written member | corrected member |
|---|---|---|---|---|---|---|
| RogParts/src/com/havoc/settings/zenparts/touch/TouchKeyHandler.java:116 | the constructor tests the proximity sensor field before anything assigns it, so the sensor, its manager and its wake lock are never set up | a device that has a proximity sensor: the gate stays off (`Construct(true)`) | look up the sensor, so the gate is on exactly when the device has one | medium; not executed | TouchKeyHandler.Construct, TouchKeyHandler.ConstructIgnoresSensor | TouchKeyHandler.ConstructIntended |
| RogParts/src/com/havoc/settings/zenparts/touch/TouchKeyHandler.java:153-195 | when the 100 ms message runs first, the gesture's one-shot proximity listener stays registered with the old action. If a newer gesture is queued, the next sample to reach the listener removes it; on a far reading it then re-sends the old action in its place | `StaleListenerTrace`: map 116 to Back and 46 to Camera; key-up 116; run the queue; key-up 46; a "far" sample reaches the first listener; run the queue. Delivered: Back, Back | unregister the listener when the gesture's message runs, so each accepted gesture is delivered at most once | low; not executed; unreachable while line 116 keeps the gate off | TouchKeyHandler.DispatchMessage, TouchKeyTraces.StaleListenerRedeliversOldGesture | TouchKeyHandler.DispatchMessageUnregistering, TouchKeyTraces.EachGestureDeliveredAtMostOnce |

## Left out

- The bodies of the action handlers (back, home, ... fmRadio) are not modelled. They inject keys, take screenshots, send broadcasts, adjust audio and launch activities. Only which handler the switch selects is modelled.
- Wake locks are not modelled: they are acquired and released around each gesture, and they affect only power.
- Haptic feedback is not modelled: the vibrator and its settings read run after an action, outside the dispatch logic.
- The setup-complete settings read and the hand-wave enabled settings read become boolean inputs.
- Logging is not modelled, except for one consequence: the pass-through log call whose message is the key-code field throws while that field is unset. `HandleKeyEvent` reports this as `threw`.
- The torch-mode callback, the rear-camera lookup and the flashlight toggle are left out: they enumerate cameras and read torch state from the platform.
- Launching activities and dispatching media keys are left out: the launchable-intent query, the safe activity start and the media-session key dispatch are package-manager and media-session calls.
- The text match on the key event's string form (scan codes 46, 47, 44) becomes a boolean field of `KeyEvent`. The text format belongs to the platform's key-event class. The model records one consequence of that format, as `TextShowsScanCode`: an event with scan code 44, 46 or 47 always matches.
- Real time is not modelled: the delays of the message queue and of sensor delivery become `MessageDue` and `ProximitySample` events, in any order.
- Other messages on the gesture handler's queue are not modelled. The torch callback is registered on the same handler (TouchKeyHandler.java:112). Its updates arrive as posted messages whose `what` is 0, the same value as `GESTURE_REQUEST` (line 62). So the queue checks and removals at lines 151, 178 and 182 also see them. In the code, a key-up that arrives while a torch update is queued is consumed and then dropped. A proximity sample can also delete a queued torch update. The model's queue holds gesture messages only, so it shows neither effect.
- Delivery of one sample to several registered listeners is modelled as one event per listener, with any interleaving.
- Sensor values and maximum ranges are exact `real` numbers, not 32-bit floats.
- Timestamps are non-negative `long` values. Negative sensor timestamps are outside the model.
- HandwaveSensor enable and disable are left out: they only register and unregister the listener.
- Concurrent delivery of a mapping update during a key event is not modelled. The model is sequential, and the table is always replaced as a whole value.
- BootCompletedReceiver.java is not part of this model: it only forwards to classes outside the core.
- Registering the update broadcast receiver, and the broadcast action name, are left out: both are platform registration.
