/**
  The touchscreen-gesture dispatcher as a state record and one pure step per
  input it reacts to: the mapping-update broadcast, a key event from the input
  pipeline, the handler running its queued gesture message, and a proximity
  sample reaching a registered one-shot listener.

  Platform calls become inputs: whether setup has completed is a parameter of
  the key step, and the sensor value and maximum range are parameters of the
  sample step. Wake locks, vibration and logging are left out, except the throw of the
  key-code log call.
 */
module TouchKeyHandler {
  import opened Options
  import C = Constants
  import M = ActionMapping

  /** Delay, in milliseconds, of a gesture message when the proximity gate is on. */
  const GESTURE_DELAY_MS: nat := 100

  /** The action of a key event, as the input pipeline reports it. */
  datatype KeyAction = ActionDown | ActionUp | ActionMultiple

  /** A key event. `textNamesTouchCode` stands for the event's text form
      containing "scanCode=46", "scanCode=47" or "scanCode=44". */
  datatype KeyEvent = KeyEvent(action: KeyAction, scanCode: int, textNamesTouchCode: bool)

  /** The text form of a key event always shows its own "scanCode=<n>", so an
      event with scan code 44, 46 or 47 always matches. (Other codes can match
      too: the text of scan code 460 contains "scanCode=46".) */
  predicate TextShowsScanCode(ev: KeyEvent) {
    ev.scanCode in {C.GESTURE_Z, C.GESTURE_C, C.GESTURE_V} ==> ev.textNamesTouchCode
  }

  /** The queued gesture message: the action id it carries and its delay. */
  datatype Message = Message(arg1: int, delayMs: nat)

  /** The dispatcher's state.
      - `mapping`: scan code to action id;
      - `hasProximity`: whether the proximity sensor field is set;
      - `pending`: the queued gesture message, if any (at most one is ever queued);
      - `listeners`: the action each still-registered one-shot proximity listener captured;
      - `touchscreen`: whether the key-code field holds the "TouchScreen" marker. */
  datatype Handler = Handler(
    mapping: M.Mapping,
    hasProximity: bool,
    pending: Option<Message>,
    listeners: seq<int>,
    touchscreen: bool)

  /** The constructor as written: the proximity sensor field is tested while it
      is still null, so the sensor is never looked up whatever the device has. */
  function Construct(deviceHasProximity: bool): (h: Handler)
    ensures !h.hasProximity
    ensures h.mapping == map[] && h.pending == None && h.listeners == [] && !h.touchscreen
  {
    Handler(map[], false, None, [], false)
  }

  /** The constructor as evidently intended: the proximity gate is on exactly
      when the device has a proximity sensor. */
  function ConstructIntended(deviceHasProximity: bool): (h: Handler)
    ensures h.hasProximity == deviceHasProximity
    ensures h.mapping == map[] && h.pending == None && h.listeners == [] && !h.touchscreen
  {
    Handler(map[], deviceHasProximity, None, [], false)
  }

  /** The as-written constructor never turns the proximity gate on, even on a
      device that has the sensor, unlike the intended one. */
  lemma ConstructIgnoresSensor()
    ensures !Construct(true).hasProximity
    ensures ConstructIntended(true).hasProximity
  {
  }

  /** The update broadcast: the table is replaced wholesale; nothing else changes. */
  function OnReceive(h: Handler, keycodes: Option<seq<int>>, actions: Option<seq<int>>): (h': Handler)
    ensures h'.mapping == M.Replace(keycodes, actions)
    ensures h'.hasProximity == h.hasProximity && h'.pending == h.pending
    ensures h'.listeners == h.listeners && h'.touchscreen == h.touchscreen
  {
    h.(mapping := M.Replace(keycodes, actions))
  }

  /** The state after a key event, the event handed back to the input
      pipeline (`None` when the dispatcher consumed it), and whether the call
      threw instead of returning. */
  datatype KeyResult = KeyResult(handler: Handler, returned: Option<KeyEvent>, threw: bool)

  /** Whether a key event takes the pass-through path: its scan code is
      unmapped (or mapped to a negative id), it is not a key-up, or setup is
      incomplete. */
  predicate PassesThrough(h: Handler, ev: KeyEvent, setupComplete: bool) {
    M.Lookup(h.mapping, ev.scanCode) < 0 || ev.action != ActionUp || !setupComplete
  }

  /** Whether a consumed key event enqueues a gesture message: its action id is
      non-zero and no gesture message is queued yet. */
  predicate Enqueues(h: Handler, ev: KeyEvent, setupComplete: bool) {
    !PassesThrough(h, ev, setupComplete)
    && M.Lookup(h.mapping, ev.scanCode) != 0
    && h.pending.None?
  }

  /** The input pipeline hands a key event to the dispatcher. On the
      pass-through path the key-code field is logged; while it is still unset
      (no event so far has set the marker) that log call receives a null
      message and throws, so the event is neither handed back nor consumed. */
  function HandleKeyEvent(h: Handler, ev: KeyEvent, setupComplete: bool): (r: KeyResult)
    // the pass-through path throws exactly while the marker is still unset
    ensures r.threw <==> PassesThrough(h, ev, setupComplete) && !h.touchscreen && !ev.textNamesTouchCode
    ensures r.threw ==> r.returned.None? && r.handler == h
    ensures r.returned == Some(ev) <==> PassesThrough(h, ev, setupComplete) && !r.threw
    ensures r.returned.Some? ==> r.returned == Some(ev)
    ensures r.handler.mapping == h.mapping && r.handler.hasProximity == h.hasProximity
    // the marker is only ever set, and only on a pass-through path
    ensures r.handler.touchscreen == (h.touchscreen || (PassesThrough(h, ev, setupComplete) && ev.textNamesTouchCode))
    // a passed-through or non-enqueuing event leaves the queue and listeners alone
    ensures !Enqueues(h, ev, setupComplete) ==>
      r.handler.pending == h.pending && r.handler.listeners == h.listeners
    // single flight: an enqueuing event queues one message, delayed only when gated
    ensures Enqueues(h, ev, setupComplete) ==>
      var a := M.Lookup(h.mapping, ev.scanCode);
      && h.pending.None?
      && r.handler.pending == Some(Message(a, if h.hasProximity then GESTURE_DELAY_MS else 0))
      && r.handler.listeners == h.listeners + (if h.hasProximity then [a] else [])
  {
    var action := M.Lookup(h.mapping, ev.scanCode);
    if action < 0 || ev.action != ActionUp || !setupComplete then
      var marked := if ev.textNamesTouchCode then true else h.touchscreen;
      if !marked then KeyResult(h, None, true)
      else KeyResult(h.(touchscreen := marked), Some(ev), false)
    else if action != 0 && h.pending.None? then
      if h.hasProximity then
        KeyResult(h.(pending := Some(Message(action, GESTURE_DELAY_MS)),
                     listeners := h.listeners + [action]), None, false)
      else
        KeyResult(h.(pending := Some(Message(action, 0))), None, false)
    else
      KeyResult(h, None, false)
  }

  /** The state after the handler ran its queued message, and the action id it
      handed to the action switch (`None` when nothing was queued). */
  datatype Dispatch = Dispatch(handler: Handler, delivered: Option<int>)

  /** The handler runs its queued gesture message (the 100 ms timer fired, or an
      immediate message came up), as written: a proximity listener registered
      for this gesture stays registered. */
  function DispatchMessage(h: Handler): (d: Dispatch)
    ensures h.pending.None? ==> d.delivered.None? && d.handler == h
    ensures h.pending.Some? ==> d.delivered == Some(h.pending.value.arg1)
    ensures d.handler.pending.None?
    ensures d.handler.listeners == h.listeners
    ensures d.handler.mapping == h.mapping && d.handler.touchscreen == h.touchscreen
    ensures d.handler.hasProximity == h.hasProximity
  {
    match h.pending
    case None => Dispatch(h, None)
    case Some(msg) => Dispatch(h.(pending := None), Some(msg.arg1))
  }

  /** The handler runs its queued gesture message, as evidently intended: every
      registered one-shot proximity listener is unregistered on this timeout
      path too (while a listener always belongs to the queued gesture, that is
      exactly the gesture's own listener). */
  function DispatchMessageUnregistering(h: Handler): (d: Dispatch)
    ensures h.pending.None? ==> d.delivered.None?
    ensures h.pending.Some? ==> d.delivered == Some(h.pending.value.arg1)
    ensures d.handler.pending.None?
    ensures h.pending.Some? ==> d.handler.listeners == []
    ensures h.pending.None? ==> d.handler.listeners == h.listeners
    ensures d.handler.mapping == h.mapping && d.handler.touchscreen == h.touchscreen
    ensures d.handler.hasProximity == h.hasProximity
  {
    match h.pending
    case None => Dispatch(h, None)
    case Some(msg) => Dispatch(h.(pending := None, listeners := []), Some(msg.arg1))
  }

  /** `s` without its element at index `k`. */
  function RemoveAt(s: seq<int>, k: nat): (r: seq<int>)
    requires k < |s|
    ensures |r| == |s| - 1
    ensures forall i :: 0 <= i < k ==> r[i] == s[i]
    ensures forall i :: k <= i < |r| ==> r[i] == s[i + 1]
  {
    s[..k] + s[k + 1..]
  }

  /** A proximity sample reaches the listener registered `k`-th (a sample for a
      listener that is not registered changes nothing). The listener
      unregisters itself; if no gesture message is queued the sensor was too
      late and nothing else happens; otherwise the queued message is removed
      and re-sent at once only if the sample reads "far" (value equals the
      maximum range). */
  function OnProximitySample(h: Handler, k: nat, value: real, maxRange: real): (h': Handler)
    ensures k >= |h.listeners| ==> h' == h
    ensures k < |h.listeners| ==> h'.listeners == RemoveAt(h.listeners, k)
    ensures h.pending.None? ==> h'.pending.None?
    ensures k < |h.listeners| && h.pending.Some? ==>
      h'.pending == (if value == maxRange then Some(Message(h.listeners[k], 0)) else None)
    ensures h'.mapping == h.mapping && h'.touchscreen == h.touchscreen
    ensures h'.hasProximity == h.hasProximity
  {
    if k >= |h.listeners| then h
    else
      var rest := RemoveAt(h.listeners, k);
      if h.pending.None? then h.(listeners := rest)
      else if value == maxRange then
        h.(listeners := rest, pending := Some(Message(h.listeners[k], 0)))
      else
        h.(listeners := rest, pending := None)
  }

  /** A launch intent; the handler never produces one. */
  datatype LaunchIntent = LaunchIntent(action: string)

  /** Wake events are key-ups of the double-tap gesture. */
  function IsWakeEvent(ev: KeyEvent): (w: bool)
    ensures w <==> ev.action == ActionUp && ev.scanCode == 116
  {
    if ev.action != ActionUp then false else ev.scanCode == C.GESTURE_DOUBLE_CLICK
  }

  /** Camera-launch events are key-ups of the "C" gesture. */
  function IsCameraLaunchEvent(ev: KeyEvent): (c: bool)
    ensures c <==> ev.action == ActionUp && ev.scanCode == 46
  {
    if ev.action != ActionUp then false else ev.scanCode == C.GESTURE_C
  }

  /** Whether the handler claims the event: its scan code is one of the
      supported gesture codes. */
  function CanHandleKeyEvent(ev: KeyEvent): (c: bool)
    ensures c <==> ev.scanCode in {116, 103, 17, 31, 18, 46, 44, 47}
  {
    ev.scanCode in C.SupportedKeycodes
  }

  /** No key event is disabled. */
  function IsDisabledKeyEvent(ev: KeyEvent): (disabled: bool)
    ensures !disabled
  {
    false
  }

  /** No key event launches an activity. */
  function IsActivityLaunchEvent(ev: KeyEvent): (intent: Option<LaunchIntent>)
    ensures intent.None?
  {
    if ev.action != ActionUp then None else None
  }

  /** The scan-code predicates, stated against the gesture constants' values:
      wake is a key-up with scan code 116, camera launch a key-up with scan
      code 46, and both are also handleable. */
  lemma ScanCodePredicates(ev: KeyEvent)
    ensures IsWakeEvent(ev) <==> ev.action == ActionUp && ev.scanCode == 116
    ensures IsCameraLaunchEvent(ev) <==> ev.action == ActionUp && ev.scanCode == 46
    ensures CanHandleKeyEvent(ev) <==> ev.scanCode in {116, 103, 17, 31, 18, 46, 44, 47}
    ensures IsWakeEvent(ev) ==> CanHandleKeyEvent(ev)
    ensures IsCameraLaunchEvent(ev) ==> CanHandleKeyEvent(ev)
  {
  }
}
