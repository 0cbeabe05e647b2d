/**
  Interleaved event traces of the gesture dispatcher: update broadcasts, key
  events, the handler running its queued message, and proximity samples, in
  any order. The real delays of the message queue and of sensor delivery are
  not modelled: the 100 ms timer firing is a `MessageDue` event, and the
  sample reaching a listener is a `ProximitySample` event.
 */
module TouchKeyTraces {
  import opened Options
  import opened TouchKeyHandler
  import M = ActionMapping
  import C = Constants

  datatype Event =
    | UpdateBroadcast(keycodes: Option<seq<int>>, actions: Option<seq<int>>)
    | Key(ev: KeyEvent, setupComplete: bool)
    | MessageDue
    | ProximitySample(listener: nat, value: real, maxRange: real)

  /** One step: the new state, the action id a key event got accepted with (it
      enqueued a gesture message), and the action id the handler delivered to
      the action switch. */
  datatype StepResult = StepResult(handler: Handler, accepted: Option<int>, delivered: Option<int>)

  /** One step of the dispatcher. `unregisterOnDispatch` selects the intended
      behaviour of the timeout path (the listener is unregistered) instead of
      the behaviour as written (it stays registered). */
  function Step(h: Handler, e: Event, unregisterOnDispatch: bool): (s: StepResult)
    ensures s.accepted.Some? ==> e.Key? && h.pending.None? && s.handler.pending.Some?
    ensures s.accepted.Some? ==> s.handler.pending.value.arg1 == s.accepted.value
    ensures s.delivered.Some? ==> e.MessageDue? && h.pending.Some? && h.pending.value.arg1 == s.delivered.value
    ensures s.handler.hasProximity == h.hasProximity
  {
    match e
    case UpdateBroadcast(keycodes, actions) =>
      StepResult(OnReceive(h, keycodes, actions), None, None)
    case Key(ev, setupComplete) =>
      var r := HandleKeyEvent(h, ev, setupComplete);
      var accepted := if Enqueues(h, ev, setupComplete) then Some(M.Lookup(h.mapping, ev.scanCode)) else None;
      StepResult(r.handler, accepted, None)
    case MessageDue =>
      var d := if unregisterOnDispatch then DispatchMessageUnregistering(h) else DispatchMessage(h);
      StepResult(d.handler, None, d.delivered)
    case ProximitySample(k, value, maxRange) =>
      StepResult(OnProximitySample(h, k, value, maxRange), None, None)
  }

  function ToSeq(o: Option<int>): (s: seq<int>)
    ensures |s| == Count(o)
    ensures o.Some? ==> s == [o.value]
  {
    if o.Some? then [o.value] else []
  }

  /** The state a trace ends in, and the accepted and delivered action ids in order. */
  datatype Trace = Trace(handler: Handler, accepted: seq<int>, delivered: seq<int>)

  /** Runs `events` from `h`, one step per event, in order. */
  function Run(h: Handler, events: seq<Event>, unregisterOnDispatch: bool): (t: Trace)
    decreases |events|
  {
    if |events| == 0 then Trace(h, [], [])
    else
      var n := |events| - 1;
      var t := Run(h, events[..n], unregisterOnDispatch);
      var s := Step(t.handler, events[n], unregisterOnDispatch);
      Trace(s.handler, t.accepted + ToSeq(s.accepted), t.delivered + ToSeq(s.delivered))
  }

  /** The queued message's action id, as a multiset of at most one element. */
  function PendingIds(h: Handler): (ms: multiset<int>)
    ensures |ms| == Count(h.pending)
  {
    if h.pending.Some? then multiset{h.pending.value.arg1} else multiset{}
  }

  /** No double delivery, by count, for the code as written and as intended:
      every delivery and every still-queued message is paid for by a distinct
      accepted gesture (or by the message queued at the start). */
  lemma {:induction false} DeliveriesBoundedByAcceptances(h: Handler, events: seq<Event>, unregisterOnDispatch: bool)
    ensures var t := Run(h, events, unregisterOnDispatch);
      |t.delivered| + Count(t.handler.pending) <= |t.accepted| + Count(h.pending)
    decreases |events|
  {
    if |events| > 0 {
      DeliveriesBoundedByAcceptances(h, events[..|events| - 1], unregisterOnDispatch);
    }
  }

  /** With the listener unregistered on the timeout path, a registered
      listener always belongs to the queued gesture. */
  predicate ListenerOwnsPending(h: Handler) {
    h.listeners == [] || (h.pending.Some? && h.listeners == [h.pending.value.arg1])
  }

  /** Step result `s` from `h` keeps the listener owned by the queued gesture,
      and moves at most the queued id to the delivered ones. */
  predicate KeepsOwnership(h: Handler, s: StepResult) {
    && ListenerOwnsPending(s.handler)
    && multiset(ToSeq(s.delivered)) + PendingIds(s.handler) <= multiset(ToSeq(s.accepted)) + PendingIds(h)
  }

  /** One step of the intended dispatcher keeps the listener owned by the
      queued gesture, and moves at most the queued id to the delivered ones. */
  lemma StepKeepsListenerOwnsPending(h: Handler, e: Event)
    requires ListenerOwnsPending(h)
    ensures var s := Step(h, e, true);
      && ListenerOwnsPending(s.handler)
      && multiset(ToSeq(s.delivered)) + PendingIds(s.handler) <= multiset(ToSeq(s.accepted)) + PendingIds(h)
  {
    match e
    case UpdateBroadcast(keycodes, actions) =>
      assert Step(h, e, true) == StepResult(OnReceive(h, keycodes, actions), None, None);
    case Key(ev, setupComplete) =>
      KeyKeepsListenerOwnsPending(h, ev, setupComplete);
    case MessageDue =>
      DueKeepsListenerOwnsPending(h);
    case ProximitySample(k, value, maxRange) =>
      SampleKeepsListenerOwnsPending(h, k, value, maxRange);
  }

  /** A key event: only an enqueuing one, which finds no listener, registers one. */
  lemma KeyKeepsListenerOwnsPending(h: Handler, ev: KeyEvent, setupComplete: bool)
    requires ListenerOwnsPending(h)
    ensures KeepsOwnership(h, Step(h, Key(ev, setupComplete), true))
  {
    var s := Step(h, Key(ev, setupComplete), true);
    var r := HandleKeyEvent(h, ev, setupComplete);
    assert s.handler == r.handler && s.delivered.None?;
    if Enqueues(h, ev, setupComplete) {
      var a := M.Lookup(h.mapping, ev.scanCode);
      assert h.listeners == [];
      assert s.accepted == Some(a);
      assert PendingIds(s.handler) == multiset{a};
      assert PendingIds(h) == multiset{};
    } else {
      assert s.accepted.None?;
      assert r.handler.pending == h.pending && r.handler.listeners == h.listeners;
      assert PendingIds(s.handler) == PendingIds(h);
    }
  }

  /** The intended timeout path: the queued id is delivered and its listener dropped. */
  lemma DueKeepsListenerOwnsPending(h: Handler)
    requires ListenerOwnsPending(h)
    ensures KeepsOwnership(h, Step(h, MessageDue, true))
  {
    var s := Step(h, MessageDue, true);
    var d := DispatchMessageUnregistering(h);
    assert s == StepResult(d.handler, None, d.delivered);
    if h.pending.Some? {
      assert d.handler.listeners == [];
      assert multiset(ToSeq(s.delivered)) == PendingIds(h);
    }
    assert PendingIds(s.handler) == multiset{};
  }

  /** A sample reaching the one listener removes it, and at most re-queues the same id. */
  lemma SampleKeepsListenerOwnsPending(h: Handler, k: nat, value: real, maxRange: real)
    requires ListenerOwnsPending(h)
    ensures KeepsOwnership(h, Step(h, ProximitySample(k, value, maxRange), true))
  {
    var s := Step(h, ProximitySample(k, value, maxRange), true);
    assert s == StepResult(OnProximitySample(h, k, value, maxRange), None, None);
    if k < |h.listeners| {
      assert h.listeners == [h.pending.value.arg1];
      assert s.handler.listeners == [];
      assert PendingIds(s.handler) <= PendingIds(h);
    }
  }

  /** Each accepted gesture is delivered at most once (intended behaviour):
      the delivered ids, together with the still-queued one, form a
      sub-multiset of the accepted ids (and of the one queued at the start). */
  lemma {:induction false} EachGestureDeliveredAtMostOnce(h: Handler, events: seq<Event>)
    requires ListenerOwnsPending(h)
    ensures var t := Run(h, events, true);
      && ListenerOwnsPending(t.handler)
      && multiset(t.delivered) + PendingIds(t.handler) <= multiset(t.accepted) + PendingIds(h)
    decreases |events|
  {
    if |events| > 0 {
      var n := |events| - 1;
      EachGestureDeliveredAtMostOnce(h, events[..n]);
      var t := Run(h, events[..n], true);
      StepKeepsListenerOwnsPending(t.handler, events[n]);
      var s := Step(t.handler, events[n], true);
      var t' := Run(h, events, true);
      assert t' == Trace(s.handler, t.accepted + ToSeq(s.accepted), t.delivered + ToSeq(s.delivered));
      var D, A := multiset(ToSeq(s.delivered)), multiset(ToSeq(s.accepted));
      assert multiset(t'.delivered) == multiset(t.delivered) + D;
      assert multiset(t'.accepted) == multiset(t.accepted) + A;
      AddBounds(multiset(t.delivered), D, PendingIds(s.handler), multiset(t.accepted), A, PendingIds(t.handler), PendingIds(h));
    }
  }

  /** Adding two multiset bounds and cancelling the term they share. */
  lemma AddBounds(x: multiset<int>, d: multiset<int>, p: multiset<int>, y: multiset<int>, a: multiset<int>,
                  shared: multiset<int>, p0: multiset<int>)
    requires d + p <= a + shared
    requires x + shared <= y + p0
    ensures x + d + p <= y + a + p0
  {
    forall k ensures (x + d + p)[k] <= (y + a + p0)[k] {
      assert (d + p)[k] <= (a + shared)[k];
      assert (x + shared)[k] <= (y + p0)[k];
    }
  }

  /** The gate is off, no listener is registered and any queued message is immediate. */
  predicate ImmediateOnly(h: Handler) {
    !h.hasProximity && h.listeners == [] && (h.pending.Some? ==> h.pending.value.delayMs == 0)
  }

  /** Right after construction the proximity gate is off, so on every trace
      every accepted gesture is queued with no delay, no listener is ever
      registered, and the timeout path as written and as intended coincide. */
  lemma {:induction false} ConstructedTakesImmediatePath(deviceHasProximity: bool, events: seq<Event>)
    ensures ImmediateOnly(Run(Construct(deviceHasProximity), events, false).handler)
    ensures Run(Construct(deviceHasProximity), events, false) == Run(Construct(deviceHasProximity), events, true)
  {
    ImmediateRun(Construct(deviceHasProximity), events);
  }

  /** From a state with the gate off and no listener, every trace stays so, and
      both variants of the timeout path run it alike. */
  lemma {:induction false} ImmediateRun(h: Handler, events: seq<Event>)
    requires ImmediateOnly(h)
    ensures ImmediateOnly(Run(h, events, false).handler)
    ensures Run(h, events, false) == Run(h, events, true)
    decreases |events|
  {
    if |events| > 0 {
      var n := |events| - 1;
      ImmediateRun(h, events[..n]);
      var t := Run(h, events[..n], false);
      ImmediateStep(t.handler, events[n]);
    }
  }

  /** One step from a state with the gate off and no listener. */
  lemma ImmediateStep(h: Handler, e: Event)
    requires ImmediateOnly(h)
    ensures ImmediateOnly(Step(h, e, false).handler)
    ensures Step(h, e, false) == Step(h, e, true)
  {
    match e
    case UpdateBroadcast(keycodes, actions) =>
    case Key(ev, setupComplete) =>
      var r := HandleKeyEvent(h, ev, setupComplete);
      assert r.handler.listeners == [];
    case MessageDue =>
      assert DispatchMessageUnregistering(h) == DispatchMessage(h);
    case ProximitySample(k, value, maxRange) =>
      assert OnProximitySample(h, k, value, maxRange) == h;
  }

  /** Once the touchscreen marker is set it stays set on every trace, and it is
      only ever set by a key event whose text names one of the marker codes. */
  lemma {:induction false} TouchscreenMarkerIsSticky(h: Handler, events: seq<Event>, unregisterOnDispatch: bool)
    ensures h.touchscreen ==> Run(h, events, unregisterOnDispatch).handler.touchscreen
    ensures Run(h, events, unregisterOnDispatch).handler.touchscreen ==>
      h.touchscreen || exists i :: 0 <= i < |events| && events[i].Key? && events[i].ev.textNamesTouchCode
    decreases |events|
  {
    if |events| > 0 {
      var n := |events| - 1;
      TouchscreenMarkerIsSticky(h, events[..n], unregisterOnDispatch);
      var t := Run(h, events[..n], unregisterOnDispatch);
      if t.handler.touchscreen && !h.touchscreen {
        var i :| 0 <= i < n && events[..n][i].Key? && events[..n][i].ev.textNamesTouchCode;
        assert events[i] == events[..n][i];
      }
    }
  }

  /** Running one more event extends the run by that event's step. */
  lemma RunSnoc(h: Handler, events: seq<Event>, e: Event, unregisterOnDispatch: bool)
    ensures var t := Run(h, events, unregisterOnDispatch);
      var s := Step(t.handler, e, unregisterOnDispatch);
      Run(h, events + [e], unregisterOnDispatch)
        == Trace(s.handler, t.accepted + ToSeq(s.accepted), t.delivered + ToSeq(s.delivered))
  {
    assert (events + [e])[..|events|] == events;
  }

  /** A key-up of scan code `code`, with setup complete; its text names the
      touch-code string exactly when the code is one of the three the text
      test looks for. */
  function KeyUp(code: int): Event {
    Key(KeyEvent(ActionUp, code, code in {C.GESTURE_Z, C.GESTURE_C, C.GESTURE_V}), true)
  }

  /** Double tap bound to Back (2), "C" bound to Camera (14); the double tap is
      accepted and delivered by the timer, leaving its listener registered;
      the "C" gesture is accepted; a "far" sample then reaches the first,
      stale listener; the handler runs its queue. */
  const StaleListenerTrace: seq<Event> := [
    UpdateBroadcast(Some([116, 46]), Some([2, 14])),
    KeyUp(116),
    MessageDue,
    KeyUp(46),
    ProximitySample(0, 5.0, 5.0),
    MessageDue
  ]

  /** With the proximity gate on, the as-written timeout path leaves a stale
      listener: it removes the second gesture's message and re-sends the
      first, so Back is delivered twice and Camera never. Unregistering on the
      timeout path delivers each once. */
  lemma StaleListenerRedeliversOldGesture()
    ensures var t := Run(ConstructIntended(true), StaleListenerTrace, false);
      && t.accepted == [2, 14]
      && t.delivered == [2, 2]
      && !(multiset(t.delivered) <= multiset(t.accepted))
    ensures var t := Run(ConstructIntended(true), StaleListenerTrace, true);
      t.accepted == [2, 14] && t.delivered == [2, 14]
  {
    StaleListenerRun(false);
    StaleListenerRun(true);
    var t := Run(ConstructIntended(true), StaleListenerTrace, false);
    assert multiset(t.delivered)[2] == 2;
  }

  /** The stale-listener trace, step by step, for either timeout path. */
  lemma StaleListenerRun(unregisterOnDispatch: bool)
    ensures var t := Run(ConstructIntended(true), StaleListenerTrace, unregisterOnDispatch);
      && t.accepted == [2, 14]
      && t.delivered == (if unregisterOnDispatch then [2, 14] else [2, 2])
  {
    var f := unregisterOnDispatch;
    var es := StaleListenerTrace;
    var hs := StaleListenerStates(f);
    var acc := StaleListenerAccepted();
    var del := StaleListenerDelivered(f);
    forall i | 0 <= i < |es|
      ensures StepsAlong(es, hs, acc, del, f, i)
    {
      if i == 0 {
        StaleListenerUpdateStep(f);
      } else if i == 1 {
        StaleListenerTapStep(f);
      } else if i == 2 {
        StaleListenerFirstTimerStep(f);
      } else if i == 3 {
        StaleListenerCameraStep(f);
      } else if i == 4 {
        StaleListenerSampleStep(f);
      } else {
        StaleListenerLastTimerStep(f);
      }
    }
    RunAlong(es, hs, acc, del, f);
  }

  /** Event `i` of `es` takes state `hs[i]` to `hs[i + 1]`, adding its accepted
      and delivered ids to `acc[i]` and `del[i]`. */
  predicate StepsAlong(es: seq<Event>, hs: seq<Handler>, acc: seq<seq<int>>, del: seq<seq<int>>, f: bool, i: nat)
    requires i < |es| && |hs| == |acc| == |del| == |es| + 1
  {
    var s := Step(hs[i], es[i], f);
    && s.handler == hs[i + 1]
    && acc[i + 1] == acc[i] + ToSeq(s.accepted)
    && del[i + 1] == del[i] + ToSeq(s.delivered)
  }

  /** A run follows any sequence of states its events step along, to its end. */
  lemma RunAlong(es: seq<Event>, hs: seq<Handler>, acc: seq<seq<int>>, del: seq<seq<int>>, f: bool)
    requires |hs| == |acc| == |del| == |es| + 1
    requires acc[0] == [] && del[0] == []
    requires forall i :: 0 <= i < |es| ==> StepsAlong(es, hs, acc, del, f, i)
    ensures Run(hs[0], es, f) == Trace(hs[|es|], acc[|es|], del[|es|])
  {
    RunFollows(es, hs, acc, del, f, |es|);
    assert es[..|es|] == es;
  }

  /** A run follows any sequence of states its events step along: the run of
      the first `k` events ends in `hs[k]` with `acc[k]` and `del[k]`. */
  lemma {:induction false} RunFollows(es: seq<Event>, hs: seq<Handler>, acc: seq<seq<int>>, del: seq<seq<int>>,
                                      f: bool, k: nat)
    requires |hs| == |acc| == |del| == |es| + 1 && k <= |es|
    requires acc[0] == [] && del[0] == []
    requires forall i :: 0 <= i < |es| ==> StepsAlong(es, hs, acc, del, f, i)
    ensures Run(hs[0], es[..k], f) == Trace(hs[k], acc[k], del[k])
  {
    if k == 0 {
      assert es[..0] == [];
    } else {
      var prefix := es[..k - 1];
      RunFollows(es, hs, acc, del, f, k - 1);
      assert StepsAlong(es, hs, acc, del, f, k - 1);
      RunExtend(hs[0], prefix, es[k - 1], f, Trace(hs[k - 1], acc[k - 1], del[k - 1]), Step(hs[k - 1], es[k - 1], f));
      assert prefix + [es[k - 1]] == es[..k];
    }
  }

  /** The accepted ids after each prefix of the stale-listener trace. */
  function StaleListenerAccepted(): seq<seq<int>> {
    [[], [], [2], [2], [2, 14], [2, 14], [2, 14]]
  }

  /** The delivered ids after each prefix of the stale-listener trace. */
  function StaleListenerDelivered(unregisterOnDispatch: bool): seq<seq<int>> {
    [[], [], [], [2], [2], [2], [2, if unregisterOnDispatch then 14 else 2]]
  }

  /** The states the stale-listener trace passes through. */
  function StaleListenerStates(unregisterOnDispatch: bool): (hs: seq<Handler>)
    ensures |hs| == 7
  {
    var f := unregisterOnDispatch;
    var m := map[116 := 2, 46 := 14];
    var l3: seq<int> := if f then [] else [2];
    [ ConstructIntended(true),
      Handler(m, true, None, [], false),
      Handler(m, true, Some(Message(2, 100)), [2], false),
      Handler(m, true, None, l3, false),
      Handler(m, true, Some(Message(14, 100)), l3 + [14], false),
      Handler(m, true, Some(Message(if f then 14 else 2, 0)), if f then [] else [14], false),
      Handler(m, true, None, if f then [] else [14], false) ]
  }

  /** Event `i` of the stale-listener trace takes state `i` to state `i + 1`. */
  predicate StaleListenerStepsAt(i: nat, f: bool)
    requires i < 6
  {
    StepsAlong(StaleListenerTrace, StaleListenerStates(f), StaleListenerAccepted(), StaleListenerDelivered(f), f, i)
  }

  /** The update installs the two bindings. */
  lemma StaleListenerUpdateStep(f: bool)
    ensures StaleListenerStepsAt(0, f)
  {
    assert M.Replace(Some([116, 46]), Some([2, 14])) == map[116 := 2, 46 := 14];
  }

  /** The double tap is accepted, delayed and watched. */
  lemma StaleListenerTapStep(f: bool)
    ensures StaleListenerStepsAt(1, f)
  {
    var H := StaleListenerStates(f);
    assert H[1] == Handler(map[116 := 2, 46 := 14], true, None, [], false);
    assert Enqueues(H[1], KeyEvent(ActionUp, 116, false), true);
  }

  /** The timer delivers Back; only the intended path drops the listener. */
  lemma StaleListenerFirstTimerStep(f: bool)
    ensures StaleListenerStepsAt(2, f)
  {
    assert StaleListenerStates(f)[2].pending == Some(Message(2, 100));
  }

  /** The "C" gesture is accepted, delayed and watched by a second listener. */
  lemma StaleListenerCameraStep(f: bool)
    ensures StaleListenerStepsAt(3, f)
  {
    var H := StaleListenerStates(f);
    assert H[3].pending.None?;
    assert Enqueues(H[3], KeyEvent(ActionUp, 46, false), true);
  }

  /** The "far" sample reaches the first listener, whichever gesture it was for. */
  lemma StaleListenerSampleStep(f: bool)
    ensures StaleListenerStepsAt(4, f)
  {
    assert StaleListenerStates(f)[4].listeners == (if f then [] else [2]) + [14];
  }

  /** The queue runs the re-sent message. */
  lemma StaleListenerLastTimerStep(f: bool)
    ensures StaleListenerStepsAt(5, f)
  {
    assert StaleListenerStates(f)[5].pending == Some(Message(if f then 14 else 2, 0));
  }

  /** A run `t` of `events` followed by a step `s` of `e` is the run of `events + [e]`. */
  lemma RunExtend(h: Handler, events: seq<Event>, e: Event, f: bool, t: Trace, s: StepResult)
    requires Run(h, events, f) == t
    requires Step(t.handler, e, f) == s
    ensures Run(h, events + [e], f) == Trace(s.handler, t.accepted + ToSeq(s.accepted), t.delivered + ToSeq(s.delivered))
  {
    RunSnoc(h, events, e, f);
  }

  /** A key-up with setup complete, nothing queued and a positive action id
      is accepted and queued, delayed and watched by a listener when gated. */
  lemma AcceptStep(h: Handler, e: KeyEvent, f: bool)
    requires h.pending.None?
    requires e.action == ActionUp && M.Lookup(h.mapping, e.scanCode) > 0
    ensures var a := M.Lookup(h.mapping, e.scanCode);
      Step(h, Key(e, true), f) == StepResult(
        h.(pending := Some(Message(a, if h.hasProximity then GESTURE_DELAY_MS else 0)),
           listeners := h.listeners + (if h.hasProximity then [a] else [])),
        Some(a), None)
  {
    assert Enqueues(h, e, true);
  }

  /** A key event while a message is queued is never accepted and leaves the
      queued message alone. */
  lemma BusyKeyStep(h: Handler, ev: KeyEvent, setupComplete: bool, f: bool)
    requires h.pending.Some?
    ensures var s := Step(h, Key(ev, setupComplete), f);
      s.accepted.None? && s.delivered.None? && s.handler.pending == h.pending
  {
    assert !Enqueues(h, ev, setupComplete);
  }

  /** The handler running its queue delivers the queued id, if any; the
      intended timeout path also drops every listener. */
  lemma DueStep(h: Handler, f: bool)
    ensures Step(h, MessageDue, f) == (
      if h.pending.None? then StepResult(h, None, None)
      else StepResult(h.(pending := None, listeners := if f then [] else h.listeners),
                      None, Some(h.pending.value.arg1)))
  {
  }

  /** A proximity sample only changes the state. */
  lemma SampleStep(h: Handler, k: nat, value: real, maxRange: real, f: bool)
    ensures Step(h, ProximitySample(k, value, maxRange), f)
      == StepResult(OnProximitySample(h, k, value, maxRange), None, None)
  {
  }

  /** Single flight: a second gesture while one is queued is consumed and
      dropped, so two back-to-back gestures deliver only the first, once. */
  lemma BackToBackGesturesDeliverOnce(h: Handler, e1: KeyEvent, e2: KeyEvent, f: bool)
    requires h.pending.None?
    requires e1.action == ActionUp && M.Lookup(h.mapping, e1.scanCode) > 0
    ensures var a := M.Lookup(h.mapping, e1.scanCode);
      var t := Run(h, [Key(e1, true), Key(e2, true), MessageDue, MessageDue], f);
      t.accepted == [a] && t.delivered == [a] && t.handler.pending.None?
  {
    var a := M.Lookup(h.mapping, e1.scanCode);
    var s0, s1, s2, s3 := BackToBackSteps(h, e1, e2, f);
    var es := [Key(e1, true), Key(e2, true), MessageDue, MessageDue];
    var hs := [h, s0.handler, s1.handler, s2.handler, s3.handler];
    var acc := [[], [a], [a], [a], [a]];
    var del := [[], [], [], [a], [a]];
    forall i | 0 <= i < |es|
      ensures StepsAlong(es, hs, acc, del, f, i)
    {
      if i == 0 {
        assert Step(hs[0], es[0], f) == s0 && hs[1] == s0.handler;
        assert acc[1] == acc[0] + ToSeq(s0.accepted) && del[1] == del[0] + ToSeq(s0.delivered);
      } else if i == 1 {
        assert Step(hs[1], es[1], f) == s1 && hs[2] == s1.handler;
        assert acc[2] == acc[1] + ToSeq(s1.accepted) && del[2] == del[1] + ToSeq(s1.delivered);
      } else if i == 2 {
        assert Step(hs[2], es[2], f) == s2 && hs[3] == s2.handler;
        assert acc[3] == acc[2] + ToSeq(s2.accepted) && del[3] == del[2] + ToSeq(s2.delivered);
      } else {
        assert Step(hs[3], es[3], f) == s3 && hs[4] == s3.handler;
        assert acc[4] == acc[3] + ToSeq(s3.accepted) && del[4] == del[3] + ToSeq(s3.delivered);
      }
    }
    RunAlong(es, hs, acc, del, f);
  }

  /** The four steps of two back-to-back gestures and two runs of the queue. */
  lemma BackToBackSteps(h: Handler, e1: KeyEvent, e2: KeyEvent, f: bool)
    returns (s0: StepResult, s1: StepResult, s2: StepResult, s3: StepResult)
    requires h.pending.None?
    requires e1.action == ActionUp && M.Lookup(h.mapping, e1.scanCode) > 0
    ensures Step(h, Key(e1, true), f) == s0 && Step(s0.handler, Key(e2, true), f) == s1
    ensures Step(s1.handler, MessageDue, f) == s2 && Step(s2.handler, MessageDue, f) == s3
    ensures var a := M.Lookup(h.mapping, e1.scanCode);
      && s0.accepted == Some(a) && s1.accepted.None? && s2.accepted.None? && s3.accepted.None?
      && s0.delivered.None? && s1.delivered.None? && s2.delivered == Some(a) && s3.delivered.None?
      && s3.handler.pending.None?
  {
    var a := M.Lookup(h.mapping, e1.scanCode);
    AcceptStep(h, e1, f);
    var h1 := h.(pending := Some(Message(a, if h.hasProximity then GESTURE_DELAY_MS else 0)),
                 listeners := h.listeners + (if h.hasProximity then [a] else []));
    s0 := StepResult(h1, Some(a), None);
    s1 := Step(h1, Key(e2, true), f);
    BusyKeyStep(h1, e2, true, f);
    var h2 := s1.handler;
    DueStep(h2, f);
    var h3 := h2.(pending := None, listeners := if f then [] else h2.listeners);
    s2 := StepResult(h3, None, Some(a));
    DueStep(h3, f);
    s3 := StepResult(h3, None, None);
  }

  /** The proximity race: the sample reaches the gesture's listener before the
      100 ms message runs. The delayed message is removed; a "far" sample
      re-sends the action, which is then delivered exactly once, and any other
      sample drops the gesture. Either way the listener is gone. */
  lemma SampleBeforeTimer(h: Handler, e: KeyEvent, value: real, maxRange: real, f: bool)
    requires h.hasProximity && h.pending.None? && h.listeners == []
    requires e.action == ActionUp && M.Lookup(h.mapping, e.scanCode) > 0
    ensures var a := M.Lookup(h.mapping, e.scanCode);
      var t := Run(h, [Key(e, true), ProximitySample(0, value, maxRange), MessageDue], f);
      && t.accepted == [a]
      && t.delivered == (if value == maxRange then [a] else [])
      && t.handler.pending.None? && t.handler.listeners == []
  {
    var a := M.Lookup(h.mapping, e.scanCode);
    var s0, s1, s2 := SampleBeforeTimerSteps(h, e, value, maxRange, f);
    var es := [Key(e, true), ProximitySample(0, value, maxRange), MessageDue];
    var hs := [h, s0.handler, s1.handler, s2.handler];
    var acc := [[], [a], [a], [a]];
    var del := [[], [], [], ToSeq(s2.delivered)];
    forall i | 0 <= i < |es|
      ensures StepsAlong(es, hs, acc, del, f, i)
    {
      if i == 0 {
        assert Step(hs[0], es[0], f) == s0 && hs[1] == s0.handler;
        assert acc[1] == [] + ToSeq(s0.accepted) && del[1] == [] + ToSeq(s0.delivered);
      } else if i == 1 {
        assert Step(hs[1], es[1], f) == s1 && hs[2] == s1.handler;
        assert acc[2] == acc[1] + ToSeq(s1.accepted) && del[2] == del[1] + ToSeq(s1.delivered);
      } else {
        assert Step(hs[2], es[2], f) == s2 && hs[3] == s2.handler;
        assert acc[3] == acc[2] + ToSeq(s2.accepted) && del[3] == del[2] + ToSeq(s2.delivered);
      }
    }
    RunAlong(es, hs, acc, del, f);
  }

  /** The three steps of the proximity race won by the sample. */
  lemma SampleBeforeTimerSteps(h: Handler, e: KeyEvent, value: real, maxRange: real, f: bool)
    returns (s0: StepResult, s1: StepResult, s2: StepResult)
    requires h.hasProximity && h.pending.None? && h.listeners == []
    requires e.action == ActionUp && M.Lookup(h.mapping, e.scanCode) > 0
    ensures Step(h, Key(e, true), f) == s0 && Step(s0.handler, ProximitySample(0, value, maxRange), f) == s1
    ensures Step(s1.handler, MessageDue, f) == s2
    ensures var a := M.Lookup(h.mapping, e.scanCode);
      && s0.accepted == Some(a) && s1.accepted.None? && s2.accepted.None?
      && s0.delivered.None? && s1.delivered.None?
      && ToSeq(s2.delivered) == (if value == maxRange then [a] else [])
      && s2.handler.pending.None? && s2.handler.listeners == []
  {
    var a := M.Lookup(h.mapping, e.scanCode);
    AcceptStep(h, e, f);
    assert h.listeners + [a] == [a];
    var h1 := h.(pending := Some(Message(a, GESTURE_DELAY_MS)), listeners := [a]);
    s0 := StepResult(h1, Some(a), None);
    SampleStep(h1, 0, value, maxRange, f);
    var h2 := OnProximitySample(h1, 0, value, maxRange);
    s1 := StepResult(h2, None, None);
    assert h2.listeners == [];
    assert h2.pending == (if value == maxRange then Some(Message(a, 0)) else None);
    DueStep(h2, f);
    s2 := Step(h2, MessageDue, f);
  }

  /** Timeout fallback: the 100 ms message runs before any sample arrives. The
      action is delivered exactly once; a sample arriving afterwards finds no
      queued message, delivers nothing more, and leaves no listener behind. */
  lemma TimerBeforeSample(h: Handler, e: KeyEvent, value: real, maxRange: real, f: bool)
    requires h.hasProximity && h.pending.None? && h.listeners == []
    requires e.action == ActionUp && M.Lookup(h.mapping, e.scanCode) > 0
    ensures var a := M.Lookup(h.mapping, e.scanCode);
      var t := Run(h, [Key(e, true), MessageDue, ProximitySample(0, value, maxRange), MessageDue], f);
      && t.accepted == [a]
      && t.delivered == [a]
      && t.handler.pending.None? && t.handler.listeners == []
  {
    var a := M.Lookup(h.mapping, e.scanCode);
    var s0, s1, s2, s3 := TimerBeforeSampleSteps(h, e, value, maxRange, f);
    var es := [Key(e, true), MessageDue, ProximitySample(0, value, maxRange), MessageDue];
    var hs := [h, s0.handler, s1.handler, s2.handler, s3.handler];
    var acc := [[], [a], [a], [a], [a]];
    var del := [[], [], [a], [a], [a]];
    forall i | 0 <= i < |es|
      ensures StepsAlong(es, hs, acc, del, f, i)
    {
      if i == 0 {
        assert Step(hs[0], es[0], f) == s0 && hs[1] == s0.handler;
        assert acc[1] == acc[0] + ToSeq(s0.accepted) && del[1] == del[0] + ToSeq(s0.delivered);
      } else if i == 1 {
        assert Step(hs[1], es[1], f) == s1 && hs[2] == s1.handler;
        assert acc[2] == acc[1] + ToSeq(s1.accepted) && del[2] == del[1] + ToSeq(s1.delivered);
      } else if i == 2 {
        assert Step(hs[2], es[2], f) == s2 && hs[3] == s2.handler;
        assert acc[3] == acc[2] + ToSeq(s2.accepted) && del[3] == del[2] + ToSeq(s2.delivered);
      } else {
        assert Step(hs[3], es[3], f) == s3 && hs[4] == s3.handler;
        assert acc[4] == acc[3] + ToSeq(s3.accepted) && del[4] == del[3] + ToSeq(s3.delivered);
      }
    }
    RunAlong(es, hs, acc, del, f);
  }

  /** The four steps of the proximity race won by the timer. */
  lemma TimerBeforeSampleSteps(h: Handler, e: KeyEvent, value: real, maxRange: real, f: bool)
    returns (s0: StepResult, s1: StepResult, s2: StepResult, s3: StepResult)
    requires h.hasProximity && h.pending.None? && h.listeners == []
    requires e.action == ActionUp && M.Lookup(h.mapping, e.scanCode) > 0
    ensures Step(h, Key(e, true), f) == s0 && Step(s0.handler, MessageDue, f) == s1
    ensures Step(s1.handler, ProximitySample(0, value, maxRange), f) == s2 && Step(s2.handler, MessageDue, f) == s3
    ensures var a := M.Lookup(h.mapping, e.scanCode);
      && s0.accepted == Some(a) && s1.accepted.None? && s2.accepted.None? && s3.accepted.None?
      && s0.delivered.None? && s1.delivered == Some(a) && s2.delivered.None? && s3.delivered.None?
      && s3.handler.pending.None? && s3.handler.listeners == []
  {
    var a := M.Lookup(h.mapping, e.scanCode);
    AcceptStep(h, e, f);
    assert h.listeners + [a] == [a];
    var h1 := h.(pending := Some(Message(a, GESTURE_DELAY_MS)), listeners := [a]);
    s0 := StepResult(h1, Some(a), None);
    DueStep(h1, f);
    var h2 := h1.(pending := None, listeners := if f then [] else [a]);
    s1 := StepResult(h2, None, Some(a));
    SampleStep(h2, 0, value, maxRange, f);
    var h3 := OnProximitySample(h2, 0, value, maxRange);
    s2 := StepResult(h3, None, None);
    assert h3.pending.None? && h3.listeners == [];
    DueStep(h3, f);
    s3 := StepResult(h3, None, None);
  }

  /** After a usable update, a key-up of `keycodes[i]` with setup complete and
      nothing queued is resolved to the action paired with the last occurrence
      of that code: a positive id is accepted and queued, id 0 is consumed
      without being queued, and a negative id takes the pass-through path. On
      it, an event whose text matches sets the marker and is handed back;
      otherwise the event is handed back while the marker is set and throws
      while it is unset. `text` is the event's text match, which scan codes 44,
      46 and 47 always have. */
  lemma UpdateThenKeyUp(h: Handler, keycodes: seq<int>, actions: seq<int>, i: nat, text: bool, f: bool)
    requires |keycodes| == |actions| && i < |keycodes|
    requires TextShowsScanCode(KeyEvent(ActionUp, keycodes[i], text))
    requires h.pending.None?
    ensures var a := actions[M.LastIndexOf(keycodes, keycodes[i])];
      var ev := KeyEvent(ActionUp, keycodes[i], text);
      var t := Run(h, [UpdateBroadcast(Some(keycodes), Some(actions)), Key(ev, true)], f);
      var r := HandleKeyEvent(OnReceive(h, Some(keycodes), Some(actions)), ev, true);
      && (a > 0 ==> t.accepted == [a] && t.handler.pending == Some(Message(a, if h.hasProximity then GESTURE_DELAY_MS else 0)))
      && (a <= 0 ==> t.accepted == [] && t.handler.pending.None?)
      && (a < 0 <==> r.returned.Some? || r.threw)
      && (a < 0 ==> (r.threw <==> !h.touchscreen && !text))
      && (a < 0 ==> (r.handler.touchscreen <==> h.touchscreen || text))
  {
    var ev := KeyEvent(ActionUp, keycodes[i], text);
    var h1 := OnReceive(h, Some(keycodes), Some(actions));
    M.ReplaceLastWriteWins(keycodes, actions, keycodes[i]);
    var a := actions[M.LastIndexOf(keycodes, keycodes[i])];
    assert M.Lookup(h1.mapping, keycodes[i]) == a;
    var s0 := Step(h, UpdateBroadcast(Some(keycodes), Some(actions)), f);
    assert s0 == StepResult(h1, None, None);
    var s1 := Step(h1, Key(ev, true), f);
    assert Enqueues(h1, ev, true) <==> a > 0;
    var es := [UpdateBroadcast(Some(keycodes), Some(actions)), Key(ev, true)];
    var hs := [h, h1, s1.handler];
    var acc := [[], [], ToSeq(s1.accepted)];
    var del: seq<seq<int>> := [[], [], []];
    forall i | 0 <= i < |es|
      ensures StepsAlong(es, hs, acc, del, f, i)
    {
      if i == 0 {
        assert Step(hs[0], es[0], f) == s0 && hs[1] == s0.handler;
        assert acc[1] == acc[0] + ToSeq(s0.accepted) && del[1] == del[0] + ToSeq(s0.delivered);
      } else {
        assert Step(hs[1], es[1], f) == s1 && hs[2] == s1.handler;
        assert acc[2] == acc[1] + ToSeq(s1.accepted) && del[2] == del[1] + ToSeq(s1.delivered);
      }
    }
    RunAlong(es, hs, acc, del, f);
  }

  /** No double delivery for the code as written: from the as-written
      constructor, on every trace, the delivered ids form a sub-multiset of
      the accepted ids. */
  lemma AsWrittenFromConstructAtMostOnce(deviceHasProximity: bool, events: seq<Event>)
    ensures var t := Run(Construct(deviceHasProximity), events, false);
      multiset(t.delivered) <= multiset(t.accepted)
  {
    var h := Construct(deviceHasProximity);
    ConstructedTakesImmediatePath(deviceHasProximity, events);
    EachGestureDeliveredAtMostOnce(h, events);
    var t := Run(h, events, false);
    assert PendingIds(h) == multiset{};
    assert multiset(t.delivered) <= multiset(t.delivered) + PendingIds(t.handler);
  }
}
