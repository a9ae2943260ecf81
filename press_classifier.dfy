/**
 * The press classifier of one button, as pure functions over its runtime
 * state: what BfButton::updateState and BfButton::loop do to the fields, and
 * which callbacks loop() invokes. The class BfButton (module Button) is
 * proved to follow these functions; the lemmas here state what the state
 * machine promises.
 */
module PressClassifier {
  import opened Timing

  datatype Option<T> = None | Some(value: T)

  /** button_state_t: the raw sample of one poll. */
  datatype ButtonState = Idle | Pressing

  /** press_pattern_t: the three patterns a callback can be told about. */
  datatype PressPattern = SinglePress | DoublePress | LongPress

  /** button_mode_t: a button reads its own pin, or is driven by a manager. */
  datatype ButtonMode = StandaloneDigital | AnalogButtonArray

  /** Names a user handler of type `void (*)(BfButton *, press_pattern_t)`;
      its body is foreign code and is not modelled. */
  type Callback = nat

  /** Arduino's digital levels. */
  const Low: u8 := 0

  const DefaultLoopInterval: u8 := 20
  const DefaultDoublePressTimeout: u32 := 300
  const DefaultPressForTimeout: u32 := 3000

  /** The fields BfButton::loop works on. */
  datatype Runtime = Runtime(
    prevState: ButtonState,
    state: ButtonState,
    pressCount: u8,
    firstPressedAt: u32,
    pressedSince: u32,
    isDebouncing: bool)

  /** The registered callbacks and the timeouts registered with them. */
  datatype Handlers = Handlers(
    onPress: Option<Callback>,
    onDoublePress: Option<Callback>,
    doublePressTimeout: u32,
    onPressFor: Option<Callback>,
    pressForTimeout: u32)

  /** The state after one loop() and the patterns whose callbacks it invoked,
      in the order it invoked them. */
  datatype Outcome = Outcome(runtime: Runtime, invoked: seq<PressPattern>)

  const InitialRuntime: Runtime := Runtime(Idle, Idle, 0, 0, 0, false)

  const InitialHandlers: Handlers :=
    Handlers(None, None, DefaultDoublePressTimeout, None, DefaultPressForTimeout)

  /** updateState: the new sample becomes current, the old one previous. */
  function Shift(r: Runtime, s: ButtonState): Runtime
  {
    r.(prevState := r.state, state := s)
  }

  predicate RisingEdge(r: Runtime)
  {
    r.prevState == Idle && r.state == Pressing
  }

  predicate Held(r: Runtime)
  {
    r.prevState == Pressing && r.state == Pressing
  }

  predicate Released(r: Runtime)
  {
    r.prevState == Pressing && r.state == Idle
  }

  /** A double press can still complete the burst. */
  predicate DoubleStillPossible(r: Runtime, h: Handlers, now: u32)
  {
    h.onDoublePress.Some? && Elapsed(now, r.firstPressedAt) <= h.doublePressTimeout
  }

  /** A long press can still complete the burst: the button is being held. */
  predicate LongStillPossible(r: Runtime, h: Handlers)
  {
    h.onPressFor.Some? && r.pressedSince != 0 && r.state == Pressing
  }

  /** The pending burst resolves as a single press this cycle. */
  predicate SingleDue(r: Runtime, h: Handlers, now: u32)
  {
    r.pressCount > 0 && !DoubleStillPossible(r, h, now) && !LongStillPossible(r, h)
  }

  /** The counter and the first-tap time after the pending-single check. */
  function ResolvePending(r: Runtime, h: Handlers, now: u32): Runtime
  {
    if SingleDue(r, h, now) then r.(pressCount := 0, firstPressedAt := 0) else r
  }

  /** A confirmed press: one more tap on the 8-bit counter, and both
      timestamps started unless already running (0 means "not running"). */
  function Confirm(r: Runtime, now: u32): Runtime
  {
    r.(pressCount := (r.pressCount + 1) % 0x100,
       firstPressedAt := if r.firstPressedAt == 0 then now else r.firstPressedAt,
       pressedSince := if r.pressedSince == 0 then now else r.pressedSince,
       isDebouncing := false)
  }

  /** The state in a held cycle once the pending burst is resolved and a
      debounced press is confirmed; the long and double checks look at it. */
  function Counted(r: Runtime, h: Handlers, now: u32): Runtime
  {
    var r1 := ResolvePending(r, h, now);
    if r1.isDebouncing then Confirm(r1, now) else r1
  }

  predicate LongDue(c: Runtime, h: Handlers, now: u32)
  {
    h.onPressFor.Some? && c.pressCount > 0 && Elapsed(now, c.pressedSince) >= h.pressForTimeout
  }

  predicate DoubleDue(c: Runtime, h: Handlers, now: u32)
  {
    h.onDoublePress.Some? && c.pressCount > 1 && Elapsed(now, c.firstPressedAt) <= h.doublePressTimeout
  }

  /** The single-press callback invoked by the pending-single check. */
  function SingleCalls(r: Runtime, h: Handlers, now: u32): seq<PressPattern>
  {
    if SingleDue(r, h, now) && h.onPress.Some? then [SinglePress] else []
  }

  /** The held cycle of loop(), from the state `r1` left by the pending-single
      check: confirm a debounced press, then the long-press check, then the
      double-press check. */
  function HeldChecks(r1: Runtime, h: Handlers, now: u32): Outcome
  {
    var c := if r1.isDebouncing then Confirm(r1, now) else r1;
    if LongDue(c, h, now) then
      Outcome(c.(pressCount := 0, firstPressedAt := 0, pressedSince := 0), [LongPress])
    else if DoubleDue(c, h, now) then
      Outcome(c.(pressCount := 0, firstPressedAt := 0), [DoublePress])
    else
      Outcome(c, [])
  }

  /** One call of loop() at clock reading `now`. */
  function Advance(r: Runtime, h: Handlers, now: u32): (o: Outcome)
    ensures o.runtime.prevState == r.prevState && o.runtime.state == r.state
    ensures |o.invoked| <= 1 || (o.invoked == [SinglePress, LongPress] && h.pressForTimeout == 0)
    ensures LongPress in o.invoked ==> DoublePress !in o.invoked
    ensures RisingEdge(r) ==> o.invoked == []
  {
    if RisingEdge(r) then
      Outcome(r.(isDebouncing := true), [])
    else
      var r1 := ResolvePending(r, h, now);
      var single := SingleCalls(r, h, now);
      if Held(r) then
        var held := HeldChecks(r1, h, now);
        Outcome(held.runtime, single + held.invoked)
      else if Released(r) then
        Outcome(r1.(pressedSince := 0), single)
      else
        Outcome(r1, single)
  }

  /** One poll: the sample is shifted in and loop() runs once. */
  function Step(r: Runtime, h: Handlers, s: ButtonState, now: u32): Outcome
  {
    Advance(Shift(r, s), h, now)
  }

  /** A poll sample: the raw state fed to updateState and the clock reading
      loop() sees. */
  datatype Sample = Sample(level: ButtonState, now: u32)

  /** A sequence of polls with fixed handlers; the invocations concatenate. */
  function Run(r: Runtime, h: Handlers, samples: seq<Sample>): Outcome
    decreases |samples|
  {
    if samples == [] then Outcome(r, [])
    else
      var first := Step(r, h, samples[0].level, samples[0].now);
      var rest := Run(first.runtime, h, samples[1..]);
      Outcome(rest.runtime, first.invoked + rest.invoked)
  }

  // ---------------------------------------------------------------------
  // One loop(): the rules of the state machine

  /** A rising edge only arms the debounce flag: nothing is counted, no
      timestamp starts and no callback runs until the next sample agrees. */
  lemma RisingEdgeDefersPress(r: Runtime, h: Handlers, now: u32)
    requires RisingEdge(r)
    ensures Advance(r, h, now) == Outcome(r.(isDebouncing := true), [])
  {
  }

  /** A confirmed press clears the debounce flag, adds exactly one tap to the
      counter left by the pending-single check, and starts the first-tap and
      held-since clocks only when they are not already running. */
  lemma ConfirmedPress(r: Runtime, h: Handlers, now: u32)
    requires Held(r) && r.isDebouncing
    ensures var r1 := ResolvePending(r, h, now);
            var o := Advance(r, h, now);
            && !o.runtime.isDebouncing
            && (LongPress !in o.invoked && DoublePress !in o.invoked ==>
                  && o.runtime.pressCount == (r1.pressCount + 1) % 0x100
                  && o.runtime.firstPressedAt == (if r1.firstPressedAt == 0 then now else r1.firstPressedAt)
                  && o.runtime.pressedSince == (if r.pressedSince == 0 then now else r.pressedSince))
  {
  }

  /** The tap counter grows only in a held cycle that confirms a debounced
      press, and then by one. */
  lemma CountGrowsOnlyOnConfirm(r: Runtime, h: Handlers, now: u32)
    ensures var o := Advance(r, h, now);
            && (o.runtime.pressCount > r.pressCount ==> Held(r) && r.isDebouncing)
            && o.runtime.pressCount <= r.pressCount + 1
  {
  }

  /** A one-sample glitch (idle, pressed once, idle again) never adds a tap and
      never completes a long or double press. */
  lemma GlitchNeverCounts(r: Runtime, h: Handlers, t1: u32, t2: u32)
    requires r.state == Idle
    ensures var o := Run(r, h, [Sample(Pressing, t1), Sample(Idle, t2)]);
            && o.runtime.pressCount <= r.pressCount
            && LongPress !in o.invoked && DoublePress !in o.invoked
  {
    var o1 := Step(r, h, Pressing, t1);
    RisingEdgeDefersPress(Shift(r, Pressing), h, t1);
    var o2 := Step(o1.runtime, h, Idle, t2);
    assert Run(o1.runtime, h, [Sample(Idle, t2)]) == Outcome(o2.runtime, o2.invoked);
  }

  /** LONG_PRESS is invoked exactly when, in a held cycle, a long-press handler
      is registered, a tap is counted and the hold has lasted the threshold;
      it clears the burst and the hold clock and is never followed by a
      DOUBLE_PRESS in the same cycle. */
  lemma LongPressRule(r: Runtime, h: Handlers, now: u32)
    ensures var o := Advance(r, h, now);
            var c := Counted(r, h, now);
            && (LongPress in o.invoked <==>
                  Held(r) && h.onPressFor.Some? && c.pressCount > 0
                  && Elapsed(now, c.pressedSince) >= h.pressForTimeout)
            && (LongPress in o.invoked ==>
                  && o.runtime.pressCount == 0 && o.runtime.firstPressedAt == 0
                  && o.runtime.pressedSince == 0 && DoublePress !in o.invoked)
  {
  }

  /** DOUBLE_PRESS is invoked exactly when, in a held cycle where the long press
      did not fire, a double-press handler is registered, at least two taps are
      counted and the first was within the double-press window; it clears the
      burst but leaves the hold clock running. */
  lemma DoublePressRule(r: Runtime, h: Handlers, now: u32)
    ensures var o := Advance(r, h, now);
            var c := Counted(r, h, now);
            && (DoublePress in o.invoked <==>
                  Held(r) && !LongDue(c, h, now) && h.onDoublePress.Some? && c.pressCount > 1
                  && Elapsed(now, c.firstPressedAt) <= h.doublePressTimeout)
            && (DoublePress in o.invoked ==>
                  && o.runtime.pressCount == 0 && o.runtime.firstPressedAt == 0
                  && o.runtime.pressedSince == c.pressedSince)
  {
  }

  /** The pending burst resolves as a single press exactly when a tap is
      counted, no double press can still complete it and no long press can
      still complete it; the single-press callback runs only if registered,
      but the counter and first-tap time are reset either way, and stay reset
      unless the same poll confirms a new press. */
  lemma PendingSingleRule(r: Runtime, h: Handlers, now: u32)
    ensures var o := Advance(r, h, now);
            && (SinglePress in o.invoked <==>
                  && !RisingEdge(r) && r.pressCount > 0 && h.onPress.Some?
                  && !(h.onDoublePress.Some? && Elapsed(now, r.firstPressedAt) <= h.doublePressTimeout)
                  && !(h.onPressFor.Some? && r.pressedSince != 0 && r.state == Pressing))
            && (!RisingEdge(r) && !(Held(r) && r.isDebouncing) && SingleDue(r, h, now) ==>
                  o.runtime.pressCount == 0 && o.runtime.firstPressedAt == 0)
  {
  }

  /** A release stops the hold clock and keeps the tap counter, unless the
      burst resolved as a single press in the same cycle. */
  lemma ReleaseRule(r: Runtime, h: Handlers, now: u32)
    requires Released(r)
    ensures var o := Advance(r, h, now);
            && o.runtime.pressedSince == 0
            && o.runtime.pressCount == (if SingleDue(r, h, now) then 0 else r.pressCount)
            && o.runtime.isDebouncing == r.isDebouncing
  {
  }

  /** A pattern whose handler is unregistered (None, a null pointer) is never
      invoked, whatever the state and the clock. */
  lemma UnregisteredNeverFires(r: Runtime, h: Handlers, now: u32)
    ensures var o := Advance(r, h, now);
            && (h.onPress.None? ==> SinglePress !in o.invoked)
            && (h.onDoublePress.None? ==> DoublePress !in o.invoked)
            && (h.onPressFor.None? ==> LongPress !in o.invoked)
  {
  }

  // ---------------------------------------------------------------------
  // Polling: the invariant of update-then-loop, and whole runs

  /** What holds after every poll when each loop() follows exactly one
      updateState: at most one tap is pending, an idle button has no hold
      clock running, and a press awaiting confirmation has none either. */
  ghost predicate Settled(r: Runtime)
  {
    && r.pressCount <= 1
    && (r.state == Idle ==> r.pressedSince == 0)
    && (r.isDebouncing && r.state == Pressing ==> r.pressedSince == 0)
  }

  lemma InitialSettled()
    ensures Settled(InitialRuntime)
  {
  }

  /** A poll keeps the invariant. In particular a second confirmed tap always
      completes a double press (or a long press) in the same cycle. */
  lemma StepKeepsSettled(r: Runtime, h: Handlers, s: ButtonState, now: u32)
    requires Settled(r)
    ensures Settled(Step(r, h, s, now).runtime)
  {
    var r0 := Shift(r, s);
    if Held(r0) && r0.isDebouncing {
      var r1 := ResolvePending(r0, h, now);
      assert r0.pressedSince == 0;
      if r1.pressCount == 1 {
        assert DoubleStillPossible(r0, h, now);
        var c := Confirm(r1, now);
        assert Elapsed(now, c.firstPressedAt) <= h.doublePressTimeout by {
          if r1.firstPressedAt == 0 {
            assert Elapsed(now, now) == 0;
          }
        }
      }
    }
  }

  /** Any run of polls keeps the invariant. */
  lemma {:induction false} RunKeepsSettled(r: Runtime, h: Handlers, samples: seq<Sample>)
    requires Settled(r)
    ensures Settled(Run(r, h, samples).runtime)
    decreases |samples|
  {
    if samples != [] {
      var first := Step(r, h, samples[0].level, samples[0].now);
      StepKeepsSettled(r, h, samples[0].level, samples[0].now);
      RunKeepsSettled(first.runtime, h, samples[1..]);
    }
  }

  /** The 8-bit tap counter never wraps: from a settled state a poll that
      confirms a press finds at most one tap pending, so the increment is
      exact, and the counter stays at most 1 after every poll. */
  lemma CounterNeverWraps(r: Runtime, h: Handlers, s: ButtonState, now: u32)
    requires Settled(r)
    ensures var r1 := ResolvePending(Shift(r, s), h, now);
            && r1.pressCount <= 1
            && (r1.pressCount + 1) % 0x100 == r1.pressCount + 1
            && Step(r, h, s, now).runtime.pressCount <= 1
  {
    StepKeepsSettled(r, h, s, now);
  }

  /** A button that sees nothing but idle samples invokes no callback and
      keeps its counter and clocks at rest. */
  lemma {:induction false} IdleRunIsSilent(r: Runtime, h: Handlers, samples: seq<Sample>)
    requires r.state == Idle && r.pressCount == 0 && r.pressedSince == 0
    requires forall i :: 0 <= i < |samples| ==> samples[i].level == Idle
    ensures var o := Run(r, h, samples);
            && o.invoked == []
            && o.runtime.pressCount == 0 && o.runtime.pressedSince == 0
            && o.runtime.firstPressedAt == r.firstPressedAt
            && o.runtime.state == Idle
    decreases |samples|
  {
    if samples != [] {
      var first := Step(r, h, samples[0].level, samples[0].now);
      assert first == Outcome(Shift(r, Idle), []);
      IdleRunIsSilent(first.runtime, h, samples[1..]);
    }
  }

  // ---------------------------------------------------------------------
  // Whole presses, polled every 20 ms from a fresh button

  /** A tap (pressed for two polls, then released) with only a single-press
      handler resolves as one SINGLE_PRESS on the release. */
  lemma SingleTapScenario(cb: Callback)
    ensures var h := InitialHandlers.(onPress := Some(cb));
            Run(InitialRuntime, h, [Sample(Pressing, 20), Sample(Pressing, 40), Sample(Idle, 60)]).invoked
              == [SinglePress]
  {
    var h := InitialHandlers.(onPress := Some(cb));
    var o1 := Step(InitialRuntime, h, Pressing, 20);
    var o2 := Step(o1.runtime, h, Pressing, 40);
    var o3 := Step(o2.runtime, h, Idle, 60);
    assert o1.invoked == [] && o2.invoked == [] && o3.invoked == [SinglePress];
    assert Run(o2.runtime, h, [Sample(Idle, 60)]).invoked == [SinglePress];
    assert Run(o1.runtime, h, [Sample(Pressing, 40), Sample(Idle, 60)]).invoked == [SinglePress];
  }

  /** Polling `a` and then `b` is polling `a + b`: the state carries over
      and the invocations concatenate. */
  lemma {:induction false} RunAppend(r: Runtime, h: Handlers, a: seq<Sample>, b: seq<Sample>)
    ensures var first := Run(r, h, a);
            var second := Run(first.runtime, h, b);
            Run(r, h, a + b) == Outcome(second.runtime, first.invoked + second.invoked)
    decreases |a|
  {
    if a == [] {
      assert a + b == b;
    } else {
      var step := Step(r, h, a[0].level, a[0].now);
      assert (a + b)[0] == a[0] && (a + b)[1..] == a[1..] + b;
      RunAppend(step.runtime, h, a[1..], b);
      var first := Run(step.runtime, h, a[1..]);
      var second := Run(first.runtime, h, b);
      assert step.invoked + (first.invoked + second.invoked) == (step.invoked + first.invoked) + second.invoked;
    }
  }

  /** The first tap of DoubleTapScenario: counted, and kept pending. */
  lemma DoubleTapFirstTap(h: Handlers)
    requires h.onDoublePress.Some? && h.onPressFor.None? && h.doublePressTimeout == DefaultDoublePressTimeout
    ensures Run(InitialRuntime, h, [Sample(Pressing, 20), Sample(Pressing, 40), Sample(Idle, 60)])
              == Outcome(Runtime(Pressing, Idle, 1, 40, 0, false), [])
  {
    var o1 := Step(InitialRuntime, h, Pressing, 20);
    assert o1 == Outcome(Runtime(Idle, Pressing, 0, 0, 0, true), []);
    var o2 := Step(o1.runtime, h, Pressing, 40);
    assert o2 == Outcome(Runtime(Pressing, Pressing, 1, 40, 40, false), []);
    var o3 := Step(o2.runtime, h, Idle, 60);
    assert o3 == Outcome(Runtime(Pressing, Idle, 1, 40, 0, false), []);
    assert Run(o2.runtime, h, [Sample(Idle, 60)]) == o3;
    assert Run(o1.runtime, h, [Sample(Pressing, 40), Sample(Idle, 60)]) == o3;
  }

  /** The second tap of DoubleTapScenario: it completes the double press. */
  lemma DoubleTapSecondTap(h: Handlers)
    requires h.onDoublePress.Some? && h.onPressFor.None? && h.doublePressTimeout == DefaultDoublePressTimeout
    ensures Run(Runtime(Pressing, Idle, 1, 40, 0, false), h,
                [Sample(Pressing, 150), Sample(Pressing, 170), Sample(Idle, 190), Sample(Idle, 400)]).invoked
              == [DoublePress]
  {
    var o4 := Step(Runtime(Pressing, Idle, 1, 40, 0, false), h, Pressing, 150);
    assert o4 == Outcome(Runtime(Idle, Pressing, 1, 40, 0, true), []);
    var o5 := Step(o4.runtime, h, Pressing, 170);
    assert o5 == Outcome(Runtime(Pressing, Pressing, 0, 0, 170, false), [DoublePress]);
    var o6 := Step(o5.runtime, h, Idle, 190);
    assert o6 == Outcome(Runtime(Pressing, Idle, 0, 0, 0, false), []);
    var o7 := Step(o6.runtime, h, Idle, 400);
    assert o7 == Outcome(Runtime(Idle, Idle, 0, 0, 0, false), []);
    assert Run(o6.runtime, h, [Sample(Idle, 400)]).invoked == [];
    assert Run(o5.runtime, h, [Sample(Idle, 190), Sample(Idle, 400)]).invoked == [];
    assert Run(o4.runtime, h, [Sample(Pressing, 170), Sample(Idle, 190), Sample(Idle, 400)]).invoked
      == [DoublePress];
  }

  /** Two taps 130 ms apart with single- and double-press handlers and the
      default 300 ms window give one DOUBLE_PRESS and no SINGLE_PRESS. */
  lemma DoubleTapScenario(single: Callback, double: Callback)
    ensures var h := InitialHandlers.(onPress := Some(single), onDoublePress := Some(double));
            Run(InitialRuntime, h,
                [Sample(Pressing, 20), Sample(Pressing, 40), Sample(Idle, 60),
                 Sample(Pressing, 150), Sample(Pressing, 170), Sample(Idle, 190),
                 Sample(Idle, 400)]).invoked
              == [DoublePress]
  {
    var h := InitialHandlers.(onPress := Some(single), onDoublePress := Some(double));
    var tap1 := [Sample(Pressing, 20), Sample(Pressing, 40), Sample(Idle, 60)];
    var tap2 := [Sample(Pressing, 150), Sample(Pressing, 170), Sample(Idle, 190), Sample(Idle, 400)];
    DoubleTapFirstTap(h);
    DoubleTapSecondTap(h);
    RunAppend(InitialRuntime, h, tap1, tap2);
    assert tap1 + tap2 == [Sample(Pressing, 20), Sample(Pressing, 40), Sample(Idle, 60),
                           Sample(Pressing, 150), Sample(Pressing, 170), Sample(Idle, 190),
                           Sample(Idle, 400)];
  }

  /** The hold phase of LongPressScenario: the press is confirmed at 40 ms
      and, the threshold not yet reached, stays pending. */
  lemma LongPressHold(h: Handlers)
    requires h.onPressFor.Some? && h.onDoublePress.None? && h.pressForTimeout == DefaultPressForTimeout
    ensures Run(InitialRuntime, h, [Sample(Pressing, 20), Sample(Pressing, 40), Sample(Pressing, 3020)])
              == Outcome(Runtime(Pressing, Pressing, 1, 40, 40, false), [])
  {
    var o1 := Step(InitialRuntime, h, Pressing, 20);
    assert o1 == Outcome(Runtime(Idle, Pressing, 0, 0, 0, true), []);
    var o2 := Step(o1.runtime, h, Pressing, 40);
    assert o2 == Outcome(Runtime(Pressing, Pressing, 1, 40, 40, false), []);
    var o3 := Step(o2.runtime, h, Pressing, 3020);
    assert o3 == o2;
    assert Run(o2.runtime, h, [Sample(Pressing, 3020)]) == o3;
    assert Run(o1.runtime, h, [Sample(Pressing, 40), Sample(Pressing, 3020)]) == o3;
  }

  /** The firing phase of LongPressScenario: LONG_PRESS exactly when 3000 ms
      have passed, then nothing through the release. */
  lemma LongPressFire(h: Handlers)
    requires h.onPressFor.Some? && h.onDoublePress.None? && h.pressForTimeout == DefaultPressForTimeout
    ensures Run(Runtime(Pressing, Pressing, 1, 40, 40, false), h,
                [Sample(Pressing, 3040), Sample(Pressing, 3060), Sample(Idle, 3080)]).invoked
              == [LongPress]
  {
    var o4 := Step(Runtime(Pressing, Pressing, 1, 40, 40, false), h, Pressing, 3040);
    assert o4 == Outcome(Runtime(Pressing, Pressing, 0, 0, 0, false), [LongPress]);
    var o5 := Step(o4.runtime, h, Pressing, 3060);
    assert o5 == Outcome(o4.runtime, []);
    var o6 := Step(o5.runtime, h, Idle, 3080);
    assert o6 == Outcome(Runtime(Pressing, Idle, 0, 0, 0, false), []);
    assert Run(o5.runtime, h, [Sample(Idle, 3080)]).invoked == [];
    assert Run(o4.runtime, h, [Sample(Pressing, 3060), Sample(Idle, 3080)]).invoked == [];
  }

  /** A press held for 3000 ms with single- and long-press handlers and the
      default threshold gives one LONG_PRESS when the threshold is reached and
      nothing else, through the release. */
  lemma LongPressScenario(single: Callback, long: Callback)
    ensures var h := InitialHandlers.(onPress := Some(single), onPressFor := Some(long));
            Run(InitialRuntime, h,
                [Sample(Pressing, 20), Sample(Pressing, 40), Sample(Pressing, 3020),
                 Sample(Pressing, 3040), Sample(Pressing, 3060), Sample(Idle, 3080)]).invoked
              == [LongPress]
  {
    var h := InitialHandlers.(onPress := Some(single), onPressFor := Some(long));
    var hold := [Sample(Pressing, 20), Sample(Pressing, 40), Sample(Pressing, 3020)];
    var fire := [Sample(Pressing, 3040), Sample(Pressing, 3060), Sample(Idle, 3080)];
    LongPressHold(h);
    LongPressFire(h);
    RunAppend(InitialRuntime, h, hold, fire);
    assert hold + fire == [Sample(Pressing, 20), Sample(Pressing, 40), Sample(Pressing, 3020),
                           Sample(Pressing, 3040), Sample(Pressing, 3060), Sample(Idle, 3080)];
  }

  /** The timestamps use 0 for "not running". A press confirmed when the clock
      reads exactly 0 (after a roll-over) therefore leaves the hold clock
      looking stopped: with single- and long-press handlers, the next held
      poll resolves the burst as SINGLE_PRESS while the button is still down. */
  lemma ConfirmAtClockZeroLooksUnset(single: Callback, long: Callback)
    ensures var h := InitialHandlers.(onPress := Some(single), onPressFor := Some(long));
            Run(InitialRuntime, h,
                [Sample(Pressing, TwoTo32 - 20), Sample(Pressing, 0), Sample(Pressing, 20)]).invoked
              == [SinglePress]
  {
    var h := InitialHandlers.(onPress := Some(single), onPressFor := Some(long));
    var o1 := Step(InitialRuntime, h, Pressing, TwoTo32 - 20);
    var o2 := Step(o1.runtime, h, Pressing, 0);
    var o3 := Step(o2.runtime, h, Pressing, 20);
    assert o1.invoked == [] && o2.invoked == [] && o3.invoked == [SinglePress];
    assert Run(o2.runtime, h, [Sample(Pressing, 20)]).invoked == [SinglePress];
    assert Run(o1.runtime, h, [Sample(Pressing, 0), Sample(Pressing, 20)]).invoked == [SinglePress];
  }
}
