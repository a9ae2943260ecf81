/**
 * BfButton: one physical button. Its runtime fields are updated in place by
 * updateState, loop and (for a standalone digital button) the throttled read.
 * Every method is proved to follow the functions of module PressClassifier.
 */
module Button {
  import opened Timing
  import opened PressClassifier

  class BfButton {
    // settings
    const id: u8
    const mode: ButtonMode
    const buttonLogic: u8
    const loopInterval: u8
    var lastLoop: u32
    var doublePressTimeout: u32
    var pressForTimeout: u32
    // runtime
    var prevState: ButtonState
    var state: ButtonState
    var pressCount: u8
    var firstPressedAt: u32
    var pressedSince: u32
    var isDebouncing: bool
    // callbacks
    var onPressCallback: Option<Callback>
    var onDoublePressCallback: Option<Callback>
    var onPressForCallback: Option<Callback>

    /** Every callback invocation so far, in order; each was called with this
        button and the pattern. */
    ghost var invoked: seq<PressPattern>

    function Snapshot(): Runtime
      reads this
    {
      Runtime(prevState, state, pressCount, firstPressedAt, pressedSince, isDebouncing)
    }

    function Settings(): Handlers
      reads this
    {
      Handlers(onPressCallback, onDoublePressCallback, doublePressTimeout,
               onPressForCallback, pressForTimeout)
    }

    /** The constructor. `pullup` only chooses the pin mode of a standalone
        button, which is hardware configuration; the active level is kept
        only for a standalone button, an array button stays at LOW. The
        defaults are those of the C++ declaration. */
    constructor (mode: ButtonMode, pin: u8, pullup: bool := true, buttonLogic: u8 := Low)
      ensures this.id == pin && this.mode == mode
      ensures this.buttonLogic == (if mode == StandaloneDigital then buttonLogic else Low)
      ensures loopInterval == DefaultLoopInterval && lastLoop == 0
      ensures Snapshot() == InitialRuntime && Settings() == InitialHandlers
      ensures Settled(Snapshot())
      ensures invoked == []
    {
      this.id := pin;
      this.mode := mode;
      this.buttonLogic := if mode == StandaloneDigital then buttonLogic else Low;
      loopInterval := DefaultLoopInterval;
      lastLoop := 0;
      doublePressTimeout := DefaultDoublePressTimeout;
      pressForTimeout := DefaultPressForTimeout;
      prevState, state := Idle, Idle;
      pressCount, firstPressedAt, pressedSince := 0, 0, 0;
      isDebouncing := false;
      onPressCallback, onDoublePressCallback, onPressForCallback := None, None, None;
      invoked := [];
      InitialSettled();
    }

    /** Registers the single-press handler; passing None (a null pointer)
        unregisters it, so loop() skips that pattern. */
    method OnPress(callback: Option<Callback>) returns (self: BfButton)
      modifies this`onPressCallback
      ensures self == this
      ensures Settings() == old(Settings()).(onPress := callback)
    {
      onPressCallback := callback;
      self := this;
    }

    /** Registers (or, with None, unregisters) the double-press handler and
        sets its window, 300 ms by default as in the C++ declaration. */
    method OnDoublePress(callback: Option<Callback>, timeout: u32 := DefaultDoublePressTimeout) returns (self: BfButton)
      modifies this`onDoublePressCallback, this`doublePressTimeout
      ensures self == this
      ensures Settings() == old(Settings()).(onDoublePress := callback, doublePressTimeout := timeout)
    {
      onDoublePressCallback := callback;
      doublePressTimeout := timeout;
      self := this;
    }

    /** Registers (or, with None, unregisters) the long-press handler and
        sets its threshold, 3000 ms by default as in the C++ declaration. */
    method OnPressFor(callback: Option<Callback>, timeout: u32 := DefaultPressForTimeout) returns (self: BfButton)
      modifies this`onPressForCallback, this`pressForTimeout
      ensures self == this
      ensures Settings() == old(Settings()).(onPressFor := callback, pressForTimeout := timeout)
    {
      onPressForCallback := callback;
      pressForTimeout := timeout;
      self := this;
    }

    method UpdateState(s: ButtonState) returns (self: BfButton)
      modifies this`prevState, this`state
      ensures self == this
      ensures prevState == old(state) && state == s
      ensures Snapshot() == Shift(old(Snapshot()), s)
    {
      prevState := state;
      state := s;
      self := this;
    }

    /** The state machine, run once at clock reading `now`. */
    method Loop(now: u32)
      modifies this`pressCount, this`firstPressedAt, this`pressedSince, this`isDebouncing, this`invoked
      ensures Snapshot() == Advance(old(Snapshot()), Settings(), now).runtime
      ensures invoked == old(invoked) + Advance(old(Snapshot()), Settings(), now).invoked
    {
      // debouncing
      if prevState == Idle && state == Pressing {
        isDebouncing := true;
        return;
      }
      ghost var r := Snapshot();
      ResolvePendingSingle(now);
      if prevState == Pressing && state == Pressing {
        ghost var r1 := Snapshot();
        CheckHeld(now);
        assert invoked == old(invoked) + (SingleCalls(r, Settings(), now) + HeldChecks(r1, Settings(), now).invoked);
      }
      // release: stop the long-press clock
      if prevState == Pressing && state == Idle {
        pressedSince := 0;
      }
    }

    /** The first block of loop() after debouncing: once the burst can no
        longer become a double or a long press, it resolves as a single press. */
    method ResolvePendingSingle(now: u32)
      modifies this`pressCount, this`firstPressedAt, this`invoked
      ensures Snapshot() == ResolvePending(old(Snapshot()), Settings(), now)
      ensures invoked == old(invoked) + SingleCalls(old(Snapshot()), Settings(), now)
    {
      if pressCount > 0
        && !(onDoublePressCallback.Some? && Elapsed(now, firstPressedAt) <= doublePressTimeout)
        && !(onPressForCallback.Some? && pressedSince != 0 && state == Pressing)
      {
        if onPressCallback.Some? {
          invoked := invoked + [SinglePress];
        }
        pressCount := 0;
        firstPressedAt := 0;
      }
    }

    /** The held block of loop(): confirm a debounced press, then the long-press
        check, which takes priority, then the double-press check. */
    method CheckHeld(now: u32)
      modifies this`pressCount, this`firstPressedAt, this`pressedSince, this`isDebouncing, this`invoked
      ensures Snapshot() == HeldChecks(old(Snapshot()), Settings(), now).runtime
      ensures invoked == old(invoked) + HeldChecks(old(Snapshot()), Settings(), now).invoked
    {
      ConfirmPressed(now);
      ghost var c := Snapshot();

      // long press
      if onPressForCallback.Some? && pressCount > 0
        && Elapsed(now, pressedSince) >= pressForTimeout
      {
        invoked := invoked + [LongPress];
        pressCount := 0;
        firstPressedAt := 0;
        pressedSince := 0;
        return;
      }

      // double press
      if onDoublePressCallback.Some? && pressCount > 1
        && Elapsed(now, firstPressedAt) <= doublePressTimeout
      {
        invoked := invoked + [DoublePress];
        pressCount := 0;
        firstPressedAt := 0;
        return;
      }
    }

    /** The confirm block of loop(): a press that survived one poll of
        debouncing is counted, and the burst and hold clocks start if unset. */
    method ConfirmPressed(now: u32)
      modifies this`pressCount, this`firstPressedAt, this`pressedSince, this`isDebouncing
      ensures Snapshot() == if old(isDebouncing) then Confirm(old(Snapshot()), now) else old(Snapshot())
    {
      if isDebouncing {
        pressCount := (pressCount + 1) % 0x100;
        if firstPressedAt == 0 {
          firstPressedAt := now;
        }
        if pressedSince == 0 {
          pressedSince := now;
        }
        isDebouncing := false;
      }
    }

    /** The self-throttled poll of a standalone digital button. `now` is the
        clock reading of the throttle and `level` what digitalRead returns
        when the poll is due; `loopNow` is the clock reading the inner loop()
        takes with its own call of millis(). */
    method Read(now: u32, level: int, loopNow: u32)
      modifies this`lastLoop, this`prevState, this`state
      modifies this`pressCount, this`firstPressedAt, this`pressedSince, this`isDebouncing, this`invoked
      ensures mode != StandaloneDigital || !Due(now, old(lastLoop), loopInterval) ==>
                lastLoop == old(lastLoop) && Snapshot() == old(Snapshot()) && invoked == old(invoked)
      ensures mode == StandaloneDigital && Due(now, old(lastLoop), loopInterval) ==>
                var o := Step(old(Snapshot()), Settings(), if level == buttonLogic then Pressing else Idle, loopNow);
                lastLoop == now && Snapshot() == o.runtime && invoked == old(invoked) + o.invoked
      ensures old(Settled(Snapshot())) ==> Settled(Snapshot())
    {
      if mode != StandaloneDigital {
        return;
      }
      if Elapsed(now, lastLoop) >= loopInterval {
        lastLoop := now;
        ghost var before := Snapshot();
        var s := if level == buttonLogic then Pressing else Idle;
        var _ := UpdateState(s);
        Loop(loopNow);
        if Settled(before) {
          StepKeepsSettled(before, Settings(), s, loopNow);
        }
      }
    }

    method GetID() returns (r: u8)
      ensures r == id
    {
      r := id;
    }

    /** Alias of GetID. */
    method GetPin() returns (r: u8)
      ensures r == id
    {
      r := GetID();
    }
  }

  /** Two reads of a standalone button whose throttle readings are less than
      one poll interval apart: when the first is serviced, the second changes
      nothing and invokes no callback, whatever the pin reads. (When the
      first is not due, the second may still be.) */
  method ReadTwiceWithinInterval(b: BfButton, t1: u32, t2: u32, level1: int, level2: int, l1: u32, l2: u32)
    requires b.mode == StandaloneDigital && Elapsed(t2, t1) < b.loopInterval
    modifies b
    ensures b.Settings() == old(b.Settings())
    ensures var o := Step(old(b.Snapshot()), b.Settings(), if level1 == b.buttonLogic then Pressing else Idle, l1);
            Due(t1, old(b.lastLoop), b.loopInterval) ==>
              b.lastLoop == t1 && b.Snapshot() == o.runtime && b.invoked == old(b.invoked) + o.invoked
  {
    b.Read(t1, level1, l1);
    ghost var lastFirst := b.lastLoop;
    b.Read(t2, level2, l2);
    assert Due(t1, old(b.lastLoop), b.loopInterval) ==> !Due(t2, lastFirst, b.loopInterval);
  }
}
