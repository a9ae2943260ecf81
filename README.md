# ButtonFever press classifier and analog button array, in Dafny

ButtonFever is an Arduino library that turns push-button samples into three
press patterns: SINGLE_PRESS, DOUBLE_PRESS and LONG_PRESS. It has two parts.

- `BfButton` is one button. `updateState` records the newest raw sample
  (IDLE or PRESSING). `loop` then runs a small state machine:
  - it debounces a rising edge for one poll;
  - it counts confirmed taps;
  - it times the burst and the hold;
  - it invokes the registered callbacks.
- `read` is the self-throttled poll of a button on its own digital pin.
- `BfButtonManager` drives N buttons that share one analog pin through a
  resistor ladder. Each poll averages four ADC samples, picks the first
  button whose voltage band holds the average, feeds that button PRESSING
  and every other button IDLE, and runs every button's `loop`.

The project has five modules.

- `Timing` (`timing.dfy`): the Arduino integer widths, and the wrapping
  32-bit millisecond clock both components throttle on.
- `PressClassifier` (`press_classifier.dfy`): the button state machine as
  pure functions on the runtime fields. `Shift` is `updateState`, `Advance`
  is one `loop`, `Step` is one poll, and `Run` is a sequence of polls. The
  lemmas state what the machine promises, including an invariant proving
  that the 8-bit tap counter never wraps.
- `Button` (`bf_button.dfy`): the class `BfButton`. It has the fields of
  the C++ class, and its methods update them in place. Each method is
  proved to follow the `PressClassifier` functions.
- `ArrayDecoder` (`array_decoder.dfy`): averaging the four samples and
  looking up the band, as functions.
- `Manager` (`bf_button_manager.dfy`): the class `BfButtonManager`. Its
  slot and band arrays are Dafny arrays. Its decode and drive loops are
  proved against `ArrayDecoder` and `PressClassifier`.

Hardware calls are parameters. The clock (`millis()`) is the `now` argument.
The pin level (`digitalRead`) is the `level` argument. The four ADC
readings (`analogRead`) are the `samples` argument. A callback is
`Some(handler)` once registered, and `None` when no handler is set. A
button's ghost field `invoked` logs every pattern its callbacks were called
with, in order. The manager's ghost field `log` records every invocation
its drive loop causes, in the order the calls happen, as a pair (button
id, pattern). The C++ callback receives a `BfButton *` rather than an id;
the id stands for that pointer because each slot holds the button whose
id is its index, so no two slots share an id.

## Model

| member | source | states |
|---|---|---|
| Timing.Elapsed | src/BfButton.cpp:70 | `now - since` on `unsigned long`: the result, added to `since` modulo 2^32, gives `now`, and it is the plain difference when the clock has not rolled over |
| Timing.ElapsedIsUnique | src/BfButton.cpp:92 | the elapsed time is the only 32-bit value that carries `since` to `now`, so it inverts advancing the clock |
| Timing.ElapsedAfterAdvance | src/BfButton.cpp:110 | advancing the clock by `d` and measuring from the old reading yields `d`, across a roll-over too |
| PressClassifier.Advance | src/BfButton.cpp:82-132 | one `loop()` keeps both states and invokes at most one callback, except exactly SINGLE_PRESS then LONG_PRESS when the long-press threshold is 0; it never invokes LONG_PRESS and DOUBLE_PRESS together, and invokes none on a rising edge |
| PressClassifier.UnregisteredNeverFires | src/BfButton.cpp:91-125 | a pattern whose handler is unset (`None`) is never invoked |
| PressClassifier.RisingEdgeDefersPress | src/BfButton.cpp:85-88 | on IDLE→PRESSING the only change is that the debounce flag is set, and no callback runs |
| PressClassifier.ConfirmedPress | src/BfButton.cpp:99-106 | a held poll while debouncing clears the flag and adds exactly one tap; it sets the first-tap and held-since times to `now` only if they were 0 |
| PressClassifier.CountGrowsOnlyOnConfirm | src/BfButton.cpp:99-106 | the tap counter grows only in a held poll that confirms a debounced press, and by at most one |
| PressClassifier.GlitchNeverCounts | src/BfButton.cpp:85-131 | a one-poll glitch IDLE→PRESSING→IDLE adds no tap and completes no long or double press |
| PressClassifier.LongPressRule | src/BfButton.cpp:109-116 | LONG_PRESS fires iff the button is held, a long-press handler is set, a tap is counted and the hold reached the threshold; it resets the count and both clocks, and DOUBLE_PRESS cannot follow in the same poll |
| PressClassifier.DoublePressRule | src/BfButton.cpp:119-125 | DOUBLE_PRESS fires iff the button is held, the long press did not fire, a double-press handler is set, at least two taps are counted and the first lies within the window; it resets the count and the first-tap time and keeps the hold clock |
| PressClassifier.PendingSingleRule | src/BfButton.cpp:91-97 | SINGLE_PRESS fires iff a tap is pending, a single-press handler is set, and neither a double press (window open) nor a long press (armed while held) can still complete it; the count and the first-tap time reset even without a handler, and stay reset unless the same poll confirms a new press (so also in a held poll that confirms nothing) |
| PressClassifier.ReleaseRule | src/BfButton.cpp:129-131 | a release stops the hold clock and keeps the count, unless the burst resolves as a single press in the same poll |
| PressClassifier.InitialSettled | src/BfButton.h:106-111 | a fresh button satisfies the polling invariant `Settled` |
| PressClassifier.StepKeepsSettled | src/BfButton.cpp:60-132 | one `updateState` plus `loop` keeps `Settled`: at most one tap pending, no hold clock while idle or while a press awaits confirmation |
| PressClassifier.RunKeepsSettled | src/BfButton.cpp:60-132 | any sequence of polls keeps `Settled` |
| PressClassifier.CounterNeverWraps | src/BfButton.h:108 | from a settled state the `uint8_t` increment at src/BfButton.cpp:102 is exact, and the counter stays at most 1 after every poll |
| PressClassifier.IdleRunIsSilent | src/BfButton.cpp:91-131 | a resting button fed only IDLE samples invokes nothing and keeps its counter and clocks at rest |
| PressClassifier.RunAppend | src/BfButton.cpp:82-132 | polling `a` and then `b` equals polling `a + b`: the state carries over and the invocations concatenate |
| PressClassifier.SingleTapScenario | src/BfButton.cpp:91-106 | a two-poll tap with a single-press handler yields exactly [SINGLE_PRESS] |
| PressClassifier.DoubleTapFirstTap | src/BfButton.cpp:99-106 | in a double tap, the first tap is counted at 40 ms and kept pending through its release |
| PressClassifier.DoubleTapSecondTap | src/BfButton.cpp:119-125 | the second tap, 130 ms later, completes the DOUBLE_PRESS and nothing follows |
| PressClassifier.DoubleTapScenario | src/BfButton.cpp:91-125 | two taps 130 ms apart, with single and double handlers and the 300 ms window, yield exactly [DOUBLE_PRESS] and no SINGLE_PRESS |
| PressClassifier.LongPressHold | src/BfButton.cpp:91-116 | a press confirmed at 40 ms stays pending while held below the 3000 ms threshold |
| PressClassifier.LongPressFire | src/BfButton.cpp:109-131 | LONG_PRESS fires at exactly 3000 ms of hold, and nothing else fires through the release |
| PressClassifier.LongPressScenario | src/BfButton.cpp:91-131 | a 3000 ms hold with single and long handlers yields exactly [LONG_PRESS] |
| PressClassifier.ConfirmAtClockZeroLooksUnset | src/BfButton.cpp:93-104 | a press confirmed when the clock reads 0 leaves the hold clock at its "not running" value 0; the next held poll then reports SINGLE_PRESS although a long-press handler is set |
| Button.BfButton.constructor | src/BfButton.cpp:30-41 | id is the pin; the active level is kept only for a standalone button (LOW otherwise); both states IDLE, count 0, clocks 0, not debouncing, timeouts 300/3000 ms, interval 20 ms, no handler (src/BfButton.h:100-111); `pullup` defaults to true and the active level to LOW, as declared at src/BfButton.h:60 |
| Button.BfButton.OnPress | src/BfButton.cpp:43-46 | overwrites the single-press handler with the argument, which may be `None` (a null callback unregisters), changes no other setting, returns the same object |
| Button.BfButton.OnDoublePress | src/BfButton.cpp:48-52 | overwrites the double-press handler (possibly with `None`) and its window (300 ms when omitted, src/BfButton.h:66), changes no other setting, returns the same object |
| Button.BfButton.OnPressFor | src/BfButton.cpp:54-58 | overwrites the long-press handler (possibly with `None`) and its threshold (3000 ms when omitted, src/BfButton.h:67), changes no other setting, returns the same object |
| Button.BfButton.UpdateState | src/BfButton.cpp:60-64 | the previous state becomes the old current state, the current state becomes `s`, and no other field changes |
| Button.BfButton.Loop | src/BfButton.cpp:82-132 | the runtime fields become `Advance` of the old ones, and the log grows by exactly the callbacks `Advance` invokes |
| Button.BfButton.ResolvePendingSingle | src/BfButton.cpp:91-97 | the pending-single block follows `ResolvePending` and logs `SingleCalls` |
| Button.BfButton.CheckHeld | src/BfButton.cpp:99-126 | the held block follows `HeldChecks`: confirm, then the long check, then the double check, with its early returns |
| Button.BfButton.ConfirmPressed | src/BfButton.cpp:100-106 | the confirm block applies `Confirm` when debouncing and changes nothing otherwise |
| Button.BfButton.Read | src/BfButton.cpp:67-80 | no change unless standalone and due on the first clock reading `now` (line 69); when due, it records `now`, feeds PRESSING iff the level equals the active level, and runs one `loop` on the second clock reading `loopNow` (line 83); it keeps `Settled` |
| Button.ReadTwiceWithinInterval | src/BfButton.cpp:70-71 | after a read that is serviced (standalone and due), a second read less than one interval later changes nothing, whatever the pin reads: the pair leaves exactly the first read's poll, run with the handlers and timeouts registered before it, and those settings are kept |
| Button.BfButton.GetID | src/BfButton.cpp:134-136 | returns the id, which is the pin |
| Button.BfButton.GetPin | src/BfButton.cpp:138-140 | returns the same value as GetID |
| ArrayDecoder.Average | src/BfButtonManager.cpp:99-103 | the truncating mean of the four samples: `4*z <= sum < 4*z + 4` |
| ArrayDecoder.FirstBandFrom | src/BfButtonManager.cpp:106-111 | the first index from `from` on whose open band contains `z`, or -1 when none does |
| ArrayDecoder.SelectButton | src/BfButtonManager.cpp:105-114 | -1 iff the gate `z >= 100 \|\| z < resolution` is shut or no open band holds `z`; otherwise the least index whose band strictly contains `z` |
| ArrayDecoder.GateOpenFromResolution100 | src/BfButtonManager.cpp:105 | with a resolution of at least 100 the gate admits every reading |
| ArrayDecoder.OverlapLowestIndexWins | src/BfButtonManager.cpp:106-110 | when two bands both hold the reading and the gate is open, the selected index is at most the lower one |
| ArrayDecoder.SoleBandSelected | src/BfButtonManager.cpp:105-114 | when exactly one band holds the reading and the gate is open, that band's index is selected |
| ArrayDecoder.OnlySelectedSlotPressing | src/BfButtonManager.cpp:84-90 | the slots fed PRESSING are exactly the selected one, or none when the result is -1 |
| Manager.BfButtonManager.constructor | src/BfButtonManager.cpp:31-37 | three fresh parallel arrays of the button count with empty slots; ADC resolution 4096 on ESP32 and 1024 otherwise (src/BfButtonManager.h:86-90); interval 20 ms and last poll 0 (src/BfButtonManager.h:92-93) |
| Manager.BfButtonManager.SetADCResolution | src/BfButtonManager.cpp:46-49 | sets the resolution and returns the same manager |
| Manager.BfButtonManager.AddButton | src/BfButtonManager.cpp:51-57 | writes the slot at the button's id and both of its bounds, leaves every other slot and bound alone, keeps the slot invariant, and returns the same manager |
| Manager.BfButtonManager.GetButton | src/BfButtonManager.cpp:59-61 | returns the button stored at slot `id`, whose id is `id` |
| Manager.BfButtonManager.Loop | src/BfButtonManager.cpp:68-74 | no slot changes and nothing is logged when not due; when due, it records `now` and runs one drive cycle (`Cycled`) with the decoded selection; every slot keeps `Settled` |
| Manager.LoopTwiceWithinInterval | src/BfButtonManager.cpp:70-71 | after a manager poll that is serviced (due), a second poll less than one interval later changes no slot and logs nothing: the pair leaves exactly the first poll's drive cycle |
| Manager.BfButtonManager.UpdateButtonState | src/BfButtonManager.cpp:83-93 | one drive cycle for the selection `SelectButton` decodes from the samples: every slot is `Driven` (PRESSING for the selection, IDLE for the rest, settings and own timestamp kept) and the log grows by `Cycle` |
| Manager.BfButtonManager.DriveSlots | src/BfButtonManager.cpp:85-92 | the for loop over the slots leaves every slot `Driven` and appends `Cycle` to the log: slot by slot in ascending order |
| Manager.BfButtonManager.PollSlot | src/BfButtonManager.cpp:86-91 | one iteration of the drive loop: only slot `i` changes, by one `updateState` then `loop`, and its invocations are appended to the log under its id |
| Manager.PollButton | src/BfButtonManager.cpp:86-91 | one button's `updateState` then `loop`: its runtime becomes `Step`, its log grows by what `Step` invokes, its settings and timestamp are kept |
| Manager.CycleInSlotOrder | src/BfButtonManager.cpp:85-92 | the invocations of one drive cycle come in ascending slot order and name only existing slots |
| Manager.CycleOf | src/BfButtonManager.cpp:85-92 | the invocations a drive cycle logs under id `j` are exactly those of slot `j`'s own poll; an id that is not a slot gets none |
| Manager.CycleMatchesSlots | src/BfButtonManager.cpp:85-92 | the manager's log and the buttons' own logs agree: each slot's log grows by exactly its events in the cycle's log |
| Manager.DrivenKeepsSettled | src/BfButtonManager.cpp:85-92 | a drive cycle keeps every slot's `Settled` invariant |
| Manager.BfButtonManager.ReadButton | src/BfButtonManager.cpp:95-115 | the sum loop and the band scan with `break` return exactly `SelectButton` of the truncated average |

## Left out

- Pin setup: `pinMode` and the `pullup` argument are hardware configuration. The constructor takes `pullup` and ignores it.
- `BfButtonManager::begin` is a warm-up `analogRead` plus `delay(1)`: only I/O.
- `BfButtonManager::printReading` is serial debug output: only I/O.
- The manager's destructor and the raw `new[]`/`delete[]`: the arrays are Dafny arrays, allocated by the constructor and never freed.
- Callback bodies are foreign code. The model appends the pattern to the button's ghost log instead of calling the handler. A handler that re-enters the library is not modelled.
- The C++ callback fields start uninitialised. The model starts them as `None`, which is what the `if (callback)` checks expect.
- `Manager.BfButtonManager.constructor` takes an extra `Target` argument. It stands for the `#if defined(ESP32)` choice of the default ADC resolution.
- `Manager.BfButtonManager.Loop` reads the clock once per manager poll and hands that one `now` to every slot. The C++ code calls `millis()` again in each slot's `loop()`, so slots later in the scan may see a later time.
- `Manager.BfButtonManager.Loop` requires every slot to be filled. In C++ an empty slot holds an uninitialised address that the drive loop would dereference.
- `Manager.BfButtonManager.constructor` requires at most 127 buttons. Beyond that the `int8_t` indices of the scan and drive loops overflow.
- `Manager.BfButtonManager.AddButton` requires the button's id to be below the button count. The C++ code writes out of bounds otherwise.
- `Button.BfButton.Loop` is split into three helper methods: `ResolvePendingSingle`, `CheckHeld` and `ConfirmPressed`. Each follows one block of the C++ `loop()`, with its early returns.
- `Manager.BfButtonManager.GetButton` requires the slot to be filled. In C++ an empty slot holds an uninitialised pointer, and dereferencing it is undefined.
- Facts about the code that the model keeps as written:
  - A band excludes both of its bounds: a reading equal to either bound selects nothing (src/BfButtonManager.cpp:107).
  - The gate at src/BfButtonManager.cpp:105 admits every reading when the resolution is at least 100, which holds for both defaults (`ArrayDecoder.GateOpenFromResolution100`).
  - With a long-press threshold of 0, one `loop()` can invoke SINGLE_PRESS and then LONG_PRESS (src/BfButton.cpp:91-116). That is the one case where `PressClassifier.Advance` allows two invocations.
