/**
 * BfButtonManager: N buttons sharing one analog line through a resistor
 * ladder. The manager owns a slot per button id with the button's voltage
 * band, and on each due poll drives every slot's state machine.
 */
module Manager {
  import opened Timing
  import opened PressClassifier
  import opened ArrayDecoder
  import opened Button

  /** The largest button count for which the `int8_t` slot index of the
      scan and drive loops cannot overflow. */
  const MaxButtonCount: nat := 127

  /** One callback invocation: the button it was invoked for and the
      pattern. The C++ callback receives a `BfButton *`; the event records
      that button's id instead, which names it uniquely because a filled
      slot holds the button whose id is the slot's index (`Valid`). */
  datatype Event = Event(button: int, pattern: PressPattern)

  /** The invocations of one button's loop(), in order, tagged with its id. */
  function Tag(id: int, patterns: seq<PressPattern>): (es: seq<Event>)
    ensures |es| == |patterns|
    ensures forall k :: 0 <= k < |es| ==> es[k] == Event(id, patterns[k])
  {
    if patterns == [] then [] else [Event(id, patterns[0])] + Tag(id, patterns[1..])
  }

  /** Events in slot order: every callback of a lower slot comes before any
      callback of a higher slot. */
  predicate InSlotOrder(es: seq<Event>)
  {
    forall a, b :: 0 <= a < b < |es| ==> es[a].button <= es[b].button
  }

  /** The patterns logged for button `id`, in order. */
  function Of(es: seq<Event>, id: int): seq<PressPattern>
  {
    if es == [] then []
    else (if es[0].button == id then [es[0].pattern] else []) + Of(es[1..], id)
  }

  /** Projection onto one button distributes over concatenation. */
  lemma {:induction false} OfAppend(es: seq<Event>, more: seq<Event>, id: int)
    ensures Of(es + more, id) == Of(es, id) + Of(more, id)
    decreases |es|
  {
    if es == [] {
      assert es + more == more;
    } else {
      var head := if es[0].button == id then [es[0].pattern] else [];
      assert (es + more)[0] == es[0];
      assert (es + more)[1..] == es[1..] + more;
      OfAppend(es[1..], more, id);
      assert Of(es + more, id) == head + Of(es[1..] + more, id);
      assert Of(es, id) == head + Of(es[1..], id);
    }
  }

  /** The events of one button's loop() project back onto its patterns, and
      onto nothing for any other button. */
  lemma {:induction false} OfTag(i: int, ps: seq<PressPattern>, id: int)
    ensures Of(Tag(i, ps), id) == if id == i then ps else []
    decreases |ps|
  {
    if ps != [] {
      var t := Tag(i, ps);
      assert t == [Event(i, ps[0])] + Tag(i, ps[1..]);
      assert t[0] == Event(i, ps[0]) && t[1..] == Tag(i, ps[1..]);
      OfTag(i, ps[1..], id);
      assert Of(t, id) == (if i == id then [ps[0]] else []) + Of(t[1..], id);
      if id == i {
        assert ps == [ps[0]] + ps[1..];
      }
    }
  }

  /** Appending slot `i`'s events after events of slots up to `i` keeps the
      log in slot order. */
  lemma AppendSlotKeepsOrder(es: seq<Event>, i: int, ps: seq<PressPattern>)
    requires InSlotOrder(es)
    requires forall a :: 0 <= a < |es| ==> es[a].button <= i
    ensures InSlotOrder(es + Tag(i, ps))
  {
    var t := Tag(i, ps);
    forall a, b | 0 <= a < b < |es + t|
      ensures (es + t)[a].button <= (es + t)[b].button
    {
      if b < |es| {
        assert (es + t)[a] == es[a] && (es + t)[b] == es[b];
      } else if a < |es| {
        assert (es + t)[a] == es[a] && (es + t)[b] == t[b - |es|];
      } else {
        assert (es + t)[a] == t[a - |es|] && (es + t)[b] == t[b - |es|];
      }
    }
  }

  /** The state of one slot's button as a value: runtime fields, settings,
      own throttle timestamp and callback log. */
  datatype SlotValue = SlotValue(runtime: Runtime, settings: Handlers, lastLoop: u32, invoked: seq<PressPattern>)

  /** The callbacks one poll with raw state `level` invokes. */
  function Fired(v: SlotValue, level: ButtonState, now: u32): seq<PressPattern>
  {
    Step(v.runtime, v.settings, level, now).invoked
  }

  /** The slot after one poll with raw state `level`. */
  function Polled(v: SlotValue, level: ButtonState, now: u32): SlotValue
  {
    v.(runtime := Step(v.runtime, v.settings, level, now).runtime, invoked := v.invoked + Fired(v, level, now))
  }

  /** Every slot after one drive cycle: slot `j` polled with the raw state
      the decoded button `selected` gives it. */
  function Driven(vs: seq<SlotValue>, selected: int, now: u32): (ws: seq<SlotValue>)
    ensures |ws| == |vs|
    ensures forall j :: 0 <= j < |vs| ==> ws[j] == Polled(vs[j], SlotLevel(j, selected), now)
  {
    seq(|vs|, j requires 0 <= j < |vs| => Polled(vs[j], SlotLevel(j, selected), now))
  }

  /** The callback invocations of one drive cycle over the slots `vs`, in the
      order the loop makes them: slot by slot, each under its id. */
  function Cycle(vs: seq<SlotValue>, selected: int, now: u32): seq<Event>
  {
    if vs == [] then []
    else
      var k := |vs| - 1;
      Cycle(vs[..k], selected, now) + Tag(k, Fired(vs[k], SlotLevel(k, selected), now))
  }

  /** The slots part-way through a drive cycle: the first `i` polled, the
      rest as they were. */
  function DrivenUpTo(vs: seq<SlotValue>, selected: int, now: u32, i: int): seq<SlotValue>
    requires 0 <= i <= |vs|
  {
    Driven(vs[..i], selected, now) + vs[i..]
  }

  /** Before the first poll the slots are as they were; after the last they
      are all driven. */
  lemma DrivenUpToEnds(vs: seq<SlotValue>, selected: int, now: u32)
    ensures DrivenUpTo(vs, selected, now, 0) == vs
    ensures DrivenUpTo(vs, selected, now, |vs|) == Driven(vs, selected, now)
  {
    assert vs[..0] == [] && vs[0..] == vs;
    assert vs[..|vs|] == vs && vs[|vs|..] == [];
  }

  /** Polling slot `i` of a part-driven cycle moves it one slot on. */
  lemma DrivenStep(vs: seq<SlotValue>, selected: int, now: u32, i: int)
    requires 0 <= i < |vs|
    ensures DrivenUpTo(vs, selected, now, i)[i] == vs[i]
    ensures DrivenUpTo(vs, selected, now, i)[i := Polled(vs[i], SlotLevel(i, selected), now)]
            == DrivenUpTo(vs, selected, now, i + 1)
  {
    var d, e := DrivenUpTo(vs, selected, now, i), DrivenUpTo(vs, selected, now, i + 1);
    assert d[i] == vs[i..][0];
    forall j | 0 <= j < |vs|
      ensures d[i := Polled(vs[i], SlotLevel(i, selected), now)][j] == e[j]
    {
      if j < i {
        assert d[j] == Driven(vs[..i], selected, now)[j] && e[j] == Driven(vs[..i + 1], selected, now)[j];
      } else if j > i {
        assert d[j] == vs[i..][j - i] && e[j] == vs[i + 1..][j - i - 1];
      }
    }
  }

  /** Polling one more slot appends that slot's events. */
  lemma CycleSnoc(vs: seq<SlotValue>, i: int, selected: int, now: u32)
    requires 0 <= i < |vs|
    ensures Cycle(vs[..i + 1], selected, now) ==
              Cycle(vs[..i], selected, now) + Tag(i, Fired(vs[i], SlotLevel(i, selected), now))
  {
    assert vs[..i + 1][..i] == vs[..i];
  }

  /** The log after polling slot `i`, for a log that held `base` before the
      cycle. */
  lemma CycleExtend(base: seq<Event>, vs: seq<SlotValue>, i: int, selected: int, now: u32)
    requires 0 <= i < |vs|
    ensures base + Cycle(vs[..i + 1], selected, now) ==
              (base + Cycle(vs[..i], selected, now)) + Tag(i, Fired(vs[i], SlotLevel(i, selected), now))
  {
    CycleSnoc(vs, i, selected, now);
  }

  /** A drive cycle's events come in slot order and name only real slots. */
  lemma {:induction false} CycleInSlotOrder(vs: seq<SlotValue>, selected: int, now: u32)
    ensures InSlotOrder(Cycle(vs, selected, now))
    ensures forall a :: 0 <= a < |Cycle(vs, selected, now)| ==> 0 <= Cycle(vs, selected, now)[a].button < |vs|
  {
    if vs != [] {
      var k := |vs| - 1;
      var f := Fired(vs[k], SlotLevel(k, selected), now);
      CycleInSlotOrder(vs[..k], selected, now);
      AppendSlotKeepsOrder(Cycle(vs[..k], selected, now), k, f);
    }
  }

  /** The events a drive cycle logs for slot `j` are exactly the callbacks
      slot `j`'s own poll invokes; a number that is not a slot gets none. */
  lemma {:induction false} CycleOf(vs: seq<SlotValue>, selected: int, now: u32, j: int)
    ensures Of(Cycle(vs, selected, now), j) ==
              if 0 <= j < |vs| then Fired(vs[j], SlotLevel(j, selected), now) else []
  {
    if vs != [] {
      var k := |vs| - 1;
      var f := Fired(vs[k], SlotLevel(k, selected), now);
      assert Cycle(vs, selected, now) == Cycle(vs[..k], selected, now) + Tag(k, f);
      CycleOf(vs[..k], selected, now, j);
      OfAppend(Cycle(vs[..k], selected, now), Tag(k, f), j);
      OfTag(k, f, j);
      if 0 <= j < k {
        assert vs[..k][j] == vs[j];
      }
    }
  }

  /** What a drive cycle logs agrees with the slots: the events come in slot
      order, and each slot's own invocation log grows by exactly its events. */
  lemma CycleMatchesSlots(vs: seq<SlotValue>, selected: int, now: u32)
    ensures InSlotOrder(Cycle(vs, selected, now))
    ensures forall j :: 0 <= j < |vs| ==>
              Driven(vs, selected, now)[j].invoked == vs[j].invoked + Of(Cycle(vs, selected, now), j)
  {
    CycleInSlotOrder(vs, selected, now);
    forall j | 0 <= j < |vs|
      ensures Driven(vs, selected, now)[j].invoked == vs[j].invoked + Of(Cycle(vs, selected, now), j)
    {
      CycleOf(vs, selected, now, j);
    }
  }

  /** A drive cycle keeps every slot's runtime settled. */
  lemma DrivenKeepsSettled(vs: seq<SlotValue>, selected: int, now: u32)
    ensures forall j :: 0 <= j < |vs| && Settled(vs[j].runtime) ==>
              Settled(Driven(vs, selected, now)[j].runtime)
  {
    forall j | 0 <= j < |vs| && Settled(vs[j].runtime)
      ensures Settled(Driven(vs, selected, now)[j].runtime)
    {
      StepKeepsSettled(vs[j].runtime, vs[j].settings, SlotLevel(j, selected), now);
    }
  }

  /** A button's state as a value. */
  ghost function ValueOf(b: BfButton): SlotValue
    reads b
  {
    SlotValue(b.Snapshot(), b.Settings(), b.lastLoop, b.invoked)
  }

  /** The body of the drive loop for one button: feed it its raw state, then
      run its state machine. */
  method PollButton(btn: BfButton, level: ButtonState, now: u32)
    modifies btn
    ensures ValueOf(btn) == Polled(old(ValueOf(btn)), level, now)
  {
    var _ := btn.UpdateState(level);
    btn.Loop(now);
  }

  class BfButtonManager {
    const pin: u8
    const buttonCount: u8
    const buttons: array<BfButton?>
    const btnVoltageLowerBounds: array<u16>
    const btnVoltageUpperBounds: array<u16>
    var adcResolution: u16
    var lastLoop: u32
    const loopInterval: u8

    /** Every callback invocation of the managed buttons, in the order the
        drive loops made them. */
    ghost var log: seq<Event>

    /** Three parallel arrays indexed by button id; a filled slot holds the
        button whose id is that index, so distinct slots hold distinct buttons. */
    ghost predicate Valid()
      reads buttons
    {
      && buttons.Length == buttonCount
      && btnVoltageLowerBounds.Length == buttonCount
      && btnVoltageUpperBounds.Length == buttonCount
      && btnVoltageLowerBounds != btnVoltageUpperBounds
      && buttonCount <= MaxButtonCount
      && forall i :: 0 <= i < buttons.Length && buttons[i] != null ==> buttons[i].id == i
    }

    /** Every slot has been given its button. */
    ghost predicate Filled()
      reads buttons
    {
      forall i :: 0 <= i < buttons.Length ==> buttons[i] != null
    }

    /** The buttons the manager drives. */
    ghost function Slots(): set<object>
      reads buttons
    {
      set i | 0 <= i < buttons.Length && buttons[i] != null :: buttons[i] as object
    }

    /** The button the averaged `samples` select under the current bands. */
    ghost function Selected(samples: seq<u16>): int
      reads this`adcResolution, btnVoltageLowerBounds, btnVoltageUpperBounds
      requires btnVoltageLowerBounds.Length == btnVoltageUpperBounds.Length && |samples| == SampleCount
    {
      SelectButton(Average(samples), adcResolution, btnVoltageLowerBounds[..], btnVoltageUpperBounds[..])
    }

    /** Slot `j` as a value. */
    ghost function SlotAt(j: int): SlotValue
      reads buttons, buttons[j]
      requires Valid() && Filled() && 0 <= j < buttons.Length
    {
      ValueOf(buttons[j])
    }

    /** Every slot as a value, by id. */
    ghost function SlotValues(): (vs: seq<SlotValue>)
      reads buttons, Slots()
      requires Valid() && Filled()
      ensures |vs| == buttons.Length
      ensures forall j :: 0 <= j < |vs| ==> vs[j] == SlotAt(j)
    {
      seq(buttons.Length, j requires 0 <= j < buttons.Length && Valid() && Filled() reads buttons, Slots() => SlotAt(j))
    }

    /** One drive cycle for the decoded button `selected` has run: every slot
        has been polled once with its raw state (its callbacks, timeouts and
        own throttle timestamp kept), and the log has grown by the cycle's
        invocations, slot by slot in ascending order (CycleInSlotOrder,
        CycleOf). */
    twostate predicate Cycled(selected: int, now: u32)
      reads this, buttons, Slots()
      requires Valid() && Filled() && old(Valid() && Filled())
    {
      && SlotValues() == Driven(old(SlotValues()), selected, now)
      && log == old(log) + Cycle(old(SlotValues()), selected, now)
    }

    /** No slot has changed and nothing has been logged. */
    twostate predicate Untouched()
      reads this, buttons, Slots()
      requires Valid() && Filled() && old(Valid() && Filled())
    {
      SlotValues() == old(SlotValues()) && log == old(log)
    }

    /** The constructor allocates the three arrays for `btnNum` buttons; the
        slots are empty until AddButton fills them. */
    constructor (pin: u8, btnNum: u8, target: Target)
      requires btnNum <= MaxButtonCount
      ensures Valid() && this.pin == pin && buttonCount == btnNum
      ensures fresh(buttons) && fresh(btnVoltageLowerBounds) && fresh(btnVoltageUpperBounds)
      ensures forall i :: 0 <= i < buttons.Length ==> buttons[i] == null
      ensures adcResolution == DefaultAdcResolution(target)
      ensures lastLoop == 0 && loopInterval == DefaultLoopInterval
      ensures log == []
    {
      this.pin := pin;
      buttonCount := btnNum;
      buttons := new BfButton?[btnNum](_ => null);
      btnVoltageLowerBounds := new u16[btnNum];
      btnVoltageUpperBounds := new u16[btnNum];
      adcResolution := DefaultAdcResolution(target);
      lastLoop := 0;
      loopInterval := DefaultLoopInterval;
      log := [];
    }

    method SetADCResolution(resolution: u16) returns (self: BfButtonManager)
      modifies this`adcResolution
      ensures self == this && adcResolution == resolution
    {
      adcResolution := resolution;
      self := this;
    }

    /** Stores `btn` and its band in the slot of its id; other slots keep
        their buttons and bands. */
    method AddButton(btn: BfButton, minVoltageReading: u16, maxVoltageReading: u16)
      returns (self: BfButtonManager)
      requires Valid() && btn.id < buttonCount
      modifies buttons, btnVoltageLowerBounds, btnVoltageUpperBounds
      ensures self == this && Valid()
      ensures buttons[..] == old(buttons[..])[btn.id := btn]
      ensures btnVoltageLowerBounds[..] == old(btnVoltageLowerBounds[..])[btn.id := minVoltageReading]
      ensures btnVoltageUpperBounds[..] == old(btnVoltageUpperBounds[..])[btn.id := maxVoltageReading]
    {
      var b := btn.id;
      buttons[b] := btn;
      btnVoltageLowerBounds[b] := minVoltageReading;
      btnVoltageUpperBounds[b] := maxVoltageReading;
      self := this;
    }

    method GetButton(id: u8) returns (btn: BfButton)
      requires Valid() && id < buttonCount && buttons[id] != null
      ensures btn == buttons[id] && btn.id == id
    {
      btn := buttons[id];
    }

    /** The self-throttled poll: when due, record the time and drive every
        slot from the four `samples` of the analog line. */
    method Loop(now: u32, samples: seq<u16>)
      requires Valid() && Filled() && |samples| == SampleCount
      modifies this`lastLoop, this`log, Slots()
      ensures Valid() && Filled()
      ensures !Due(now, old(lastLoop), loopInterval) ==> lastLoop == old(lastLoop) && Untouched()
      ensures Due(now, old(lastLoop), loopInterval) ==> lastLoop == now && Cycled(Selected(samples), now)
      ensures forall j :: 0 <= j < buttons.Length && Settled(old(SlotValues())[j].runtime) ==>
                Settled(SlotValues()[j].runtime)
    {
      if Elapsed(now, lastLoop) >= loopInterval {
        lastLoop := now;
        label Polled:
        UpdateButtonState(now, samples);
        assert old@Polled(SlotValues()) == old(SlotValues()) && old@Polled(log) == old(log);
        DrivenKeepsSettled(old(SlotValues()), Selected(samples), now);
      }
    }

    /** Decode the line, then run one poll on every slot in ascending order:
        the selected slot is fed PRESSING, all others IDLE. */
    method UpdateButtonState(now: u32, samples: seq<u16>)
      requires Valid() && Filled() && |samples| == SampleCount
      modifies this`log, Slots()
      ensures Cycled(Selected(samples), now)
    {
      ghost var before, logged := SlotValues(), log;
      var b := ReadButton(samples);
      assert SlotValues() == before && log == logged;
      DriveSlots(b, now);
      assert Selected(samples) == b;
    }

    /** The for loop of _updateButtonState over the slots, for the decoded
        button `selected`. */
    method DriveSlots(selected: int, now: u32)
      requires Valid() && Filled()
      modifies this`log, Slots()
      ensures SlotValues() == Driven(old(SlotValues()), selected, now)
      ensures log == old(log) + Cycle(old(SlotValues()), selected, now)
    {
      ghost var init := SlotValues();
      DrivenUpToEnds(init, selected, now);
      assert init[..0] == [] && log == old(log) + [];
      var i := 0;
      while i < buttonCount
        invariant 0 <= i <= buttonCount
        invariant SlotValues() == DrivenUpTo(init, selected, now, i)
        invariant log == old(log) + Cycle(init[..i], selected, now)
      {
        DrivenStep(init, selected, now, i);
        CycleExtend(old(log), init, i, selected, now);
        PollSlot(i, selected, now, DrivenUpTo(init, selected, now, i));
        i := i + 1;
      }
      assert init[..i] == init;
    }

    /** One iteration of the drive loop: feed slot `i` its raw state, then run
        its state machine. Of the slots `cur`, only slot `i` changes, and its
        invocations go to the log under its id. */
    method PollSlot(i: int, selected: int, now: u32, ghost cur: seq<SlotValue>)
      requires Valid() && Filled() && 0 <= i < buttons.Length && SlotValues() == cur
      modifies this`log, Slots()
      ensures SlotValues() == cur[i := Polled(cur[i], SlotLevel(i, selected), now)]
      ensures log == old(log) + Tag(i, Fired(cur[i], SlotLevel(i, selected), now))
    {
      var btn := buttons[i];
      ghost var seen := |btn.invoked|;
      if i == selected {
        PollButton(btn, Pressing, now);
      } else {
        PollButton(btn, Idle, now);
      }
      assert btn.invoked[seen..] == Fired(cur[i], SlotLevel(i, selected), now);
      forall j | 0 <= j < buttons.Length && j != i
        ensures SlotAt(j) == cur[j]
      {
        assert buttons[j].id != buttons[i].id;
        assert old(SlotAt(j)) == cur[j];
      }
      assert SlotValues() == cur[i := Polled(cur[i], SlotLevel(i, selected), now)];
      log := log + Tag(i, btn.invoked[seen..]);
    }

    /** Average four samples of the line, then return the first button whose
        band contains the average, or -1. */
    method ReadButton(samples: seq<u16>) returns (button: int)
      requires Valid() && |samples| == SampleCount
      ensures button == Selected(samples)
    {
      button := -1;
      var sum: int := 0;
      for i := 0 to 4
        invariant sum == Sum(samples[..i])
      {
        assert samples[..i + 1][..i] == samples[..i];
        sum := sum + samples[i];
      }
      assert samples[..4] == samples;
      var z := sum / 4;

      if z >= 100 || z < adcResolution {
        var b := 0;
        while b < buttonCount
          invariant 0 <= b <= buttonCount
          invariant forall j :: 0 <= j < b ==> !InBand(z, btnVoltageLowerBounds[j], btnVoltageUpperBounds[j])
        {
          if z > btnVoltageLowerBounds[b] && z < btnVoltageUpperBounds[b] {
            button := b;
            break;
          }
          b := b + 1;
        }
      }
    }
  }

  /** Two manager polls less than one interval apart: when the first is
      serviced, the second changes no slot and logs nothing, so the pair
      leaves the slots and the log exactly as the first poll did. (When the
      first is not due, the second may still be.) */
  method LoopTwiceWithinInterval(m: BfButtonManager, t1: u32, t2: u32, s1: seq<u16>, s2: seq<u16>)
    requires m.Valid() && m.Filled() && |s1| == SampleCount && |s2| == SampleCount
    requires Elapsed(t2, t1) < m.loopInterval
    modifies m`lastLoop, m`log, m.Slots()
    ensures Due(t1, old(m.lastLoop), m.loopInterval) ==> m.lastLoop == t1 && m.Cycled(m.Selected(s1), t1)
  {
    m.Loop(t1, s1);
    label Mid:
    m.Loop(t2, s2);
    if Due(t1, old(m.lastLoop), m.loopInterval) {
      assert !Due(t2, t1, m.loopInterval);
      assert m.Untouched@Mid();
      assert m.Selected(s1) == old@Mid(m.Selected(s1));
    }
  }
}
