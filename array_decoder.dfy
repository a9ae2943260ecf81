/**
 * The analog button array's decoding, as pure functions: four ADC samples
 * are averaged with truncating division, and the average selects the first
 * button whose open voltage band contains it. The class BfButtonManager
 * (module Manager) is proved to follow these functions.
 */
module ArrayDecoder {
  import opened Timing
  import opened PressClassifier

  /** BfButtonManager::_readButton samples the analog line this many times. */
  const SampleCount: nat := 4

  /** Below this average the pre-filter may skip the band scan. */
  const GateFloor: int := 100

  /** The board the library is compiled for decides the default ADC
      resolution (`#if defined(ESP32)`). */
  datatype Target = Esp32 | OtherBoard

  function DefaultAdcResolution(target: Target): u16
  {
    if target == Esp32 then 4096 else 1024
  }

  /** The running sum of the samples, accumulated left to right. */
  function Sum(samples: seq<u16>): nat
  {
    if samples == [] then 0 else Sum(samples[..|samples| - 1]) + samples[|samples| - 1]
  }

  /** The truncated average of the four samples: the largest `z` whose four
      copies do not exceed the sum. */
  function Average(samples: seq<u16>): (z: int)
    requires |samples| == SampleCount
    ensures 4 * z <= Sum(samples) < 4 * z + 4
  {
    Sum(samples) / 4
  }

  /** A button's band is open at both ends. */
  predicate InBand(z: int, lower: u16, upper: u16)
  {
    lower < z < upper
  }

  /** The pre-filter in front of the band scan, as the source writes it. */
  predicate GateOpen(z: int, resolution: u16)
  {
    z >= GateFloor || z < resolution
  }

  /** The first band, at index `from` or later, that contains `z`; -1 if none. */
  function FirstBandFrom(z: int, lower: seq<u16>, upper: seq<u16>, from: nat): (b: int)
    requires |lower| == |upper| && from <= |lower|
    ensures b == -1 || from <= b < |lower|
    ensures b != -1 ==> InBand(z, lower[b], upper[b])
    ensures b != -1 ==> forall j :: from <= j < b ==> !InBand(z, lower[j], upper[j])
    ensures b == -1 ==> forall j :: from <= j < |lower| ==> !InBand(z, lower[j], upper[j])
    decreases |lower| - from
  {
    if from == |lower| then -1
    else if InBand(z, lower[from], upper[from]) then from
    else FirstBandFrom(z, lower, upper, from + 1)
  }

  /** The button the averaged reading `z` selects, or -1 for "no button". */
  function SelectButton(z: int, resolution: u16, lower: seq<u16>, upper: seq<u16>): (b: int)
    requires |lower| == |upper|
    ensures -1 <= b < |lower|
    ensures b != -1 ==> GateOpen(z, resolution) && InBand(z, lower[b], upper[b])
    ensures b != -1 ==> forall j :: 0 <= j < b ==> !InBand(z, lower[j], upper[j])
    ensures b == -1 <==> !GateOpen(z, resolution) || forall j :: 0 <= j < |lower| ==> !InBand(z, lower[j], upper[j])
  {
    if GateOpen(z, resolution) then FirstBandFrom(z, lower, upper, 0) else -1
  }

  /** The raw state the manager feeds slot `i` when button `selected` is
      pressed (-1: none is). */
  function SlotLevel(i: int, selected: int): ButtonState
  {
    if i == selected then Pressing else Idle
  }

  /** With the default resolutions (or any of at least 100) the pre-filter
      lets every reading through: the band scan alone decides. */
  lemma GateOpenFromResolution100(z: int, resolution: u16)
    requires resolution >= GateFloor
    ensures GateOpen(z, resolution)
  {
  }

  /** When bands overlap, the lowest matching index wins. */
  lemma OverlapLowestIndexWins(z: int, resolution: u16, lower: seq<u16>, upper: seq<u16>, i: nat, j: nat)
    requires |lower| == |upper| && i < j < |lower|
    requires GateOpen(z, resolution)
    requires InBand(z, lower[i], upper[i]) && InBand(z, lower[j], upper[j])
    ensures 0 <= SelectButton(z, resolution, lower, upper) <= i
  {
  }

  /** A reading inside exactly one band selects that button. */
  lemma SoleBandSelected(z: int, resolution: u16, lower: seq<u16>, upper: seq<u16>, k: nat)
    requires |lower| == |upper| && k < |lower|
    requires GateOpen(z, resolution) && InBand(z, lower[k], upper[k])
    requires forall j :: 0 <= j < |lower| && j != k ==> !InBand(z, lower[j], upper[j])
    ensures SelectButton(z, resolution, lower, upper) == k
  {
  }

  /** In one cycle exactly the selected slot is fed PRESSING: the set of
      pressing slots is the selected one, or empty when no button is. */
  lemma {:induction false} OnlySelectedSlotPressing(n: nat, selected: int)
    requires -1 <= selected < n
    ensures (set i | 0 <= i < n && SlotLevel(i, selected) == Pressing) == (if selected == -1 then {} else {selected})
    ensures |set i | 0 <= i < n && SlotLevel(i, selected) == Pressing| == (if selected == -1 then 0 else 1)
  {
    var pressing := set i | 0 <= i < n && SlotLevel(i, selected) == Pressing;
    if selected == -1 {
      assert pressing == {};
    } else {
      assert selected in pressing;
      assert pressing == {selected};
    }
  }
}
