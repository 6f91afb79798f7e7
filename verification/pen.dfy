/** The pen-event normaliser (oim.h:281-295, repeated in tablet-osc.c:163-177):
    an evdev record from the tablet pen updates the sample-and-hold pen
    position and pressure of the input snapshot. Reals stand in exactly for
    the engine's single-precision divisions. */
module Pen {

  /** Event type and axis codes of the Linux input subsystem. */
  const EvAbs: int := 0x03
  const AbsX: int := 0x00
  const AbsY: int := 0x01
  const AbsPressure: int := 0x18
  const AbsDistance: int := 0x19

  /** Raw axis maxima of the tablet. */
  const XMax: nat := 14720
  const YMax: nat := 9200
  const PressureMax: nat := 1023

  /** One evdev record: event type, event code and a signed value. */
  datatype InputEvent = InputEvent(kind: int, code: int, value: int)

  /** The pen part of the input snapshot. */
  datatype PenState = PenState(x: real, y: real, pressure: real)

  /** A raw axis value rescaled so that 0 maps to 0 and `max` to 1. */
  function Normalise(v: int, max: nat): (r: real)
    requires max > 0
    ensures r * max as real == v as real
    ensures v == 0 ==> r == 0.0
    ensures v == max ==> r == 1.0
    ensures 0 <= v <= max ==> 0.0 <= r <= 1.0
  {
    v as real / max as real
  }

  /** Is `ev` an absolute-axis sample for axis `code`? */
  predicate IsAxis(ev: InputEvent, code: int)
  {
    ev.kind == EvAbs && ev.code == code
  }

  /** The snapshot after one pen record: the addressed axis takes the
      normalised value, every other field keeps its value. */
  function ApplyPenEvent(s: PenState, ev: InputEvent): (r: PenState)
    ensures IsAxis(ev, AbsX) ==> r == s.(x := Normalise(ev.value, XMax))
    ensures IsAxis(ev, AbsY) ==> r == s.(y := Normalise(ev.value, YMax))
    ensures IsAxis(ev, AbsPressure) ==> r == s.(pressure := Normalise(ev.value, PressureMax))
    ensures !IsAxis(ev, AbsX) && !IsAxis(ev, AbsY) && !IsAxis(ev, AbsPressure) ==> r == s
  {
    if ev.kind == EvAbs then
      if ev.code == AbsX then s.(x := ev.value as real / 14720.0)
      else if ev.code == AbsY then s.(y := ev.value as real / 9200.0)
      else if ev.code == AbsPressure then s.(pressure := ev.value as real / 1023.0)
      else if ev.code == AbsDistance then s
      else s
    else s
  }

  /** Each axis mapping is monotone. */
  lemma NormaliseMonotone(a: int, b: int, max: nat)
    requires max > 0 && a <= b
    ensures Normalise(a, max) <= Normalise(b, max)
  {
    assert Normalise(b, max) - Normalise(a, max) == (b - a) as real / max as real;
  }

  /** Half the raw X range is half the normalised width. */
  lemma HalfWidth(s: PenState)
    ensures ApplyPenEvent(s, InputEvent(EvAbs, AbsX, 7360)).x == 0.5
  {
  }

  /** Sample and hold: a later sample of an axis replaces an earlier one,
      so replaying the same record changes nothing more. */
  lemma LastSampleWins(s: PenState, a: InputEvent, b: InputEvent)
    requires a.kind == b.kind && a.code == b.code
    ensures ApplyPenEvent(ApplyPenEvent(s, a), b) == ApplyPenEvent(s, b)
  {
  }

  /** Samples of different axes do not interfere: their order is irrelevant. */
  lemma AxesCommute(s: PenState, a: InputEvent, b: InputEvent)
    requires a.code != b.code
    ensures ApplyPenEvent(ApplyPenEvent(s, a), b) == ApplyPenEvent(ApplyPenEvent(s, b), a)
  {
  }

  /** Raw values inside the device ranges give a snapshot inside the unit cube. */
  lemma StaysInUnitRange(s: PenState, ev: InputEvent)
    requires 0.0 <= s.x <= 1.0 && 0.0 <= s.y <= 1.0 && 0.0 <= s.pressure <= 1.0
    requires IsAxis(ev, AbsX) ==> 0 <= ev.value <= XMax
    requires IsAxis(ev, AbsY) ==> 0 <= ev.value <= YMax
    requires IsAxis(ev, AbsPressure) ==> 0 <= ev.value <= PressureMax
    ensures var r := ApplyPenEvent(s, ev);
            0.0 <= r.x <= 1.0 && 0.0 <= r.y <= 1.0 && 0.0 <= r.pressure <= 1.0
  {
  }
}
