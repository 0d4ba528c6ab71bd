/** The mood vector (happiness, sadness, frustration), driven by one interaction signal. */
module Emotion {
  import opened Params

  /** The interaction signal: +1 on touch; otherwise +1 when more than half of the text
      bits are set, -1 when fewer than a fifth are, 0 in between. */
  function Interaction(sumText: int, touch: bool): (f: int)
    ensures -1 <= f <= 1
  {
    if touch then 1
    else if sumText as real > 0.5 * DT as real then 1
    else if sumText as real < 0.2 * DT as real then -1
    else 0
  }

  /** The signal in integer terms: +1 iff touch or more than 5 bits, -1 iff no touch and
      fewer than 2 bits, 0 iff no touch and 2 to 5 bits. */
  lemma InteractionCases(sumText: int, touch: bool)
    ensures Interaction(sumText, touch) == 1 <==> touch || sumText > 5
    ensures Interaction(sumText, touch) == -1 <==> !touch && sumText < 2
    ensures Interaction(sumText, touch) == 0 <==> !touch && 2 <= sumText <= 5
  {
  }

  /** Math.max(0, Math.min(1, e)). */
  function Clamp01(e: real): (r: real)
    ensures 0.0 <= r <= 1.0
    ensures 0.0 <= e <= 1.0 ==> r == e
    ensures e < 0.0 ==> r == 0.0
    ensures e > 1.0 ==> r == 1.0
  {
    var lo := if 1.0 <= e then 1.0 else e;
    if 0.0 >= lo then 0.0 else lo
  }

  predicate InUnit(e: seq<real>) {
    forall j :: 0 <= j < |e| ==> 0.0 <= e[j] <= 1.0
  }

  /** updateEmotions' map: every component moves by delta_e * f and is clamped to [0,1]. */
  function ShiftEmotions(e: seq<real>, f: int): (r: seq<real>)
    ensures |r| == |e|
    ensures InUnit(r)
  {
    seq(|e|, j requires 0 <= j < |e| => Clamp01(e[j] + DeltaE * f as real))
  }

  /** All components move together: in the direction of f, by exactly delta_e * f when
      that stays inside [0,1], equal components stay equal, and f = 0 changes nothing. */
  lemma ShiftEmotionsLockstep(e: seq<real>, f: int)
    requires InUnit(e) && -1 <= f <= 1
    ensures f > 0 ==> forall j :: 0 <= j < |e| ==> e[j] <= ShiftEmotions(e, f)[j]
    ensures f < 0 ==> forall j :: 0 <= j < |e| ==> ShiftEmotions(e, f)[j] <= e[j]
    ensures f == 0 ==> ShiftEmotions(e, f) == e
    ensures forall j :: 0 <= j < |e| && 0.0 <= e[j] + DeltaE * f as real <= 1.0 ==>
      ShiftEmotions(e, f)[j] == e[j] + DeltaE * f as real
    ensures forall j, k :: 0 <= j < |e| && 0 <= k < |e| && e[j] == e[k] ==>
      ShiftEmotions(e, f)[j] == ShiftEmotions(e, f)[k]
  {
  }

  /** A tick feeds all-zero text bits: without touch that always makes the agent sadder
      (signal -1). */
  lemma IdleTickSignal()
    ensures Interaction(0, false) == -1
    ensures Interaction(0, true) == 1
  {
  }
}
