/** Build-time constants of the engine (server.js, "Parameters"). */
module Params {
  /** Number of neurons (n). */
  const N: nat := 50
  /** Vision, sound and text feature widths (d_v, d_s, d_t). */
  const DV: nat := 5
  const DS: nat := 3
  const DT: nat := 10
  /** Width of the full sensory vector (d = d_v + d_s + d_t). */
  const D: nat := DV + DS + DT
  /** Number of vocabulary slots (v). */
  const VocabSize: nat := 100
  /** Number of movement actions (a): up, down, left, right. */
  const Actions: nat := 4

  /** Learning rate (eta) and discount factor (gamma). */
  const Eta: real := 0.01
  const Gamma: real := 0.9
  /** Pruning period (T): pruning runs when the input counter is a multiple of it. */
  const PrunePeriod: nat := 100
  /** Per-matrix pruning thresholds. */
  const ThetaW: real := 0.01
  const ThetaV: real := 0.01
  const ThetaM: real := 0.01
  const ThetaQ: real := 0.01
  /** Emotion step (delta_e). */
  const DeltaE: real := 0.05
  /** Side of the square arena. */
  const BoxSize: real := 200.0
}
