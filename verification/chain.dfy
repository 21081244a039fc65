/**
 The spring law of the water surface, as pure functions over the whole chain.

 A state of the chain is the sequence of vertical displacements `ys` together
 with the sequence of `speeds`, one entry per point, in chain order. `Next` is
 the reference definition of one call of `step(dt)`: every new speed is computed
 from the displacements as they were BEFORE the step, and every new displacement
 is the old one plus the new speed.
 */
module Chain {

  /** Displacements and speeds of the chain, index by index. */
  datatype State = State(ys: seq<real>, speeds: seq<real>) {
    predicate Valid() {
      |ys| == |speeds|
    }
  }

  /** Distance from point `i` to its left neighbour. The first point has no
      left neighbour and is compared against a virtual neighbour resting at
      displacement 0, so the distance is its own displacement. */
  function LeftDist(ys: seq<real>, i: nat): real
    requires i < |ys|
  {
    if i > 0 then ys[i] - ys[i - 1] else ys[i]
  }

  /** Distance from point `i` to its right neighbour, with the same virtual
      resting neighbour beyond the last point. */
  function RightDist(ys: seq<real>, i: nat): real
    requires i < |ys|
  {
    if i < |ys| - 1 then ys[i] - ys[i + 1] else ys[i]
  }

  /** Speed of point `i` after one step of length `dt` with spring constant `k`. */
  function NextSpeed(s: State, k: real, dt: real, i: nat): real
    requires s.Valid() && i < |s.ys|
  {
    s.speeds[i] - k * (LeftDist(s.ys, i) + RightDist(s.ys, i)) * dt
  }

  /** One step of the whole chain. The displacement advances by the new speed
      itself, not by the speed scaled by `dt`. */
  function Next(s: State, k: real, dt: real): (r: State)
    requires s.Valid()
    ensures r.Valid() && |r.ys| == |s.ys|
  {
    var speeds := seq(|s.ys|, i requires 0 <= i < |s.ys| => NextSpeed(s, k, dt, i));
    State(seq(|s.ys|, i requires 0 <= i < |s.ys| => s.ys[i] + speeds[i]), speeds)
  }

  /** The state after one step per entry of `dts`, taken in order. */
  function Run(s: State, k: real, dts: seq<real>): (r: State)
    requires s.Valid()
    ensures r.Valid() && |r.ys| == |s.ys|
    decreases |dts|
  {
    if |dts| == 0 then s
    else Next(Run(s, k, dts[..|dts| - 1]), k, dts[|dts| - 1])
  }

  /** Every point is at rest: zero displacement and zero speed. */
  predicate AtRest(s: State) {
    && s.Valid()
    && (forall i :: 0 <= i < |s.ys| ==> s.ys[i] == 0.0)
    && (forall i :: 0 <= i < |s.speeds| ==> s.speeds[i] == 0.0)
  }

  /** No point is moving. */
  predicate Still(s: State) {
    s.Valid() && forall i :: 0 <= i < |s.speeds| ==> s.speeds[i] == 0.0
  }

  /** The chain is still and only point `c` is displaced (if at all). */
  predicate SingleDisturbance(s: State, c: nat) {
    && Still(s)
    && c < |s.ys|
    && forall i :: 0 <= i < |s.ys| && i != c ==> s.ys[i] == 0.0
  }

  /** The sequence reads the same from both ends. */
  predicate Mirror(xs: seq<real>) {
    forall i :: 0 <= i < |xs| ==> xs[i] == xs[|xs| - 1 - i]
  }

  /** Displacements and speeds are both mirror-symmetric about the centre. */
  predicate Symmetric(s: State) {
    s.Valid() && Mirror(s.ys) && Mirror(s.speeds)
  }
}
