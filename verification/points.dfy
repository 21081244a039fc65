/**
 The points of the water surface and their creation.

 A `SurfacePoint` carries a stable index `id`, a fixed horizontal position `x`,
 its vertical displacement `y`, its vertical `speed` and the staged next
 displacement `newY` that a step computes before any `y` is overwritten.
 */
module Points {
  import opened Chain
  import ChainLemmas

  /** The constants of the animation: 99 points, 5 units apart, springs of
      stiffness 1/1000, and a disturbance of 5 on the middle point. */
  const NumberOfPoints: int := 99
  const DistanceBetweenPoints: real := 5.0
  const SpringK: real := 0.001
  const Disturbance: real := 5.0

  datatype SurfacePoint = SurfacePoint(id: int, x: real, y: real, speed: real, newY: real)

  /** A fresh point: displaced by `y`, not moving, nothing staged. */
  function NewPoint(id: int, x: real, y: real): SurfacePoint {
    SurfacePoint(id, x, y, 0.0, 0.0)
  }

  /** Why a chain could not be created: the middle point to be disturbed does
      not exist because the chain has no points. */
  datatype InitError = NoMiddlePoint

  datatype Result<T> = Ok(value: T) | Err(error: InitError)

  /** The displacements and speeds of a chain of points, in chain order. */
  function StateOf(pts: seq<SurfacePoint>): (s: State)
    ensures s.Valid() && |s.ys| == |pts|
    ensures forall i :: 0 <= i < |pts| ==> s.ys[i] == pts[i].y && s.speeds[i] == pts[i].speed
  {
    State(seq(|pts|, i requires 0 <= i < |pts| => pts[i].y),
          seq(|pts|, i requires 0 <= i < |pts| => pts[i].speed))
  }

  /** The chain as created for `n` points `spacing` apart: point `i` has id `i`,
      sits at `spacing * (i + 1)`, does not move and rests at 0, except the
      middle point `n / 2` (rounded down), which is lifted by the disturbance. */
  predicate IsInitialChain(pts: seq<SurfacePoint>, n: int, spacing: real) {
    && |pts| == n
    && forall i :: 0 <= i < |pts| ==>
         pts[i] == NewPoint(i, spacing * (i + 1) as real, if i == n / 2 then Disturbance else 0.0)
  }

  /** Creates `n` points one after the other, then disturbs the middle one.
      With no points there is no middle point to disturb and creation fails. */
  method Initialize(n: int, spacing: real) returns (r: Result<seq<SurfacePoint>>)
    ensures r.Ok? <==> n >= 1
    ensures r.Ok? ==> IsInitialChain(r.value, n, spacing)
  {
    var pts: seq<SurfacePoint> := [];
    var i := 0;
    while i < n
      invariant 0 <= i && (n >= 0 ==> i <= n)
      invariant |pts| == i
      invariant forall j :: 0 <= j < i ==> pts[j] == NewPoint(j, spacing * (j + 1) as real, 0.0)
      decreases n - i
    {
      pts := pts + [NewPoint(i, spacing * (i + 1) as real, 0.0)];
      i := i + 1;
    }
    var middle := n / 2;
    if !(0 <= middle < |pts|) {
      return Err(NoMiddlePoint);
    }
    pts := pts[middle := pts[middle].(y := Disturbance)];
    return Ok(pts);
  }

  /** The chain's points are laid out left to right, `spacing` apart. */
  lemma InitialChainIsEvenlySpaced(pts: seq<SurfacePoint>, n: int, spacing: real)
    requires IsInitialChain(pts, n, spacing) && spacing > 0.0
    ensures forall i :: 0 < i < |pts| ==> pts[i].x == pts[i - 1].x + spacing
    ensures forall i, j :: 0 <= i < j < |pts| ==> pts[i].x < pts[j].x
  {
    forall i, j | 0 <= i < j < |pts|
      ensures pts[i].x < pts[j].x
    {
      assert pts[i].x == spacing * (i + 1) as real;
      assert pts[j].x == spacing * (j + 1) as real;
      assert (i + 1) as real < (j + 1) as real;
    }
  }

  /** The created chain is still and displaced only at its middle point. */
  lemma InitialChainIsSingleDisturbance(pts: seq<SurfacePoint>, n: int, spacing: real)
    requires IsInitialChain(pts, n, spacing) && n >= 1
    ensures SingleDisturbance(StateOf(pts), n / 2)
    ensures StateOf(pts).ys[n / 2] == Disturbance
  {
    var s := StateOf(pts);
    assert pts[n / 2].y == Disturbance;
    forall i | 0 <= i < |s.ys| && i != n / 2
      ensures s.ys[i] == 0.0
    {
      assert pts[i].y == 0.0;
    }
    forall i | 0 <= i < |s.speeds|
      ensures s.speeds[i] == 0.0
    {
      assert pts[i].speed == 0.0;
    }
  }

  /** With an odd number of points the middle point is the centre of the
      chain, so the created chain is mirror-symmetric. */
  lemma InitialChainIsSymmetric(pts: seq<SurfacePoint>, n: int, spacing: real)
    requires IsInitialChain(pts, n, spacing) && n % 2 == 1
    ensures Symmetric(StateOf(pts))
  {
    var s := StateOf(pts);
    forall i | 0 <= i < n
      ensures s.ys[i] == s.ys[n - 1 - i] && s.speeds[i] == s.speeds[n - 1 - i]
    {
      assert (i == n / 2) <==> (n - 1 - i == n / 2);
      assert pts[i].y == if i == n / 2 then Disturbance else 0.0;
      assert pts[n - 1 - i].y == if n - 1 - i == n / 2 then Disturbance else 0.0;
    }
  }

  /** The first frame of the animation steps the created chain with `dt = 0`,
      which leaves every displacement and speed as created. */
  lemma FirstFrameIsNoOp(pts: seq<SurfacePoint>, n: int, spacing: real, k: real)
    requires IsInitialChain(pts, n, spacing)
    ensures Next(StateOf(pts), k, 0.0) == StateOf(pts)
  {
    var s := StateOf(pts);
    forall i | 0 <= i < |s.speeds|
      ensures s.speeds[i] == 0.0
    {
      assert pts[i].speed == 0.0;
    }
    ChainLemmas.ZeroTimeStepFromStill(s, k);
  }

  /** With an odd number of points the surface stays mirror-symmetric about
      its middle point for as many frames as are stepped, whatever their
      durations. */
  lemma InitialChainStaysSymmetric(pts: seq<SurfacePoint>, n: int, spacing: real, k: real, dts: seq<real>)
    requires IsInitialChain(pts, n, spacing) && n % 2 == 1
    ensures Symmetric(Run(StateOf(pts), k, dts))
  {
    InitialChainIsSymmetric(pts, n, spacing);
    ChainLemmas.RunPreservesSymmetry(StateOf(pts), k, dts);
  }

  /** The program's own surface: 99 points, so the disturbed point 49 is the
      centre and the surface stays mirror-symmetric frame after frame. */
  lemma AppSurfaceStaysSymmetric(pts: seq<SurfacePoint>, dts: seq<real>)
    requires IsInitialChain(pts, NumberOfPoints, DistanceBetweenPoints)
    ensures StateOf(pts).ys[49] == Disturbance
    ensures Symmetric(Run(StateOf(pts), SpringK, dts))
  {
    InitialChainIsSingleDisturbance(pts, NumberOfPoints, DistanceBetweenPoints);
    InitialChainStaysSymmetric(pts, NumberOfPoints, DistanceBetweenPoints, SpringK, dts);
  }
}
